/** The part of the database the lookup route writes: the `representatives`
    table and the `user_reps` link table, with the find-or-insert/update and
    link-upsert step the route performs for each representative it found.
    Row ids are serial: the row at index `i` has id `i + 1`, so an id is
    never 0 and the route's `if (repId)` test always passes once an id is
    known. */
module RepStore {
  import opened JsValues
  import opened Representatives

  /** The primary key of `user_reps`. */
  datatype LinkKey = LinkKey(user: string, repId: nat)

  /** The representatives table (row `i` has id `i + 1`) and the link table,
      each link mapped to its `is_primary` flag. */
  datatype Db = Db(rows: seq<Rep>, links: map<LinkKey, bool>)

  /** An entry of `savedReps`: the representative with the id it was saved under. */
  datatype Saved = Saved(rep: Rep, id: nat)

  // ------------------------------------------------------------ matching

  /** The representative carries a bioguide id, so it is looked up by it. */
  predicate BioKeyed(q: Rep) {
    Truthy(q.bioguideId)
  }

  predicate SameComposite(a: Rep, b: Rep) {
    a.name == b.name && a.state == b.state && a.role == b.role
  }

  /** The row satisfies the `eq` filters the route builds for `q`: the
      bioguide id when `q` has one, else name, state and role. */
  predicate Matches(row: Rep, q: Rep) {
    if BioKeyed(q) then row.bioguideId == q.bioguideId else SameComposite(row, q)
  }

  /** At most one row matches `q`. */
  predicate AtMostOne(rows: seq<Rep>, q: Rep) {
    forall i, j :: 0 <= i < |rows| && 0 <= j < |rows| && Matches(rows[i], q) && Matches(rows[j], q) ==> i == j
  }

  predicate NoMatch(rows: seq<Rep>, q: Rep) {
    forall i :: 0 <= i < |rows| ==> !Matches(rows[i], q)
  }

  predicate TwoMatches(rows: seq<Rep>, q: Rep) {
    exists i, j :: 0 <= i < j < |rows| && Matches(rows[i], q) && Matches(rows[j], q)
  }

  /** What a scan of the table has seen so far: no match, one match at an
      index, or several matches. */
  datatype Found = NoneFound | OneFound(index: nat) | ManyFound

  /** The result of scanning `rows` for rows matching `q`. */
  function Search(rows: seq<Rep>, q: Rep): Found
    decreases |rows|
  {
    if rows == [] then NoneFound
    else
      var prior := Search(rows[..|rows| - 1], q);
      if !Matches(rows[|rows| - 1], q) then prior
      else if prior.NoneFound? then OneFound(|rows| - 1)
      else ManyFound
  }

  /** The scan's verdict agrees with the rows that match. */
  lemma {:induction false} SearchFacts(rows: seq<Rep>, q: Rep)
    ensures Search(rows, q).NoneFound? <==> NoMatch(rows, q)
    ensures Search(rows, q).OneFound? ==>
      Search(rows, q).index < |rows| && Matches(rows[Search(rows, q).index], q) && AtMostOne(rows, q)
    ensures Search(rows, q).ManyFound? ==> TwoMatches(rows, q)
    decreases |rows|
  {
    if rows != [] {
      var n := |rows| - 1;
      var front := rows[..n];
      assert forall i :: 0 <= i < n ==> rows[i] == front[i];
      SearchFacts(front, q);
      var prior := Search(front, q);
      if Matches(rows[n], q) {
        if prior.OneFound? {
          assert Matches(rows[prior.index], q);
        } else if prior.ManyFound? {
          var i, j :| 0 <= i < j < n && Matches(front[i], q) && Matches(front[j], q);
          assert Matches(rows[i], q) && Matches(rows[j], q);
        }
      } else if prior.ManyFound? {
        var i, j :| 0 <= i < j < n && Matches(front[i], q) && Matches(front[j], q);
        assert Matches(rows[i], q) && Matches(rows[j], q);
      }
    }
  }

  /** `maybeSingle()` on the match query: the id of the only matching row;
      none when no row matches, and none (an error, which the route ignores)
      when several do. */
  function Lookup(rows: seq<Rep>, q: Rep): (r: Option<nat>)
    ensures r.Some? ==> 1 <= r.value <= |rows| && Matches(rows[r.value - 1], q) && AtMostOne(rows, q)
    ensures r.None? <==> NoMatch(rows, q) || TwoMatches(rows, q)
  {
    SearchFacts(rows, q);
    match Search(rows, q)
    case OneFound(i) => Some(i + 1)
    case _ => None
  }

  /** With exactly one matching row, `Lookup` finds its id. */
  lemma LookupUnique(rows: seq<Rep>, q: Rep, i: nat)
    requires i < |rows| && Matches(rows[i], q) && AtMostOne(rows, q)
    ensures Lookup(rows, q) == Some(i + 1)
  {
  }

  /** With at most one match, a failed lookup means no row matches. */
  lemma LookupNone(rows: seq<Rep>, q: Rep)
    requires AtMostOne(rows, q) && Lookup(rows, q).None?
    ensures NoMatch(rows, q)
  {
  }

  /** `Lookup` depends only on which rows match. */
  lemma LookupSamePattern(rows1: seq<Rep>, rows2: seq<Rep>, q: Rep)
    requires |rows1| == |rows2|
    requires forall i :: 0 <= i < |rows1| ==> (Matches(rows1[i], q) <==> Matches(rows2[i], q))
    ensures Lookup(rows1, q) == Lookup(rows2, q)
  {
    assert NoMatch(rows1, q) <==> NoMatch(rows2, q);
    assert TwoMatches(rows1, q) ==> TwoMatches(rows2, q);
    assert TwoMatches(rows2, q) ==> TwoMatches(rows1, q);
    var r1, r2 := Lookup(rows1, q), Lookup(rows2, q);
    if r1.Some? && r2.Some? {
      assert Matches(rows2[r1.value - 1], q);
    }
  }

  // ------------------------------------------------------------- writing

  /** The value a column receives on insert: an absent property is null. */
  function Column(v: Val): (r: Val)
    ensures r != Undefined
    ensures v != Undefined ==> r == v
  {
    if v.Undefined? then Null else v
  }

  /** The row `insert(rep)` creates. */
  function Stored(rep: Rep): (r: Rep)
    ensures SameComposite(r, rep) && r.level == rep.level
    ensures Truthy(r.bioguideId) <==> BioKeyed(rep)
    ensures BioKeyed(rep) ==> r.bioguideId == rep.bioguideId
    ensures Matches(r, rep)
  {
    rep.(party := Column(rep.party), district := Column(rep.district), photoUrl := Column(rep.photoUrl),
         bioguideId := Column(rep.bioguideId), phone := Column(rep.phone), email := Column(rep.email),
         website := Column(rep.website))
  }

  /** The new value of a column on `update(rep)`: an absent property keeps
      the old value. */
  function Keep(prior: Val, given: Val): (r: Val)
    ensures given == Undefined ==> r == prior
    ensures given != Undefined ==> r == given
  {
    if given.Undefined? then prior else given
  }

  /** The row `update(rep)` leaves. */
  function Merge(row: Rep, rep: Rep): (r: Rep)
    ensures SameComposite(r, rep) && r.level == rep.level
    ensures r.bioguideId == Keep(row.bioguideId, rep.bioguideId)
    ensures r.phone == Keep(row.phone, rep.phone) && r.email == Keep(row.email, rep.email)
  {
    rep.(party := Keep(row.party, rep.party), district := Keep(row.district, rep.district),
         photoUrl := Keep(row.photoUrl, rep.photoUrl), bioguideId := Keep(row.bioguideId, rep.bioguideId),
         phone := Keep(row.phone, rep.phone), email := Keep(row.email, rep.email),
         website := Keep(row.website, rep.website))
  }

  datatype StepResult = StepResult(db: Db, id: Option<nat>)

  /** One iteration of the route's save loop for `rep` on behalf of `user`:
      update the single matching row, or insert a new row (which `rejects`
      may refuse), then upsert the primary link to the id obtained. */
  function Step(db: Db, user: string, rep: Rep, rejects: Rep -> bool): (r: StepResult)
    // a refused insert is skipped: no row, no link, no id
    ensures r.id.None? <==> Lookup(db.rows, rep).None? && rejects(rep)
    ensures r.id.None? ==> r.db == db
    // an id is obtained for a row matching the representative, and linked
    ensures r.id.Some? ==> 1 <= r.id.value <= |r.db.rows| && Matches(r.db.rows[r.id.value - 1], rep)
    ensures r.id.Some? ==> r.db.links == db.links[LinkKey(user, r.id.value) := true]
    // an existing row is updated in place, the others are untouched
    ensures Lookup(db.rows, rep).Some? ==>
      var k := Lookup(db.rows, rep).value - 1;
      r.id == Lookup(db.rows, rep) && r.db.rows == db.rows[k := Merge(db.rows[k], rep)]
    // a new row is appended only when no single row matches
    ensures Lookup(db.rows, rep).None? && !rejects(rep) ==>
      r.id == Some(|db.rows| + 1) && r.db.rows == db.rows + [Stored(rep)]
  {
    match Lookup(db.rows, rep)
    case Some(id) =>
      StepResult(Db(db.rows[id - 1 := Merge(db.rows[id - 1], rep)], db.links[LinkKey(user, id) := true]), Some(id))
    case None =>
      if rejects(rep) then StepResult(db, None)
      else
        var id := |db.rows| + 1;
        StepResult(Db(db.rows + [Stored(rep)], db.links[LinkKey(user, id) := true]), Some(id))
  }

  /** The two tables, updated in place by the operations the route issues
      through the database client. */
  class Store {
    var rows: seq<Rep>
    var links: map<LinkKey, bool>

    function State(): Db
      reads this
    {
      Db(rows, links)
    }

    constructor (db: Db)
      ensures State() == db
    {
      rows := db.rows;
      links := db.links;
    }

    /** `select('id')` with the match filters, then `maybeSingle()`: a scan
        of the table that stops counting at two matches. */
    method MaybeSingle(q: Rep) returns (id: Option<nat>)
      ensures id == Lookup(rows, q)
    {
      var seen := NoneFound;
      var i := 0;
      while i < |rows|
        invariant 0 <= i <= |rows|
        invariant seen == Search(rows[..i], q)
      {
        assert rows[..i + 1][..i] == rows[..i];
        if Matches(rows[i], q) {
          seen := if seen.NoneFound? then OneFound(i) else ManyFound;
        }
        i := i + 1;
      }
      assert rows[..|rows|] == rows;
      id := if seen.OneFound? then Some(seen.index + 1) else None;
    }

    /** `insert(rep).select('id').single()`: the new row's id, or none when
        the database refuses the row. */
    method Insert(rep: Rep, rejects: Rep -> bool) returns (id: Option<nat>)
      modifies this
      ensures rejects(rep) ==> id.None? && rows == old(rows)
      ensures !rejects(rep) ==> rows == old(rows) + [Stored(rep)] && id == Some(|rows|)
      ensures links == old(links)
    {
      if rejects(rep) {
        id := None;
      } else {
        rows := rows + [Stored(rep)];
        id := Some(|rows|);
      }
    }

    /** `update(rep).eq('id', id)` */
    method Update(id: nat, rep: Rep)
      requires 1 <= id <= |rows|
      modifies this
      ensures rows == old(rows)[id - 1 := Merge(old(rows)[id - 1], rep)]
      ensures links == old(links)
    {
      rows := rows[id - 1 := Merge(rows[id - 1], rep)];
    }

    /** `upsert({user_id, rep_id, is_primary: true}, {onConflict: 'user_id,rep_id'})` */
    method UpsertLink(user: string, id: nat)
      modifies this
      ensures links == old(links)[LinkKey(user, id) := true]
      ensures rows == old(rows)
    {
      links := links[LinkKey(user, id) := true];
    }
  }

  datatype Outcome = Outcome(db: Db, saved: seq<Saved>)

  /** Every link of `a` is in `b`, and a primary link stays primary. */
  predicate LinksGrow(a: map<LinkKey, bool>, b: map<LinkKey, bool>) {
    forall k :: k in a ==> k in b && (a[k] ==> b[k])
  }

  /** The whole save loop over `reps`, in order; `saved` is `savedReps`. */
  function SaveAll(db: Db, user: string, reps: seq<Rep>, rejects: Rep -> bool): (r: Outcome)
    ensures |r.saved| <= |reps|
    ensures |db.rows| <= |r.db.rows| <= |db.rows| + |reps|
    ensures LinksGrow(db.links, r.db.links)
    // new links belong to the user and are primary
    ensures forall k :: k in r.db.links && k !in db.links ==> k.user == user && r.db.links[k]
    // every saved representative came from the batch and has its primary link
    ensures forall k :: 0 <= k < |r.saved| ==>
      && r.saved[k].rep in reps && 1 <= r.saved[k].id <= |r.db.rows|
      && LinkKey(user, r.saved[k].id) in r.db.links && r.db.links[LinkKey(user, r.saved[k].id)]
    decreases |reps|
  {
    if reps == [] then Outcome(db, [])
    else
      var prev := SaveAll(db, user, reps[..|reps| - 1], rejects);
      var rep := reps[|reps| - 1];
      var step := Step(prev.db, user, rep, rejects);
      Outcome(step.db, prev.saved + (if step.id.Some? then [Saved(rep, step.id.value)] else []))
  }

  /** Without refused inserts every representative of the batch is saved. */
  lemma {:induction false} SaveAllWithoutFailures(db: Db, user: string, reps: seq<Rep>, rejects: Rep -> bool)
    requires forall q :: q in reps ==> !rejects(q)
    ensures |SaveAll(db, user, reps, rejects).saved| == |reps|
    decreases |reps|
  {
    if reps != [] {
      assert forall q :: q in reps[..|reps| - 1] ==> q in reps;
      SaveAllWithoutFailures(db, user, reps[..|reps| - 1], rejects);
    }
  }

  // -------------------------------------------------- no duplicate rows

  /** No representative found by id shares name, state and role with one
      looked up by name, state and role. */
  predicate Separated(batch: seq<Rep>) {
    forall p, q :: p in batch && q in batch && BioKeyed(p) && !BioKeyed(q) ==> !SameComposite(p, q)
  }

  /** The condition under which the save loop creates no duplicates: the
      batch is separated, each of its representatives matches at most one
      row, and a row matched by name, state and role has no bioguide id. */
  predicate Inv(db: Db, batch: seq<Rep>) {
    && Separated(batch)
    && (forall q :: q in batch ==> AtMostOne(db.rows, q))
    && (forall q, i :: q in batch && !BioKeyed(q) && 0 <= i < |db.rows| && Matches(db.rows[i], q) ==>
          !BioKeyed(db.rows[i]))
  }

  /** A representative is settled when its lookup finds a row already
      linked to the user as primary, or finds none and its insert is refused. */
  predicate Settled(db: Db, user: string, q: Rep, rejects: Rep -> bool) {
    match Lookup(db.rows, q)
    case Some(id) => LinkKey(user, id) in db.links && db.links[LinkKey(user, id)]
    case None => rejects(q)
  }

  /** An empty table satisfies the invariant for any separated batch. */
  lemma EmptyInv(links: map<LinkKey, bool>, batch: seq<Rep>)
    requires Separated(batch)
    ensures Inv(Db([], links), batch)
  {
  }

  /** Updating the row `p` matched keeps, for every representative of the
      batch, whether it matches that row. */
  lemma MergeKeepsMatch(row: Rep, p: Rep, q: Rep, batch: seq<Rep>)
    requires p in batch && q in batch && Separated(batch) && Matches(row, p)
    requires forall q' :: q' in batch && !BioKeyed(q') && Matches(row, q') ==> !BioKeyed(row)
    ensures Matches(Merge(row, p), q) <==> Matches(row, q)
    ensures !BioKeyed(q) && Matches(Merge(row, p), q) ==> !BioKeyed(Merge(row, p))
  {
    if BioKeyed(p) {
      assert BioKeyed(row);
    }
  }

  /** A row inserted for `p` matches only representatives that match
      exactly the rows `p` matches. */
  lemma StoredMatchesSameKey(p: Rep, q: Rep, batch: seq<Rep>, rows: seq<Rep>)
    requires p in batch && q in batch && Separated(batch) && Matches(Stored(p), q)
    ensures forall i :: 0 <= i < |rows| ==> (Matches(rows[i], q) <==> Matches(rows[i], p))
    ensures !BioKeyed(q) ==> !BioKeyed(Stored(p))
  {
    if BioKeyed(q) {
      assert BioKeyed(p);
    } else {
      assert !BioKeyed(p);
    }
  }

  /** What one step for `p` keeps for another representative `q` of the batch. */
  predicate KeptFor(db: Db, db': Db, user: string, p: Rep, rejects: Rep -> bool, q: Rep) {
    && AtMostOne(db'.rows, q)
    && (!BioKeyed(q) ==> forall i :: 0 <= i < |db'.rows| && Matches(db'.rows[i], q) ==> !BioKeyed(db'.rows[i]))
    && (Settled(db, user, q, rejects) ==> Settled(db', user, q, rejects))
    && (q == p ==> Settled(db', user, q, rejects))
  }

  /** An update of the row `p` matched keeps what `q` matches. */
  lemma UpdateKeepsFor(db: Db, user: string, p: Rep, rejects: Rep -> bool, batch: seq<Rep>, q: Rep)
    requires Inv(db, batch) && p in batch && q in batch && Lookup(db.rows, p).Some?
    ensures KeptFor(db, Step(db, user, p, rejects).db, user, p, rejects, q)
  {
    var db' := Step(db, user, p, rejects).db;
    var k := Lookup(db.rows, p).value - 1;
    assert db'.rows == db.rows[k := Merge(db.rows[k], p)];
    forall i | 0 <= i < |db.rows|
      ensures Matches(db'.rows[i], q) <==> Matches(db.rows[i], q)
      ensures !BioKeyed(q) && Matches(db'.rows[i], q) ==> !BioKeyed(db'.rows[i])
    {
      if i == k {
        MergeKeepsMatch(db.rows[k], p, q, batch);
      }
    }
    LookupSamePattern(db.rows, db'.rows, q);
    LookupSamePattern(db.rows, db'.rows, p);
  }

  /** Appending the stored row of an unmatched `p` leaves `p` exactly that
      row, and leaves `q` at most one match: its old one, or the new row
      when it had none. */
  lemma AppendKeepsFor(db: Db, p: Rep, batch: seq<Rep>, q: Rep)
    requires Inv(db, batch) && p in batch && q in batch && Lookup(db.rows, p).None?
    ensures var rows := db.rows + [Stored(p)];
      && AtMostOne(rows, q)
      && (!BioKeyed(q) ==> forall i :: 0 <= i < |rows| && Matches(rows[i], q) ==> !BioKeyed(rows[i]))
      && (Lookup(rows, q) == Lookup(db.rows, q) || (Lookup(db.rows, q).None? && Lookup(rows, q) == Some(|rows|)))
      && Lookup(rows, p) == Some(|rows|)
  {
    var rows := db.rows + [Stored(p)];
    var n := |db.rows|;
    LookupNone(db.rows, p);
    if Matches(Stored(p), q) {
      StoredMatchesSameKey(p, q, batch, db.rows);
      assert Matches(rows[n], q);
      LookupUnique(rows, q, n);
    } else {
      assert rows[..n] == db.rows;
      assert Search(rows, q) == Search(db.rows, q);
    }
    assert Matches(rows[n], p);
    LookupUnique(rows, p, n);
  }

  /** An inserted row for `p` is the only one `p` matches, and one `q`
      matches only when `q` has the same key. */
  lemma InsertKeepsFor(db: Db, user: string, p: Rep, rejects: Rep -> bool, batch: seq<Rep>, q: Rep)
    requires Inv(db, batch) && p in batch && q in batch && Lookup(db.rows, p).None? && !rejects(p)
    ensures KeptFor(db, Step(db, user, p, rejects).db, user, p, rejects, q)
  {
    AppendKeepsFor(db, p, batch, q);
  }

  /** One step for a representative of the batch, seen from another
      representative `q` of the batch. */
  lemma StepKeepsFor(db: Db, user: string, p: Rep, rejects: Rep -> bool, batch: seq<Rep>, q: Rep)
    requires Inv(db, batch) && p in batch && q in batch
    ensures var db' := Step(db, user, p, rejects).db;
      && AtMostOne(db'.rows, q)
      && (!BioKeyed(q) ==> forall i :: 0 <= i < |db'.rows| && Matches(db'.rows[i], q) ==> !BioKeyed(db'.rows[i]))
      && (Settled(db, user, q, rejects) ==> Settled(db', user, q, rejects))
      && (q == p ==> Settled(db', user, q, rejects))
  {
    if Lookup(db.rows, p).Some? {
      UpdateKeepsFor(db, user, p, rejects, batch, q);
    } else if !rejects(p) {
      InsertKeepsFor(db, user, p, rejects, batch, q);
    } else {
      assert Step(db, user, p, rejects).db == db;
    }
  }

  /** Every representative of the batch settled in `db` is still settled in `db'`. */
  predicate StaysSettled(db: Db, db': Db, user: string, batch: seq<Rep>, rejects: Rep -> bool) {
    forall q :: q in batch && Settled(db, user, q, rejects) ==> Settled(db', user, q, rejects)
  }

  /** Every representative of `reps` is settled in `db`. */
  predicate AllSettled(db: Db, user: string, reps: seq<Rep>, rejects: Rep -> bool) {
    forall q :: q in reps ==> Settled(db, user, q, rejects)
  }

  /** One step for a representative of the batch keeps the invariant and
      every settled representative settled, and settles its own. */
  lemma StepPreserves(db: Db, user: string, p: Rep, rejects: Rep -> bool, batch: seq<Rep>)
    requires Inv(db, batch) && p in batch
    ensures Inv(Step(db, user, p, rejects).db, batch)
    ensures StaysSettled(db, Step(db, user, p, rejects).db, user, batch, rejects)
    ensures Settled(Step(db, user, p, rejects).db, user, p, rejects)
  {
    forall q | q in batch
      ensures var db' := Step(db, user, p, rejects).db;
        && AtMostOne(db'.rows, q)
        && (!BioKeyed(q) ==> forall i :: 0 <= i < |db'.rows| && Matches(db'.rows[i], q) ==> !BioKeyed(db'.rows[i]))
        && (Settled(db, user, q, rejects) ==> Settled(db', user, q, rejects))
    {
      StepKeepsFor(db, user, p, rejects, batch, q);
    }
    StepKeepsFor(db, user, p, rejects, batch, p);
  }

  /** The save loop over part of a batch keeps the invariant and leaves
      each of its representatives settled: a batch saved into a table
      satisfying the invariant creates no duplicate rows. */
  lemma {:induction false} SaveAllSettles(db: Db, user: string, reps: seq<Rep>, rejects: Rep -> bool, batch: seq<Rep>)
    requires Inv(db, batch) && forall q :: q in reps ==> q in batch
    ensures Inv(SaveAll(db, user, reps, rejects).db, batch)
    ensures StaysSettled(db, SaveAll(db, user, reps, rejects).db, user, batch, rejects)
    ensures AllSettled(SaveAll(db, user, reps, rejects).db, user, reps, rejects)
    decreases |reps|
  {
    if reps != [] {
      var front := reps[..|reps| - 1];
      var last := reps[|reps| - 1];
      assert reps == front + [last];
      assert forall q :: q in front ==> q in reps;
      SaveAllSettles(db, user, front, rejects, batch);
      var mid := SaveAll(db, user, front, rejects).db;
      assert SaveAll(db, user, reps, rejects).db == Step(mid, user, last, rejects).db;
      SettlesAfterStep(db, mid, user, front, last, rejects, batch);
    }
  }

  /** The induction step of `SaveAllSettles`: one more step keeps what the
      loop so far established and settles the new representative. */
  lemma SettlesAfterStep(db: Db, mid: Db, user: string, front: seq<Rep>, last: Rep, rejects: Rep -> bool, batch: seq<Rep>)
    requires Inv(mid, batch) && last in batch
    requires StaysSettled(db, mid, user, batch, rejects) && AllSettled(mid, user, front, rejects)
    requires forall q :: q in front ==> q in batch
    ensures var after := Step(mid, user, last, rejects).db;
      && Inv(after, batch)
      && StaysSettled(db, after, user, batch, rejects)
      && AllSettled(after, user, front + [last], rejects)
  {
    var after := Step(mid, user, last, rejects).db;
    StepPreserves(mid, user, last, rejects, batch);
    forall q | q in front + [last]
      ensures Settled(after, user, q, rejects)
    {
      if q != last {
        assert q in front;
      }
    }
  }

  /** A step for a settled representative adds no row and no link. */
  lemma StepStill(db: Db, user: string, p: Rep, rejects: Rep -> bool)
    requires Settled(db, user, p, rejects)
    ensures |Step(db, user, p, rejects).db.rows| == |db.rows|
    ensures Step(db, user, p, rejects).db.links == db.links
  {
    match Lookup(db.rows, p)
    case Some(id) =>
      assert db.links[LinkKey(user, id) := true] == db.links;
    case None =>
  }

  /** Saving representatives that are all settled adds no row and no link. */
  lemma {:induction false} RerunKeeps(db: Db, user: string, reps: seq<Rep>, rejects: Rep -> bool, batch: seq<Rep>)
    requires Inv(db, batch) && forall q :: q in reps ==> q in batch
    requires AllSettled(db, user, reps, rejects)
    ensures |SaveAll(db, user, reps, rejects).db.rows| == |db.rows|
    ensures SaveAll(db, user, reps, rejects).db.links == db.links
    decreases |reps|
  {
    if reps != [] {
      var front := reps[..|reps| - 1];
      var last := reps[|reps| - 1];
      assert forall q :: q in front ==> q in reps;
      RerunKeeps(db, user, front, rejects, batch);
      SaveAllSettles(db, user, front, rejects, batch);
      StepStill(SaveAll(db, user, front, rejects).db, user, last, rejects);
    }
  }

  /** Running the save loop a second time with the same representatives on
      the table the first run left inserts no row and leaves the link table
      as it was. */
  lemma RerunIsIdempotent(db: Db, user: string, reps: seq<Rep>, rejects: Rep -> bool)
    requires Inv(db, reps)
    ensures var first := SaveAll(db, user, reps, rejects).db;
      var second := SaveAll(first, user, reps, rejects).db;
      |second.rows| == |first.rows| && second.links == first.links
  {
    SaveAllSettles(db, user, reps, rejects, reps);
    RerunKeeps(SaveAll(db, user, reps, rejects).db, user, reps, rejects, reps);
  }
}
