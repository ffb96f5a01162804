/** The "My Representatives" page's pure helpers (app/reps/page.tsx): the
    federal-first ordering of the saved representatives, the flag image
    behind each card and the colour of the party badge. */
module RepsPage {
  import opened JsValues
  import opened Text
  import opened Seqs
  import opened Representatives

  predicate IsFederal(r: Rep) {
    r.level == "federal"
  }

  predicate NotFederal(r: Rep) {
    !IsFederal(r)
  }

  /** The comparator handed to `sort`. */
  function Compare(a: Rep, b: Rep): (r: int)
    ensures r == -1 <==> IsFederal(a) && !IsFederal(b)
    ensures r == 1 <==> !IsFederal(a) && IsFederal(b)
    ensures r == 0 <==> (IsFederal(a) <==> IsFederal(b))
  {
    if IsFederal(a) && !IsFederal(b) then -1
    else if !IsFederal(a) && IsFederal(b) then 1
    else 0
  }

  /** Inserts `x` after every element that the comparator does not place
      after it, which keeps the sort stable. */
  function InsertStable(sorted: seq<Rep>, x: Rep): (r: seq<Rep>)
    ensures |r| == |sorted| + 1
    decreases |sorted|
  {
    if sorted == [] then [x]
    else if Compare(sorted[|sorted| - 1], x) <= 0 then sorted + [x]
    else InsertStable(sorted[..|sorted| - 1], x) + [sorted[|sorted| - 1]]
  }

  /** `[...reps].sort(compare)`: a stable sort with the page's comparator.
      Every stable sort gives the same order for a given comparator, so the
      insertion sort stands for the engine's. */
  function SortReps(reps: seq<Rep>): (r: seq<Rep>)
    ensures |r| == |reps|
    decreases |reps|
  {
    if reps == [] then []
    else InsertStable(SortReps(reps[..|reps| - 1]), reps[|reps| - 1])
  }

  /** A federal representative goes between the federal and the other ones. */
  lemma {:induction false} InsertFederal(fed: seq<Rep>, other: seq<Rep>, x: Rep)
    requires forall y :: y in fed ==> IsFederal(y)
    requires forall y :: y in other ==> !IsFederal(y)
    requires IsFederal(x)
    ensures InsertStable(fed + other, x) == fed + [x] + other
    decreases |other|
  {
    if other == [] {
      assert fed + other == fed;
      if fed != [] {
        assert fed[|fed| - 1] in fed;
        assert Compare(fed[|fed| - 1], x) == 0;
      }
    } else {
      var n := |other| - 1;
      var last := other[n];
      assert last in other;
      assert Compare(last, x) == 1;
      SplitLast(fed, other);
      assert forall y :: y in other[..n] ==> y in other;
      InsertFederal(fed, other[..n], x);
      SplitLast(fed + [x], other);
    }
  }

  /** A concatenation ending in a non-empty sequence is its front followed
      by its last element. */
  lemma SplitLast(a: seq<Rep>, b: seq<Rep>)
    requires b != []
    ensures var s := a + b;
      s[|s| - 1] == b[|b| - 1] && s[..|s| - 1] == a + b[..|b| - 1]
      && s == (a + b[..|b| - 1]) + [b[|b| - 1]]
  {
    var s := a + b;
    assert s[..|s| - 1] == a + b[..|b| - 1];
  }

  /** Any other representative goes at the end. */
  lemma InsertOther(sorted: seq<Rep>, x: Rep)
    requires !IsFederal(x)
    ensures InsertStable(sorted, x) == sorted + [x]
  {
  }

  /** The sorted list is the federal representatives followed by the
      others, each group in its original order. */
  lemma {:induction false} SortIsPartition(reps: seq<Rep>)
    ensures SortReps(reps) == Filter(reps, IsFederal) + Filter(reps, NotFederal)
    decreases |reps|
  {
    if reps != [] {
      var n := |reps| - 1;
      assert reps == reps[..n] + [reps[n]];
      SortIsPartition(reps[..n]);
      PartitionSnoc(reps[..n], reps[n]);
    }
  }

  /** The induction step of `SortIsPartition`: inserting one more
      representative keeps the sorted list partitioned. */
  lemma PartitionSnoc(front: seq<Rep>, x: Rep)
    requires SortReps(front) == Filter(front, IsFederal) + Filter(front, NotFederal)
    ensures SortReps(front + [x]) == Filter(front + [x], IsFederal) + Filter(front + [x], NotFederal)
  {
    var reps := front + [x];
    assert reps[..|reps| - 1] == front && reps[|reps| - 1] == x;
    assert SortReps(reps) == InsertStable(SortReps(front), x);
    if IsFederal(x) {
      PartitionSnocFederal(front, x);
    } else {
      PartitionSnocOther(front, x);
    }
  }

  lemma PartitionSnocFederal(front: seq<Rep>, x: Rep)
    requires IsFederal(x)
    ensures InsertStable(Filter(front, IsFederal) + Filter(front, NotFederal), x)
         == Filter(front + [x], IsFederal) + Filter(front + [x], NotFederal)
  {
    var fed, other := Filter(front, IsFederal), Filter(front, NotFederal);
    FilterSnoc(front, x, IsFederal);
    FilterSnoc(front, x, NotFederal);
    assert Filter(front + [x], IsFederal) == fed + [x];
    assert Filter(front + [x], NotFederal) == other;
    InsertFederal(fed, other, x);
  }

  lemma PartitionSnocOther(front: seq<Rep>, x: Rep)
    requires !IsFederal(x)
    ensures InsertStable(Filter(front, IsFederal) + Filter(front, NotFederal), x)
         == Filter(front + [x], IsFederal) + Filter(front + [x], NotFederal)
  {
    var fed, other := Filter(front, IsFederal), Filter(front, NotFederal);
    FilterSnoc(front, x, IsFederal);
    FilterSnoc(front, x, NotFederal);
    assert Filter(front + [x], IsFederal) == fed;
    assert Filter(front + [x], NotFederal) == other + [x];
    InsertOther(fed + other, x);
  }

  /** Sorting loses and adds no representative. */
  lemma SortIsPermutation(reps: seq<Rep>)
    ensures multiset(SortReps(reps)) == multiset(reps)
  {
    SortIsPartition(reps);
    FilterPartition(reps, IsFederal, NotFederal);
  }

  /** No federal representative comes after another one. */
  predicate FederalBeforeOthers(s: seq<Rep>) {
    forall i, j :: 0 <= i < j < |s| && IsFederal(s[j]) ==> IsFederal(s[i])
  }

  /** Federal representatives followed by other ones are in federal-first order. */
  lemma ConcatFederalFirst(fed: seq<Rep>, other: seq<Rep>)
    requires forall y :: y in fed ==> IsFederal(y)
    requires forall y :: y in other ==> !IsFederal(y)
    ensures FederalBeforeOthers(fed + other)
  {
    var s := fed + other;
    forall k | 0 <= k < |fed|
      ensures IsFederal(s[k])
    {
      assert s[k] == fed[k];
      assert s[k] in fed;
    }
    forall k | |fed| <= k < |s|
      ensures !IsFederal(s[k])
    {
      assert s[k] == other[k - |fed|];
      assert s[k] in other;
    }
  }

  /** Every federal representative precedes every other one. */
  lemma FederalFirst(reps: seq<Rep>)
    ensures FederalBeforeOthers(SortReps(reps))
  {
    SortIsPartition(reps);
    ConcatFederalFirst(Filter(reps, IsFederal), Filter(reps, NotFederal));
  }

  /** Within each group the original order is kept. */
  lemma SortIsStable(reps: seq<Rep>)
    ensures Filter(SortReps(reps), IsFederal) == Filter(reps, IsFederal)
    ensures Filter(SortReps(reps), NotFederal) == Filter(reps, NotFederal)
  {
    SortIsPartition(reps);
    var fed, other := Filter(reps, IsFederal), Filter(reps, NotFederal);
    FilterAppend(fed, other, IsFederal);
    FilterAppend(fed, other, NotFederal);
    FilterKeepsAll(fed, IsFederal);
    FilterDropsAll(other, IsFederal);
    FilterKeepsAll(other, NotFederal);
    FilterDropsAll(fed, NotFederal);
  }

  // ---------------------------------------------------------------- flag

  const FlagPrefix := "url('https://flagcdn.com/w640/us"
  const FlagSuffix := ".png')"

  /** `getFlagBackground`: the national flag for a federal representative,
      otherwise the flag of the state, lower-cased. `Rep.state` is a string,
      so a missing state is the empty string here, which gives the flag URL
      with an empty state code. */
  function FlagBackground(rep: Rep): (r: string)
    ensures IsFederal(rep) ==> r == FlagPrefix + FlagSuffix
    ensures !IsFederal(rep) ==> r == FlagPrefix + "-" + Lower(rep.state) + FlagSuffix
  {
    if IsFederal(rep) then FlagPrefix + FlagSuffix
    else FlagPrefix + "-" + Lower(rep.state) + FlagSuffix
  }

  /** A federal card shows the same flag whatever its state. */
  lemma FederalFlagIgnoresState(rep: Rep, state: string)
    requires IsFederal(rep)
    ensures FlagBackground(rep.(state := state)) == FlagBackground(rep)
  {
  }

  /** A state card's flag does not depend on how the state is capitalised. */
  lemma StateFlagIgnoresCase(rep: Rep)
    ensures FlagBackground(rep.(state := Lower(rep.state))) == FlagBackground(rep)
  {
    LowerIdempotent(rep.state);
  }

  /** Two strings with the same head and tail around them agree in the middle. */
  lemma SameMiddle(head: string, x: string, y: string, tail: string)
    requires head + x + tail == head + y + tail
    ensures x == y
  {
    var s := head + x + tail;
    assert |x| == |y|;
    assert x == s[|head|..|head| + |x|];
    assert y == s[|head|..|head| + |y|];
  }

  /** Two state cards show the same flag only for states that agree after
      lower-casing: the state code can be read back out of the URL. */
  lemma StateFlagDeterminesState(a: Rep, b: Rep)
    requires !IsFederal(a) && !IsFederal(b)
    ensures FlagBackground(a) == FlagBackground(b) ==> Lower(a.state) == Lower(b.state)
  {
    if FlagBackground(a) == FlagBackground(b) {
      SameMiddle(FlagPrefix + "-", Lower(a.state), Lower(b.state), FlagSuffix);
    }
  }

  // --------------------------------------------------------------- party

  datatype PartyColour = Blue | Red | Grey

  /** `rep.party?.includes(...)` */
  predicate PartyIncludes(party: Val, word: string) {
    party.Str? && Contains(party.s, word)
  }

  /** The party badge: blue for a Democrat, else red for a Republican, else grey. */
  function PartyStyle(party: Val): (r: PartyColour)
    ensures r == Blue <==> PartyIncludes(party, "Democrat")
    ensures r == Red <==> !PartyIncludes(party, "Democrat") && PartyIncludes(party, "Republican")
    ensures r == Grey <==> !PartyIncludes(party, "Democrat") && !PartyIncludes(party, "Republican")
  {
    if PartyIncludes(party, "Democrat") then Blue
    else if PartyIncludes(party, "Republican") then Red
    else Grey
  }

  /** The badge text, `rep.party || 'Unknown Party'`. */
  function PartyLabel(party: Val): (r: string)
    ensures Truthy(party) ==> r == party.s
    ensures !Truthy(party) ==> r == "Unknown Party"
  {
    ToText(Or(party, Str("Unknown Party")))
  }

  /** The colour classes of a representative's party badge. */
  function BadgeClasses(party: Val): (r: string)
    ensures r == "bg-blue-100 text-blue-800" <==> PartyIncludes(party, "Democrat")
    ensures r == "bg-red-100 text-red-800"
      <==> !PartyIncludes(party, "Democrat") && PartyIncludes(party, "Republican")
    ensures r == "bg-gray-100 text-gray-700"
      <==> !PartyIncludes(party, "Democrat") && !PartyIncludes(party, "Republican")
  {
    match PartyStyle(party)
    case Blue => "bg-blue-100 text-blue-800"
    case Red => "bg-red-100 text-red-800"
    case Grey => "bg-gray-100 text-gray-700"
  }

  /** A party name that embeds "Democrat" is blue, e.g. "Democratic". */
  lemma DemocraticIsBlue(rest: string)
    ensures PartyStyle(Str("Democrat" + rest)) == Blue
  {
    ContainsPrefix("Democrat" + rest, "Democrat");
  }

  /** Without a party the badge is grey. */
  lemma NoPartyIsGrey()
    ensures PartyStyle(Null) == Grey && PartyStyle(Undefined) == Grey
  {
  }
}
