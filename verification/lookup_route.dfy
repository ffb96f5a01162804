/** The address lookup route (app/api/reps/lookup/route.ts): geocode the
    address, read the congressional and state legislative districts out of
    the geography layers, look up the House member, the senators and the two
    state legislators, and save each representative found into the store
    with a primary link to the signed-in user. The geocoder and the two
    directories are inputs; the store is the `Store` class. */
module RepLookup {
  import opened JsValues
  import opened Text
  import opened Seqs
  import opened Representatives
  import opened Federal
  import opened StateDirectory
  import opened RepStore

  // --------------------------------------------------------- geographies

  /** One layer of the geocoder's `geographies` object: its key and its
      array of features (`None` when the value is missing or null). */
  datatype GeoLayer = GeoLayer(key: string, features: Option<seq<map<string, string>>>)

  /** Every search term occurs in the key, ignoring case. */
  predicate KeyMatches(key: string, terms: seq<string>) {
    forall t :: t in terms ==> Contains(Lower(key), Lower(t))
  }

  /** Layer `i` is the first, in key order, whose key matches. */
  predicate IsFirstMatch(layers: seq<GeoLayer>, terms: seq<string>, i: int) {
    0 <= i < |layers| && KeyMatches(layers[i].key, terms)
    && forall j :: 0 <= j < i ==> !KeyMatches(layers[j].key, terms)
  }

  predicate HasFeatures(layer: GeoLayer) {
    layer.features.Some? && layer.features.value != []
  }

  /** `feature[valueKey]` */
  function FieldOf(feature: map<string, string>, valueKey: string): Val {
    if valueKey in feature then Str(feature[valueKey]) else Undefined
  }

  /** `extractValue(geo, terms, valueKey)`: null when there are no
      geographies, when no key matches or when the first matching layer is
      missing or empty; otherwise the field of that layer's first feature. */
  function ExtractValue(geo: Option<seq<GeoLayer>>, terms: seq<string>, valueKey: string): (r: Val)
    ensures r != Null <==>
      geo.Some? && exists i :: IsFirstMatch(geo.value, terms, i) && HasFeatures(geo.value[i])
    ensures forall i :: geo.Some? && IsFirstMatch(geo.value, terms, i) && HasFeatures(geo.value[i]) ==>
      r == FieldOf(geo.value[i].features.value[0], valueKey)
  {
    match geo
    case None => Null
    case Some(layers) =>
      match Find(layers, (l: GeoLayer) => KeyMatches(l.key, terms))
      case None => Null
      case Some(i) =>
        assert IsFirstMatch(layers, terms, i);
        if !HasFeatures(layers[i]) then Null
        else FieldOf(layers[i].features.value[0], valueKey)
  }

  /** Key matching ignores the case of the key. */
  lemma KeyMatchIgnoresCase(key: string, terms: seq<string>)
    ensures KeyMatches(Lower(key), terms) <==> KeyMatches(key, terms)
  {
    LowerIdempotent(key);
  }

  /** Layers before the first matching one play no part. */
  lemma ExtractSkipsNonMatching(pre: seq<GeoLayer>, layers: seq<GeoLayer>, terms: seq<string>, valueKey: string)
    requires forall l :: l in pre ==> !KeyMatches(l.key, terms)
    ensures ExtractValue(Some(pre + layers), terms, valueKey) == ExtractValue(Some(layers), terms, valueKey)
  {
    var all := pre + layers;
    forall i | 0 <= i < |layers|
      ensures IsFirstMatch(all, terms, i + |pre|) <==> IsFirstMatch(layers, terms, i)
    {
      assert all[i + |pre|] == layers[i];
      if IsFirstMatch(layers, terms, i) {
        forall j | 0 <= j < i + |pre|
          ensures !KeyMatches(all[j].key, terms)
        {
          if j < |pre| {
            assert all[j] in pre;
          } else {
            assert all[j] == layers[j - |pre|];
          }
        }
      }
      if IsFirstMatch(all, terms, i + |pre|) {
        forall j | 0 <= j < i
          ensures !KeyMatches(layers[j].key, terms)
        {
          assert all[j + |pre|] == layers[j];
        }
      }
    }
    forall i | 0 <= i < |pre|
      ensures !IsFirstMatch(all, terms, i)
    {
      assert all[i] in pre;
    }
  }

  /** The district and label of one body. */
  datatype DistrictInfo = DistrictInfo(district: Val, labelText: Val)

  datatype Districts = Districts(federal: DistrictInfo, stateUpper: DistrictInfo, stateLower: DistrictInfo)

  const Basename := "BASENAME"
  const Name := "NAME"

  /** The districts of the matched address; a state chamber falls back to
      its second key only when the first yields a falsy value. */
  function DistrictsOf(geo: Option<seq<GeoLayer>>): (r: Districts)
    ensures r.federal == DistrictInfo(ExtractValue(geo, ["Congress"], Basename), ExtractValue(geo, ["Congress"], Name))
    ensures Truthy(ExtractValue(geo, ["State", "Upper"], Basename)) ==>
      r.stateUpper.district == ExtractValue(geo, ["State", "Upper"], Basename)
    ensures !Truthy(ExtractValue(geo, ["State", "Upper"], Basename)) ==>
      r.stateUpper.district == ExtractValue(geo, ["State", "Senate"], Basename)
    ensures r.stateUpper.labelText == ExtractValue(geo, ["State", "Upper"], Name)
    ensures Truthy(ExtractValue(geo, ["State", "Lower"], Basename)) ==>
      r.stateLower.district == ExtractValue(geo, ["State", "Lower"], Basename)
    ensures !Truthy(ExtractValue(geo, ["State", "Lower"], Basename)) ==>
      r.stateLower.district == ExtractValue(geo, ["State", "House"], Basename)
    ensures r.stateLower.labelText == ExtractValue(geo, ["State", "Lower"], Name)
  {
    Districts(
      DistrictInfo(ExtractValue(geo, ["Congress"], Basename), ExtractValue(geo, ["Congress"], Name)),
      DistrictInfo(Or(ExtractValue(geo, ["State", "Upper"], Basename), ExtractValue(geo, ["State", "Senate"], Basename)),
                   ExtractValue(geo, ["State", "Upper"], Name)),
      DistrictInfo(Or(ExtractValue(geo, ["State", "Lower"], Basename), ExtractValue(geo, ["State", "House"], Basename)),
                   ExtractValue(geo, ["State", "Lower"], Name)))
  }

  /** Without geographies every district is null. */
  lemma NoGeographiesNoDistricts()
    ensures DistrictsOf(None) == Districts(DistrictInfo(Null, Null), DistrictInfo(Null, Null), DistrictInfo(Null, Null))
  {
  }

  // ------------------------------------------------------------- lookups

  /** The value a lookup settles with: `null`, one representative or an array. */
  datatype LookupValue = NoRep | OneRep(rep: Rep) | RepList(reps: seq<Rep>)

  /** The directory services: the Congress.gov member list of a state and
      member details by bioguide id, and the OpenStates people search. */
  datatype Directories = Directories(
    members: string -> Reply<Member>,
    details: Val -> Option<Detail>,
    people: PeopleQuery -> Reply<Person>)

  function HouseOutcome(stateAbbr: string, district: Val, dirs: Directories): Settled<LookupValue> {
    match GetHouseRep(ListOf(dirs.members(stateAbbr)), dirs.details, district)
    case Rejected => Rejected
    case Fulfilled(None) => Fulfilled(NoRep)
    case Fulfilled(Some(rep)) => Fulfilled(OneRep(rep))
  }

  function SenateOutcome(stateAbbr: string, dirs: Directories): Settled<LookupValue> {
    match GetSenators(ListOf(dirs.members(stateAbbr)), dirs.details)
    case Rejected => Rejected
    case Fulfilled(reps) => Fulfilled(RepList(reps))
  }

  function StateOutcome(stateAbbr: string, district: Val, chamber: Chamber, dirs: Directories): Settled<LookupValue> {
    match GetStateRep(stateAbbr, district, chamber, dirs.people)
    case None => Fulfilled(NoRep)
    case Some(rep) => Fulfilled(OneRep(rep))
  }

  /** `Promise.allSettled` over the four lookups, in their fixed order. */
  function LookupOutcomes(stateAbbr: string, districts: Districts, dirs: Directories): (r: seq<Settled<LookupValue>>)
    ensures |r| == 4
    ensures r[0] == HouseOutcome(stateAbbr, districts.federal.district, dirs)
    ensures r[1] == SenateOutcome(stateAbbr, dirs)
    ensures r[2] == StateOutcome(stateAbbr, districts.stateLower.district, LowerChamber, dirs)
    ensures r[3] == StateOutcome(stateAbbr, districts.stateUpper.district, UpperChamber, dirs)
  {
    [HouseOutcome(stateAbbr, districts.federal.district, dirs),
     SenateOutcome(stateAbbr, dirs),
     StateOutcome(stateAbbr, districts.stateLower.district, LowerChamber, dirs),
     StateOutcome(stateAbbr, districts.stateUpper.district, UpperChamber, dirs)]
  }

  /** What one outcome adds to `allReps`: an array is spliced in, a single
      representative appended, and `null` or a rejection adds nothing. */
  function Contribution(s: Settled<LookupValue>): (r: seq<Rep>)
    ensures s.Rejected? || s.value.NoRep? ==> r == []
    ensures s.Fulfilled? && s.value.OneRep? ==> r == [s.value.rep]
    ensures s.Fulfilled? && s.value.RepList? ==> r == s.value.reps
  {
    match s
    case Fulfilled(OneRep(rep)) => [rep]
    case Fulfilled(RepList(reps)) => reps
    case _ => []
  }

  /** `allReps` after the `forEach` over the outcomes. */
  function Flattened(outcomes: seq<Settled<LookupValue>>): (r: seq<Rep>)
    ensures forall i :: 0 <= i < |outcomes| ==> forall x :: x in Contribution(outcomes[i]) ==> x in r
    ensures forall x :: x in r ==> exists i :: 0 <= i < |outcomes| && x in Contribution(outcomes[i])
    decreases |outcomes|
  {
    if outcomes == [] then []
    else Flattened(outcomes[..|outcomes| - 1]) + Contribution(outcomes[|outcomes| - 1])
  }

  /** Flattening keeps the order of the outcomes. */
  lemma {:induction false} FlattenedAppend(a: seq<Settled<LookupValue>>, b: seq<Settled<LookupValue>>)
    ensures Flattened(a + b) == Flattened(a) + Flattened(b)
    decreases |b|
  {
    if b == [] {
      assert a + b == a;
    } else {
      var n := |b| - 1;
      assert (a + b)[..|a + b| - 1] == a + b[..n];
      FlattenedAppend(a, b[..n]);
    }
  }

  lemma FlattenedOne(s: Settled<LookupValue>)
    ensures Flattened([s]) == Contribution(s)
  {
    assert [s][..0] == [];
  }

  /** Flattening four outcomes concatenates their contributions in order. */
  lemma FlattenFour(r: seq<Settled<LookupValue>>)
    requires |r| == 4
    ensures Flattened(r) == Contribution(r[0]) + Contribution(r[1]) + Contribution(r[2]) + Contribution(r[3])
  {
    assert r[..3][..2] == r[..2];
    assert r[..2][..1] == r[..1];
    assert r[..1][..0] == [];
    assert Flattened(r[..1]) == Contribution(r[0]);
    assert Flattened(r[..2]) == Flattened(r[..1]) + Contribution(r[1]);
    assert Flattened(r[..3]) == Flattened(r[..2]) + Contribution(r[2]);
    assert Flattened(r) == Flattened(r[..3]) + Contribution(r[3]);
  }

  /** The representatives are saved in the order House member, senators,
      lower-chamber legislator, upper-chamber legislator. */
  lemma FlattenOrder(stateAbbr: string, districts: Districts, dirs: Directories)
    ensures var r := LookupOutcomes(stateAbbr, districts, dirs);
      Flattened(r) == Contribution(r[0]) + Contribution(r[1]) + Contribution(r[2]) + Contribution(r[3])
  {
    FlattenFour(LookupOutcomes(stateAbbr, districts, dirs));
  }

  /** `forEach` pushing into `allReps`. */
  method FlattenOutcomes(outcomes: seq<Settled<LookupValue>>) returns (allReps: seq<Rep>)
    ensures allReps == Flattened(outcomes)
  {
    allReps := [];
    var i := 0;
    while i < |outcomes|
      invariant 0 <= i <= |outcomes|
      invariant allReps == Flattened(outcomes[..i])
    {
      assert outcomes[..i + 1][..i] == outcomes[..i];
      match outcomes[i] {
        case Fulfilled(OneRep(rep)) =>
          allReps := allReps + [rep];
        case Fulfilled(RepList(reps)) =>
          allReps := allReps + reps;
        case _ =>
      }
      i := i + 1;
    }
    assert outcomes[..|outcomes|] == outcomes;
  }

  /** A representative a lookup contributes is a federal one or a state
      legislator without a bioguide id. */
  predicate KnownKind(x: Rep) {
    || (x.role in FederalRoles && x.level == "federal")
    || (x.role in StateRoles && x.level == "state" && !BioKeyed(x))
  }

  lemma SenateKinds(stateAbbr: string, dirs: Directories)
    ensures forall x :: x in Contribution(SenateOutcome(stateAbbr, dirs)) ==> x.role == "Senator" && x.level == "federal"
  {
    var s := GetSenators(ListOf(dirs.members(stateAbbr)), dirs.details);
    if s.Fulfilled? {
      forall x | x in s.value
        ensures x.role == "Senator" && x.level == "federal"
      {
        var k :| 0 <= k < |s.value| && s.value[k] == x;
      }
    }
  }

  lemma HouseKinds(stateAbbr: string, district: Val, dirs: Directories)
    ensures forall x :: x in Contribution(HouseOutcome(stateAbbr, district, dirs)) ==> KnownKind(x)
  {
    var h := GetHouseRep(ListOf(dirs.members(stateAbbr)), dirs.details, district);
    if h.Fulfilled? && h.value.Some? {
      assert Contribution(HouseOutcome(stateAbbr, district, dirs)) == [h.value.value];
    }
  }

  lemma LegislatorKinds(stateAbbr: string, district: Val, chamber: Chamber, dirs: Directories)
    ensures forall x :: x in Contribution(StateOutcome(stateAbbr, district, chamber, dirs)) ==> KnownKind(x)
  {
    var g := GetStateRep(stateAbbr, district, chamber, dirs.people);
    if g.Some? {
      assert Contribution(StateOutcome(stateAbbr, district, chamber, dirs)) == [g.value];
      assert g.value.role in StateRoles;
    }
  }

  /** Every representative found is a federal one from Congress.gov or a
      state legislator; only the federal ones can carry a bioguide id. */
  lemma FlattenedKinds(stateAbbr: string, districts: Districts, dirs: Directories)
    ensures forall x :: x in Flattened(LookupOutcomes(stateAbbr, districts, dirs)) ==> KnownKind(x)
  {
    var r := LookupOutcomes(stateAbbr, districts, dirs);
    FlattenFour(r);
    HouseKinds(stateAbbr, districts.federal.district, dirs);
    SenateKinds(stateAbbr, dirs);
    LegislatorKinds(stateAbbr, districts.stateLower.district, LowerChamber, dirs);
    LegislatorKinds(stateAbbr, districts.stateUpper.district, UpperChamber, dirs);
  }

  /** When every federal representative found carries a bioguide id, the
      batch is separated: federal and state roles never coincide. */
  lemma BatchSeparated(reps: seq<Rep>)
    requires forall x :: x in reps ==>
      (x.role in FederalRoles && BioKeyed(x)) || (x.role in StateRoles && !BioKeyed(x))
    ensures Separated(reps)
  {
  }

  // ----------------------------------------------------------------- save

  /** The save loop: find or insert each representative, then link it. */
  method SaveReps(store: Store, user: string, reps: seq<Rep>, rejects: Rep -> bool) returns (saved: seq<Saved>)
    modifies store
    ensures store.State() == SaveAll(old(store.State()), user, reps, rejects).db
    ensures saved == SaveAll(old(store.State()), user, reps, rejects).saved
  {
    ghost var db0 := store.State();
    saved := [];
    var i := 0;
    while i < |reps|
      invariant 0 <= i <= |reps|
      invariant store.State() == SaveAll(db0, user, reps[..i], rejects).db
      invariant saved == SaveAll(db0, user, reps[..i], rejects).saved
    {
      SaveAllNext(db0, user, reps, i, rejects);
      var repId := SaveOne(store, user, reps[i], rejects);
      if repId.Some? {
        saved := saved + [Saved(reps[i], repId.value)];
      }
      i := i + 1;
    }
    assert reps[..|reps|] == reps;
  }

  /** One iteration of the save loop: find the row or insert it, then link it. */
  method SaveOne(store: Store, user: string, rep: Rep, rejects: Rep -> bool) returns (repId: Option<nat>)
    modifies store
    ensures var step := Step(old(store.State()), user, rep, rejects);
      store.State() == step.db && repId == step.id
  {
    repId := store.MaybeSingle(rep);
    if repId.None? {
      repId := store.Insert(rep, rejects);
    } else {
      store.Update(repId.value, rep);
    }
    if repId.Some? {
      store.UpsertLink(user, repId.value);
    }
  }

  /** One more iteration of the save loop is one more `Step`. */
  lemma SaveAllNext(db: Db, user: string, reps: seq<Rep>, i: nat, rejects: Rep -> bool)
    requires i < |reps|
    ensures var prev := SaveAll(db, user, reps[..i], rejects);
      var step := Step(prev.db, user, reps[i], rejects);
      SaveAll(db, user, reps[..i + 1], rejects)
        == Outcome(step.db, prev.saved + (if step.id.Some? then [Saved(reps[i], step.id.value)] else []))
  {
    assert reps[..i + 1][..i] == reps[..i];
  }

  // -------------------------------------------------------------- handler

  /** One entry of the geocoder's `addressMatches`. */
  datatype AddressMatch = AddressMatch(geographies: Option<seq<GeoLayer>>, state: Val)

  /** The geocoder's answer: the request or its JSON failed with a message,
      or `result.addressMatches` (missing when `None`). */
  datatype CensusReply = CensusFailed(message: string) | CensusOk(matches: Option<seq<AddressMatch>>)

  datatype Body =
    | ErrorBody(error: string)
    | NotFoundBody(error: string)
    | FoundBody(state: string, savedCount: nat, districts: Districts)

  datatype Response = Response(status: nat, body: Body)

  const NoAddressMatch := "Address not found in Census database."
  const NoState := "Could not determine state."

  datatype Handled = Handled(response: Response, db: Db)

  /** The request is answered before any directory lookup. */
  predicate EarlyExit(user: Option<string>, address: Val, geocode: string -> CensusReply) {
    || user.None?
    || !Truthy(address)
    || geocode(address.s).CensusFailed?
    || geocode(address.s).matches.None? || geocode(address.s).matches.value == []
    || !Truthy(geocode(address.s).matches.value[0].state)
  }

  /** What `POST` answers and the store it leaves. */
  function Handle(user: Option<string>, address: Val, geocode: string -> CensusReply, dirs: Directories,
                  db: Db, rejects: Rep -> bool): (r: Handled)
    ensures user.None? ==> r == Handled(Response(401, ErrorBody("Unauthorized")), db)
    ensures user.Some? && !Truthy(address) ==> r == Handled(Response(400, ErrorBody("Address is required")), db)
    ensures user.Some? && Truthy(address) && geocode(address.s).CensusFailed? ==>
      r == Handled(Response(500, ErrorBody(geocode(address.s).message)), db)
    ensures user.Some? && Truthy(address) && geocode(address.s).CensusOk?
            && (geocode(address.s).matches.None? || geocode(address.s).matches.value == []) ==>
      r == Handled(Response(200, NotFoundBody(NoAddressMatch)), db)
    ensures user.Some? && Truthy(address) && geocode(address.s).CensusOk?
            && geocode(address.s).matches.Some? && geocode(address.s).matches.value != []
            && !Truthy(geocode(address.s).matches.value[0].state) ==>
      r == Handled(Response(200, NotFoundBody(NoState)), db)
    ensures EarlyExit(user, address, geocode) ==> r.db == db && !r.response.body.FoundBody?
    ensures !EarlyExit(user, address, geocode) ==> r.response.status == 200 && r.response.body.FoundBody?
    // a found answer reports the first match's state and districts, and the
    // store is what the save loop leaves after the representatives found
    ensures !EarlyExit(user, address, geocode) ==>
      var m := geocode(address.s).matches.value[0];
      var out := SaveAll(db, user.value, FoundReps(address, geocode, dirs), rejects);
      r == Handled(Response(200, FoundBody(m.state.s, |out.saved|, DistrictsOf(m.geographies))), out.db)
  {
    if user.None? then Handled(Response(401, ErrorBody("Unauthorized")), db)
    else if !Truthy(address) then Handled(Response(400, ErrorBody("Address is required")), db)
    else
      match geocode(address.s)
      case CensusFailed(message) => Handled(Response(500, ErrorBody(message)), db)
      case CensusOk(matches) =>
        if matches.None? || matches.value == [] then Handled(Response(200, NotFoundBody(NoAddressMatch)), db)
        else
          var m := matches.value[0];
          if !Truthy(m.state) then Handled(Response(200, NotFoundBody(NoState)), db)
          else
            var districts := DistrictsOf(m.geographies);
            var reps := Flattened(LookupOutcomes(m.state.s, districts, dirs));
            var out := SaveAll(db, user.value, reps, rejects);
            Handled(Response(200, FoundBody(m.state.s, |out.saved|, districts)), out.db)
  }

  /** The representatives a request that got past the early exits saves. */
  function FoundReps(address: Val, geocode: string -> CensusReply, dirs: Directories): seq<Rep>
    requires Truthy(address) && geocode(address.s).CensusOk?
    requires geocode(address.s).matches.Some? && geocode(address.s).matches.value != []
    requires Truthy(geocode(address.s).matches.value[0].state)
  {
    var m := geocode(address.s).matches.value[0];
    Flattened(LookupOutcomes(m.state.s, DistrictsOf(m.geographies), dirs))
  }

  /** Early answers consult no directory and write nothing: the answer is
      the same whatever the directories and the database would do. */
  lemma EarlyExitsLookNothingUp(user: Option<string>, address: Val, geocode: string -> CensusReply,
                                dirs1: Directories, dirs2: Directories, db: Db,
                                rejects1: Rep -> bool, rejects2: Rep -> bool)
    requires EarlyExit(user, address, geocode)
    ensures Handle(user, address, geocode, dirs1, db, rejects1) == Handle(user, address, geocode, dirs2, db, rejects2)
  {
  }

  /** An address the geocoder does not match, with an empty or a missing
      `addressMatches`, gets exactly the not-found answer. */
  lemma UnmatchedAddress(user: string, address: Val, geocode: string -> CensusReply, dirs: Directories,
                         db: Db, rejects: Rep -> bool)
    requires Truthy(address) && (geocode(address.s) == CensusOk(Some([])) || geocode(address.s) == CensusOk(None))
    ensures Handle(Some(user), address, geocode, dirs, db, rejects).response == Response(200, NotFoundBody(NoAddressMatch))
  {
  }

  /** `saved_count` counts the representatives that obtained an id: at most
      all of them, and all of them when no insert is refused. */
  lemma SavedCount(user: string, address: Val, geocode: string -> CensusReply, dirs: Directories,
                   db: Db, rejects: Rep -> bool)
    requires !EarlyExit(Some(user), address, geocode)
    ensures var reps := FoundReps(address, geocode, dirs);
      var body := Handle(Some(user), address, geocode, dirs, db, rejects).response.body;
      && body.savedCount <= |reps|
      && ((forall q :: q in reps ==> !rejects(q)) ==> body.savedCount == |reps|)
  {
    var reps := FoundReps(address, geocode, dirs);
    if forall q :: q in reps ==> !rejects(q) {
      SaveAllWithoutFailures(db, user, reps, rejects);
    }
  }

  /** Repeating a lookup for the same user and address against the store
      the first request left inserts no row and adds no link. */
  lemma RepeatedLookupIsIdempotent(user: string, address: Val, geocode: string -> CensusReply,
                                   dirs: Directories, db: Db, rejects: Rep -> bool)
    requires !EarlyExit(Some(user), address, geocode)
    requires Inv(db, FoundReps(address, geocode, dirs))
    ensures var first := Handle(Some(user), address, geocode, dirs, db, rejects).db;
      var second := Handle(Some(user), address, geocode, dirs, first, rejects).db;
      |second.rows| == |first.rows| && second.links == first.links
  {
    RerunIsIdempotent(db, user, FoundReps(address, geocode, dirs), rejects);
  }

  /** `POST`: the handler over the store. */
  method Post(store: Store, user: Option<string>, address: Val, geocode: string -> CensusReply,
              dirs: Directories, rejects: Rep -> bool) returns (response: Response)
    modifies store
    ensures Handled(response, store.State()) == Handle(user, address, geocode, dirs, old(store.State()), rejects)
  {
    if user.None? {
      return Response(401, ErrorBody("Unauthorized"));
    }
    if !Truthy(address) {
      return Response(400, ErrorBody("Address is required"));
    }
    var census := geocode(address.s);
    if census.CensusFailed? {
      return Response(500, ErrorBody(census.message));
    }
    var matches := census.matches;
    if matches.None? || matches.value == [] {
      return Response(200, NotFoundBody(NoAddressMatch));
    }
    var m := matches.value[0];
    if !Truthy(m.state) {
      return Response(200, NotFoundBody(NoState));
    }
    var districts := DistrictsOf(m.geographies);
    var outcomes := LookupOutcomes(m.state.s, districts, dirs);
    var allReps := FlattenOutcomes(outcomes);
    var saved := SaveReps(store, user.value, allReps, rejects);
    response := Response(200, FoundBody(m.state.s, |saved|, districts));
  }
}
