/** The state directory adapter (app/api/reps/lookup/state.ts): the
    state legislator for a district and chamber, the governor by a
    two-strategy search, and the normalisation of an OpenStates person. The
    OpenStates searches are inputs: functions from the query the adapter
    builds to the reply the service gives. */
module StateDirectory {
  import opened JsValues
  import opened Text
  import opened Seqs
  import opened Representatives

  datatype Office = Office(classification: Val, voice: Val, email: Val)

  datatype Link = Link(url: Val)

  /** An OpenStates person; `roleTitle` is `current_role.title`. */
  datatype Person = Person(
    name: string,
    party: Val,
    email: Val,
    offices: seq<Office>,
    image: Val,
    links: seq<Link>,
    roleTitle: Val)

  datatype Org = Org(id: string, name: string)

  datatype Chamber = UpperChamber | LowerChamber

  /** The searches of the `people` endpoint the adapter issues. */
  datatype PeopleQuery =
    | Legislators(jurisdiction: string, district: string, orgClassification: string)
    | Executives(jurisdiction: string)
    | OrgMembers(orgId: string)

  /** The search of the `organizations` endpoint. */
  datatype OrgQuery = ExecutiveOrgs(jurisdiction: string)

  const JurisdictionPrefix := "ocd-jurisdiction/country:us/state:"
  const JurisdictionSuffix := "/government"

  /** The Open Civic Data jurisdiction identifier of a state's government. */
  function Jurisdiction(stateAbbr: string): (r: string)
    ensures |r| == |JurisdictionPrefix| + |stateAbbr| + |JurisdictionSuffix|
    ensures JurisdictionPrefix <= r
    ensures r[|JurisdictionPrefix|..|r| - |JurisdictionSuffix|] == Lower(stateAbbr)
    ensures r[|r| - |JurisdictionSuffix|..] == JurisdictionSuffix
  {
    JurisdictionPrefix + Lower(stateAbbr) + JurisdictionSuffix
  }

  /** The identifier does not depend on the case of the abbreviation. */
  lemma JurisdictionIgnoresCase(stateAbbr: string)
    ensures Jurisdiction(Lower(stateAbbr)) == Jurisdiction(stateAbbr)
  {
    LowerIdempotent(stateAbbr);
  }

  predicate HasClassification(o: Office, c: string) {
    o.classification == Str(c)
  }

  /** The office whose contacts are used: the first capitol office, else the
      first district office, else the first office. */
  function ChosenOffice(offices: seq<Office>): (r: Office)
    requires offices != []
    ensures r in offices
    ensures (exists i :: 0 <= i < |offices| && HasClassification(offices[i], "capitol")) ==>
      HasClassification(r, "capitol")
    ensures ((forall i :: 0 <= i < |offices| ==> !HasClassification(offices[i], "capitol"))
             && (exists i :: 0 <= i < |offices| && HasClassification(offices[i], "district"))) ==>
      HasClassification(r, "district")
    ensures (forall i :: 0 <= i < |offices| ==> !HasClassification(offices[i], "capitol") && !HasClassification(offices[i], "district")) ==>
      r == offices[0]
    // the first capitol office, and without one the first district office
    ensures forall i :: 0 <= i < |offices| && HasClassification(offices[i], "capitol")
                        && (forall j :: 0 <= j < i ==> !HasClassification(offices[j], "capitol")) ==>
      r == offices[i]
    ensures (forall k :: 0 <= k < |offices| ==> !HasClassification(offices[k], "capitol")) ==>
      forall i :: 0 <= i < |offices| && HasClassification(offices[i], "district")
                  && (forall j :: 0 <= j < i ==> !HasClassification(offices[j], "district")) ==>
        r == offices[i]
  {
    match Find(offices, o => HasClassification(o, "capitol"))
    case Some(i) => offices[i]
    case None =>
      match Find(offices, o => HasClassification(o, "district"))
      case Some(j) => offices[j]
      case None => offices[0]
  }

  /** `normalizeStateRep` */
  function NormalizeStateRep(person: Person, role: string, stateAbbr: string, district: string): (r: Rep)
    ensures r.level == "state" && r.role == role && r.state == stateAbbr && r.district == Str(district)
    ensures r.name == person.name && r.party == person.party && r.bioguideId == Undefined
    ensures r.photoUrl == OrNull(person.image)
    ensures r.website == (if person.links == [] then Null else OrNull(person.links[0].url))
    // phone: the chosen office's voice number, else null
    ensures person.offices == [] ==> r.phone == Null
    ensures person.offices != [] ==>
      r.phone == (if Truthy(ChosenOffice(person.offices).voice) then ChosenOffice(person.offices).voice else Null)
    // email: the person's own, falling back to the chosen office's only when the person has none
    ensures Truthy(person.email) ==> r.email == person.email
    ensures !Truthy(person.email) && person.offices != [] && Truthy(ChosenOffice(person.offices).email) ==>
      r.email == ChosenOffice(person.offices).email
    ensures !Truthy(person.email) && (person.offices == [] || !Truthy(ChosenOffice(person.offices).email)) ==>
      r.email == Null
    ensures r.email == Null || Truthy(r.email)
    ensures r.phone == Null || Truthy(r.phone)
  {
    var email := OrNull(person.email);
    var phoneAndEmail :=
      if person.offices != [] then
        var office := ChosenOffice(person.offices);
        (if Truthy(office.voice) then office.voice else Null,
         if !Truthy(email) && Truthy(office.email) then office.email else email)
      else (Null, email);
    Rep(name := person.name, role := role, level := "state", party := person.party,
        state := stateAbbr, district := Str(district), photoUrl := OrNull(person.image),
        bioguideId := Undefined, phone := phoneAndEmail.0, email := phoneAndEmail.1,
        website := if person.links == [] then Null else OrNull(person.links[0].url))
  }

  function ChamberName(c: Chamber): string {
    match c
    case UpperChamber => "upper"
    case LowerChamber => "lower"
  }

  function RoleName(c: Chamber): (r: string)
    ensures r in StateRoles
    ensures c == UpperChamber <==> r == "State Senator"
    ensures c == LowerChamber <==> r == "State Representative"
  {
    assert "State Senator"[6] != "State Representative"[6];
    match c
    case UpperChamber => "State Senator"
    case LowerChamber => "State Representative"
  }

  /** The legislator search `getStateRep` issues; none for a falsy district. */
  function LegislatorQuery(stateAbbr: string, districtNum: Val, chamber: Chamber): (r: Option<PeopleQuery>)
    ensures r.None? <==> !Truthy(districtNum)
    ensures r.Some? ==>
      r.value == Legislators(Jurisdiction(stateAbbr), IntegerText(districtNum.s), ChamberName(chamber))
  {
    if !Truthy(districtNum) then None
    else Some(Legislators(Jurisdiction(stateAbbr), IntegerText(districtNum.s), ChamberName(chamber)))
  }

  /** `getStateRep`: the first person the search returns, normalised with the
      chamber's role name and the canonical district number. */
  function GetStateRep(stateAbbr: string, districtNum: Val, chamber: Chamber,
                       people: PeopleQuery -> Reply<Person>): (r: Option<Rep>)
    ensures !Truthy(districtNum) ==> r.None?
    ensures Truthy(districtNum) ==>
      var results := ListOf(people(LegislatorQuery(stateAbbr, districtNum, chamber).value));
      (r.None? <==> results == [])
      && (r.Some? ==> r.value.name == results[0].name)
      && (results != [] ==>
            r == Some(NormalizeStateRep(results[0], RoleName(chamber), stateAbbr, IntegerText(districtNum.s))))
    ensures r.Some? ==>
      && r.value.role == RoleName(chamber) && r.value.level == "state" && r.value.state == stateAbbr
      && r.value.district == Str(IntegerText(districtNum.s)) && !Truthy(r.value.bioguideId)
  {
    match LegislatorQuery(stateAbbr, districtNum, chamber)
    case None => None
    case Some(query) =>
      var results := ListOf(people(query));
      if results == [] then None
      else Some(NormalizeStateRep(results[0], RoleName(chamber), stateAbbr, IntegerText(districtNum.s)))
  }

  /** A falsy district is answered without any search: the result is the
      same whatever the directory would have returned. */
  lemma FalsyDistrictSearchesNothing(stateAbbr: string, districtNum: Val, chamber: Chamber,
                                     people1: PeopleQuery -> Reply<Person>, people2: PeopleQuery -> Reply<Person>)
    requires !Truthy(districtNum)
    ensures GetStateRep(stateAbbr, districtNum, chamber, people1) == None
    ensures GetStateRep(stateAbbr, districtNum, chamber, people1) == GetStateRep(stateAbbr, districtNum, chamber, people2)
  {
  }

  /** Districts that differ only in leading zeros search for the same
      canonical district, e.g. "04" and "4". */
  lemma LeadingZeroSameSearch(stateAbbr: string, digits: string, chamber: Chamber)
    requires digits != [] && AllDigits(digits)
    ensures LegislatorQuery(stateAbbr, Str("0" + digits), chamber) == LegislatorQuery(stateAbbr, Str(digits), chamber)
  {
    IntegerTextLeadingZero(digits);
  }

  /** The stored district of a legislator is already canonical. */
  lemma StoredDistrictIsCanonical(stateAbbr: string, districtNum: Val, chamber: Chamber,
                                  people: PeopleQuery -> Reply<Person>)
    requires GetStateRep(stateAbbr, districtNum, chamber, people).Some?
    ensures var d := GetStateRep(stateAbbr, districtNum, chamber, people).value.district.s;
      IntegerText(d) == d
  {
    IntegerTextIdempotent(districtNum.s);
  }

  // ----------------------------------------------------------- governor

  /** `p.current_role?.title?.toLowerCase().includes('governor')` */
  predicate IsGovernorTitled(p: Person) {
    p.roleTitle.Str? && Contains(Lower(p.roleTitle.s), "governor")
  }

  predicate IsGovernorOrg(o: Org) {
    Contains(Lower(o.name), "governor")
  }

  /** Strategy A: the first executive whose title mentions "governor". */
  function StrategyA(jurisdiction: string, people: PeopleQuery -> Reply<Person>): (r: Option<Person>)
    ensures r.Some? ==> IsGovernorTitled(r.value) && r.value in ListOf(people(Executives(jurisdiction)))
    ensures r.None? <==> forall p :: p in ListOf(people(Executives(jurisdiction))) ==> !IsGovernorTitled(p)
    ensures var results := ListOf(people(Executives(jurisdiction)));
      forall i :: 0 <= i < |results| && IsGovernorTitled(results[i])
                  && (forall j :: 0 <= j < i ==> !IsGovernorTitled(results[j])) ==>
        r == Some(results[i])
  {
    var results := ListOf(people(Executives(jurisdiction)));
    match Find(results, IsGovernorTitled)
    case None => None
    case Some(i) => Some(results[i])
  }

  /** The organisation strategy B searches: the first whose name mentions
      "governor", else the first. */
  function GovernorOrg(orgs: seq<Org>): (r: Option<Org>)
    ensures r.None? <==> orgs == []
    ensures r.Some? ==> r.value in orgs
    ensures (exists o :: o in orgs && IsGovernorOrg(o)) ==> r.Some? && IsGovernorOrg(r.value)
    ensures (forall o :: o in orgs ==> !IsGovernorOrg(o)) && orgs != [] ==> r == Some(orgs[0])
    ensures forall i :: 0 <= i < |orgs| && IsGovernorOrg(orgs[i]) && (forall j :: 0 <= j < i ==> !IsGovernorOrg(orgs[j])) ==>
      r == Some(orgs[i])
  {
    match Find(orgs, IsGovernorOrg)
    case Some(i) => Some(orgs[i])
    case None => if orgs == [] then None else Some(orgs[0])
  }

  /** The member strategy B takes from the organisation's members: the first
      whose title mentions "governor", else the first. */
  function GovernorMember(members: seq<Person>): (r: Option<Person>)
    ensures r.None? <==> members == []
    ensures r.Some? ==> r.value in members
    ensures (exists p :: p in members && IsGovernorTitled(p)) ==> r.Some? && IsGovernorTitled(r.value)
    ensures (forall p :: p in members ==> !IsGovernorTitled(p)) && members != [] ==> r == Some(members[0])
    ensures forall i :: 0 <= i < |members| && IsGovernorTitled(members[i])
                        && (forall j :: 0 <= j < i ==> !IsGovernorTitled(members[j])) ==>
      r == Some(members[i])
  {
    match Find(members, IsGovernorTitled)
    case Some(i) => Some(members[i])
    case None => if members == [] then None else Some(members[0])
  }

  /** Strategy B: the governor-like executive organisation, then its
      governor member. */
  function StrategyB(jurisdiction: string, people: PeopleQuery -> Reply<Person>,
                     orgs: OrgQuery -> Reply<Org>): (r: Option<Person>)
    ensures r.None? <==>
      GovernorOrg(ListOf(orgs(ExecutiveOrgs(jurisdiction)))).None?
      || ListOf(people(OrgMembers(GovernorOrg(ListOf(orgs(ExecutiveOrgs(jurisdiction)))).value.id))) == []
    ensures r.Some? ==>
      var members := ListOf(people(OrgMembers(GovernorOrg(ListOf(orgs(ExecutiveOrgs(jurisdiction)))).value.id)));
      r.value in members
      && ((exists p :: p in members && IsGovernorTitled(p)) ==> IsGovernorTitled(r.value))
      && ((forall p :: p in members ==> !IsGovernorTitled(p)) ==> r.value == members[0])
    ensures GovernorOrg(ListOf(orgs(ExecutiveOrgs(jurisdiction)))).Some? ==>
      var members := ListOf(people(OrgMembers(GovernorOrg(ListOf(orgs(ExecutiveOrgs(jurisdiction)))).value.id)));
      forall i :: 0 <= i < |members| && IsGovernorTitled(members[i])
                  && (forall j :: 0 <= j < i ==> !IsGovernorTitled(members[j])) ==>
        r == Some(members[i])
  {
    match GovernorOrg(ListOf(orgs(ExecutiveOrgs(jurisdiction))))
    case None => None
    case Some(org) => GovernorMember(ListOf(people(OrgMembers(org.id))))
  }

  /** `getGovernor`: strategy A, then strategy B only when A found nobody;
      the person is normalised as "Governor" for "Statewide". */
  function GetGovernor(stateAbbr: string, people: PeopleQuery -> Reply<Person>,
                       orgs: OrgQuery -> Reply<Org>): (r: Option<Rep>)
    ensures r.Some? ==> r.value.role == "Governor" && r.value.district == Str("Statewide")
                        && r.value.level == "state" && r.value.state == stateAbbr
    ensures r.None? <==> StrategyA(Jurisdiction(stateAbbr), people).None?
                         && StrategyB(Jurisdiction(stateAbbr), people, orgs).None?
    // the record is the normalised person the first successful strategy found
    ensures r.Some? ==>
      var a := StrategyA(Jurisdiction(stateAbbr), people);
      var governor := if a.Some? then a.value else StrategyB(Jurisdiction(stateAbbr), people, orgs).value;
      r.value == NormalizeStateRep(governor, "Governor", stateAbbr, "Statewide")
  {
    var jurisdiction := Jurisdiction(stateAbbr);
    var governor := match StrategyA(jurisdiction, people)
      case Some(p) => Some(p)
      case None => StrategyB(jurisdiction, people, orgs);
    match governor
    case None => None
    case Some(p) => Some(NormalizeStateRep(p, "Governor", stateAbbr, "Statewide"))
  }

  /** Strategy B is not consulted when strategy A finds a governor: the
      organisation search and its member search cannot change the result. */
  lemma StrategyBOnlyAfterA(stateAbbr: string, people: PeopleQuery -> Reply<Person>,
                            orgs1: OrgQuery -> Reply<Org>, orgs2: OrgQuery -> Reply<Org>)
    requires StrategyA(Jurisdiction(stateAbbr), people).Some?
    ensures GetGovernor(stateAbbr, people, orgs1) == GetGovernor(stateAbbr, people, orgs2)
    ensures GetGovernor(stateAbbr, people, orgs1).Some?
  {
  }

  /** When strategy A finds nobody, an executive organisation with at least
      one member yields a governor. */
  lemma StrategyBFindsGovernor(stateAbbr: string, people: PeopleQuery -> Reply<Person>,
                               orgs: OrgQuery -> Reply<Org>)
    requires StrategyA(Jurisdiction(stateAbbr), people).None?
    requires ListOf(orgs(ExecutiveOrgs(Jurisdiction(stateAbbr)))) != []
    requires forall id :: ListOf(people(OrgMembers(id))) != []
    ensures GetGovernor(stateAbbr, people, orgs).Some?
  {
  }
}
