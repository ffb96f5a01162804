/** The federal directory adapter (app/api/reps/lookup/federal.ts): choosing
    the House member for a district and the senators of a state from the
    Congress.gov member list, and normalising a member and its detail record
    into a representative. The two fetch helpers are inputs: the member list
    as a `Reply`, the detail lookup as a function of the bioguide id. */
module Federal {
  import opened JsValues
  import opened Text
  import opened Seqs
  import opened Representatives

  /** One entry of a member's `terms.item`. */
  datatype TermItem = TermItem(chamber: Val, district: Option<nat>, phone: Val, url: Val)

  /** `terms.item`: missing (or no `terms` at all), a single object, or an array. */
  datatype Terms = NoTerms | Single(item: TermItem) | Items(items: seq<TermItem>)

  /** A member as the member list returns it. */
  datatype Member = Member(
    name: string,
    partyName: Val,
    state: string,
    district: Option<nat>,
    chamber: Val,
    terms: Terms,
    bioguideId: Val,
    url: Val,
    imageUrl: Val)   // depiction.imageUrl

  /** The detail record of one member: `addressInformation.phoneNumber` and `terms`. */
  datatype Detail = Detail(phoneNumber: Val, terms: Terms)

  /** `Array.isArray(item) ? item : [item]` */
  function TermList(t: Terms): seq<TermItem> {
    match t
    case NoTerms => []
    case Single(item) => [item]
    case Items(items) => items
  }

  /** `items[items.length - 1]`, undefined for an empty array. */
  function Latest(t: Terms): (r: Option<TermItem>)
    ensures r.Some? <==> TermList(t) != []
    ensures r.Some? ==> r.value == TermList(t)[|TermList(t)| - 1]
  {
    var items := TermList(t);
    if items == [] then None else Some(items[|items| - 1])
  }

  /** `String(d)` for a numeric district that may be missing. */
  function DistrictText(d: Option<nat>): string {
    match d
    case None => "undefined"
    case Some(n) => NatToString(n)
  }

  /** The predicate `getHouseRep` passes to `find`: the member's own district
      is truthy and equal as text, or its latest term is a House term for
      that district. */
  predicate IsHouseMatch(m: Member, district: Val) {
    || (m.district.Some? && m.district.value != 0 && NatToString(m.district.value) == ToText(district))
    || (m.terms != NoTerms && Latest(m.terms).Some?
        && Latest(m.terms).value.chamber == Str("House")
        && DistrictText(Latest(m.terms).value.district) == ToText(district))
  }

  /** The predicate `getSenators` passes to `filter`. */
  predicate IsSenator(m: Member) {
    if m.terms != NoTerms then Latest(m.terms).Some? && Latest(m.terms).value.chamber == Str("Senate")
    else m.chamber == Str("Senate")
  }

  /** The detail record has no truthy phone number but has a term list, so
      the last term is consulted. */
  predicate UsesLastTerm(detail: Option<Detail>) {
    detail.Some? && !Truthy(detail.value.phoneNumber) && detail.value.terms != NoTerms
  }

  /** `normalizeMember`. Reading the last term of an empty term array throws,
      which rejects the lookup that called it. */
  function NormalizeMember(basic: Member, detail: Option<Detail>, role: string, district: Val): (r: Settled<Rep>)
    ensures r.Rejected? <==> UsesLastTerm(detail) && TermList(detail.value.terms) == []
    ensures r.Fulfilled? ==>
      && r.value.level == "federal" && r.value.role == role && r.value.district == district
      && r.value.name == basic.name && r.value.party == basic.partyName && r.value.state == basic.state
      && r.value.bioguideId == basic.bioguideId && r.value.email == Undefined
      && r.value.photoUrl == OrNull(basic.imageUrl)
    // the detail's own phone number wins, and then the website stays the member's url
    ensures r.Fulfilled? && detail.Some? && Truthy(detail.value.phoneNumber) ==>
      r.value.phone == detail.value.phoneNumber && r.value.website == OrNull(basic.url)
    // otherwise the last term's truthy phone and url are used
    ensures r.Fulfilled? && UsesLastTerm(detail) ==>
      var last := Latest(detail.value.terms).value;
      && r.value.phone == (if Truthy(last.phone) then last.phone else Null)
      && r.value.website == (if Truthy(last.url) then last.url else OrNull(basic.url))
    ensures r.Fulfilled? && (detail.None? || (!Truthy(detail.value.phoneNumber) && detail.value.terms == NoTerms)) ==>
      r.value.phone == Null && r.value.website == OrNull(basic.url)
    // contact fields are always null or a non-empty string
    ensures r.Fulfilled? ==> (r.value.phone == Null || Truthy(r.value.phone))
    ensures r.Fulfilled? ==> (r.value.website == Null || Truthy(r.value.website))
  {
    var phone := if detail.Some? && Truthy(detail.value.phoneNumber) then detail.value.phoneNumber else Null;
    var website := OrNull(basic.url);
    if UsesLastTerm(detail) then
      var items := TermList(detail.value.terms);
      if items == [] then Rejected
      else
        var last := items[|items| - 1];
        Fulfilled(Record(basic, role, district,
                         if Truthy(last.phone) then last.phone else phone,
                         if Truthy(last.url) then last.url else website))
    else
      Fulfilled(Record(basic, role, district, phone, website))
  }

  function Record(basic: Member, role: string, district: Val, phone: Val, website: Val): Rep {
    Rep(name := basic.name, role := role, level := "federal", party := basic.partyName,
        state := basic.state, district := district, photoUrl := OrNull(basic.imageUrl),
        bioguideId := basic.bioguideId, phone := phone, email := Undefined, website := website)
  }

  /** `getHouseRep`: the first member matching the district, normalised with
      its detail record; `null` when no member matches. */
  function GetHouseRep(members: seq<Member>, details: Val -> Option<Detail>, district: Val): (r: Settled<Option<Rep>>)
    ensures r == Fulfilled(None) <==> forall i :: 0 <= i < |members| ==> !IsHouseMatch(members[i], district)
    ensures r.Fulfilled? && r.value.Some? ==>
      exists i :: 0 <= i < |members| && IsHouseMatch(members[i], district)
        && (forall j :: 0 <= j < i ==> !IsHouseMatch(members[j], district))
        && r.value.value.bioguideId == members[i].bioguideId && r.value.value.name == members[i].name
    ensures r.Fulfilled? && r.value.Some? ==>
      r.value.value.role == "Representative" && r.value.value.level == "federal" && r.value.value.district == district
    // otherwise the first match is normalised with its own detail record: the
    // lookup rejects exactly when that normalisation throws, else gives its record
    ensures r != Fulfilled(None) ==>
      exists i :: 0 <= i < |members| && IsHouseMatch(members[i], district)
        && (forall j :: 0 <= j < i ==> !IsHouseMatch(members[j], district))
        && NormalizeMember(members[i], details(members[i].bioguideId), "Representative", district)
           == (if r.Rejected? then Rejected else Fulfilled(r.value.value))
  {
    match Find(members, m => IsHouseMatch(m, district))
    case None => Fulfilled(None)
    case Some(i) =>
      match NormalizeMember(members[i], details(members[i].bioguideId), "Representative", district)
      case Rejected => Rejected
      case Fulfilled(rep) => Fulfilled(Some(rep))
  }

  /** Normalising this member as a senator throws. */
  predicate SenatorThrows(m: Member, details: Val -> Option<Detail>) {
    NormalizeMember(m, details(m.bioguideId), "Senator", Str("Statewide")).Rejected?
  }

  /** Normalising one of these members as a senator throws. */
  predicate SomeSenatorThrows(ms: seq<Member>, details: Val -> Option<Detail>) {
    exists i :: 0 <= i < |ms| && SenatorThrows(ms[i], details)
  }

  /** `Promise.all` over the normalised senators: rejected as soon as one
      normalisation throws. */
  function NormalizeSenators(ms: seq<Member>, details: Val -> Option<Detail>): (r: Settled<seq<Rep>>)
    ensures r.Rejected? <==> SomeSenatorThrows(ms, details)
    ensures r.Fulfilled? ==> |r.value| == |ms|
    ensures r.Fulfilled? ==> forall i :: 0 <= i < |ms| ==>
      && r.value[i].role == "Senator" && r.value[i].district == Str("Statewide") && r.value[i].level == "federal"
      && r.value[i].name == ms[i].name && r.value[i].bioguideId == ms[i].bioguideId
    // each senator is exactly its member's normalised record
    ensures r.Fulfilled? ==> forall i :: 0 <= i < |ms| ==>
      NormalizeMember(ms[i], details(ms[i].bioguideId), "Senator", Str("Statewide")) == Fulfilled(r.value[i])
  {
    if ms == [] then Fulfilled([])
    else
      match NormalizeMember(ms[0], details(ms[0].bioguideId), "Senator", Str("Statewide"))
      case Rejected => Rejected
      case Fulfilled(first) =>
        match NormalizeSenators(ms[1..], details)
        case Rejected => Rejected
        case Fulfilled(rest) => Fulfilled([first] + rest)
  }

  /** `getSenators`: the senators among the members, in list order, each as
      a "Senator" for "Statewide". */
  function GetSenators(members: seq<Member>, details: Val -> Option<Detail>): (r: Settled<seq<Rep>>)
    ensures r.Fulfilled? ==> |r.value| == |Filter(members, IsSenator)|
    ensures r.Fulfilled? ==> forall i :: 0 <= i < |r.value| ==>
      && IsSenator(Filter(members, IsSenator)[i])
      && r.value[i].bioguideId == Filter(members, IsSenator)[i].bioguideId
      && r.value[i].role == "Senator" && r.value[i].district == Str("Statewide")
    ensures r.Rejected? <==> SomeSenatorThrows(Filter(members, IsSenator), details)
    ensures var senators := Filter(members, IsSenator);
      r.Fulfilled? ==> forall i :: 0 <= i < |senators| ==>
        NormalizeMember(senators[i], details(senators[i].bioguideId), "Senator", Str("Statewide")) == Fulfilled(r.value[i])
  {
    NormalizeSenators(Filter(members, IsSenator), details)
  }

  /** A missing API key, a failed response or a fetch exception leave the
      member list empty: no House member and no senators. */
  lemma FailedFetchFindsNobody(reply: Reply<Member>, details: Val -> Option<Detail>, district: Val)
    requires !reply.Ok?
    ensures GetHouseRep(ListOf(reply), details, district) == Fulfilled(None)
    ensures GetSenators(ListOf(reply), details) == Fulfilled([])
  {
  }

  /** A single `terms.item` object is treated exactly like a one-element array. */
  lemma SingleTermIsOneElementList(basic: Member, item: TermItem, phone: Val, role: string, district: Val)
    ensures NormalizeMember(basic, Some(Detail(phone, Single(item))), role, district)
         == NormalizeMember(basic, Some(Detail(phone, Items([item]))), role, district)
    ensures forall m: Member :: m.terms == Single(item) ==>
      (IsSenator(m) <==> IsSenator(m.(terms := Items([item]))))
  {
  }

  /** `normalizeMember` throws on an empty term array, while the House match
      predicate simply does not match through it. */
  lemma EmptyTermsTolerance(basic: Member, district: Val)
    ensures NormalizeMember(basic, Some(Detail(Null, Items([]))), "Representative", district).Rejected?
    ensures IsHouseMatch(basic.(terms := Items([])), district) <==>
      basic.district.Some? && basic.district.value != 0 && NatToString(basic.district.value) == ToText(district)
  {
  }

  /** A House lookup for a district that could not be determined (`null`)
      finds no member: no decimal district and no "undefined" equals "null". */
  lemma NullDistrictFindsNoHouseMember(members: seq<Member>, details: Val -> Option<Detail>)
    ensures GetHouseRep(members, details, Null) == Fulfilled(None)
  {
    forall i | 0 <= i < |members|
      ensures !IsHouseMatch(members[i], Null)
    {
      var m := members[i];
      if m.district.Some? {
        assert IsDigit(NatToString(m.district.value)[0]);
      }
      var l := Latest(m.terms);
      if l.Some? && l.value.district.Some? {
        assert IsDigit(NatToString(l.value.district.value)[0]);
      }
    }
  }
}
