/** The profile page's pure helpers (app/profile/page.tsx): toggling a
    civic badge, storing badges and party affiliation together as the
    `civic_roles` list and splitting them apart again on load, and the
    one-line address saved from the address fields. */
module Profile {
  import opened JsValues
  import opened Text
  import opened Seqs

  const Parties: seq<string> := ["Democrat", "Republican", "Independent", "Libertarian", "Green Party", "Unaffiliated"]

  const AvailableBadges: seq<string> := [
    "Veteran \U{1F396}\U{FE0F}", "Parent \U{1F468}\U{200D}\U{1F469}\U{200D}\U{1F467}",
    "Small Business Owner \U{1F4BC}", "Educator \U{1F34E}", "Healthcare Worker \U{1FA7A}",
    "First Responder \U{1F691}", "Union Member \U{1F477}", "Student \U{1F393}"]

  predicate IsParty(r: string) {
    r in Parties
  }

  predicate NotParty(r: string) {
    !IsParty(r)
  }

  /** `toggleBadge`: a badge already chosen is removed (every occurrence),
      any other is appended at the end. */
  function ToggleBadge(badges: seq<string>, badge: string): (r: seq<string>)
    ensures badge in badges ==> badge !in r && forall b :: b in r <==> b in badges && b != badge
    ensures badge in badges ==> r == Filter(badges, b => b != badge)
    ensures badge !in badges ==> r == badges + [badge]
  {
    if badge in badges then Filter(badges, b => b != badge) else badges + [badge]
  }

  /** Toggling a badge that was not chosen twice gives back the list. */
  lemma ToggleAbsentTwice(badges: seq<string>, badge: string)
    requires badge !in badges
    ensures ToggleBadge(ToggleBadge(badges, badge), badge) == badges
  {
    FilterAppend(badges, [badge], b => b != badge);
    FilterKeepsAll(badges, b => b != badge);
    assert Filter([badge], b => b != badge) == [];
  }

  /** Toggling a chosen badge twice moves it, once, to the end. */
  lemma TogglePresentTwice(badges: seq<string>, badge: string)
    requires badge in badges
    ensures ToggleBadge(ToggleBadge(badges, badge), badge) == Filter(badges, b => b != badge) + [badge]
  {
  }

  /** The roles `handleSave` stores: the badges, then the affiliation when one is chosen. */
  function SavedRoles(badges: seq<string>, affiliation: string): (r: seq<string>)
    ensures badges <= r
    ensures affiliation == "" ==> r == badges
    ensures affiliation != "" ==> |r| == |badges| + 1 && r[|badges|] == affiliation
  {
    badges + (if affiliation != "" then [affiliation] else [])
  }

  /** `finalRoles`: a copy of the badges with the affiliation pushed onto it. */
  method FinalRoles(badges: seq<string>, affiliation: string) returns (roles: seq<string>)
    ensures roles == SavedRoles(badges, affiliation)
  {
    roles := badges;
    if affiliation != "" {
      roles := roles + [affiliation];
    }
  }

  datatype RoleFields = RoleFields(affiliation: string, badges: seq<string>)

  /** The affiliation read back: the first role that is a party, or the
      current affiliation when there is none. */
  function Affiliation(roles: seq<string>, current: string): (r: string)
    ensures (forall i :: 0 <= i < |roles| ==> !IsParty(roles[i])) ==> r == current
    ensures forall i :: 0 <= i < |roles| && IsParty(roles[i]) && (forall j :: 0 <= j < i ==> !IsParty(roles[j])) ==>
      r == roles[i]
  {
    match Find(roles, IsParty)
    case Some(i) => roles[i]
    case None => current
  }

  /** On load: the affiliation is the first saved role that is a party (the
      current affiliation stays when there is none), and the badges are the
      other roles in their saved order. A missing list counts as empty. */
  function LoadRoles(saved: Option<seq<string>>, current: string): (r: RoleFields)
    ensures var roles := if saved.Some? then saved.value else [];
      && (forall i :: 0 <= i < |roles| ==> !IsParty(roles[i])) ==> r.affiliation == current
    ensures var roles := if saved.Some? then saved.value else [];
      forall i :: 0 <= i < |roles| && IsParty(roles[i]) && (forall j :: 0 <= j < i ==> !IsParty(roles[j])) ==>
        r.affiliation == roles[i]
    ensures var roles := if saved.Some? then saved.value else [];
      forall b :: b in r.badges <==> b in roles && !IsParty(b)
    // the badges keep the saved order and repeats of the non-party roles
    ensures var roles := if saved.Some? then saved.value else [];
      r.badges == Filter(roles, NotParty)
  {
    var roles := if saved.Some? then saved.value else [];
    RoleFields(Affiliation(roles, current), Filter(roles, NotParty))
  }

  /** Saving badges without a party and an affiliation from the menu
      ("Prefer not to say" or a party), then loading into a fresh form,
      gives back the same badges and affiliation. */
  lemma RolesRoundTrip(badges: seq<string>, affiliation: string)
    requires forall b :: b in badges ==> !IsParty(b)
    requires affiliation == "" || IsParty(affiliation)
    ensures LoadRoles(Some(SavedRoles(badges, affiliation)), "") == RoleFields(affiliation, badges)
  {
    var roles := SavedRoles(badges, affiliation);
    FilterKeepsAll(badges, NotParty);
    if affiliation != "" {
      assert roles == badges + [affiliation];
      FilterAppend(badges, [affiliation], NotParty);
      assert Filter([affiliation], NotParty) == [] by {
        assert [affiliation][1..] == [];
      }
      var f := Find(roles, IsParty);
      assert IsParty(roles[|badges|]);
      assert f.Some? && f.value == |badges|;
    } else {
      assert roles == badges;
      assert Find(roles, IsParty).None? by {
        forall j | 0 <= j < |roles|
          ensures !IsParty(roles[j])
        {
          assert roles[j] in badges;
        }
      }
    }
  }

  /** No available badge is a party name, so any choice of badges meets the
      round trip's condition. */
  lemma BadgesAreNotParties()
    ensures forall b :: b in AvailableBadges ==> !IsParty(b)
  {
  }

  // -------------------------------------------------------------- address

  /** The address saved: `${street}, ${city}, ${state} ${zip}`, trimmed. */
  function CombineAddress(street: string, city: string, state: string, zip: string): (r: string)
    ensures IsTrimmed(r)
    // only white space is cut, and only from the two ends
    ensures TrimmedFrom(r, AddressLine(street, city, state, zip))
  {
    TrimIsTrimmed(AddressLine(street, city, state, zip));
    Trim(AddressLine(street, city, state, zip))
  }

  function AddressLine(street: string, city: string, state: string, zip: string): string {
    street + ", " + city + ", " + state + " " + zip
  }

  datatype AddressFields = AddressFields(street: string, city: string)

  /** On load: the saved address split on commas, each part trimmed; the
      first part is the street and the second, when there is one, the city.
      A missing or empty address leaves the fields as they were. */
  function LoadAddress(address: Val, current: AddressFields): (r: AddressFields)
    ensures !Truthy(address) ==> r == current
    ensures Truthy(address) ==> r.street == Trim(Split(address.s, ',')[0])
    ensures Truthy(address) && |Split(address.s, ',')| >= 2 ==> r.city == Trim(Split(address.s, ',')[1])
    ensures Truthy(address) && |Split(address.s, ',')| < 2 ==> r.city == current.city
  {
    if !Truthy(address) then current
    else
      var parts := Split(address.s, ',');
      var trimmed := seq(|parts|, i requires 0 <= i < |parts| => Trim(parts[i]));
      AddressFields(trimmed[0], if |trimmed| >= 2 then trimmed[1] else current.city)
  }

  /** What stands between the street and the state in a saved address. */
  function CityPart(city: string): string {
    [','] + " " + city + [',']
  }

  lemma AddressLineParts(street: string, city: string, state: string, zip: string)
    ensures AddressLine(street, city, state, zip) == street + CityPart(city) + (" " + state + " " + zip)
  {
  }

  lemma CityPartRegroup(front: string, city: string, back: string)
    ensures front + CityPart(city) + back == front + [','] + (" " + city + [','] + back)
  {
  }

  /** The saved address is the street without its leading white space, a
      comma, a blank and the city, a comma, and the rest without its
      trailing white space. */
  lemma SavedAddressShape(street: string, city: string, state: string, zip: string)
    ensures CombineAddress(street, city, state, zip)
         == TrimStart(street) + [','] + (" " + city + [','] + TrimEnd(" " + state + " " + zip))
  {
    var tail := " " + state + " " + zip;
    var mid := CityPart(city);
    AddressLineParts(street, city, state, zip);
    assert mid[0] == ',' && mid[|mid| - 1] == ',';
    TrimAround(street, mid, tail);
    CityPartRegroup(TrimStart(street), city, TrimEnd(tail));
  }

  /** A blank before a trimmed text is cut by `trim`. */
  lemma TrimBlankBefore(city: string)
    requires IsTrimmed(city)
    ensures Trim(" " + city) == city
  {
    var blank := " ";
    assert IsWhite(blank[0]);
    TrimWhiteBefore(blank, city);
  }

  /** The first two comma-separated parts of a saved address are the street
      and the blank-prefixed city. */
  lemma AddressParts(street: string, city: string, tail: string)
    requires forall i :: 0 <= i < |street| ==> street[i] != ','
    requires forall i :: 0 <= i < |city| ==> city[i] != ','
    ensures var parts := Split(street + [','] + (" " + city + [','] + tail), ',');
      |parts| >= 2 && parts[0] == street && parts[1] == " " + city
  {
    var spaced := " " + city;
    forall i | 0 <= i < |spaced|
      ensures spaced[i] != ','
    {
      if i > 0 {
        assert spaced[i] == city[i - 1];
      }
    }
    SplitFirst(street, ',', spaced + [','] + tail);
    SplitFirst(spaced, ',', tail);
  }

  /** A text laid out as a saved address loads back as its street and city. */
  lemma LoadAddressShape(saved: string, street: string, city: string, tail: string, current: AddressFields)
    requires forall i :: 0 <= i < |street| ==> street[i] != ','
    requires forall i :: 0 <= i < |city| ==> city[i] != ','
    requires IsTrimmed(street) && IsTrimmed(city)
    requires saved == street + [','] + (" " + city + [','] + tail)
    ensures LoadAddress(Str(saved), current) == AddressFields(street, city)
  {
    var parts := Split(saved, ',');
    assert |parts| >= 2 && parts[0] == street && parts[1] == " " + city by {
      AddressParts(street, city, tail);
    }
    assert Truthy(Str(saved)) by {
      assert saved[|street|] == ',';
    }
    TrimmedIsFixed(street);
    TrimBlankBefore(city);
  }

  /** A street and city without commas and without surrounding white space
      load back unchanged from the address they were saved in. */
  lemma AddressRoundTrip(street: string, city: string, state: string, zip: string, current: AddressFields)
    requires forall i :: 0 <= i < |street| ==> street[i] != ','
    requires forall i :: 0 <= i < |city| ==> city[i] != ','
    requires IsTrimmed(street) && IsTrimmed(city)
    ensures LoadAddress(Str(CombineAddress(street, city, state, zip)), current) == AddressFields(street, city)
  {
    SavedAddressShape(street, city, state, zip);
    TrimmedIsFixed(street);
    LoadAddressShape(CombineAddress(street, city, state, zip), street, city,
                     TrimEnd(" " + state + " " + zip), current);
  }
}
