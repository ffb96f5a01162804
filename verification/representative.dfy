/** The uniform representative record that both directory adapters produce,
    that the lookup route stores in the `representatives` table and that the
    "My Representatives" page reads back. */
module Representatives {
  import opened JsValues

  /** One representative. Properties that an adapter may leave off the object
      (`party`, `bioguide_id`, `email`, ...) are `Val`s; `Undefined` means the
      key is absent, so an insert or update does not write that column. */
  datatype Rep = Rep(
    name: string,
    role: string,
    level: string,
    party: Val,
    state: string,
    district: Val,
    photoUrl: Val,
    bioguideId: Val,
    phone: Val,
    email: Val,
    website: Val)

  const FederalRoles: set<string> := {"Representative", "Senator"}
  const StateRoles: set<string> := {"State Senator", "State Representative", "Governor"}
}
