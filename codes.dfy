/** The fixed code tables of the sync script (`ELEMENT_MAP`, `WEAPON_MAP`):
    the catalog's numeric codes for an element and for a weapon type. */
module Codes {
  import opened Wrappers

  const ElementMap: map<string, int> := map[
    "Electric" := 14,
    "Fire" := 17,
    "Grass" := 13,
    "Ice" := 12,
    "Rock" := 15,
    "Water" := 16,
    "Wind" := 11]

  const WeaponMap: map<string, int> := map[
    "WEAPON_SWORD_ONE_HAND" := 5,
    "WEAPON_CLAYMORE" := 3,
    "WEAPON_POLE" := 4,
    "WEAPON_CATALYST" := 2,
    "WEAPON_BOW" := 1]

  /** `ELEMENT_MAP[key]`: a code for the seven element names, nothing
      (`undefined`) for any other key. */
  function ElementCode(key: string): (r: Option<int>)
    ensures r.Some? <==> key in {"Electric", "Fire", "Grass", "Ice", "Rock", "Water", "Wind"}
    ensures r.Some? ==> 11 <= r.value <= 17
  {
    if key in ElementMap then Some(ElementMap[key]) else None
  }

  /** `WEAPON_MAP[key]`: a code for the five weapon types, nothing for any
      other key. */
  function WeaponCode(key: string): (r: Option<int>)
    ensures r.Some? <==> key in {"WEAPON_SWORD_ONE_HAND", "WEAPON_CLAYMORE", "WEAPON_POLE", "WEAPON_CATALYST", "WEAPON_BOW"}
    ensures r.Some? ==> 1 <= r.value <= 5
  {
    if key in WeaponMap then Some(WeaponMap[key]) else None
  }

  /** The table read backwards: which element a code stands for. */
  function ElementName(code: int): Option<string> {
    match code
    case 11 => Some("Wind")
    case 12 => Some("Ice")
    case 13 => Some("Grass")
    case 14 => Some("Electric")
    case 15 => Some("Rock")
    case 16 => Some("Water")
    case 17 => Some("Fire")
    case _ => None
  }

  /** Which weapon type a code stands for. */
  function WeaponName(code: int): Option<string> {
    match code
    case 1 => Some("WEAPON_BOW")
    case 2 => Some("WEAPON_CATALYST")
    case 3 => Some("WEAPON_CLAYMORE")
    case 4 => Some("WEAPON_POLE")
    case 5 => Some("WEAPON_SWORD_ONE_HAND")
    case _ => None
  }

  /** No two elements share a code: the code names its element again, and
      every code from 11 to 17 is used. */
  lemma ElementCodesBijective(key: string, code: int)
    ensures ElementCode(key).Some? ==> ElementName(ElementCode(key).value) == Some(key)
    ensures ElementName(code).Some? ==> ElementCode(ElementName(code).value) == Some(code)
    ensures ElementName(code).Some? <==> 11 <= code <= 17
  {
  }

  /** No two weapon types share a code, and every code from 1 to 5 is used. */
  lemma WeaponCodesBijective(key: string, code: int)
    ensures WeaponCode(key).Some? ==> WeaponName(WeaponCode(key).value) == Some(key)
    ensures WeaponName(code).Some? ==> WeaponCode(WeaponName(code).value) == Some(code)
    ensures WeaponName(code).Some? <==> 1 <= code <= 5
  {
  }
}
