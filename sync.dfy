/** The character and weapon passes of the sync script (`processCharacters`,
    `loadCharacter`, `processWeapons`, `loadWeapon`): which game records are
    kept, which images are fetched for them, and which records end up in
    `characters.json` and `weapons.json`. A fetch is a parameter: it names a
    URL and either delivers the bytes or fails. */
module Sync {
  import opened Wrappers
  import opened Catalog
  import opened Codes
  import opened Naming
  import opened Lists

  /** A character as the game-data client reports it. `elementId` is
      `character.element?.id`; `iconName` and `iconUrl` are
      `character.icon.name` and `character.icon.url`. */
  datatype Character = Character(
    id: int,
    nameId: string,
    stars: int,
    weaponType: string,
    elementId: Option<string>,
    en: string,
    ru: string,
    iconName: string,
    iconUrl: string)

  /** A weapon as the client reports it; `awakenIconName` is `weapon.awakenIcon.name`. */
  datatype Weapon = Weapon(
    id: int,
    nameId: string,
    stars: int,
    weaponType: string,
    en: string,
    ru: string,
    awakenIconName: string)

  const ExcludedIds: seq<int> := []

  const FilteredWeaponIds: seq<int> := [11419, 11420, 11421, 11429, 12304, 13304, 14306, 15306]

  /** The negation of the `continue` guard of line 182: a truthy id, a
      non-empty element id, and an id not excluded. */
  predicate CharacterSelected(c: Character) {
    c.id != 0 && c.elementId.Some? && c.elementId.value != "" && c.id !in ExcludedIds
  }

  /** The negation of the `continue` guard of line 239. */
  predicate WeaponSelected(w: Weapon) {
    w.id != 0 && !(w.stars <= 3) && w.id !in FilteredWeaponIds
  }

  /** A character is processed iff the guard lets it through, and the kept
      characters keep their input order; no id is excluded. */
  lemma SelectedCharacters(data: seq<Character>, more: seq<Character>)
    ensures forall c :: c in Filter(CharacterSelected, data) <==>
      c in data && c.id != 0 && c.elementId.Some? && c.elementId.value != ""
    ensures Filter(CharacterSelected, data + more) == Filter(CharacterSelected, data) + Filter(CharacterSelected, more)
  {
    FilterMembers(CharacterSelected, data);
    FilterAppend(CharacterSelected, data, more);
  }

  /** A weapon is processed iff it has a truthy id, more than three stars and
      an id outside the filtered list; the kept weapons keep their order. */
  lemma SelectedWeapons(data: seq<Weapon>, more: seq<Weapon>)
    ensures forall w :: w in Filter(WeaponSelected, data) <==>
      w in data && w.id != 0 && w.stars > 3 && w.id !in FilteredWeaponIds
    ensures Filter(WeaponSelected, data + more) == Filter(WeaponSelected, data) + Filter(WeaponSelected, more)
  {
    FilterMembers(WeaponSelected, data);
    FilterAppend(WeaponSelected, data, more);
  }

  /** `loadCharacter` for a character that passed the guard: nothing when
      any of its three images could not be fetched; otherwise the catalog
      record, whose image addresses are the published copies named by id. */
  function LoadCharacter(cfg: GitHub, c: Character, fetch: Fetch): (r: Option<Agent>)
    requires c.elementId.Some?
    ensures r.None? <==>
      fetch(c.iconUrl).None? ||
      fetch(GachaCardUrl(IconName(c.iconName), LastIdNumbers(c.id))).None? ||
      fetch(GachaSplashUrl(IconName(c.iconName), LastIdNumbers(c.id))).None?
    ensures r.Some? ==>
      r.value.id == c.id && r.value.code == c.nameId && r.value.rank == c.stars &&
      r.value.kind == WeaponCode(c.weaponType) && r.value.element == ElementCode(c.elementId.value) &&
      r.value.en == c.en && r.value.ru == c.ru &&
      r.value.icon == RawUrl(cfg, CharacterIconPath(c.id)) &&
      r.value.gachaCard == RawUrl(cfg, CharacterGachaCardPath(c.id)) &&
      r.value.gachaSplash == RawUrl(cfg, CharacterGachaSplashPath(c.id))
  {
    var lastIdNumbers := LastIdNumbers(c.id);
    var iconName := IconName(c.iconName);
    var iconBuffer := fetch(c.iconUrl);
    var gachaCardBuffer := fetch(GachaCardUrl(iconName, lastIdNumbers));
    var gachaSplashBuffer := fetch(GachaSplashUrl(iconName, lastIdNumbers));
    if iconBuffer.None? || gachaCardBuffer.None? || gachaSplashBuffer.None? then None
    else
      Some(Agent(
        c.id, c.nameId, c.stars, WeaponCode(c.weaponType), ElementCode(c.elementId.value),
        c.en, c.ru,
        RawUrl(cfg, CharacterIconPath(c.id)),
        RawUrl(cfg, CharacterGachaCardPath(c.id)),
        RawUrl(cfg, CharacterGachaSplashPath(c.id))))
  }

  /** `loadWeapon`: nothing when the icon could not be fetched or converted
      (the promise rejects); otherwise the catalog record pointing at the
      published copy. */
  function LoadWeapon(cfg: GitHub, w: Weapon, fetch: Fetch): (r: Option<Engine>)
    ensures r.None? <==> fetch(WeaponFetchUrl(w.awakenIconName)).None?
    ensures r.Some? ==>
      r.value.id == w.id && r.value.rank == w.stars && r.value.kind == WeaponCode(w.weaponType) &&
      r.value.en == w.en && r.value.ru == w.ru &&
      r.value.icon == RawUrl(cfg, WeaponPath(w.awakenIconName))
  {
    if fetch(WeaponFetchUrl(w.awakenIconName)).None? then None
    else Some(Engine(w.id, w.stars, WeaponCode(w.weaponType), w.en, w.ru, RawUrl(cfg, WeaponPath(w.awakenIconName))))
  }

  /** The `results` array of `processCharacters`: one load per character. */
  function LoadedCharacters(cfg: GitHub, cs: seq<Character>, fetch: Fetch): (r: seq<Option<Agent>>)
    requires forall i :: 0 <= i < |cs| ==> cs[i].elementId.Some?
    ensures |r| == |cs|
  {
    seq(|cs|, i requires 0 <= i < |cs| => LoadCharacter(cfg, cs[i], fetch))
  }

  function LoadedWeapons(cfg: GitHub, ws: seq<Weapon>, fetch: Fetch): (r: seq<Option<Engine>>)
    ensures |r| == |ws|
  {
    seq(|ws|, i requires 0 <= i < |ws| => LoadWeapon(cfg, ws[i], fetch))
  }

  /** What `characters.json` receives: the loaded records of the selected
      characters, in order, with the skipped ones filtered out. */
  function SavedCharacters(cfg: GitHub, data: seq<Character>, fetch: Fetch): seq<Agent> {
    Somes(LoadedCharacters(cfg, Filter(CharacterSelected, data), fetch))
  }

  /** What `weapons.json` receives: every selected weapon's record, or
      nothing at all when one load rejected. */
  function SavedWeapons(cfg: GitHub, data: seq<Weapon>, fetch: Fetch): Option<seq<Engine>> {
    AllPresent(LoadedWeapons(cfg, Filter(WeaponSelected, data), fetch))
  }

  /** One more character through the loop of lines 180-185. */
  lemma LoadedCharactersStep(cfg: GitHub, data: seq<Character>, i: nat, fetch: Fetch)
    requires i < |data|
    ensures LoadedCharacters(cfg, Filter(CharacterSelected, data[..i + 1]), fetch) ==
      LoadedCharacters(cfg, Filter(CharacterSelected, data[..i]), fetch) +
        (if CharacterSelected(data[i]) then [LoadCharacter(cfg, data[i], fetch)] else [])
  {
    assert data[..i + 1][..i] == data[..i];
    var sel := Filter(CharacterSelected, data[..i]);
    if CharacterSelected(data[i]) {
      var sel' := sel + [data[i]];
      assert Filter(CharacterSelected, data[..i + 1]) == sel';
      var l := LoadedCharacters(cfg, sel', fetch);
      var r := LoadedCharacters(cfg, sel, fetch) + [LoadCharacter(cfg, data[i], fetch)];
      assert |l| == |r|;
      forall j | 0 <= j < |l| ensures l[j] == r[j] {
        if j < |sel| {
          assert sel'[j] == sel[j];
        }
      }
    }
  }

  /** One more weapon through the loop of lines 237-242. */
  lemma LoadedWeaponsStep(cfg: GitHub, data: seq<Weapon>, i: nat, fetch: Fetch)
    requires i < |data|
    ensures LoadedWeapons(cfg, Filter(WeaponSelected, data[..i + 1]), fetch) ==
      LoadedWeapons(cfg, Filter(WeaponSelected, data[..i]), fetch) +
        (if WeaponSelected(data[i]) then [LoadWeapon(cfg, data[i], fetch)] else [])
  {
    assert data[..i + 1][..i] == data[..i];
    var sel := Filter(WeaponSelected, data[..i]);
    if WeaponSelected(data[i]) {
      var sel' := sel + [data[i]];
      assert Filter(WeaponSelected, data[..i + 1]) == sel';
      var l := LoadedWeapons(cfg, sel', fetch);
      var r := LoadedWeapons(cfg, sel, fetch) + [LoadWeapon(cfg, data[i], fetch)];
      assert |l| == |r|;
      forall j | 0 <= j < |l| ensures l[j] == r[j] {
        if j < |sel| {
          assert sel'[j] == sel[j];
        }
      }
    }
  }

  /** Lines 172-194: the loop that pushes a load for every selected
      character, then the write of the non-empty results. */
  method ProcessCharacters(cfg: GitHub, data: seq<Character>, fetch: Fetch, isUpdateFile: bool)
    returns (written: Option<seq<Agent>>)
    ensures written == if isUpdateFile then Some(SavedCharacters(cfg, data, fetch)) else None
  {
    var results: seq<Option<Agent>> := [];
    for i := 0 to |data|
      invariant results == LoadedCharacters(cfg, Filter(CharacterSelected, data[..i]), fetch)
    {
      LoadedCharactersStep(cfg, data, i, fetch);
      var character := data[i];
      var id := character.id;
      if id == 0 || character.elementId.None? || character.elementId.value == "" || id in ExcludedIds {
        continue;
      }
      results := results + [LoadCharacter(cfg, character, fetch)];
    }
    assert data[..|data|] == data;
    if isUpdateFile {
      written := Some(Somes(results));
    } else {
      written := None;
    }
  }

  /** Lines 230-251: the same loop for weapons; `Promise.all` rejects as soon
      as one load rejects, and then the file is not written. */
  method ProcessWeapons(cfg: GitHub, data: seq<Weapon>, fetch: Fetch, isUpdateFile: bool)
    returns (written: Option<seq<Engine>>)
    ensures written == if isUpdateFile then SavedWeapons(cfg, data, fetch) else None
  {
    var results: seq<Option<Engine>> := [];
    for i := 0 to |data|
      invariant results == LoadedWeapons(cfg, Filter(WeaponSelected, data[..i]), fetch)
    {
      LoadedWeaponsStep(cfg, data, i, fetch);
      var weapon := data[i];
      var id := weapon.id;
      if id == 0 || weapon.stars <= 3 || id in FilteredWeaponIds {
        continue;
      }
      results := results + [LoadWeapon(cfg, weapon, fetch)];
    }
    assert data[..|data|] == data;
    if isUpdateFile {
      written := AllPresent(results);
    } else {
      written := None;
    }
  }

  /** A record is saved iff it is the load of a selected character all of
      whose images arrived: those with a missing image are dropped. */
  lemma SavedCharactersMembers(cfg: GitHub, data: seq<Character>, fetch: Fetch)
    ensures forall a :: a in SavedCharacters(cfg, data, fetch) <==>
      exists c :: c in data && CharacterSelected(c) && LoadCharacter(cfg, c, fetch) == Some(a)
    ensures |SavedCharacters(cfg, data, fetch)| <= |data|
  {
    var sel := Filter(CharacterSelected, data);
    var rs := LoadedCharacters(cfg, sel, fetch);
    FilterMembers(CharacterSelected, data);
    SomesMembers(rs);
    forall a | a in Somes(rs)
      ensures exists c :: c in data && CharacterSelected(c) && LoadCharacter(cfg, c, fetch) == Some(a)
    {
      SavedFromSelected(cfg, sel, a, data, fetch);
    }
    forall c | c in data && CharacterSelected(c) && LoadCharacter(cfg, c, fetch).Some?
      ensures LoadCharacter(cfg, c, fetch).value in Somes(rs)
    {
      SelectedIsLoaded(cfg, sel, c, fetch);
    }
  }

  lemma SavedFromSelected(cfg: GitHub, sel: seq<Character>, a: Agent, data: seq<Character>, fetch: Fetch)
    requires forall c :: c in sel <==> c in data && CharacterSelected(c)
    requires forall i :: 0 <= i < |sel| ==> sel[i].elementId.Some?
    requires Some(a) in LoadedCharacters(cfg, sel, fetch)
    ensures exists c :: c in data && CharacterSelected(c) && LoadCharacter(cfg, c, fetch) == Some(a)
  {
    var rs := LoadedCharacters(cfg, sel, fetch);
    var i :| 0 <= i < |rs| && rs[i] == Some(a);
    assert sel[i] in sel;
  }

  lemma SelectedIsLoaded(cfg: GitHub, sel: seq<Character>, c: Character, fetch: Fetch)
    requires forall i :: 0 <= i < |sel| ==> sel[i].elementId.Some?
    requires c in sel && c.elementId.Some? && LoadCharacter(cfg, c, fetch).Some?
    ensures Some(LoadCharacter(cfg, c, fetch).value) in LoadedCharacters(cfg, sel, fetch)
  {
    var i :| 0 <= i < |sel| && sel[i] == c;
    assert LoadedCharacters(cfg, sel, fetch)[i] == LoadCharacter(cfg, c, fetch);
  }

  /** A selected character with a missing image leaves no record behind:
      a record saved under its id comes from another selected character
      with that id whose images all arrived. */
  lemma MissingImageDropsCharacter(cfg: GitHub, data: seq<Character>, fetch: Fetch, c: Character)
    requires c in data && CharacterSelected(c)
    requires fetch(c.iconUrl).None? || fetch(GachaCardUrl(IconName(c.iconName), LastIdNumbers(c.id))).None? ||
             fetch(GachaSplashUrl(IconName(c.iconName), LastIdNumbers(c.id))).None?
    ensures LoadCharacter(cfg, c, fetch).None?
    ensures forall a :: a in SavedCharacters(cfg, data, fetch) && a.id == c.id ==>
      exists d :: d in data && d != c && CharacterSelected(d) && LoadCharacter(cfg, d, fetch) == Some(a)
  {
    SavedCharactersMembers(cfg, data, fetch);
  }

  /** `weapons.json` is written all or nothing: it is written iff every
      selected weapon's icon arrived, and then entry `i` is the record of
      the `i`-th selected weapon. */
  lemma SavedWeaponsAllOrNothing(cfg: GitHub, data: seq<Weapon>, fetch: Fetch)
    ensures SavedWeapons(cfg, data, fetch).Some? <==>
      forall w :: w in data && WeaponSelected(w) ==> fetch(WeaponFetchUrl(w.awakenIconName)).Some?
    ensures SavedWeapons(cfg, data, fetch).Some? ==>
      var sel := Filter(WeaponSelected, data);
      var saved := SavedWeapons(cfg, data, fetch).value;
      |saved| == |sel| &&
      forall i :: 0 <= i < |sel| ==> LoadWeapon(cfg, sel[i], fetch) == Some(saved[i])
  {
    var sel := Filter(WeaponSelected, data);
    var rs := LoadedWeapons(cfg, sel, fetch);
    FilterMembers(WeaponSelected, data);
    if forall w :: w in data && WeaponSelected(w) ==> fetch(WeaponFetchUrl(w.awakenIconName)).Some? {
      forall i | 0 <= i < |rs|
        ensures rs[i].Some?
      {
        assert sel[i] in sel;
      }
    } else {
      var w :| w in data && WeaponSelected(w) && fetch(WeaponFetchUrl(w.awakenIconName)).None?;
      var i :| 0 <= i < |sel| && sel[i] == w;
      assert rs[i].None?;
    }
  }

  /** The three character directories are distinct, so no two of a
      character's files share a path. */
  lemma CharacterDirectoriesDistinct(a: int, b: int)
    ensures CharacterIconPath(a) != CharacterGachaCardPath(b)
    ensures CharacterIconPath(a) != CharacterGachaSplashPath(b)
    ensures CharacterGachaCardPath(a) != CharacterGachaSplashPath(b)
  {
    assert CharacterIconPath(a)[18] == 'i';
    assert CharacterGachaCardPath(a)[18] == 'g';
    assert CharacterGachaCardPath(b)[18] == 'g';
    assert CharacterGachaSplashPath(b)[18] == 'g';
    assert CharacterGachaCardPath(a)[24] == 'c';
    assert CharacterGachaSplashPath(b)[24] == 's';
  }

  /** The three images of a character are published at three different
      addresses, and characters with different ids never share one. */
  lemma PublishedCharacterUrlsDistinct(cfg: GitHub, a: int, b: int)
    ensures RawUrl(cfg, CharacterIconPath(a)) != RawUrl(cfg, CharacterGachaCardPath(b))
    ensures RawUrl(cfg, CharacterIconPath(a)) != RawUrl(cfg, CharacterGachaSplashPath(b))
    ensures RawUrl(cfg, CharacterGachaCardPath(a)) != RawUrl(cfg, CharacterGachaSplashPath(b))
    ensures a != b ==> RawUrl(cfg, CharacterIconPath(a)) != RawUrl(cfg, CharacterIconPath(b))
    ensures a != b ==> RawUrl(cfg, CharacterGachaCardPath(a)) != RawUrl(cfg, CharacterGachaCardPath(b))
    ensures a != b ==> RawUrl(cfg, CharacterGachaSplashPath(a)) != RawUrl(cfg, CharacterGachaSplashPath(b))
  {
    CharacterPathsInjective(a, b);
    CharacterDirectoriesDistinct(a, b);
    RawUrlInjective(cfg, CharacterIconPath(a), CharacterGachaCardPath(b));
    RawUrlInjective(cfg, CharacterIconPath(a), CharacterGachaSplashPath(b));
    RawUrlInjective(cfg, CharacterGachaCardPath(a), CharacterGachaSplashPath(b));
    RawUrlInjective(cfg, CharacterIconPath(a), CharacterIconPath(b));
    RawUrlInjective(cfg, CharacterGachaCardPath(a), CharacterGachaCardPath(b));
    RawUrlInjective(cfg, CharacterGachaSplashPath(a), CharacterGachaSplashPath(b));
  }

  /** Weapons with different icon names are published at different addresses. */
  lemma PublishedWeaponUrlsDistinct(cfg: GitHub, a: string, b: string)
    ensures a != b ==> RawUrl(cfg, WeaponPath(a)) != RawUrl(cfg, WeaponPath(b))
  {
    WeaponPathInjective(a, b);
    RawUrlInjective(cfg, WeaponPath(a), WeaponPath(b));
  }
}
