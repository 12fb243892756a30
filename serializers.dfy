/** The serializers of the database refresh: each file record becomes a
    database document (`data.map(...)`). */
module Serializers {
  import opened Wrappers
  import opened Catalog

  /** A property value of a database document. `Missing` is an undefined
      property (a lookup that found nothing). */
  datatype Value = Missing | Num(n: int) | Text(s: string) | Names(en: string, ru: string)

  /** The property names the refresh writes; `PropName` spells each one as
      the document spells it. */
  datatype Prop =
    | Id | EnkaId | Name | Rarity | Specialty | Attribute | IconSrc | GachaCard | GachaSplash | Title

  function PropName(p: Prop): string {
    match p
    case Id => "_id"
    case EnkaId => "enkaId"
    case Name => "name"
    case Rarity => "rarity"
    case Specialty => "specialty"
    case Attribute => "attribute"
    case IconSrc => "iconSrc"
    case GachaCard => "gachaCard"
    case GachaSplash => "gachaSplash"
    case Title => "title"
  }

  /** Property names are distinct, so a document is a map over `Prop`. */
  lemma PropNameInjective(p: Prop, q: Prop)
    ensures PropName(p) == PropName(q) ==> p == q
  {
  }

  /** The properties of a document other than `_id` and `enkaId`. */
  type Fields = map<Prop, Value>

  /** A serialized document: its `_id`, its `enkaId` and its other properties.
      `oid == None` stands for the identifier `new ObjectId(undefined)` mints
      for a record without `_id`; no store document carries it. */
  datatype Doc = Doc(oid: Option<ObjectId>, enkaId: int, fields: Fields)

  const AgentFieldNames: set<Prop> :=
    {Name, Rarity, Specialty, Attribute, IconSrc, GachaCard, GachaSplash}

  const EngineFieldNames: set<Prop> := {Title, Rarity, Specialty, IconSrc}

  function OptionalNum(v: Option<int>): Value {
    if v.Some? then Num(v.value) else Missing
  }

  function NumOption(v: Value): Option<int> {
    if v.Num? then Some(v.n) else None
  }

  /** Reads a character record back from its document; `code` is the one
      property the serializer does not carry, so it is supplied. A table code
      is a number, or missing when the lookup was undefined. */
  function AgentOf(d: Doc, code: string): Option<Agent> {
    if d.fields.Keys == AgentFieldNames
       && d.fields[Name].Names? && d.fields[Rarity].Num?
       && d.fields[IconSrc].Text? && d.fields[GachaCard].Text? && d.fields[GachaSplash].Text?
       && (d.fields[Specialty].Num? || d.fields[Specialty].Missing?)
       && (d.fields[Attribute].Num? || d.fields[Attribute].Missing?)
    then Some(Agent(d.enkaId, code, d.fields[Rarity].n,
                    NumOption(d.fields[Specialty]), NumOption(d.fields[Attribute]),
                    d.fields[Name].en, d.fields[Name].ru,
                    d.fields[IconSrc].s, d.fields[GachaCard].s, d.fields[GachaSplash].s))
    else None
  }

  /** Reads a weapon record back from its document. */
  function EngineOf(d: Doc): Option<Engine> {
    if d.fields.Keys == EngineFieldNames
       && d.fields[Title].Names? && d.fields[Rarity].Num? && d.fields[IconSrc].Text?
       && (d.fields[Specialty].Num? || d.fields[Specialty].Missing?)
    then Some(Engine(d.enkaId, d.fields[Rarity].n, NumOption(d.fields[Specialty]),
                     d.fields[Title].en, d.fields[Title].ru, d.fields[IconSrc].s))
    else None
  }

  /** One character: `id` becomes `enkaId`, `{en, ru}` becomes `name`,
      `rank`, `type`, `element`, `icon` become `rarity`, `specialty`,
      `attribute`, `iconSrc`; `gachaCard`, `gachaSplash` are copied and
      `code` is dropped. Nothing is lost but `code`. */
  function SerializeAgent(e: FileEntry<Agent>): (d: Doc)
    ensures d.oid == e.oid && d.enkaId == e.entry.id
    ensures d.fields.Keys == AgentFieldNames
    ensures AgentOf(d, e.entry.code) == Some(e.entry)
  {
    var a := e.entry;
    Doc(e.oid, a.id, map[
      Name := Names(a.en, a.ru),
      Rarity := Num(a.rank),
      Specialty := OptionalNum(a.kind),
      Attribute := OptionalNum(a.element),
      IconSrc := Text(a.icon),
      GachaCard := Text(a.gachaCard),
      GachaSplash := Text(a.gachaSplash)])
  }

  /** One weapon: `id` becomes `enkaId`, `{en, ru}` becomes `title`, `rank`,
      `type`, `icon` become `rarity`, `specialty`, `iconSrc`. */
  function SerializeEngine(e: FileEntry<Engine>): (d: Doc)
    ensures d.oid == e.oid && d.enkaId == e.entry.id
    ensures d.fields.Keys == EngineFieldNames
    ensures EngineOf(d) == Some(e.entry)
  {
    var w := e.entry;
    Doc(e.oid, w.id, map[
      Title := Names(w.en, w.ru),
      Rarity := Num(w.rank),
      Specialty := OptionalNum(w.kind),
      IconSrc := Text(w.icon)])
  }

  /** `serializeAgents`: same length and order; document `i` carries entry
      `i`'s `_id` and `id`, holds no `_id` property, and reads back as entry `i`. */
  function SerializeAgents(file: seq<FileEntry<Agent>>): (data: seq<Doc>)
    ensures |data| == |file|
    ensures forall i :: 0 <= i < |file| ==>
      && data[i].oid == file[i].oid
      && data[i].enkaId == file[i].entry.id
      && Id !in data[i].fields
      && AgentOf(data[i], file[i].entry.code) == Some(file[i].entry)
  {
    seq(|file|, i requires 0 <= i < |file| => SerializeAgent(file[i]))
  }

  /** `serializeEngines`: same length and order; document `i` carries entry
      `i`'s `_id` and `id`, holds no `_id` property, and reads back as entry `i`. */
  function SerializeEngines(file: seq<FileEntry<Engine>>): (data: seq<Doc>)
    ensures |data| == |file|
    ensures forall i :: 0 <= i < |file| ==>
      && data[i].oid == file[i].oid
      && data[i].enkaId == file[i].entry.id
      && Id !in data[i].fields
      && EngineOf(data[i]) == Some(file[i].entry)
  {
    seq(|file|, i requires 0 <= i < |file| => SerializeEngine(file[i]))
  }
}
