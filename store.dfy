/** The MongoDB collection the refresh writes to, modelled as a map from
    `enkaId` to a document, with an identifier oracle for inserts. */
module Store {
  import opened Wrappers
  import opened Catalog
  import opened Serializers

  /** A stored document: its store-assigned `_id` and its other properties. */
  datatype StoreDoc = StoreDoc(id: ObjectId, fields: Fields)

  /** The documents by `enkaId`, and the oracle: `next` is the first
      identifier not yet handed out. */
  datatype StoreState = StoreState(docs: map<int, StoreDoc>, next: nat)

  /** Every identifier came from the oracle and no two documents share one. */
  predicate Wf(s: StoreState) {
    && (forall k :: k in s.docs ==> s.docs[k].id.n < s.next)
    && (forall k1, k2 :: k1 in s.docs && k2 in s.docs && k1 != k2 ==> s.docs[k1].id != s.docs[k2].id)
  }

  /** The properties the document under `key` holds (none if there is none). */
  function FieldsAt(s: StoreState, key: int): Fields {
    if key in s.docs then s.docs[key].fields else map[]
  }

  /** `findOneAndUpdate({enkaId: key}, {$set: payload}, {upsert: true})`,
      as a function of the store state. */
  function Upsert(s: StoreState, key: int, payload: Fields): StoreState {
    var id := if key in s.docs then s.docs[key].id else ObjectId(s.next);
    StoreState(s.docs[key := StoreDoc(id, FieldsAt(s, key) + payload)],
               if key in s.docs then s.next else s.next + 1)
  }

  /** An existing document keeps its `_id`, a new one gets the oracle's next
      identifier; documents under other keys are untouched. */
  lemma UpsertDocuments(s: StoreState, key: int, payload: Fields)
    ensures var r := Upsert(s, key, payload);
      && r.docs.Keys == s.docs.Keys + {key}
      && (key in s.docs ==> r.docs[key].id == s.docs[key].id && r.next == s.next)
      && (key !in s.docs ==> r.docs[key].id == ObjectId(s.next) && r.next == s.next + 1)
      && (forall k :: k != key && k in s.docs ==> r.docs[k] == s.docs[k])
  {
  }

  /** `$set` overwrites the properties the payload lists and keeps the others. */
  lemma UpsertFields(s: StoreState, key: int, payload: Fields)
    ensures var r := Upsert(s, key, payload);
      && key in r.docs
      && r.docs[key].fields.Keys == FieldsAt(s, key).Keys + payload.Keys
      && (forall f :: f in payload ==> r.docs[key].fields[f] == payload[f])
      && (forall f :: f in FieldsAt(s, key) && f !in payload ==>
            r.docs[key].fields[f] == FieldsAt(s, key)[f])
  {
  }

  /** The properties under any key after an upsert: the payload merged in
      under `key`, nothing changed elsewhere. */
  lemma FieldsAtUpsert(s: StoreState, key: int, payload: Fields, k: int)
    ensures FieldsAt(Upsert(s, key, payload), k) == if k == key then FieldsAt(s, key) + payload else FieldsAt(s, k)
  {
  }

  /** An upsert keeps the store well formed: the new identifier is fresh. */
  lemma UpsertKeepsWf(s: StoreState, key: int, payload: Fields)
    requires Wf(s)
    ensures Wf(Upsert(s, key, payload))
  {
  }

  /** `findOne({enkaId: key})` */
  function Find(s: StoreState, key: int): (r: Option<StoreDoc>)
    ensures r.Some? <==> key in s.docs
    ensures r.Some? ==> r.value == s.docs[key]
  {
    if key in s.docs then Some(s.docs[key]) else None
  }

  /** A handle on one collection; its state changes in place. */
  class Collection {
    var docs: map<int, StoreDoc>
    var next: nat

    function State(): StoreState
      reads this
    {
      StoreState(docs, next)
    }

    ghost predicate Valid()
      reads this
    {
      Wf(State())
    }

    constructor (initial: StoreState)
      requires Wf(initial)
      ensures Valid() && State() == initial
    {
      docs, next := initial.docs, initial.next;
    }

    /** The upsert. The driver's `findOneAndUpdate` may echo nothing, the
        document as written, or (it does not read the `new` option) the
        document as it was before the update: which one is the store's
        choice, not the caller's. Any echo carries the stored `_id`. */
    method FindOneAndUpdate(key: int, payload: Fields) returns (r: Option<StoreDoc>)
      requires Valid()
      modifies this
      ensures Valid()
      ensures State() == Upsert(old(State()), key, payload)
      ensures key in docs
      ensures r == None || r == Some(docs[key]) || (key in old(docs) && r == Some(old(docs)[key]))
      ensures r.Some? ==> r.value.id == docs[key].id
    {
      var before := if key in docs then Some(docs[key]) else None;
      UpsertKeepsWf(State(), key, payload);
      var s := Upsert(State(), key, payload);
      docs, next := s.docs, s.next;
      var echo: nat :| echo <= 2;
      r := if echo == 0 then None else if echo == 1 then Some(docs[key]) else before;
    }

    /** The plain lookup. */
    method FindOne(key: int) returns (r: Option<StoreDoc>)
      ensures r == Find(State(), key)
    {
      r := if key in docs then Some(docs[key]) else None;
    }
  }
}
