/** `refreshCollection`: upsert every serialized document by `enkaId`, in
    order, and write the store's `_id` back into the file array. */
module Reconcile {
  import opened Wrappers
  import opened Catalog
  import opened Serializers
  import opened Store

  /** The `$set` payload: a copy of the document with `_id` deleted; it
      keeps `enkaId` and every other property. */
  function Payload(d: Doc): Fields {
    (d.fields - {Id})[EnkaId := Num(d.enkaId)]
  }

  /** The payload never holds `_id`; it holds `enkaId` and every other
      property of the document, unchanged. */
  lemma PayloadContents(d: Doc)
    ensures Id !in Payload(d)
    ensures EnkaId in Payload(d) && Payload(d)[EnkaId] == Num(d.enkaId)
    ensures Payload(d).Keys == d.fields.Keys - {Id} + {EnkaId}
    ensures forall f :: f in d.fields && f != Id && f != EnkaId ==> Payload(d)[f] == d.fields[f]
  {
  }


  /** The `enkaId`s of a batch. */
  function KeysOf(data: seq<Doc>): set<int>
    decreases |data|
  {
    if |data| == 0 then {} else {data[0].enkaId} + KeysOf(data[1..])
  }

  /** A key belongs to the batch exactly when some item carries it. */
  lemma {:induction false} KeysOfIndex(data: seq<Doc>, k: int)
    ensures k in KeysOf(data) <==> exists i :: 0 <= i < |data| && data[i].enkaId == k
    decreases |data|
  {
    if |data| > 0 {
      KeysOfIndex(data[1..], k);
      if k in KeysOf(data[1..]) {
        var i :| 0 <= i < |data[1..]| && data[1..][i].enkaId == k;
        assert data[i + 1].enkaId == k;
      }
      if exists i :: 0 <= i < |data| && data[i].enkaId == k {
        var i :| 0 <= i < |data| && data[i].enkaId == k;
        if i > 0 {
          assert data[1..][i - 1].enkaId == k;
        }
      }
    }
  }

  /** The store after upserting every document of `data`, in order: the
      loop of lines 51-61 seen as a fold over the store. */
  function Reconciled(s: StoreState, data: seq<Doc>): StoreState
    decreases |data|
  {
    if |data| == 0 then s
    else Reconciled(Upsert(s, data[0].enkaId, Payload(data[0])), data[1..])
  }

  /** What the documents of a batch that carry `key` write, later ones winning. */
  function Merged(data: seq<Doc>, key: int): Fields
    decreases |data|
  {
    if |data| == 0 then map[]
    else (if data[0].enkaId == key then Payload(data[0]) else map[]) + Merged(data[1..], key)
  }

  /** The file array after the loop: line 59 has run for every index, so
      every entry's `_id` is the store's identifier for its key, and nothing
      else has changed. */
  function Backfilled<T>(file: seq<FileEntry<T>>, data: seq<Doc>, docs: map<int, StoreDoc>): (r: seq<FileEntry<T>>)
    requires |file| == |data|
    requires forall i :: 0 <= i < |data| ==> data[i].enkaId in docs
    ensures |r| == |file|
    ensures forall i :: 0 <= i < |r| ==> r[i].entry == file[i].entry
    ensures forall i :: 0 <= i < |r| ==> r[i].oid == Some(docs[data[i].enkaId].id)
    ensures forall i, j :: 0 <= i < |r| && 0 <= j < |r| && data[i].enkaId == data[j].enkaId ==> r[i].oid == r[j].oid
  {
    seq(|file|, i requires 0 <= i < |file| => file[i].(oid := Some(docs[data[i].enkaId].id)))
  }

  /** After a batch the store holds a document for every key it held before
      and every key of the batch, and no other. */
  lemma {:induction false} ReconciledKeys(s: StoreState, data: seq<Doc>)
    ensures Reconciled(s, data).docs.Keys == s.docs.Keys + KeysOf(data)
    decreases |data|
  {
    if |data| > 0 {
      UpsertDocuments(s, data[0].enkaId, Payload(data[0]));
      ReconciledKeys(Upsert(s, data[0].enkaId, Payload(data[0])), data[1..]);
    }
  }

  /** Duplicate keys collapse: one document per distinct key. */
  lemma ReconciledCount(s: StoreState, data: seq<Doc>)
    ensures |Reconciled(s, data).docs| == |s.docs.Keys + KeysOf(data)|
  {
    ReconciledKeys(s, data);
    assert |Reconciled(s, data).docs| == |Reconciled(s, data).docs.Keys|;
  }

  /** A document that existed keeps its `_id` through any batch. */
  lemma {:induction false} ReconciledKeepsIds(s: StoreState, data: seq<Doc>, k: int)
    requires k in s.docs
    ensures k in Reconciled(s, data).docs
    ensures Reconciled(s, data).docs[k].id == s.docs[k].id
    decreases |data|
  {
    if |data| > 0 {
      UpsertDocuments(s, data[0].enkaId, Payload(data[0]));
      ReconciledKeepsIds(Upsert(s, data[0].enkaId, Payload(data[0])), data[1..], k);
    }
  }

  /** A batch keeps the store well formed: no two documents share an `_id`. */
  lemma {:induction false} ReconciledWf(s: StoreState, data: seq<Doc>)
    requires Wf(s)
    ensures Wf(Reconciled(s, data))
    decreases |data|
  {
    if |data| > 0 {
      UpsertKeepsWf(s, data[0].enkaId, Payload(data[0]));
      ReconciledWf(Upsert(s, data[0].enkaId, Payload(data[0])), data[1..]);
    }
  }

  /** Documents under keys the batch does not mention are untouched. */
  lemma {:induction false} ReconciledUntouched(s: StoreState, data: seq<Doc>, k: int)
    requires k !in KeysOf(data)
    ensures k in Reconciled(s, data).docs <==> k in s.docs
    ensures k in s.docs ==> Reconciled(s, data).docs[k] == s.docs[k]
    decreases |data|
  {
    if |data| > 0 {
      UpsertDocuments(s, data[0].enkaId, Payload(data[0]));
      ReconciledUntouched(Upsert(s, data[0].enkaId, Payload(data[0])), data[1..], k);
    }
  }

  /** Nothing is written under a key the batch does not mention. */
  lemma {:induction false} MergedAbsent(data: seq<Doc>, k: int)
    requires k !in KeysOf(data)
    ensures Merged(data, k) == map[]
    decreases |data|
  {
    if |data| > 0 {
      MergedAbsent(data[1..], k);
      var none: Fields := map[];
      assert none + none == none;
    }
  }

  lemma MergeAssoc(a: Fields, b: Fields, c: Fields)
    ensures a + b + c == a + (b + c)
  {
  }

  /** The properties under a key after a batch: those it had, overwritten by
      the payloads written under it, in order. */
  lemma {:induction false} ReconciledFields(s: StoreState, data: seq<Doc>, k: int)
    ensures FieldsAt(Reconciled(s, data), k) == FieldsAt(s, k) + Merged(data, k)
    decreases |data|
  {
    if |data| == 0 {
      assert FieldsAt(s, k) + map[] == FieldsAt(s, k);
    } else {
      var d := data[0];
      var t := Upsert(s, d.enkaId, Payload(d));
      var here: Fields := if d.enkaId == k then Payload(d) else map[];
      ReconciledFields(t, data[1..], k);
      FieldsAtUpsert(s, d.enkaId, Payload(d), k);
      assert FieldsAt(t, k) == FieldsAt(s, k) + here;
      MergeAssoc(FieldsAt(s, k), here, Merged(data[1..], k));
    }
  }

  /** The last document of a batch that carries a key decides every
      property it lists. */
  lemma {:induction false} MergedLastWins(data: seq<Doc>, j: nat, f: Prop)
    requires j < |data|
    requires forall j' :: j < j' < |data| ==> data[j'].enkaId != data[j].enkaId
    requires f in Payload(data[j])
    ensures f in Merged(data, data[j].enkaId)
    ensures Merged(data, data[j].enkaId)[f] == Payload(data[j])[f]
    decreases j
  {
    var k := data[j].enkaId;
    if j == 0 {
      assert k !in KeysOf(data[1..]) by {
        forall i | 0 <= i < |data[1..]|
          ensures data[1..][i].enkaId != k
        {
          assert data[1..][i] == data[i + 1];
        }
        KeysOfIndex(data[1..], k);
      }
      MergedAbsent(data[1..], k);
    } else {
      assert data[1..][j - 1] == data[j];
      MergedLastWins(data[1..], j - 1, f);
    }
  }

  /** Items with the same `enkaId` meet in one document, whose property `f`
      is the value of the last such item that lists `f`. */
  lemma LastWriteWins(s: StoreState, data: seq<Doc>, j: nat, f: Prop)
    requires j < |data|
    requires forall j' :: j < j' < |data| ==> data[j'].enkaId != data[j].enkaId
    requires f in Payload(data[j])
    ensures data[j].enkaId in Reconciled(s, data).docs
    ensures f in Reconciled(s, data).docs[data[j].enkaId].fields
    ensures Reconciled(s, data).docs[data[j].enkaId].fields[f] == Payload(data[j])[f]
  {
    ReconciledKeys(s, data);
    KeysOfIndex(data, data[j].enkaId);
    ReconciledFields(s, data, data[j].enkaId);
    MergedLastWins(data, j, f);
  }

  /** Adding key `k` in front of the batch's other keys adds one new key
      exactly when the store did not hold it. */
  lemma NewKeyCount(stored: set<int>, seen: set<int>, k: int)
    ensures |({k} + seen) - stored| == |seen - (stored + {k})| + (if k in stored then 0 else 1)
  {
    if k in stored {
      assert seen - (stored + {k}) == ({k} + seen) - stored;
    } else {
      assert ({k} + seen) - stored == (seen - (stored + {k})) + {k};
    }
  }

  /** A batch mints one new identifier per distinct key the store did not
      hold: duplicates collapse into one document. */
  lemma {:induction false} ReconciledMints(s: StoreState, data: seq<Doc>)
    ensures Reconciled(s, data).next == s.next + |KeysOf(data) - s.docs.Keys|
    decreases |data|
  {
    if |data| == 0 {
      assert KeysOf(data) - s.docs.Keys == {};
    } else {
      var t := Upsert(s, data[0].enkaId, Payload(data[0]));
      UpsertDocuments(s, data[0].enkaId, Payload(data[0]));
      ReconciledMints(t, data[1..]);
      NewKeyCount(s.docs.Keys, KeysOf(data[1..]), data[0].enkaId);
    }
  }

  /** A batch whose keys the store already holds mints nothing. */
  lemma NoMintWhenKnown(s: StoreState, data: seq<Doc>)
    requires KeysOf(data) <= s.docs.Keys
    ensures Reconciled(s, data).next == s.next
  {
    ReconciledMints(s, data);
    assert KeysOf(data) - s.docs.Keys == {};
  }

  /** `(a + m) + m == a + m` for maps: writing the same payloads twice. */
  lemma MergeTwice(a: Fields, m: Fields)
    ensures a + m + m == a + m
  {
  }

  /** A second pass over the same batch changes nothing in the store. */
  lemma ReconcileIdempotent(s: StoreState, data: seq<Doc>)
    ensures Reconciled(Reconciled(s, data), data) == Reconciled(s, data)
  {
    var t := Reconciled(s, data);
    var u := Reconciled(t, data);
    ReconciledKeys(s, data);
    ReconciledKeys(t, data);
    assert u.docs.Keys == t.docs.Keys;
    forall k | k in u.docs
      ensures u.docs[k] == t.docs[k]
    {
      if k in KeysOf(data) {
        ReconciledKeepsIds(t, data, k);
        ReconciledFields(s, data, k);
        ReconciledFields(t, data, k);
        MergeTwice(FieldsAt(s, k), Merged(data, k));
      } else {
        ReconciledUntouched(t, data, k);
      }
    }
    assert u.docs == t.docs;
    NoMintWhenKnown(t, data);
  }

  /** The store after a batch depends only on each item's key and other
      properties, not on the `_id` the item carried. */
  lemma {:induction false} ReconciledIgnoresIds(s: StoreState, a: seq<Doc>, b: seq<Doc>)
    requires |a| == |b|
    requires forall i :: 0 <= i < |a| ==> a[i].enkaId == b[i].enkaId && a[i].fields - {Id} == b[i].fields - {Id}
    ensures Reconciled(s, a) == Reconciled(s, b)
    decreases |a|
  {
    if |a| > 0 {
      assert Payload(a[0]) == Payload(b[0]);
      ReconciledIgnoresIds(Upsert(s, a[0].enkaId, Payload(a[0])), a[1..], b[1..]);
    }
  }

  /** Unfolding the fold at position `i`, for the loop. */
  lemma ReconciledSuffix(st: StoreState, data: seq<Doc>, i: nat)
    requires i < |data|
    ensures Reconciled(st, data[i..]) == Reconciled(Upsert(st, data[i].enkaId, Payload(data[i])), data[i + 1..])
  {
    assert data[i..][0] == data[i];
    assert data[i..][1..] == data[i + 1..];
  }

  /** The upsert of item `i` keeps the keys and identifiers of items `0..i-1`. */
  lemma UpsertKeepsEarlier(before: StoreState, after: StoreState, data: seq<Doc>, ids: seq<ObjectId>, i: nat)
    requires i < |data| && |ids| == i
    requires after == Upsert(before, data[i].enkaId, Payload(data[i]))
    requires forall j :: 0 <= j < i ==> data[j].enkaId in before.docs && before.docs[data[j].enkaId].id == ids[j]
    ensures forall j :: 0 <= j <= i ==> data[j].enkaId in after.docs
    ensures forall j :: 0 <= j < i ==> after.docs[data[j].enkaId].id == ids[j]
  {
  }

  /** The file array the loop leaves is the one `Backfilled` describes. */
  lemma BackfilledPointwise<T>(old_: seq<FileEntry<T>>, new_: seq<FileEntry<T>>, data: seq<Doc>,
                               docs: map<int, StoreDoc>, ids: seq<ObjectId>)
    requires |old_| == |new_| == |data| == |ids|
    requires forall j :: 0 <= j < |data| ==> data[j].enkaId in docs && docs[data[j].enkaId].id == ids[j]
    requires forall j :: 0 <= j < |data| ==> new_[j] == old_[j].(oid := Some(ids[j]))
    ensures new_ == Backfilled(old_, data, docs)
  {
  }

  /** Lines 52-60, for item `i`. The guard of line 58 compares the serialized
      `_id`, a fresh `ObjectId` object, with the one the driver returned by
      reference (`!==`); two distinct objects always differ, so line 59 runs
      on every item. */
  method RefreshItem<T>(coll: Collection, dataItem: Doc, file: array<FileEntry<T>>, i: nat)
    returns (id: ObjectId)
    requires coll.Valid()
    requires i < file.Length
    modifies coll, file
    ensures coll.Valid()
    ensures coll.State() == Upsert(old(coll.State()), dataItem.enkaId, Payload(dataItem))
    ensures dataItem.enkaId in coll.docs && id == coll.docs[dataItem.enkaId].id
    ensures file[i] == old(file[i]).(oid := Some(id))
    ensures forall j :: 0 <= j < file.Length && j != i ==> file[j] == old(file[j])
  {
    var refreshItem := Payload(dataItem);
    var item := coll.FindOneAndUpdate(dataItem.enkaId, refreshItem);
    if item.None? {
      item := coll.FindOne(dataItem.enkaId);
    }
    id := item.value.id;
    file[i] := file[i].(oid := Some(id));
  }

  /** `refreshCollection(coll, data, originalFile)`: the store ends as the
      fold of the batch over it, every file entry carries the store's `_id`
      for its key, and `data` is returned as it came. */
  method RefreshCollection<T>(coll: Collection, data: seq<Doc>, file: array<FileEntry<T>>)
    returns (out: seq<Doc>)
    requires coll.Valid()
    requires file.Length == |data|
    modifies coll, file
    ensures coll.Valid()
    ensures coll.State() == Reconciled(old(coll.State()), data)
    ensures forall i :: 0 <= i < |data| ==> data[i].enkaId in coll.docs
    ensures file[..] == Backfilled(old(file[..]), data, coll.docs)
    ensures out == data
  {
    ghost var s0 := coll.State();
    var i := 0;
    ghost var ids: seq<ObjectId> := [];
    assert data[0..] == data;
    while i < |data|
      invariant 0 <= i <= |data| && |ids| == i
      invariant coll.Valid()
      invariant Reconciled(coll.State(), data[i..]) == Reconciled(s0, data)
      invariant forall j :: 0 <= j < i ==> data[j].enkaId in coll.docs && coll.docs[data[j].enkaId].id == ids[j]
      invariant forall j :: 0 <= j < i ==> file[j] == old(file[j]).(oid := Some(ids[j]))
      invariant forall j :: i <= j < file.Length ==> file[j] == old(file[j])
    {
      ghost var before := coll.State();
      ReconciledSuffix(before, data, i);
      var id := RefreshItem(coll, data[i], file, i);
      UpsertKeepsEarlier(before, coll.State(), data, ids, i);
      ids := ids + [id];
      i := i + 1;
    }
    assert data[|data|..] == [];
    BackfilledPointwise(old(file[..]), file[..], data, coll.docs, ids);
    out := data;
  }
}
