/** The run of the database refresh script: each catalog file is
    serialized, reconciled against its collection, and written back with
    the store's identifiers. */
module Refresh {
  import opened Wrappers
  import opened Catalog
  import opened Serializers
  import opened Store
  import opened Reconcile

  /** Lines 69-72: the characters file after the `agents` pass. Every entry
      keeps its record and now carries the identifier of the document under
      its `id`. */
  method RefreshAgents(coll: Collection, file: array<FileEntry<Agent>>)
    requires coll.Valid()
    modifies coll, file
    ensures coll.Valid()
    ensures coll.State() == Reconciled(old(coll.State()), SerializeAgents(old(file[..])))
    ensures forall i :: 0 <= i < file.Length ==>
      && file[i].entry == old(file[i].entry)
      && file[i].entry.id in coll.docs
      && file[i].oid == Some(coll.docs[file[i].entry.id].id)
  {
    var agents := SerializeAgents(file[..]);
    var returned := RefreshCollection(coll, agents, file);
  }

  /** Lines 75-78: the same for the weapons file and the `engines` collection. */
  method RefreshEngines(coll: Collection, file: array<FileEntry<Engine>>)
    requires coll.Valid()
    modifies coll, file
    ensures coll.Valid()
    ensures coll.State() == Reconciled(old(coll.State()), SerializeEngines(old(file[..])))
    ensures forall i :: 0 <= i < file.Length ==>
      && file[i].entry == old(file[i].entry)
      && file[i].entry.id in coll.docs
      && file[i].oid == Some(coll.docs[file[i].entry.id].id)
  {
    var engines := SerializeEngines(file[..]);
    var returned := RefreshCollection(coll, engines, file);
  }

  /** Every key of a batch has a document once the batch is through. */
  lemma BatchKeysStored(s: StoreState, data: seq<Doc>)
    ensures forall i :: 0 <= i < |data| ==> data[i].enkaId in Reconciled(s, data).docs
  {
    ReconciledKeys(s, data);
    forall i | 0 <= i < |data|
      ensures data[i].enkaId in KeysOf(data)
    {
      KeysOfIndex(data, data[i].enkaId);
    }
  }

  /** Running the refresh again, on a batch that differs from the first only
      in the `_id`s it carries, changes neither the store nor the file. */
  lemma RerunIsNoOp<T>(s: StoreState, file: seq<FileEntry<T>>, data: seq<Doc>, again: seq<Doc>)
    requires |file| == |data| == |again|
    requires forall i :: 0 <= i < |data| ==> again[i].enkaId == data[i].enkaId && again[i].fields == data[i].fields
    ensures forall i :: 0 <= i < |data| ==> data[i].enkaId in Reconciled(s, data).docs
    ensures Reconciled(Reconciled(s, data), again) == Reconciled(s, data)
    ensures Backfilled(Backfilled(file, data, Reconciled(s, data).docs), again, Reconciled(s, data).docs)
         == Backfilled(file, data, Reconciled(s, data).docs)
  {
    BatchKeysStored(s, data);
    var s1 := Reconciled(s, data);
    ReconciledIgnoresIds(s1, again, data);
    ReconcileIdempotent(s, data);
  }

  /** The characters file the first run writes is a fixed point of the run. */
  lemma AgentsRerunIsNoOp(s: StoreState, file: seq<FileEntry<Agent>>)
    ensures forall i :: 0 <= i < |file| ==> file[i].entry.id in Reconciled(s, SerializeAgents(file)).docs
    ensures var s1 := Reconciled(s, SerializeAgents(file));
      var written := Backfilled(file, SerializeAgents(file), s1.docs);
      && Reconciled(s1, SerializeAgents(written)) == s1
      && Backfilled(written, SerializeAgents(written), s1.docs) == written
  {
    var data := SerializeAgents(file);
    BatchKeysStored(s, data);
    var s1 := Reconciled(s, data);
    var written := Backfilled(file, data, s1.docs);
    var again := SerializeAgents(written);
    forall i | 0 <= i < |data|
      ensures again[i].enkaId == data[i].enkaId && again[i].fields == data[i].fields
    {
      assert again[i] == SerializeAgent(written[i]) && data[i] == SerializeAgent(file[i]);
    }
    RerunIsNoOp(s, file, data, again);
  }

  /** The weapons file the first run writes is a fixed point of the run. */
  lemma EnginesRerunIsNoOp(s: StoreState, file: seq<FileEntry<Engine>>)
    ensures forall i :: 0 <= i < |file| ==> file[i].entry.id in Reconciled(s, SerializeEngines(file)).docs
    ensures var s1 := Reconciled(s, SerializeEngines(file));
      var written := Backfilled(file, SerializeEngines(file), s1.docs);
      && Reconciled(s1, SerializeEngines(written)) == s1
      && Backfilled(written, SerializeEngines(written), s1.docs) == written
  {
    var data := SerializeEngines(file);
    BatchKeysStored(s, data);
    var s1 := Reconciled(s, data);
    var written := Backfilled(file, data, s1.docs);
    var again := SerializeEngines(written);
    forall i | 0 <= i < |data|
      ensures again[i].enkaId == data[i].enkaId && again[i].fields == data[i].fields
    {
      assert again[i] == SerializeEngine(written[i]) && data[i] == SerializeEngine(file[i]);
    }
    RerunIsNoOp(s, file, data, again);
  }
}
