/** The connector object and the concurrent store mean the same by a batch store. */
module StoreAgreement {
  import opened Basics
  import Ownership
  import Connector = SpdkConnectors
  import System = StoreSystem
  import Publication = StorePublication

  /** The request of a batch store, key by key. */
  function PartsOf(keys: seq<Ownership.Key>, buffers: seq<Bytes>): (parts: seq<System.Part>)
    requires |keys| == |buffers|
    ensures |parts| == |keys| && forall i | 0 <= i < |parts| :: parts[i] == System.Part(keys[i], buffers[i])
  {
    seq(|keys|, i requires 0 <= i < |keys| => System.Part(keys[i], buffers[i]))
  }

  /**
   * What the connector's sequence of single sets makes of a key is what the concurrent store's event makes of
   * it, whenever the batch is one that both accept.
   */
  lemma BatchStoresAgree(store: map<Ownership.Key, Bytes>, keys: seq<Ownership.Key>, buffers: seq<Bytes>, k: Ownership.Key)
    requires |keys| == |buffers| && Connector.WellFormedBatch(keys, buffers, |keys|)
    ensures Find(Connector.AllApplied(store, keys, buffers, |keys|), k)
            == System.Applied(Find(store, k), PartsOf(keys, buffers), k)
  {
    var parts := PartsOf(keys, buffers);
    if i :| 0 <= i < |keys| && keys[i] == k {
      Connector.AppliedTo(store, keys, buffers, |keys|, i);
      Publication.AppliedAt(Find(store, k), parts, i, k);
    } else {
      assert keys[..|keys|] == keys;
      Connector.AppliedElsewhere(store, keys, buffers, |keys|, k);
      Publication.AppliedElsewhere(Find(store, k), parts, k);
    }
  }
}
