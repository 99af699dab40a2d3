// The key-value records of the Drummer database, with their finalized flag and their
// compare-and-set on instance ids (applyKVUpdate in db.go).
module KVStore {
  datatype KV = KV(key: string, value: string, instanceId: nat, oldInstanceId: nat, tick: nat, finalized: bool)

  datatype KVCode = KVUpdated | KVFinalized | KVRejected

  type Store = map<string, KV>

  function KVResult(store: Store, kv: KV): KVCode
  {
    if kv.key !in store then KVUpdated
    else if store[kv.key].finalized then KVFinalized
    else if store[kv.key].instanceId == kv.instanceId || store[kv.key].instanceId == kv.oldInstanceId then KVUpdated
    else KVRejected
  }

  function KVApplied(store: Store, kv: KV): Store
  {
    if KVResult(store, kv).KVUpdated? then store[kv.key := kv] else store
  }

  // A finalized record stays for ever, and a record is never removed.
  lemma FinalizedStays(store: Store, kv: KV, key: string)
    requires key in store
    ensures key in KVApplied(store, kv)
    ensures store[key].finalized ==> KVApplied(store, kv)[key] == store[key]
  {}
}
