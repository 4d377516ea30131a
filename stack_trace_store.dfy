/** The shared `stack_traces` map from a stack's 64-bit key to the stack, and
    its `BPF_ANY` update: insert the key, or overwrite the value already
    stored under it. */
module StackTraceStore {

  import opened StackTraces

  /** A `bpf_map_update_elem(map, &key, &value, BPF_ANY)` on map contents `m`. */
  function Upsert(m: map<u64, StackTraceValue>, key: u64, value: StackTraceValue): (r: map<u64, StackTraceValue>)
    ensures r.Keys == m.Keys + {key}
    ensures key in r && r[key] == value
    ensures forall k :: k in m && k != key ==> k in r && r[k] == m[k]
  {
    m[key := value]
  }

  /** Last writer wins: two updates under one key leave only the second
      value, as if the first had not happened. */
  lemma UpsertOverwrites(m: map<u64, StackTraceValue>, key: u64, v1: StackTraceValue, v2: StackTraceValue)
    ensures Upsert(Upsert(m, key, v1), key, v2) == Upsert(m, key, v2)
  {
  }

  /** Storing a value that is already there changes nothing. */
  lemma UpsertSameValue(m: map<u64, StackTraceValue>, key: u64, value: StackTraceValue)
    requires key in m && m[key] == value
    ensures Upsert(m, key, value) == m
  {
  }

  /** The `stack_traces` map. */
  class StackTraceMap {
    var entries: map<u64, StackTraceValue>

    constructor ()
      ensures entries == map[]
    {
      entries := map[];
    }

    /** `bpf_map_update_elem(&stack_traces, &key, &value, BPF_ANY)`; the value
        is copied into the map. */
    method Update(key: u64, value: StackTraceValue)
      modifies this
      ensures entries == Upsert(old(entries), key, value)
    {
      entries := entries[key := value];
    }
  }
}
