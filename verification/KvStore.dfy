/** The store's own methods, statement by statement, against the steps of the protocol (src/kv_store.cpp). */
module KvStores {
  import opened Options
  import opened Mvcc
  import opened TableNames
  import opened LsmStore
  import opened KvLoads

  /** `model` is the state of the protocol that the fields stand for. */
  class KVStore {
    var latest: map<string, string>
    var mem: Entries
    var memBytes: nat
    var slot: Option<Entries>
    var paths: seq<string>
    var nextId: nat
    var lastSeq: nat
    var tasks: seq<Task>
    var completions: seq<string>
    const versionBytes: nat
    ghost var model: Store

    ghost predicate Valid()
      reads this
    {
      && latest == model.latest && mem == model.mem && memBytes == model.memBytes && slot == model.slot
      && paths == model.paths && nextId == model.nextId && lastSeq == model.lastSeq
      && tasks == model.tasks && completions == model.completions && versionBytes == model.versionBytes
    }

    /** Hand the memtable to the worker once it is large enough and the slot is free. */
    method MaybeFlushMemtable() returns (ok: bool)
      requires Valid()
      modifies this
      ensures Valid() && model == MaybeFlush(old(model))
      ensures latest == old(latest) && lastSeq == old(lastSeq) && model.hist == old(model).hist
      ensures ok == !(old(memBytes) >= FLUSH_THRESHOLD && old(slot).Some?)
    {
      if memBytes < FLUSH_THRESHOLD {
        return true;
      }
      if slot.Some? {
        return false;
      }
      model := MaybeFlush(model);
      var taken := mem;
      mem, memBytes := map[], 0;
      if taken == map[] {
        return true;
      }
      var path := FlushName(nextId);
      nextId := nextId + 1;
      tasks := tasks + [Task(path, taken)];
      slot := Some(map[]);
      return true;
    }

    /** Latest-value map and memtable take the value; the log has it already. */
    method AddValue(key: string, value: string)
      requires Valid()
      modifies this
      ensures Valid() && model == LsmStore.Record(old(model), Write(key, Version(old(lastSeq), Some(value))))
      ensures latest == old(latest)[key := value] && lastSeq == old(lastSeq)
      ensures model.hist == old(model).hist + [Write(key, Version(lastSeq, Some(value)))]
    {
      model := LsmStore.Record(model, Write(key, Version(lastSeq, Some(value))));
      latest := latest[key := value];
      memBytes := memBytes + |key| + |value| + TIMESTAMP_BYTES + versionBytes;
      mem := mem[key := VersionsOf(mem, key) + [Version(lastSeq, Some(value))]];
    }

    method AddTombstone(key: string)
      requires Valid()
      modifies this
      ensures Valid() && model == LsmStore.Record(old(model), Write(key, Version(old(lastSeq), None)))
      ensures latest == old(latest) - {key} && lastSeq == old(lastSeq)
      ensures model.hist == old(model).hist + [Write(key, Version(lastSeq, None))]
      ensures memBytes == old(memBytes) + |key| + TIMESTAMP_BYTES + versionBytes && slot == old(slot)
    {
      model := LsmStore.Record(model, Write(key, Version(lastSeq, None)));
      memBytes := memBytes + |key| + TIMESTAMP_BYTES + versionBytes;
      mem := mem[key := VersionsOf(mem, key) + [Version(lastSeq, None)]];
      latest := latest - {key};
    }

    method Put(key: string, value: string, logged: bool)
      requires Valid() && model.phase == Ready
      modifies this
      ensures Valid() && model == DoPut(old(model), key, value, logged)
      ensures lastSeq == old(lastSeq) + 1 && latest == if logged then old(latest)[key := value] else old(latest)
      ensures model.hist == old(model).hist + if logged then [Write(key, Version(lastSeq, Some(value)))] else []
    {
      lastSeq := lastSeq + 1;
      model := model.(lastSeq := model.lastSeq + 1);
      if !logged {
        return;
      }
      AddValue(key, value);
      ghost var written := model;
      var flushed := MaybeFlushMemtable();
      assert model == MaybeFlush(written);
    }

    /** `committed` is the answer of the group commit, true when none is due. The key is erased even where the result is false. */
    method Del(key: string, logged: bool, committed: bool) returns (ok: bool)
      requires Valid() && model.phase == Ready
      modifies this
      ensures Valid() && model == DoDel(old(model), key, logged)
      ensures latest == if logged then old(latest) - {key} else old(latest)
      ensures model.hist == old(model).hist + if key in old(latest) && logged then [Write(key, Version(old(lastSeq) + 1, None))] else []
      ensures ok <==>
        && key in old(latest) && logged && committed
        && Accepted(Load(old(memBytes), old(slot).Some?), |key| + TIMESTAMP_BYTES + versionBytes)
    {
      if key !in latest {
        return false;
      }
      lastSeq := lastSeq + 1;
      model := model.(lastSeq := model.lastSeq + 1);
      if !logged {
        return false;
      }
      AddTombstone(key);
      ok := MaybeFlushMemtable();
      if ok {
        ok := committed;
      }
    }

    /** All completions are taken over; the flag says whether a table was added. */
    method DrainCompletedFlushes() returns (added: bool)
      requires Valid() && model.phase == Draining(false)
      modifies this
      ensures Valid() && model == Drained(old(model)) && completions == []
      ensures model.phase == Draining(added)
    {
      added := false;
      ghost var first := model;
      while completions != []
        invariant Valid() && model.phase == Draining(added) && Drained(model) == Drained(first)
        decreases |completions|
      {
        var path := completions[0];
        model := DoPoll(model);
        completions := completions[1..];
        if path !in paths {
          paths := paths + [path];
          added := true;
        }
        slot := None;
      }
    }
  }

  /** Polling until nothing is left. */
  function Drained(s: Store): Store
    requires s.phase.Draining?
    decreases |s.completions|
  {
    if s.completions == [] then s else Drained(DoPoll(s))
  }
}
