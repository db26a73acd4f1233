/** The journal store and the manager as the objects that carry them out step by step. */
module StateMachineManager {
  import opened Wrappers
  import opened OrderedMap
  import opened DurableMachines
  import opened JournalManager

  datatype StoreResult = Stored(version: nat) | VersionConflict

  /** An in-memory journal store: per log, its entries and an operation counter. */
  class MemoryJournalStorage {
    var logs: map<string, Log>

    ghost predicate Valid()
      reads this
    {
      forall key | key in logs :: logs[key].Log?
    }

    function LogAt(key: string): Log
      reads this
    {
      if key in logs then logs[key] else NoLog
    }

    constructor ()
      ensures Valid() && logs == map[]
    {
      logs := map[];
    }

    method Read(key: string) returns (entries: seq<Frame>, version: Option<nat>)
      ensures entries == LogAt(key).Entries() && version == LogAt(key).Version()
    {
      if key !in logs {
        return [], None;
      }
      return logs[key].Entries(), logs[key].Version();
    }

    method Append(key: string, entries: seq<Frame>, expected: Option<nat>) returns (r: StoreResult)
      requires Valid()
      modifies this
      ensures Valid()
      ensures r == if old(LogAt(key)).Version() == expected then Stored(Written(old(LogAt(key)), []).version) else VersionConflict
      ensures LogAt(key) == if r.Stored? then Written(old(LogAt(key)), old(LogAt(key)).Entries() + entries) else old(LogAt(key))
      ensures forall other | other != key :: LogAt(other) == old(LogAt(other))
    {
      var log := LogAt(key);
      if log.Version() != expected {
        return VersionConflict;
      }
      var next := if log.NoLog? then Log([], 0) else log;
      next := next.(entries := next.entries + entries);
      next := next.(version := next.version + 1);
      logs := logs[key := next];
      return Stored(next.version);
    }

    method Replace(key: string, entries: seq<Frame>, expected: Option<nat>) returns (r: StoreResult)
      requires Valid()
      modifies this
      ensures Valid()
      ensures r == if old(LogAt(key)).Version() == expected then Stored(Written(old(LogAt(key)), []).version) else VersionConflict
      ensures LogAt(key) == if r.Stored? then Written(old(LogAt(key)), entries) else old(LogAt(key))
      ensures forall other | other != key :: LogAt(other) == old(LogAt(other))
    {
      var log := LogAt(key);
      if log.Version() != expected {
        return VersionConflict;
      }
      var version := (if log.NoLog? then 0 else log.version) + 1;
      logs := logs[key := Log(entries, version)];
      return Stored(version);
    }

    method Clear(key: string)
      requires Valid()
      modifies this
      ensures Valid()
      ensures LogAt(key) == NoLog
      ensures forall other | other != key :: LogAt(other) == old(LogAt(other))
    {
      logs := logs - {key};
    }
  }

  class StateMachineManager {
    const cfg: Config
    const key: string
    const storage: MemoryJournalStorage
    var machines: Machines
    var retiring: Retiring
    var version: Option<nat>
    var live: nat

    ghost predicate Valid()
      reads this, storage
    {
      MachinesOk(machines) && storage.Valid()
    }

    function State(): Manager
      reads this
    {
      Manager(machines, retiring, version, live)
    }

    ghost function Log(): Log
      reads this, storage
    {
      storage.LogAt(key)
    }

    constructor (cfg: Config, key: string, storage: MemoryJournalStorage)
      requires storage.Valid()
      ensures Valid() && this.cfg == cfg && this.key == key && this.storage == storage
      ensures State() == Manager([], [], None, 0)
    {
      this.cfg, this.key, this.storage := cfg, key, storage;
      machines, retiring, version, live := [], [], None, 0;
    }

    /** Registers a structure before the replay; a duplicate name is refused. */
    method Register(n: Name, kind: Kind) returns (registered: bool)
      requires Valid()
      modifies this
      ensures Valid()
      ensures registered <==> !Has(old(machines), n)
      ensures machines == old(machines) + if registered then [(n, Reset(cfg.spec, kind))] else []
      ensures retiring == old(retiring) && version == old(version) && live == old(live)
    {
      if Has(machines, n) {
        return false;
      }
      PutFresh(machines, n, Reset(cfg.spec, kind));
      PutDistinct(machines, n, Reset(cfg.spec, kind));
      machines := Put(machines, n, Reset(cfg.spec, kind));
      return true;
    }

    method ApplyPayload(n: Name, p: Payload)
      requires MachinesOk(machines) && Has(machines, n)
      modifies this`machines
      ensures MachinesOk(machines) && Has(machines, n)
      ensures machines == Put(old(machines), n, Apply(cfg.spec, Get(old(machines), n), p))
      ensures RegistrationsOf(machines) == RegistrationsOf(old(machines))
    {
      var i := AppliedMachines(cfg, machines, n, [p]);
      RunOne(cfg.spec, Get(machines, n), p);
      PutHas(machines, n, Apply(cfg.spec, Get(machines, n), p), n);
      machines := Put(machines, n, Apply(cfg.spec, Get(machines, n), p));
    }

    method ApplyAll(n: Name, ps: seq<Payload>)
      requires MachinesOk(machines) && Has(machines, n)
      modifies this`machines
      ensures MachinesOk(machines)
      ensures machines == Put(old(machines), n, Run(cfg.spec, Get(old(machines), n), ps))
      ensures RegistrationsOf(machines) == RegistrationsOf(old(machines))
    {
      PutSame(machines, n);
      for j := 0 to |ps|
        invariant MachinesOk(machines) && Has(machines, n)
        invariant machines == Put(old(machines), n, Run(cfg.spec, Get(old(machines), n), ps[..j]))
        invariant RegistrationsOf(machines) == RegistrationsOf(old(machines))
      {
        assert ps[..j + 1][..j] == ps[..j];
        PutPut(old(machines), n, Run(cfg.spec, Get(old(machines), n), ps[..j]), Run(cfg.spec, Get(old(machines), n), ps[..j + 1]));
        ApplyPayload(n, ps[j]);
      }
      assert ps[..|ps|] == ps;
    }

    method ResetAll()
      requires MachinesOk(machines)
      modifies this`machines
      ensures MachinesOk(machines)
      ensures machines == ReplayedMachines(cfg.spec, RegistrationsOf(old(machines)), [])
      ensures RegistrationsOf(machines) == RegistrationsOf(old(machines))
    {
      ghost var regs := RegistrationsOf(machines);
      for i := 0 to |machines|
        invariant |machines| == |regs| && MachinesOk(machines) && RegistrationsOf(machines) == regs
        invariant machines[..i] == ReplayedMachines(cfg.spec, regs, [])[..i]
      {
        assert regs[i] == (machines[i].0, KindOf(machines[i].1));
        SameKeysDistinct(machines, machines[i := (machines[i].0, Reset(cfg.spec, KindOf(machines[i].1)))]);
        machines := machines[i := (machines[i].0, Reset(cfg.spec, KindOf(machines[i].1)))];
      }
    }

    /** One record of the log: applied to its machine when that is registered, buffered otherwise. */
    method ReplayFrame(f: Frame, ghost entries: seq<Frame>)
      requires MachinesOk(machines)
      requires machines == ReplayedMachines(cfg.spec, RegistrationsOf(machines), entries)
      requires retiring == RetiringOf(RegistrationsOf(machines), entries)
      modifies this`machines, this`retiring
      ensures MachinesOk(machines) && RegistrationsOf(machines) == RegistrationsOf(old(machines))
      ensures machines == ReplayedMachines(cfg.spec, RegistrationsOf(machines), entries + [f])
      ensures retiring == RetiringOf(RegistrationsOf(machines), entries + [f])
    {
      RegisteredIndex(machines, f.m);
      RegistrationsDistinct(machines);
      ReplayOneMore(cfg.spec, RegistrationsOf(machines), entries, f);
      assert (entries + [f])[..|entries|] == entries;
      if Has(machines, f.m) {
        ApplyAll(f.m, FramePayloads(f));
      } else {
        retiring := Retire(retiring, f);
      }
    }

    /** Rebuilds every structure from the log, buffering the records of names not registered here. */
    method Replay()
      requires Valid()
      modifies this
      ensures Valid()
      ensures State() == FreshReplay(cfg, RegistrationsOf(old(machines)), Log())
    {
      ghost var regs := RegistrationsOf(machines);
      var entries, stored := storage.Read(key);
      version := stored;
      live := |entries|;
      retiring := [];
      ResetAll();
      for i := 0 to |entries|
        invariant MachinesOk(machines) && RegistrationsOf(machines) == regs
        invariant machines == ReplayedMachines(cfg.spec, regs, entries[..i])
        invariant retiring == RetiringOf(regs, entries[..i])
        invariant version == stored && live == |entries|
      {
        ReplayFrame(entries[i], entries[..i]);
        assert entries[..i + 1] == entries[..i] + [entries[i]];
      }
      assert entries[..|entries|] == entries;
    }

    method Compact(fate: Fate) returns (outcome: Outcome)
      requires Valid()
      modifies this, storage
      ensures Valid()
      ensures var r := JournalManager.Compact(cfg, old(State()), old(Log()), fate);
        State() == r.mgr && Log() == r.log && outcome == r.outcome
    {
      var frames: seq<Frame> := [];
      for i := 0 to |machines|
        invariant frames == SnapFrames(machines)[..i]
      {
        frames := frames + [SnapFrame(machines[i].0, Snapshot(machines[i].1))];
      }
      var nextRetiring: Retiring := [];
      for i := 0 to |retiring|
        invariant nextRetiring + NextRetiring(retiring[i..], cfg.grace) == NextRetiring(retiring, cfg.grace)
        invariant frames == SnapFrames(machines) + VesselFrames(nextRetiring)
      {
        var (n, record) := retiring[i];
        assert retiring[i..][1..] == retiring[i + 1..];
        var count := record.compactions + 1;
        if count >= cfg.grace {
          continue;
        }
        nextRetiring := nextRetiring + [(n, RetirementRecord(record.ops, count))];
        frames := frames + [VesselFrame(n, count, record.ops)];
      }
      if fate == LostRequest {
        return Failed;
      }
      var stored := storage.Replace(key, frames, version);
      if stored.VersionConflict? {
        return Conflict;
      }
      if fate == LostAnswer {
        return Failed;
      }
      version := Some(stored.version);
      live := |frames|;
      retiring := nextRetiring;
      return Done;
    }

    /**
     * Writes the operations, and only then applies them; a compaction that has become due follows,
     * and its failure is not the caller's.
     */
    method AppendRange(n: Name, ps: seq<Payload>, fate: Fate, compaction: Fate) returns (outcome: Outcome)
      requires Valid()
      modifies this, storage
      ensures Valid()
      ensures var r := JournalManager.AppendRange(cfg, old(State()), old(Log()), n, ps, fate, compaction);
        State() == r.mgr && Log() == r.log && outcome == r.outcome
    {
      if !Has(machines, n) {
        return UnknownMachine;
      }
      if |ps| == 0 {
        return Done;
      }
      if fate == LostRequest {
        return Failed;
      }
      var stored := storage.Append(key, OpFrames(n, ps), version);
      if stored.VersionConflict? {
        return Conflict;
      }
      if fate == LostAnswer {
        return Failed;
      }
      version := Some(stored.version);
      ApplyAll(n, ps);
      live := live + |ps|;
      assert |machines| == |old(machines)| by {
        assert |RegistrationsOf(machines)| == |RegistrationsOf(old(machines))|;
      }
      if live >= cfg.snapshotThreshold && live >= |machines| + 1 {
        var ignored := Compact(compaction);
      }
      return Done;
    }

    method Clear()
      requires Valid()
      modifies this, storage
      ensures Valid()
      ensures Log() == NoLog
      ensures State() == FreshReplay(cfg, RegistrationsOf(old(machines)), NoLog)
    {
      storage.Clear(key);
      version := None;
      live := 0;
      retiring := [];
      ResetAll();
    }
  }

  lemma PutSame<V>(m: Entries<Name, V>, n: Name)
    requires Distinct(m) && Has(m, n)
    ensures Put(m, n, Get(m, n)) == m
  {
    HasIndex(m, n);
    var i :| 0 <= i < |m| && m[i].0 == n;
    GetIndex(m, i);
    PutAt(m, i, m[i].1);
  }

  lemma PutPut<V>(m: Entries<Name, V>, n: Name, v: V, w: V)
    requires Distinct(m) && Has(m, n)
    ensures Put(Put(m, n, v), n, w) == Put(m, n, w)
    ensures Has(Put(m, n, v), n) && Get(Put(m, n, v), n) == v
  {
    HasIndex(m, n);
    var i :| 0 <= i < |m| && m[i].0 == n;
    PutAt(m, i, v);
    PutAt(m, i, w);
    PutDistinct(m, n, v);
    PutAt(Put(m, n, v), i, w);
    GetIndex(Put(m, n, v), i);
  }

  lemma MeaningOneMore(spec: LogSpec, entries: seq<Frame>, f: Frame, n: Name, kind: Kind)
    ensures Meaning(spec, entries + [f], n, kind) ==
      if f.m == n then Run(spec, Meaning(spec, entries, n, kind), FramePayloads(f)) else Meaning(spec, entries, n, kind)
  {
    assert (entries + [f])[..|entries|] == entries;
    RunConcat(spec, Reset(spec, kind), PayloadsFor(entries, n), if f.m == n then FramePayloads(f) else []);
  }

  /** Replaying one more record applies it to its machine and to no other. */
  lemma ReplayOneMore(spec: LogSpec, regs: Registrations, entries: seq<Frame>, f: Frame)
    requires Distinct(regs)
    ensures var ms := ReplayedMachines(spec, regs, entries);
      && (Has(regs, f.m) <==> Has(ms, f.m))
      && ReplayedMachines(spec, regs, entries + [f]) ==
           if Has(ms, f.m) then Put(ms, f.m, Run(spec, Get(ms, f.m), FramePayloads(f))) else ms
  {
    var ms, ms' := ReplayedMachines(spec, regs, entries), ReplayedMachines(spec, regs, entries + [f]);
    HasIndex(regs, f.m);
    HasIndex(ms, f.m);
    assert forall i | 0 <= i < |regs| :: ms[i].0 == regs[i].0;
    SameKeysDistinct(regs, ms);
    if Has(regs, f.m) {
      var i :| 0 <= i < |regs| && regs[i].0 == f.m;
      ReplayOneMoreAt(spec, regs, entries, f, i);
    } else {
      forall j | 0 <= j < |regs| ensures ms'[j] == ms[j] {
        MeaningOneMore(spec, entries, f, regs[j].0, regs[j].1);
      }
    }
  }

  lemma ReplayOneMoreAt(spec: LogSpec, regs: Registrations, entries: seq<Frame>, f: Frame, i: nat)
    requires Distinct(regs) && i < |regs| && regs[i].0 == f.m
    requires Distinct(ReplayedMachines(spec, regs, entries))
    ensures var ms := ReplayedMachines(spec, regs, entries);
      Has(ms, f.m) && ReplayedMachines(spec, regs, entries + [f]) == Put(ms, f.m, Run(spec, Get(ms, f.m), FramePayloads(f)))
  {
    var ms, ms' := ReplayedMachines(spec, regs, entries), ReplayedMachines(spec, regs, entries + [f]);
    GetIndex(ms, i);
    var next := Run(spec, ms[i].1, FramePayloads(f));
    PutAt(ms, i, next);
    forall j | 0 <= j < |regs| ensures ms'[j] == ms[i := (f.m, next)][j] {
      KeysAt(regs, i, j);
      MeaningOneMore(spec, entries, f, regs[j].0, regs[j].1);
    }
  }
}
