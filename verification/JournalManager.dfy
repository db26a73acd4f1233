/**
 * The manager of a grain's journal: one append-only log shared by all durable structures, replayed
 * on activation, appended to under a version compare-and-set, and compacted into snapshots. Names
 * that are in the log but not registered keep their data in vessels for a bounded number of
 * compactions.
 */
module JournalManager {
  import opened Wrappers
  import opened OrderedMap
  import opened DurableMachines

  type Name = string

  /** A framed log record. A vessel holds the buffered payloads of an unregistered structure. */
  datatype Frame =
    | OpFrame(m: Name, p: Payload)
    | SnapFrame(m: Name, p: Payload)
    | VesselFrame(m: Name, count: nat, ops: seq<Payload>)

  datatype Log = NoLog | Log(entries: seq<Frame>, version: nat) {
    function Version(): Option<nat> {
      if NoLog? then None else Some(version)
    }

    function Entries(): seq<Frame> {
      if NoLog? then [] else entries
    }
  }

  datatype RetirementRecord = RetirementRecord(ops: seq<Payload>, compactions: nat)

  datatype Config = Config(spec: LogSpec, snapshotThreshold: int, grace: int)

  type Machines = Entries<Name, State>
  type Retiring = Entries<Name, RetirementRecord>

  datatype Manager = Manager(machines: Machines, retiring: Retiring, version: Option<nat>, live: nat)

  // ----- What a log means -----

  function FramePayloads(f: Frame): seq<Payload> {
    match f
    case VesselFrame(_, _, ops) => ops
    case _ => [f.p]
  }

  /** Every payload the log holds for a name, oldest first, vessels unwrapped. */
  function PayloadsFor(entries: seq<Frame>, n: Name): seq<Payload> {
    if entries == [] then []
    else
      var last := entries[|entries| - 1];
      PayloadsFor(entries[..|entries| - 1], n) + if last.m == n then FramePayloads(last) else []
  }

  /** The state a structure of this name and kind has by the log. */
  function Meaning(spec: LogSpec, entries: seq<Frame>, n: Name, kind: Kind): State {
    Run(spec, Reset(spec, kind), PayloadsFor(entries, n))
  }

  /** A vessel is the first record of its name: compaction writes it, and only appends follow. */
  ghost predicate VesselsFirst(entries: seq<Frame>) {
    forall i, j | 0 <= i < j < |entries| :: NoLaterVessel(entries, i, j)
  }

  ghost predicate NoLaterVessel(entries: seq<Frame>, i: nat, j: nat)
    requires i < |entries| && j < |entries|
  {
    entries[i].m == entries[j].m ==> !entries[j].VesselFrame?
  }

  lemma {:induction false} PayloadsForConcat(a: seq<Frame>, b: seq<Frame>, n: Name)
    ensures PayloadsFor(a + b, n) == PayloadsFor(a, n) + PayloadsFor(b, n)
    decreases |b|
  {
    if b == [] {
      assert a + b == a;
    } else {
      PayloadsForConcat(a, b[..|b| - 1], n);
      assert (a + b)[..|a + b| - 1] == a + b[..|b| - 1] && (a + b)[|a + b| - 1] == b[|b| - 1];
      var last := if b[|b| - 1].m == n then FramePayloads(b[|b| - 1]) else [];
      assert PayloadsFor(a, n) + PayloadsFor(b[..|b| - 1], n) + last == PayloadsFor(a, n) + (PayloadsFor(b[..|b| - 1], n) + last);
    }
  }

  lemma {:induction false} PayloadsForAbsent(entries: seq<Frame>, n: Name)
    requires forall i | 0 <= i < |entries| :: entries[i].m != n
    ensures PayloadsFor(entries, n) == []
  {
    if entries != [] {
      PayloadsForAbsent(entries[..|entries| - 1], n);
    }
  }

  // ----- Replay -----

  /** The registrations of a manager: names with the kind of structure registered. */
  type Registrations = Entries<Name, Kind>

  function RegistrationsOf(machines: Machines): Registrations {
    seq(|machines|, i requires 0 <= i < |machines| => (machines[i].0, KindOf(machines[i].1)))
  }

  function ReplayedMachines(spec: LogSpec, regs: Registrations, entries: seq<Frame>): (r: Machines)
    ensures |r| == |regs|
  {
    seq(|regs|, i requires 0 <= i < |regs| => (regs[i].0, Meaning(spec, entries, regs[i].0, regs[i].1)))
  }

  /** What replay buffers for one record of an unregistered name. */
  function Retire(retiring: Retiring, f: Frame): Retiring {
    match f
    case VesselFrame(m, count, ops) => Put(retiring, m, RetirementRecord(ops, count))
    case _ =>
      var was := if Has(retiring, f.m) then Get(retiring, f.m) else RetirementRecord([], 0);
      Put(retiring, f.m, RetirementRecord(was.ops + [f.p], was.compactions))
  }

  function RetiringOf(regs: Registrations, entries: seq<Frame>): Retiring {
    if entries == [] then []
    else
      var before := RetiringOf(regs, entries[..|entries| - 1]);
      var last := entries[|entries| - 1];
      if Has(regs, last.m) then before else Retire(before, last)
  }

  /** The manager a fresh activation with these registrations builds from the log. */
  function FreshReplay(cfg: Config, regs: Registrations, log: Log): Manager {
    Manager(ReplayedMachines(cfg.spec, regs, log.Entries()), RetiringOf(regs, log.Entries()), log.Version(), |log.Entries()|)
  }

  // ----- Appending and compacting -----

  /** What becomes of one storage call: it runs, it is lost on the way, or its answer is lost. */
  datatype Fate = Answered | LostRequest | LostAnswer

  datatype Outcome = Done | Conflict | Failed | UnknownMachine

  function OpFrames(n: Name, ps: seq<Payload>): (r: seq<Frame>)
    ensures |r| == |ps|
  {
    seq(|ps|, i requires 0 <= i < |ps| => OpFrame(n, ps[i]))
  }

  function SnapFrames(machines: Machines): (r: seq<Frame>)
    ensures |r| == |machines|
  {
    seq(|machines|, i requires 0 <= i < |machines| => SnapFrame(machines[i].0, Snapshot(machines[i].1)))
  }

  /** The retirement records that outlive a compaction, one compaction older. */
  function NextRetiring(retiring: Retiring, grace: int): Retiring {
    if retiring == [] then []
    else
      var (n, record) := retiring[0];
      (if record.compactions + 1 >= grace then [] else [(n, record.(compactions := record.compactions + 1))])
      + NextRetiring(retiring[1..], grace)
  }

  function VesselFrames(retiring: Retiring): (r: seq<Frame>)
    ensures |r| == |retiring|
  {
    seq(|retiring|, i requires 0 <= i < |retiring| =>
      VesselFrame(retiring[i].0, retiring[i].1.compactions, retiring[i].1.ops))
  }

  function Compacted(cfg: Config, mgr: Manager): seq<Frame> {
    SnapFrames(mgr.machines) + VesselFrames(NextRetiring(mgr.retiring, cfg.grace))
  }

  function Written(log: Log, entries: seq<Frame>): Log {
    Log(entries, if log.NoLog? then 1 else log.version + 1)
  }

  datatype Step = Step(mgr: Manager, log: Log, outcome: Outcome)

  function Compact(cfg: Config, mgr: Manager, log: Log, fate: Fate): Step {
    if fate == LostRequest then Step(mgr, log, Failed)
    else if mgr.version != log.Version() then Step(mgr, log, Conflict)
    else
      var frames := Compacted(cfg, mgr);
      var log' := Written(log, frames);
      if fate == LostAnswer then Step(mgr, log', Failed)
      else Step(Manager(mgr.machines, NextRetiring(mgr.retiring, cfg.grace), log'.Version(), |frames|), log', Done)
  }

  function CompactionDue(cfg: Config, mgr: Manager): bool {
    mgr.live >= cfg.snapshotThreshold && mgr.live >= |mgr.machines| + 1
  }

  /** The manager once a range it wrote is applied. */
  function Applied(cfg: Config, mgr: Manager, log': Log, n: Name, ps: seq<Payload>): Manager
    requires Has(mgr.machines, n)
  {
    mgr.(
      machines := Put(mgr.machines, n, Run(cfg.spec, Get(mgr.machines, n), ps)),
      version := log'.Version(),
      live := mgr.live + |ps|)
  }

  function AppendRange(cfg: Config, mgr: Manager, log: Log, n: Name, ps: seq<Payload>, fate: Fate, compaction: Fate): Step {
    if !Has(mgr.machines, n) then Step(mgr, log, UnknownMachine)
    else if ps == [] then Step(mgr, log, Done)
    else if fate == LostRequest then Step(mgr, log, Failed)
    else if mgr.version != log.Version() then Step(mgr, log, Conflict)
    else
      var log' := Written(log, log.Entries() + OpFrames(n, ps));
      if fate == LostAnswer then Step(mgr, log', Failed)
      else
        var mgr' := Applied(cfg, mgr, log', n, ps);
        if CompactionDue(cfg, mgr') then
          var c := Compact(cfg, mgr', log', compaction);
          Step(c.mgr, c.log, Done)
        else Step(mgr', log', Done)
  }

  // ----- In step with the log -----

  ghost predicate MachinesOk(machines: Machines) {
    Distinct(machines) && forall i | 0 <= i < |machines| :: Ok(machines[i].1)
  }

  ghost predicate SameAt(ms: Machines, ns: Machines, i: nat)
    requires i < |ms| && i < |ns|
  {
    ms[i].0 == ns[i].0 && SameState(ms[i].1, ns[i].1)
  }

  ghost predicate SameMachines(ms: Machines, ns: Machines) {
    |ms| == |ns| && forall i | 0 <= i < |ms| :: SameAt(ms, ns, i)
  }

  ghost predicate SameManager(a: Manager, b: Manager) {
    SameMachines(a.machines, b.machines) && a.retiring == b.retiring && a.version == b.version && a.live == b.live
  }

  /** The manager holds what a fresh replay with its registrations would build. */
  ghost predicate InStep(cfg: Config, mgr: Manager, log: Log) {
    SameManager(mgr, FreshReplay(cfg, RegistrationsOf(mgr.machines), log))
  }

  lemma {:induction false} ResetOk(spec: LogSpec, entries: seq<Frame>, n: Name, kind: Kind)
    ensures Ok(Meaning(spec, entries, n, kind)) && KindOf(Meaning(spec, entries, n, kind)) == kind
  {
    RunKeepsOk(spec, Reset(spec, kind), PayloadsFor(entries, n));
  }

  lemma FreshReplayIsOk(cfg: Config, regs: Registrations, log: Log)
    requires Distinct(regs)
    ensures MachinesOk(FreshReplay(cfg, regs, log).machines)
    ensures RegistrationsOf(FreshReplay(cfg, regs, log).machines) == regs
    ensures InStep(cfg, FreshReplay(cfg, regs, log), log)
  {
    var mgr := FreshReplay(cfg, regs, log);
    SameKeysDistinct(regs, mgr.machines);
    forall i | 0 <= i < |regs|
      ensures Ok(mgr.machines[i].1) && KindOf(mgr.machines[i].1) == regs[i].1
    {
      ResetOk(cfg.spec, log.Entries(), regs[i].0, regs[i].1);
    }
    assert RegistrationsOf(mgr.machines) == regs;
  }

  lemma SameKeysDistinct<V, W>(m: Entries<Name, V>, n: Entries<Name, W>)
    requires Distinct(m) && |m| == |n| && forall i | 0 <= i < |m| :: m[i].0 == n[i].0
    ensures Distinct(n)
  {
    forall i, j | 0 <= i < j < |n| ensures KeysDiffer(n, i, j) {
      assert KeysDiffer(m, i, j);
    }
  }

  lemma RegistrationsDistinct(machines: Machines)
    requires Distinct(machines)
    ensures Distinct(RegistrationsOf(machines))
  {
    SameKeysDistinct(machines, RegistrationsOf(machines));
  }

  lemma RegisteredIndex(machines: Machines, n: Name)
    ensures Has(RegistrationsOf(machines), n) <==> Has(machines, n)
  {
    HasIndex(machines, n);
    HasIndex(RegistrationsOf(machines), n);
    if Has(machines, n) {
      var i :| 0 <= i < |machines| && machines[i].0 == n;
      assert RegistrationsOf(machines)[i].0 == n;
    }
  }

  // ----- Retirement records and the log -----

  ghost predicate Mentions(entries: seq<Frame>, n: Name) {
    exists i :: 0 <= i < |entries| && entries[i].m == n
  }

  /** Replay buffers, for every unregistered name in the log, exactly the payloads the log holds for it. */
  lemma {:induction false} RetiringHoldsPayloads(regs: Registrations, entries: seq<Frame>, n: Name)
    requires VesselsFirst(entries)
    ensures var r := RetiringOf(regs, entries);
      && Distinct(r)
      && (Has(r, n) <==> !Has(regs, n) && Mentions(entries, n))
      && (Has(r, n) ==> Get(r, n).ops == PayloadsFor(entries, n))
    decreases |entries|
  {
    if entries != [] {
      var init, last := entries[..|entries| - 1], entries[|entries| - 1];
      assert VesselsFirst(init) by {
        forall i, j | 0 <= i < j < |init| ensures NoLaterVessel(init, i, j) {
          assert NoLaterVessel(entries, i, j);
        }
      }
      RetiringHoldsPayloads(regs, init, n);
      assert Mentions(entries, n) <==> Mentions(init, n) || last.m == n by {
        if i :| 0 <= i < |entries| && entries[i].m == n {
          assert i < |init| ==> init[i].m == n;
        }
        if i :| 0 <= i < |init| && init[i].m == n {
          assert entries[i].m == n;
        }
        assert entries[|entries| - 1] == last;
      }
      if !Has(regs, last.m) {
        RetireOne(RetiringOf(regs, init), last, n);
        if last.m == n && !Mentions(init, n) {
          PayloadsForAbsent(init, n);
        }
        if last.VesselFrame? && last.m == n {
          forall i | 0 <= i < |init| ensures init[i].m != n {
            assert NoLaterVessel(entries, i, |init|);
          }
        }
      }
    }
  }

  lemma RetireOne(retiring: Retiring, f: Frame, n: Name)
    requires Distinct(retiring)
    ensures var r := Retire(retiring, f);
      && Distinct(r)
      && (Has(r, n) <==> f.m == n || Has(retiring, n))
      && (Has(r, n) && f.m != n ==> Get(r, n) == Get(retiring, n))
      && (f.m == n && f.VesselFrame? ==> Get(r, n) == RetirementRecord(f.ops, f.count))
      && (f.m == n && !f.VesselFrame? ==> Get(r, n).ops == (if Has(retiring, n) then Get(retiring, n).ops else []) + [f.p])
  {
    var record := match f
      case VesselFrame(_, count, ops) => RetirementRecord(ops, count)
      case _ =>
        var was := if Has(retiring, f.m) then Get(retiring, f.m) else RetirementRecord([], 0);
        RetirementRecord(was.ops + [f.p], was.compactions);
    assert Retire(retiring, f) == Put(retiring, f.m, record);
    PutDistinct(retiring, f.m, record);
    PutHas(retiring, f.m, record, n);
  }

  // ----- Append keeps a manager in step -----

  lemma {:induction false} PayloadsForOps(n: Name, ps: seq<Payload>, x: Name)
    ensures PayloadsFor(OpFrames(n, ps), x) == if x == n then ps else []
    decreases |ps|
  {
    if ps != [] {
      PayloadsForOps(n, ps[..|ps| - 1], x);
      assert OpFrames(n, ps)[..|ps| - 1] == OpFrames(n, ps[..|ps| - 1]);
    }
  }

  lemma {:induction false} RetiringIgnoresRegistered(regs: Registrations, entries: seq<Frame>, more: seq<Frame>)
    requires forall i | 0 <= i < |more| :: Has(regs, more[i].m)
    ensures RetiringOf(regs, entries + more) == RetiringOf(regs, entries)
    decreases |more|
  {
    if more == [] {
      assert entries + more == entries;
    } else {
      RetiringIgnoresRegistered(regs, entries, more[..|more| - 1]);
      assert (entries + more)[..|entries + more| - 1] == entries + more[..|more| - 1];
    }
  }

  lemma OpsKeepVesselsFirst(entries: seq<Frame>, n: Name, ps: seq<Payload>)
    requires VesselsFirst(entries)
    ensures VesselsFirst(entries + OpFrames(n, ps))
  {
    var entries' := entries + OpFrames(n, ps);
    forall i, j | 0 <= i < j < |entries'| ensures NoLaterVessel(entries', i, j) {
      if j < |entries| {
        assert NoLaterVessel(entries, i, j);
      }
    }
  }

  /** The machines after an applied range, entry by entry. */
  lemma AppliedMachines(cfg: Config, machines: Machines, n: Name, ps: seq<Payload>) returns (i: nat)
    requires MachinesOk(machines) && Has(machines, n)
    ensures i < |machines| && machines[i].0 == n
    ensures var ms := Put(machines, n, Run(cfg.spec, Get(machines, n), ps));
      && ms == machines[i := (n, Run(cfg.spec, machines[i].1, ps))]
      && MachinesOk(ms)
      && RegistrationsOf(ms) == RegistrationsOf(machines)
  {
    HasIndex(machines, n);
    i :| 0 <= i < |machines| && machines[i].0 == n;
    GetIndex(machines, i);
    RunKeepsOk(cfg.spec, machines[i].1, ps);
    PutAt(machines, i, Run(cfg.spec, machines[i].1, ps));
    PutDistinct(machines, n, Run(cfg.spec, machines[i].1, ps));
  }

  lemma AppendKeepsInStep(cfg: Config, mgr: Manager, log: Log, n: Name, ps: seq<Payload>)
    requires InStep(cfg, mgr, log) && MachinesOk(mgr.machines) && Has(mgr.machines, n)
    ensures var log' := Written(log, log.Entries() + OpFrames(n, ps));
      var mgr' := Applied(cfg, mgr, log', n, ps);
      && InStep(cfg, mgr', log')
      && MachinesOk(mgr'.machines)
      && RegistrationsOf(mgr'.machines) == RegistrationsOf(mgr.machines)
  {
    var i := AppliedMachines(cfg, mgr.machines, n, ps);
    var regs := RegistrationsOf(mgr.machines);
    var entries := log.Entries();
    var entries' := entries + OpFrames(n, ps);
    var ms := Put(mgr.machines, n, Run(cfg.spec, Get(mgr.machines, n), ps));
    RegisteredIndex(mgr.machines, n);
    RetiringIgnoresRegistered(regs, entries, OpFrames(n, ps));
    var was, now := ReplayedMachines(cfg.spec, regs, entries), ReplayedMachines(cfg.spec, regs, entries');
    forall j | 0 <= j < |ms| ensures SameAt(ms, now, j) {
      assert SameAt(mgr.machines, was, j);
      MeaningAfterOps(cfg.spec, entries, n, ps, regs[j].0, regs[j].1);
      if j == i {
        RunRespectsSame(cfg.spec, mgr.machines[j].1, was[j].1, ps);
      } else {
        KeysAt(mgr.machines, i, j);
      }
    }
  }

  lemma MeaningAfterOps(spec: LogSpec, entries: seq<Frame>, n: Name, ps: seq<Payload>, x: Name, kind: Kind)
    ensures Meaning(spec, entries + OpFrames(n, ps), x, kind) ==
      if x == n then Run(spec, Meaning(spec, entries, x, kind), ps) else Meaning(spec, entries, x, kind)
  {
    PayloadsForConcat(entries, OpFrames(n, ps), x);
    PayloadsForOps(n, ps, x);
    if x == n {
      RunConcat(spec, Reset(spec, kind), PayloadsFor(entries, x), ps);
    } else {
      assert PayloadsFor(entries, x) + [] == PayloadsFor(entries, x);
    }
  }

  // ----- Compaction preserves the meaning of the log -----

  lemma {:induction false} SnapPayloads(machines: Machines, n: Name)
    requires Distinct(machines)
    ensures PayloadsFor(SnapFrames(machines), n) == if Has(machines, n) then [Snapshot(Get(machines, n))] else []
    decreases |machines|
  {
    if machines != [] {
      var init, last := machines[..|machines| - 1], machines[|machines| - 1];
      HasGetLast(machines, n);
      SnapPayloads(init, n);
      assert SnapFrames(machines)[..|machines| - 1] == SnapFrames(init);
    }
  }

  /** Lookup in a map, seen from its last entry. */
  lemma HasGetLast<V>(m: Entries<Name, V>, n: Name)
    requires Distinct(m) && m != []
    ensures var init, last := m[..|m| - 1], m[|m| - 1];
      && Distinct(init)
      && (Has(m, n) <==> Has(init, n) || last.0 == n)
      && (last.0 == n ==> Get(m, n) == last.1 && !Has(init, n))
      && (Has(init, n) ==> Get(m, n) == Get(init, n))
  {
    var init := m[..|m| - 1];
    DistinctSlice(m, 0, |m| - 1);
    HasIndex(m, n);
    HasIndex(init, n);
    GetIndex(m, |m| - 1);
    if Has(init, n) {
      var i :| 0 <= i < |init| && init[i].0 == n;
      GetIndex(init, i);
      GetIndex(m, i);
      KeysAt(m, i, |m| - 1);
    }
  }

  lemma {:induction false} VesselPayloads(retiring: Retiring, n: Name)
    requires Distinct(retiring)
    ensures PayloadsFor(VesselFrames(retiring), n) == if Has(retiring, n) then Get(retiring, n).ops else []
    decreases |retiring|
  {
    if retiring != [] {
      var init := retiring[..|retiring| - 1];
      HasGetLast(retiring, n);
      VesselPayloads(init, n);
      assert VesselFrames(retiring)[..|retiring| - 1] == VesselFrames(init);
    }
  }

  /** A record outlives the compaction exactly while its grace lasts, with its payloads untouched. */
  lemma {:induction false} NextRetiringHas(retiring: Retiring, grace: int, n: Name)
    requires Distinct(retiring)
    ensures var next := NextRetiring(retiring, grace);
      && Distinct(next)
      && (Has(next, n) <==> Has(retiring, n) && Get(retiring, n).compactions + 1 < grace)
      && (Has(next, n) ==> Get(next, n) == RetirementRecord(Get(retiring, n).ops, Get(retiring, n).compactions + 1))
  {
    if retiring != [] {
      var rest := NextRetiring(retiring[1..], grace);
      DistinctTail(retiring);
      HeadKeyIsNew(retiring);
      NextRetiringHas(retiring[1..], grace, n);
      NextRetiringHas(retiring[1..], grace, retiring[0].0);
      if retiring[0].1.compactions + 1 >= grace {
        assert NextRetiring(retiring, grace) == [] + rest == rest;
      } else {
        var record := retiring[0].1.(compactions := retiring[0].1.compactions + 1);
        DistinctCons(retiring[0].0, record, rest);
        assert NextRetiring(retiring, grace)[1..] == rest;
      }
    }
  }

  /** The compaction at which an unregistered name's data is dropped for good. */
  predicate Purged(cfg: Config, mgr: Manager, n: Name) {
    Has(mgr.retiring, n) && Get(mgr.retiring, n).compactions + 1 >= cfg.grace
  }

  /** The retirement records of a manager in step speak of exactly the unregistered names of the log. */
  lemma InStepRetiring(cfg: Config, mgr: Manager, log: Log, n: Name)
    requires InStep(cfg, mgr, log) && MachinesOk(mgr.machines) && VesselsFirst(log.Entries())
    ensures Distinct(mgr.retiring)
    ensures Has(mgr.retiring, n) <==> !Has(mgr.machines, n) && Mentions(log.Entries(), n)
    ensures Has(mgr.retiring, n) ==> Get(mgr.retiring, n).ops == PayloadsFor(log.Entries(), n)
    ensures !Has(mgr.retiring, n) && !Has(mgr.machines, n) ==> PayloadsFor(log.Entries(), n) == []
  {
    RegisteredIndex(mgr.machines, n);
    RetiringHoldsPayloads(RegistrationsOf(mgr.machines), log.Entries(), n);
    if !Mentions(log.Entries(), n) {
      PayloadsForAbsent(log.Entries(), n);
    }
  }

  /**
   * What the log written by a compaction holds for a name: one snapshot of a registered structure,
   * the untouched payloads of an unregistered one, and nothing for one whose grace has run out.
   */
  lemma CompactedPayloads(cfg: Config, mgr: Manager, log: Log, n: Name)
    requires InStep(cfg, mgr, log) && MachinesOk(mgr.machines) && VesselsFirst(log.Entries())
    ensures PayloadsFor(Compacted(cfg, mgr), n) ==
      if Has(mgr.machines, n) then [Snapshot(Get(mgr.machines, n))]
      else if Purged(cfg, mgr, n) then []
      else PayloadsFor(log.Entries(), n)
  {
    InStepRetiring(cfg, mgr, log, n);
    NextRetiringHas(mgr.retiring, cfg.grace, n);
    FramesPayloads(mgr.machines, NextRetiring(mgr.retiring, cfg.grace), n);
  }

  lemma FramesPayloads(machines: Machines, next: Retiring, n: Name)
    requires Distinct(machines) && Distinct(next)
    ensures PayloadsFor(SnapFrames(machines) + VesselFrames(next), n)
      == (if Has(machines, n) then [Snapshot(Get(machines, n))] else []) + (if Has(next, n) then Get(next, n).ops else [])
  {
    SnapPayloads(machines, n);
    VesselPayloads(next, n);
    PayloadsForConcat(SnapFrames(machines), VesselFrames(next), n);
  }

  /**
   * Compaction preserves meaning: the log it writes gives every structure the state the old log
   * gave it, whatever the kind an unregistered name is registered with later; only a name whose
   * grace runs out at this compaction starts afresh.
   */
  lemma CompactionPreservesMeaning(cfg: Config, mgr: Manager, log: Log, n: Name, kind: Kind)
    requires InStep(cfg, mgr, log) && MachinesOk(mgr.machines) && VesselsFirst(log.Entries())
    requires Has(mgr.machines, n) ==> kind == KindOf(Get(mgr.machines, n))
    ensures var was, now := Meaning(cfg.spec, log.Entries(), n, kind), Meaning(cfg.spec, Compacted(cfg, mgr), n, kind);
      if Purged(cfg, mgr, n) then now == Reset(cfg.spec, kind) else SameState(now, was)
  {
    CompactedPayloads(cfg, mgr, log, n);
    InStepRetiring(cfg, mgr, log, n);
    if Has(mgr.machines, n) {
      var s := Get(mgr.machines, n);
      RegisteredMeaning(cfg, mgr, log, n);
      SnapshotRebuilds(cfg.spec, s);
      RunOne(cfg.spec, Reset(cfg.spec, kind), Snapshot(s));
    }
  }

  lemma RunOne(spec: LogSpec, s: State, p: Payload)
    ensures Run(spec, s, [p]) == Apply(spec, s, p)
  {
    assert [p][..0] == [];
  }

  /** A manager in step holds the log's state for each of its structures. */
  lemma RegisteredMeaning(cfg: Config, mgr: Manager, log: Log, n: Name)
    requires InStep(cfg, mgr, log) && MachinesOk(mgr.machines) && Has(mgr.machines, n)
    ensures var s := Get(mgr.machines, n); Ok(s) && SameState(s, Meaning(cfg.spec, log.Entries(), n, KindOf(s)))
  {
    HasIndex(mgr.machines, n);
    var i :| 0 <= i < |mgr.machines| && mgr.machines[i].0 == n;
    GetIndex(mgr.machines, i);
    var regs := RegistrationsOf(mgr.machines);
    assert regs[i] == (n, KindOf(mgr.machines[i].1));
    assert SameAt(mgr.machines, ReplayedMachines(cfg.spec, regs, log.Entries()), i);
  }

  /**
   * Any future activation, whatever it registers, replays the compacted log to the machines the old
   * log would have given it, except for names purged by the compaction.
   */
  lemma CompactionPreservesReplay(cfg: Config, mgr: Manager, log: Log, later: Registrations, i: nat)
    requires InStep(cfg, mgr, log) && MachinesOk(mgr.machines) && VesselsFirst(log.Entries())
    requires i < |later|
    requires Has(mgr.machines, later[i].0) ==> later[i].1 == KindOf(Get(mgr.machines, later[i].0))
    ensures var now := FreshReplay(cfg, later, Compact(cfg, mgr, log, Answered).log).machines;
      var was := FreshReplay(cfg, later, log).machines;
      if Purged(cfg, mgr, later[i].0) then now[i].1 == Reset(cfg.spec, later[i].1)
      else SameState(now[i].1, was[i].1)
  {
    CompactionPreservesMeaning(cfg, mgr, log, later[i].0, later[i].1);
  }

  // ----- Compaction keeps the manager in step -----

  lemma {:induction false} RetiringOfVessels(regs: Registrations, snaps: seq<Frame>, next: Retiring)
    requires forall i | 0 <= i < |snaps| :: Has(regs, snaps[i].m)
    requires Distinct(next) && forall i | 0 <= i < |next| :: !Has(regs, next[i].0)
    ensures RetiringOf(regs, snaps + VesselFrames(next)) == next
    decreases |next|
  {
    if next == [] {
      assert snaps + VesselFrames(next) == [] + snaps;
      RetiringIgnoresRegistered(regs, [], snaps);
    } else {
      var init, last := next[..|next| - 1], next[|next| - 1];
      DistinctSlice(next, 0, |next| - 1);
      RetiringOfVessels(regs, snaps, init);
      var entries := snaps + VesselFrames(next);
      assert entries[..|entries| - 1] == snaps + VesselFrames(init);
      HasGetLast(next, last.0);
      assert forall i | 0 <= i < |init| :: init[i] == next[i];
      PutFresh(init, last.0, last.1);
    }
  }

  lemma SnapsThenVessels(machines: Machines, next: Retiring)
    requires Distinct(next) && forall i | 0 <= i < |next| :: !Has(machines, next[i].0)
    ensures VesselsFirst(SnapFrames(machines) + VesselFrames(next))
  {
    var snaps := SnapFrames(machines);
    var frames := snaps + VesselFrames(next);
    assert forall j | 0 <= j < |snaps| :: frames[j] == snaps[j];
    forall i, j | 0 <= i < j < |frames| ensures NoLaterVessel(frames, i, j) {
      if j >= |snaps| {
        assert frames[j].m == next[j - |snaps|].0;
        if i < |snaps| {
          HasIndex(machines, frames[i].m);
          assert machines[i].0 == frames[i].m;
        } else {
          assert frames[i].m == next[i - |snaps|].0;
          KeysAt(next, i - |snaps|, j - |snaps|);
        }
      }
    }
  }

  lemma NextRetiringUnregistered(cfg: Config, mgr: Manager, log: Log)
    requires InStep(cfg, mgr, log) && MachinesOk(mgr.machines) && VesselsFirst(log.Entries())
    ensures var next := NextRetiring(mgr.retiring, cfg.grace);
      Distinct(next) && forall i | 0 <= i < |next| ::
        !Has(mgr.machines, next[i].0) && !Has(RegistrationsOf(mgr.machines), next[i].0)
  {
    var next := NextRetiring(mgr.retiring, cfg.grace);
    InStepRetiring(cfg, mgr, log, "");
    NextRetiringHas(mgr.retiring, cfg.grace, "");
    forall i | 0 <= i < |next| ensures !Has(mgr.machines, next[i].0) && !Has(RegistrationsOf(mgr.machines), next[i].0) {
      GetIndex(next, i);
      NextRetiringHas(mgr.retiring, cfg.grace, next[i].0);
      InStepRetiring(cfg, mgr, log, next[i].0);
      RegisteredIndex(mgr.machines, next[i].0);
    }
  }

  lemma CompactedVesselsFirst(cfg: Config, mgr: Manager, log: Log)
    requires InStep(cfg, mgr, log) && MachinesOk(mgr.machines) && VesselsFirst(log.Entries())
    ensures VesselsFirst(Compacted(cfg, mgr))
    ensures RetiringOf(RegistrationsOf(mgr.machines), Compacted(cfg, mgr)) == NextRetiring(mgr.retiring, cfg.grace)
  {
    var snaps := SnapFrames(mgr.machines);
    NextRetiringUnregistered(cfg, mgr, log);
    forall i | 0 <= i < |snaps| ensures Has(RegistrationsOf(mgr.machines), snaps[i].m) {
      GetIndex(mgr.machines, i);
      RegisteredIndex(mgr.machines, snaps[i].m);
    }
    RetiringOfVessels(RegistrationsOf(mgr.machines), snaps, NextRetiring(mgr.retiring, cfg.grace));
    SnapsThenVessels(mgr.machines, NextRetiring(mgr.retiring, cfg.grace));
  }

  lemma CompactKeepsInStep(cfg: Config, mgr: Manager, log: Log)
    requires InStep(cfg, mgr, log) && MachinesOk(mgr.machines) && VesselsFirst(log.Entries())
    ensures var c := Compact(cfg, mgr, log, Answered);
      c.outcome == Done && InStep(cfg, c.mgr, c.log) && VesselsFirst(c.log.Entries())
  {
    CompactedVesselsFirst(cfg, mgr, log);
    var c := Compact(cfg, mgr, log, Answered);
    var regs := RegistrationsOf(mgr.machines);
    var now := ReplayedMachines(cfg.spec, regs, c.log.Entries());
    forall i | 0 <= i < |mgr.machines| ensures SameAt(mgr.machines, now, i) {
      GetIndex(mgr.machines, i);
      RegisteredMeaning(cfg, mgr, log, regs[i].0);
      CompactionPreservesMeaning(cfg, mgr, log, regs[i].0, regs[i].1);
      InStepRetiring(cfg, mgr, log, regs[i].0);
    }
  }

  // ----- The grace period -----

  /** The log after `k` compactions in a row, none of them lost. */
  function CompactTimes(cfg: Config, mgr: Manager, log: Log, k: nat): Log
    decreases k
  {
    if k == 0 then log
    else
      var c := Compact(cfg, mgr, log, Answered);
      CompactTimes(cfg, c.mgr, c.log, k - 1)
  }

  lemma OneCompaction(cfg: Config, mgr: Manager, log: Log, n: Name, c: Step)
    requires InStep(cfg, mgr, log) && MachinesOk(mgr.machines) && VesselsFirst(log.Entries())
    requires !Has(mgr.machines, n) && c == Compact(cfg, mgr, log, Answered)
    ensures InStep(cfg, c.mgr, c.log) && MachinesOk(c.mgr.machines) && VesselsFirst(c.log.Entries())
    ensures !Has(c.mgr.machines, n)
    ensures PayloadsFor(c.log.Entries(), n) == if Purged(cfg, mgr, n) then [] else PayloadsFor(log.Entries(), n)
    ensures Has(c.mgr.retiring, n) <==> Has(mgr.retiring, n) && !Purged(cfg, mgr, n)
    ensures Has(c.mgr.retiring, n) ==> Get(c.mgr.retiring, n).compactions == Get(mgr.retiring, n).compactions + 1
  {
    CompactKeepsInStep(cfg, mgr, log);
    CompactedPayloads(cfg, mgr, log, n);
    InStepRetiring(cfg, mgr, log, n);
    NextRetiringHas(mgr.retiring, cfg.grace, n);
  }

  lemma OneCompactionOfNothing(cfg: Config, mgr: Manager, log: Log, n: Name)
    requires InStep(cfg, mgr, log) && MachinesOk(mgr.machines) && VesselsFirst(log.Entries())
    requires !Has(mgr.machines, n) && !Has(mgr.retiring, n)
    ensures PayloadsFor(log.Entries(), n) == []
  {
    InStepRetiring(cfg, mgr, log, n);
  }

  /**
   * An unregistered structure's payloads stay in the log, whole and in order, through every
   * compaction until its count reaches the grace limit, and are gone from that one on.
   */
  lemma {:induction false} GraceCountsCompactions(cfg: Config, mgr: Manager, log: Log, n: Name, k: nat)
    requires InStep(cfg, mgr, log) && MachinesOk(mgr.machines) && VesselsFirst(log.Entries())
    requires !Has(mgr.machines, n)
    ensures PayloadsFor(CompactTimes(cfg, mgr, log, k).Entries(), n) ==
      if k > 0 && Has(mgr.retiring, n) && Get(mgr.retiring, n).compactions + k >= cfg.grace then []
      else PayloadsFor(log.Entries(), n)
    decreases k
  {
    if k > 0 {
      var c := Compact(cfg, mgr, log, Answered);
      OneCompaction(cfg, mgr, log, n, c);
      GraceCountsCompactions(cfg, c.mgr, c.log, n, k - 1);
      var was, next, last := PayloadsFor(log.Entries(), n), PayloadsFor(c.log.Entries(), n), CompactTimes(cfg, mgr, log, k);
      assert last == CompactTimes(cfg, c.mgr, c.log, k - 1);
      if !Has(mgr.retiring, n) {
        OneCompactionOfNothing(cfg, mgr, log, n);
        assert was == next == PayloadsFor(last.Entries(), n);
      } else if Purged(cfg, mgr, n) {
        assert next == [] && PayloadsFor(last.Entries(), n) == [];
      } else {
        assert next == was;
      }
    }
  }
}
