/**
 * Several incarnations of one grain, each with its own manager, on one log: the version
 * compare-and-set keeps every manager either in step with the log or unable to write to it.
 */
module JournalFencing {
  import opened Wrappers
  import opened OrderedMap
  import opened DurableMachines
  import opened JournalManager

  datatype Incarnation = Incarnation(cfg: Config, mgr: Manager)

  datatype World = World(log: Log, managers: map<nat, Incarnation>)

  datatype Action =
    | Activate(id: nat, cfg: Config, regs: Registrations)
    | Replay(id: nat, answered: bool)
    | Append(id: nat, n: Name, ps: seq<Payload>, fate: Fate, compaction: Fate)
    | Compaction(id: nat, fate: Fate)

  /** A manager as constructed and registered, before its replay. */
  function Unreplayed(cfg: Config, regs: Registrations): Manager {
    FreshReplay(cfg, regs, NoLog)
  }

  function Next(w: World, a: Action): World {
    match a
    case Activate(id, cfg, regs) => w.(managers := w.managers[id := Incarnation(cfg, Unreplayed(cfg, regs))])
    case Replay(id, answered) =>
      if id !in w.managers || !answered then w
      else
        var m := w.managers[id];
        w.(managers := w.managers[id := m.(mgr := FreshReplay(m.cfg, RegistrationsOf(m.mgr.machines), w.log))])
    case Append(id, n, ps, fate, compaction) =>
      if id !in w.managers then w
      else
        var m := w.managers[id];
        var r := AppendRange(m.cfg, m.mgr, w.log, n, ps, fate, compaction);
        World(r.log, w.managers[id := m.(mgr := r.mgr)])
    case Compaction(id, fate) =>
      if id !in w.managers then w
      else
        var m := w.managers[id];
        var r := Compact(m.cfg, m.mgr, w.log, fate);
        World(r.log, w.managers[id := m.(mgr := r.mgr)])
  }

  ghost predicate Legal(a: Action) {
    a.Activate? ==> Distinct(a.regs)
  }

  function Run(w: World, actions: seq<Action>): World {
    if actions == [] then w else Next(Run(w, actions[..|actions| - 1]), actions[|actions| - 1])
  }

  predicate NotAhead(v: Option<nat>, log: Log) {
    v.Some? ==> log.Log? && v.value <= log.version
  }

  ghost predicate IncarnationInv(m: Incarnation, log: Log) {
    && MachinesOk(m.mgr.machines)
    && NotAhead(m.mgr.version, log)
    && (m.mgr.version == log.Version() ==> InStep(m.cfg, m.mgr, log))
  }

  ghost predicate Inv(w: World) {
    && VesselsFirst(w.log.Entries())
    && forall id | id in w.managers :: IncarnationInv(w.managers[id], w.log)
  }

  /** What one manager's write leaves behind, whatever becomes of its storage calls. */
  ghost predicate GoodWrite(m: Incarnation, log: Log, r: Step) {
    && IncarnationInv(m.(mgr := r.mgr), r.log)
    && VesselsFirst(r.log.Entries())
    && (r.log == log || (r.log.Log? && (log.Log? ==> log.version < r.log.version)))
  }

  lemma CompactIsGood(m: Incarnation, log: Log, fate: Fate)
    requires IncarnationInv(m, log) && VesselsFirst(log.Entries())
    ensures GoodWrite(m, log, Compact(m.cfg, m.mgr, log, fate))
  {
    if fate != LostRequest && m.mgr.version == log.Version() {
      CompactKeepsInStep(m.cfg, m.mgr, log);
      CompactedVesselsFirst(m.cfg, m.mgr, log);
    }
  }

  lemma AppendIsGood(m: Incarnation, log: Log, n: Name, ps: seq<Payload>, fate: Fate, compaction: Fate)
    requires IncarnationInv(m, log) && VesselsFirst(log.Entries())
    ensures GoodWrite(m, log, AppendRange(m.cfg, m.mgr, log, n, ps, fate, compaction))
  {
    if Has(m.mgr.machines, n) && ps != [] && fate != LostRequest && m.mgr.version == log.Version() {
      OpsKeepVesselsFirst(log.Entries(), n, ps);
      AppendKeepsInStep(m.cfg, m.mgr, log, n, ps);
      if fate == Answered {
        var log' := Written(log, log.Entries() + OpFrames(n, ps));
        var mgr' := Applied(m.cfg, m.mgr, log', n, ps);
        CompactIsGood(m.(mgr := mgr'), log', compaction);
      }
    }
  }

  lemma WriteKeepsInv(w: World, id: nat, r: Step)
    requires Inv(w) && id in w.managers
    requires GoodWrite(w.managers[id], w.log, r)
    ensures Inv(World(r.log, w.managers[id := w.managers[id].(mgr := r.mgr)]))
  {
  }

  lemma NextKeepsInv(w: World, a: Action)
    requires Inv(w) && Legal(a)
    ensures Inv(Next(w, a))
  {
    match a
    case Activate(id, cfg, regs) =>
      FreshReplayIsOk(cfg, regs, NoLog);
    case Replay(id, answered) =>
      if id in w.managers && answered {
        var m := w.managers[id];
        RegistrationsDistinct(m.mgr.machines);
        FreshReplayIsOk(m.cfg, RegistrationsOf(m.mgr.machines), w.log);
      }
    case Append(id, n, ps, fate, compaction) =>
      if id in w.managers {
        var m := w.managers[id];
        AppendIsGood(m, w.log, n, ps, fate, compaction);
        WriteKeepsInv(w, id, AppendRange(m.cfg, m.mgr, w.log, n, ps, fate, compaction));
      }
    case Compaction(id, fate) =>
      if id in w.managers {
        var m := w.managers[id];
        CompactIsGood(m, w.log, fate);
        WriteKeepsInv(w, id, Compact(m.cfg, m.mgr, w.log, fate));
      }
  }

  const EMPTY := World(NoLog, map[])

  lemma {:induction false} RunKeepsInv(actions: seq<Action>)
    requires forall i | 0 <= i < |actions| :: Legal(actions[i])
    ensures Inv(Run(EMPTY, actions))
    decreases |actions|
  {
    if actions != [] {
      RunKeepsInv(actions[..|actions| - 1]);
      NextKeepsInv(Run(EMPTY, actions[..|actions| - 1]), actions[|actions| - 1]);
    }
  }

  /** A manager at any other version than the stored one changes neither the log nor its own memory. */
  lemma StaleWritesChangeNothing(m: Incarnation, log: Log, n: Name, ps: seq<Payload>, fate: Fate, compaction: Fate)
    requires m.mgr.version != log.Version()
    ensures var r := AppendRange(m.cfg, m.mgr, log, n, ps, fate, compaction); r.mgr == m.mgr && r.log == log
    ensures var r := Compact(m.cfg, m.mgr, log, fate); r.mgr == m.mgr && r.log == log
  {
  }

  /**
   * Version fencing. After any interleaving of activations, replays, appends and compactions by any
   * number of managers, with storage calls lost before or after they took effect: a manager at the
   * stored version holds what a fresh replay with its registrations would build, and a manager at
   * any other version changes neither the log nor its own memory when it appends or compacts.
   */
  lemma Fencing(actions: seq<Action>, id: nat, n: Name, ps: seq<Payload>, fate: Fate, compaction: Fate)
    requires forall i | 0 <= i < |actions| :: Legal(actions[i])
    requires id in Run(EMPTY, actions).managers
    ensures var w := Run(EMPTY, actions); var m := w.managers[id];
      m.mgr.version == w.log.Version() ==> SameManager(m.mgr, FreshReplay(m.cfg, RegistrationsOf(m.mgr.machines), w.log))
    ensures var w := Run(EMPTY, actions);
      w.managers[id].mgr.version != w.log.Version() ==>
        Next(w, Append(id, n, ps, fate, compaction)) == w && Next(w, Compaction(id, fate)) == w
  {
    RunKeepsInv(actions);
    var w := Run(EMPTY, actions);
    assert IncarnationInv(w.managers[id], w.log);
    if w.managers[id].mgr.version != w.log.Version() {
      StaleStepChangesNothing(w, id, n, ps, fate, compaction);
    }
  }

  lemma StaleStepChangesNothing(w: World, id: nat, n: Name, ps: seq<Payload>, fate: Fate, compaction: Fate)
    requires id in w.managers && w.managers[id].mgr.version != w.log.Version()
    ensures Next(w, Append(id, n, ps, fate, compaction)) == w && Next(w, Compaction(id, fate)) == w
  {
    var m := w.managers[id];
    StaleWritesChangeNothing(m, w.log, n, ps, fate, compaction);
    assert m.(mgr := m.mgr) == m;
    assert w.managers[id := m] == w.managers;
  }
}
