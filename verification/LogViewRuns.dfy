/** Arbitrary runs of any number of incarnations of one journaled grain on one log. */
module LogViewRuns {
  import opened Wrappers
  import opened OrderedMap
  import opened DurableMachines
  import opened JournalManager
  import opened LogView
  import opened LogViewHistory

  /**
   * `flight` is the batch a confirm is writing. `applied` is the length of one that is written and
   * applied, but still counted as unconfirmed while the compaction that followed goes on.
   */
  datatype Node = Node(cfg: Config, a: Adaptor, flight: seq<Value>, applied: nat)

  /** No confirm is under way. */
  predicate Idle(n: Node) {
    n.flight == [] && n.applied == 0
  }

  /** `history` is every event stored since the log was last cleared. */
  datatype World = World(log: Log, history: seq<Value>, nodes: map<nat, Node>)

  /**
   * What an incarnation does. A confirm is `BeginConfirm`, `EndWrite` and `EndCompaction`, with raises
   * and other incarnations in between. `TryAppend` is an append with nothing in between; one whose
   * attempts others run between is a raise, confirms, re-reads and a withdrawal. Likewise an
   * `OtherAppend` whose compaction comes later is one whose compaction is lost, and a `Compaction`.
   */
  datatype Action =
    | Activate(cfg: Config, regs: Registrations)
    | Replay(answered: bool)
    | Raise(events: seq<Value>)
    | BeginConfirm
    | EndWrite(fate: Fate)
    | EndCompaction(compaction: Fate)
    | TryAppend(events: seq<Value>, fates: nat -> AttemptFates)
    | OtherAppend(n: Name, ps: seq<Payload>, fate: Fate, compaction: Fate)
    | Compaction(fate: Fate)
    | ReRead
    | TakeBack(events: seq<Value>)
    | Clear

  /** The registrations of a journaled grain include its log view; its fields have other names. */
  ghost predicate Legal(spec: LogSpec, action: Action) {
    match action
    case Activate(cfg, regs) => cfg.spec == spec && Distinct(regs) && Has(regs, JOURNAL) && Get(regs, JOURNAL) == LogKind
    case OtherAppend(n, _, _, _) => n != JOURNAL
    case _ => true
  }

  lemma ReplayedHasJournal(cfg: Config, regs: Registrations, log: Log)
    requires Distinct(regs) && Has(regs, JOURNAL) && Get(regs, JOURNAL) == LogKind
    ensures HasJournal(FreshReplay(cfg, regs, log))
    ensures Confirmed(FreshReplay(cfg, regs, log)) == Meaning(cfg.spec, log.Entries(), JOURNAL, LogKind)
  {
    var m := FreshReplay(cfg, regs, log);
    FreshReplayIsOk(cfg, regs, log);
    HasIndex(regs, JOURNAL);
    var i :| 0 <= i < |regs| && regs[i].0 == JOURNAL;
    GetIndex(regs, i);
    GetIndex(m.machines, i);
    ResetOk(cfg.spec, log.Entries(), JOURNAL, LogKind);
  }

  /** An activation whose log view has just been rebuilt: nothing pending, nothing tentative. */
  function Rebuilt(cfg: Config, mgr: Manager): Node {
    Node(cfg, Adaptor(mgr, [], 0, if HasJournal(mgr) then Confirmed(mgr).confirmed else cfg.spec.initial), [], 0)
  }

  datatype Effect = Effect(node: Node, log: Log, stored: seq<Value>)

  /** The write of a confirm pass ends: the batch in flight is applied, put back, or dropped. */
  function WriteEnded(n: Node, log: Log, fate: Fate): Effect
    requires HasJournal(n.a.mgr)
  {
    var r := AppendRange(n.cfg, n.a.mgr, log, JOURNAL, Events(n.flight), fate, LostRequest);
    var stored := if Lands(n.a.mgr, log, fate) then n.flight else [];
    AppendKeepsJournal(n.cfg, n.a.mgr, log, JOURNAL, Events(n.flight), fate, LostRequest);
    match r.outcome
    case Failed => Effect(n.(a := n.a.(pending := n.flight + n.a.pending), flight := []), r.log, stored)
    case Done => Effect(n.(a := Recompute(n.cfg.spec, n.a.(mgr := r.mgr)), flight := [], applied := |n.flight|), r.log, stored)
    case _ =>
      var a := Adaptor(r.mgr, n.a.pending, n.a.unconfirmed - |n.flight|, n.a.tentative);
      Effect(n.(a := Recompute(n.cfg.spec, a), flight := []), r.log, stored)
  }

  /** The compaction an append has made due, and its failure is not the append's. */
  function CompactIfDue(cfg: Config, mgr: Manager, log: Log, fate: Fate): Step {
    if CompactionDue(cfg, mgr) then Compact(cfg, mgr, log, fate) else Step(mgr, log, Done)
  }

  /** The append of a confirm pass returns: its batch is no longer counted. */
  function CompactionEnded(n: Node, log: Log, fate: Fate): Effect {
    var r := CompactIfDue(n.cfg, n.a.mgr, log, fate);
    Effect(n.(a := n.a.(mgr := r.mgr, unconfirmed := n.a.unconfirmed - n.applied), applied := 0), r.log, [])
  }

  /** One turn of an incarnation. While a confirm is under way its manager takes no other turn. */
  function Turn(n: Node, log: Log, action: Action): Effect
    requires HasJournal(n.a.mgr)
  {
    var idle := Idle(n);
    match action
    case Replay(answered) =>
      if idle && answered then Effect(Rebuilt(n.cfg, FreshReplay(n.cfg, RegistrationsOf(n.a.mgr.machines), log)), log, [])
      else Effect(n, log, [])
    case Raise(events) => Effect(n.(a := SubmitRange(n.cfg.spec, n.a, events)), log, [])
    case BeginConfirm =>
      if idle then Effect(n.(a := n.a.(pending := []), flight := n.a.pending), log, []) else Effect(n, log, [])
    case EndWrite(fate) =>
      if n.flight == [] then Effect(n, log, []) else WriteEnded(n, log, fate)
    case EndCompaction(compaction) =>
      if n.applied == 0 then Effect(n, log, []) else CompactionEnded(n, log, compaction)
    case TryAppend(events, fates) =>
      if idle then
        var r := TryAppendRange(n.cfg, n.a, log, events, fates);
        Effect(n.(a := r.a), r.log, r.stored)
      else Effect(n, log, [])
    case OtherAppend(m, ps, fate, compaction) =>
      if idle then
        var r := AppendRange(n.cfg, n.a.mgr, log, m, ps, fate, compaction);
        Effect(n.(a := n.a.(mgr := r.mgr)), r.log, [])
      else Effect(n, log, [])
    case Compaction(fate) =>
      if idle then
        var r := Compact(n.cfg, n.a.mgr, log, fate);
        Effect(n.(a := n.a.(mgr := r.mgr)), r.log, [])
      else Effect(n, log, [])
    case ReRead => if idle then Effect(n.(a := Resync(n.cfg, n.a, log)), log, []) else Effect(n, log, [])
    case TakeBack(events) => if idle then Effect(n.(a := Withdraw(n.cfg.spec, n.a, events)), log, []) else Effect(n, log, [])
    case _ => Effect(n, log, [])
  }

  function Next(w: World, id: nat, action: Action): World {
    if action.Activate? then
      w.(nodes := w.nodes[id := Rebuilt(action.cfg, FreshReplay(action.cfg, action.regs, NoLog))])
    else if id !in w.nodes || !HasJournal(w.nodes[id].a.mgr) then w
    else if action.Clear? then
      // Only a sole incarnation may clear: clearing restarts the version.
      if w.nodes.Keys == {id} && Idle(w.nodes[id]) then
        var n := w.nodes[id];
        World(NoLog, [], map[id := Rebuilt(n.cfg, FreshReplay(n.cfg, RegistrationsOf(n.a.mgr.machines), NoLog))])
      else w
    else
      var e := Turn(w.nodes[id], w.log, action);
      World(e.log, w.history + e.stored, w.nodes[id := e.node])
  }

  function Run(w: World, steps: seq<(nat, Action)>): World {
    if steps == [] then w
    else Next(Run(w, steps[..|steps| - 1]), steps[|steps| - 1].0, steps[|steps| - 1].1)
  }

  const EMPTY := World(NoLog, [], map[])

  /** An answered append is its write, and then the compaction it made due. */
  lemma AppendSplits(cfg: Config, mgr: Manager, log: Log, n: Name, ps: seq<Payload>, fate: Fate, compaction: Fate)
    requires Has(mgr.machines, n) && ps != []
    ensures var r := AppendRange(cfg, mgr, log, n, ps, fate, compaction);
      var w := AppendRange(cfg, mgr, log, n, ps, fate, LostRequest);
      var c := CompactIfDue(cfg, w.mgr, w.log, compaction);
      r.outcome == w.outcome && r.outcome != UnknownMachine && if r.outcome == Done then r.mgr == c.mgr && r.log == c.log else r == w
  {
    hide Applied, Written, CompactionDue;
  }

  lemma CompactKeepsMachines(cfg: Config, mgr: Manager, log: Log, fate: Fate)
    ensures CompactIfDue(cfg, mgr, log, fate).mgr.machines == mgr.machines
  {
  }

  /** A confirm pass is its turns, when nothing comes between them. */
  lemma ConfirmIsTurns(n: Node, log: Log, fate: Fate, compaction: Fate)
    requires HasJournal(n.a.mgr) && Idle(n) && n.a.pending != []
    ensures var begun := Turn(n, log, BeginConfirm);
      var e := Turn(begun.node, begun.log, EndWrite(fate));
      var pass := Confirm(n.cfg, n.a, log, fate, compaction);
      && HasJournal(e.node.a.mgr)
      && var f := Turn(e.node, e.log, EndCompaction(compaction));
      f.log == pass.log && e.stored == pass.stored && f.stored == [] && f.node == n.(a := pass.a)
  {
    hide AppendRange, Lands, CompactIfDue;
    var ps := Events(n.a.pending);
    AppendOutcome(n.cfg, n.a.mgr, log, JOURNAL, ps, fate, compaction);
    AppendOutcome(n.cfg, n.a.mgr, log, JOURNAL, ps, fate, LostRequest);
    AppendSplits(n.cfg, n.a.mgr, log, JOURNAL, ps, fate, compaction);
    AppendKeepsJournal(n.cfg, n.a.mgr, log, JOURNAL, ps, fate, LostRequest);
    var w := AppendRange(n.cfg, n.a.mgr, log, JOURNAL, ps, fate, LostRequest);
    CompactKeepsMachines(n.cfg, w.mgr, w.log, compaction);
    assert n.a.pending + [] == n.a.pending;
  }

  /** Turns taken one after the other. */
  function Turns(n: Node, log: Log, steps: seq<Action>): Effect
    decreases |steps|
  {
    if steps == [] || !HasJournal(n.a.mgr) then Effect(n, log, [])
    else
      var first := Turn(n, log, steps[0]);
      var rest := Turns(first.node, first.log, steps[1..]);
      Effect(rest.node, rest.log, first.stored + rest.stored)
  }

  lemma OneMoreTurn(n: Node, log: Log, step: Action, steps: seq<Action>)
    requires HasJournal(n.a.mgr)
    ensures var first := Turn(n, log, step); var rest := Turns(first.node, first.log, steps);
      Turns(n, log, [step] + steps) == Effect(rest.node, rest.log, first.stored + rest.stored)
  {
    assert ([step] + steps)[1..] == steps;
  }

  lemma ConfirmThen(n: Node, log: Log, fate: Fate, compaction: Fate, steps: seq<Action>)
    requires HasJournal(n.a.mgr) && Idle(n) && n.a.pending != []
    ensures var pass := Confirm(n.cfg, n.a, log, fate, compaction);
      var rest := Turns(n.(a := pass.a), pass.log, steps);
      Turns(n, log, [BeginConfirm] + ([EndWrite(fate)] + ([EndCompaction(compaction)] + steps)))
        == Effect(rest.node, rest.log, pass.stored + rest.stored)
  {
    hide Confirm, WriteEnded, CompactionEnded, Turns;
    ConfirmIsTurns(n, log, fate, compaction);
    var write, end := EndWrite(fate), EndCompaction(compaction);
    var begun := Turn(n, log, BeginConfirm);
    var e := Turn(begun.node, begun.log, write);
    OneMoreTurn(n, log, BeginConfirm, [write] + ([end] + steps));
    OneMoreTurn(begun.node, begun.log, write, [end] + steps);
    OneMoreTurn(e.node, e.log, end, steps);
  }

  /** How an attempt ends, by what became of its confirm pass and its re-read. */
  lemma AttemptEnds(cfg: Config, a: Adaptor, log: Log, events: seq<Value>, landsAt: int, fates: nat -> AttemptFates, attempt: nat, pass: Pass, b: Adaptor)
    requires HasJournal(a.mgr) && HasJournal(pass.a.mgr) && HasJournal(b.mgr)
    requires pass == Confirm(cfg, a, log, fates(attempt).write, fates(attempt).compaction)
    requires b == Resync(cfg, pass.a, pass.log)
    ensures var r := Attempt(cfg, a, log, events, landsAt, fates, attempt);
      var ended := pass.outcome == Done || pass.outcome == Conflict;
      if !ended && fates(attempt).read && Confirmed(b.mgr).version < landsAt && attempt < MAX_APPEND_ATTEMPTS then
        var rest := Attempt(cfg, b, pass.log, events, landsAt, fates, attempt + 1);
        r.a == rest.a && r.log == rest.log && r.stored == pass.stored + rest.stored
      else
        && r.log == pass.log && r.stored == pass.stored
        && r.a == if ended then pass.a else Withdraw(cfg.spec, if fates(attempt).read then b else pass.a, events)
  {
    hide Confirm, Resync, Withdraw;
  }

  lemma TakeBackTurn(n: Node, log: Log, events: seq<Value>)
    requires HasJournal(n.a.mgr) && Idle(n)
    ensures Turns(n, log, [TakeBack(events)]) == Effect(n.(a := Withdraw(n.cfg.spec, n.a, events)), log, [])
  {
    OneMoreTurn(n, log, TakeBack(events), []);
    hide Withdraw;
  }

  lemma ReReadThen(n: Node, log: Log, steps: seq<Action>)
    requires HasJournal(n.a.mgr) && Idle(n)
    ensures var rest := Turns(n.(a := Resync(n.cfg, n.a, log)), log, steps); Turns(n, log, [ReRead] + steps) == rest
  {
    hide Resync, Turns;
    OneMoreTurn(n, log, ReRead, steps);
  }

  /** What an append does once its events are raised. */
  predicate OfAttempt(step: Action) {
    step.BeginConfirm? || step.EndWrite? || step.EndCompaction? || step.ReRead? || step.TakeBack?
  }

  /** An append is its confirm passes, re-reads and withdrawal, when nothing comes between them. */
  lemma {:induction false} AttemptIsTurns(n: Node, log: Log, events: seq<Value>, landsAt: int, fates: nat -> AttemptFates, attempt: nat)
    returns (steps: seq<Action>)
    requires HasJournal(n.a.mgr) && Idle(n) && n.a.pending != []
    ensures var r := Attempt(n.cfg, n.a, log, events, landsAt, fates, attempt);
      Turns(n, log, steps) == Effect(n.(a := r.a), r.log, r.stored)
    ensures forall i | 0 <= i < |steps| :: OfAttempt(steps[i])
    decreases MAX_APPEND_ATTEMPTS - attempt
  {
    hide Confirm, Resync, Withdraw, Turn, Turns, Attempt;
    var f := fates(attempt);
    var pass := Confirm(n.cfg, n.a, log, f.write, f.compaction);
    FailedPassKeepsQueue(n.cfg, n.a, log, f.write, f.compaction);
    var after := n.(a := pass.a);
    var b := Resync(n.cfg, pass.a, pass.log);
    ReReadKeepsQueue(n.cfg, pass.a, pass.log);
    AttemptEnds(n.cfg, n.a, log, events, landsAt, fates, attempt, pass, b);
    NoTurns(after, pass.log);
    steps := [];
    if pass.outcome != Done && pass.outcome != Conflict {
      if !f.read {
        steps := [TakeBack(events)];
        TakeBackTurn(after, pass.log, events);
      } else {
        var tail: seq<Action>;
        if Confirmed(b.mgr).version < landsAt && attempt < MAX_APPEND_ATTEMPTS {
          tail := AttemptIsTurns(n.(a := b), pass.log, events, landsAt, fates, attempt + 1);
        } else {
          tail := [TakeBack(events)];
          TakeBackTurn(after.(a := b), pass.log, events);
        }
        steps := [ReRead] + tail;
        ReReadThen(after, pass.log, tail);
      }
    }
    ConfirmThen(n, log, f.write, f.compaction, steps);
    steps := [BeginConfirm] + ([EndWrite(f.write)] + ([EndCompaction(f.compaction)] + steps));
  }

  lemma NoTurns(n: Node, log: Log)
    ensures Turns(n, log, []) == Effect(n, log, [])
  {
  }

  lemma FailedPassKeepsQueue(cfg: Config, a: Adaptor, log: Log, fate: Fate, compaction: Fate)
    requires HasJournal(a.mgr) && a.pending != []
    ensures var pass := Confirm(cfg, a, log, fate, compaction);
      HasJournal(pass.a.mgr) && (pass.outcome != Done && pass.outcome != Conflict ==> pass.a.pending == a.pending)
  {
    ConfirmKeepsJournal(cfg, a, log, fate, compaction);
    hide AppendRange;
  }

  lemma ReReadKeepsQueue(cfg: Config, a: Adaptor, log: Log)
    requires HasJournal(a.mgr)
    ensures var b := Resync(cfg, a, log); HasJournal(b.mgr) && b.pending == a.pending
  {
    FreshReplayKeepsJournal(cfg, a.mgr, log);
  }

  /** With its raise in front: an append is turns each of which others may come before. */
  lemma AppendIsTurns(n: Node, log: Log, events: seq<Value>, fates: nat -> AttemptFates) returns (steps: seq<Action>)
    requires HasJournal(n.a.mgr) && Idle(n) && events != []
    ensures var r := TryAppendRange(n.cfg, n.a, log, events, fates);
      Turns(n, log, steps) == Effect(n.(a := r.a), r.log, r.stored)
    ensures steps != [] && steps[0] == Raise(events) && forall i | 1 <= i < |steps| :: OfAttempt(steps[i])
  {
    hide Attempt, SubmitRange;
    SubmitRangeAdds(n.cfg.spec, n.a, events);
    var b := SubmitRange(n.cfg.spec, n.a, events);
    var tail := AttemptIsTurns(n.(a := b), log, events, Confirmed(b.mgr).version + |b.pending|, fates, 1);
    OneMoreTurn(n, log, Raise(events), tail);
    steps := [Raise(events)] + tail;
  }

  // ----- The invariant -----

  ghost predicate NodeInv(spec: LogSpec, n: Node, log: Log, history: seq<Value>) {
    && n.cfg.spec == spec && MgrHolds(n.cfg, n.a.mgr, log, history)
    && QueueHolds(spec, Settled(n), n.flight)
    && (n.applied > 0 ==> n.flight == [])
  }

  /** The queue once the batch that is applied is no longer counted. */
  function Settled(n: Node): Adaptor {
    n.a.(unconfirmed := n.a.unconfirmed - n.applied)
  }

  ghost predicate Inv(spec: LogSpec, w: World) {
    LogHolds(spec, w.log, w.history) && forall id | id in w.nodes :: NodeInv(spec, w.nodes[id], w.log, w.history)
  }

  /** A turn leaves its own node good, and the log unchanged or at a higher version. */
  ghost predicate GoodEffect(spec: LogSpec, log: Log, history: seq<Value>, e: Effect) {
    && LogHolds(spec, e.log, history + e.stored)
    && NodeInv(spec, e.node, e.log, history + e.stored)
    && (e.log == log ==> e.stored == [])
    && (e.log == log || (e.log.Log? && (log.Log? ==> log.version < e.log.version)))
  }

  /** Another incarnation's write leaves a node where it was: behind, with a prefix of the history. */
  lemma RivalWriteKeepsNode(spec: LogSpec, n: Node, log: Log, history: seq<Value>, log': Log, stored: seq<Value>)
    requires NodeInv(spec, n, log, history)
    requires log' == log ==> stored == []
    requires log' == log || (log'.Log? && (log.Log? ==> log.version < log'.version))
    ensures NodeInv(spec, n, log', history + stored)
  {
    if log' == log {
      assert history + stored == history;
    } else {
      var v := Confirmed(n.a.mgr).version;
      assert (history + stored)[..v] == history[..v];
      assert n.a.mgr.version != log'.Version();
    }
  }

  lemma WriteTurn(spec: LogSpec, n: Node, log: Log, history: seq<Value>, r: Step, stored: seq<Value>, after: Node)
    requires n.cfg.spec == spec && after.cfg == n.cfg && WriteHolds(n.cfg, log, history, r, stored)
    requires after.a.mgr == r.mgr && QueueHolds(spec, Settled(after), after.flight) && (after.applied > 0 ==> after.flight == [])
    ensures GoodEffect(spec, log, history, Effect(after, r.log, stored))
  {
  }

  /** The end of a write, read off its append. */
  lemma WriteEndedShape(spec: LogSpec, n: Node, log: Log, fate: Fate, e: Effect)
    requires n.cfg.spec == spec && QueueHolds(spec, n.a, n.flight) && n.flight != [] && n.applied == 0
    requires e == WriteEnded(n, log, fate)
    ensures var r := AppendRange(n.cfg, n.a.mgr, log, JOURNAL, Events(n.flight), fate, LostRequest);
      && e.log == r.log && e.node.a.mgr == r.mgr && e.node.cfg == n.cfg && e.node.flight == []
      && e.stored == (if Lands(n.a.mgr, log, fate) then n.flight else [])
    ensures QueueHolds(spec, Settled(e.node), [])
  {
    hide AppendRange, Lands, Fold;
    AppendOutcome(n.cfg, n.a.mgr, log, JOURNAL, Events(n.flight), fate, LostRequest);
    AppendKeepsJournal(n.cfg, n.a.mgr, log, JOURNAL, Events(n.flight), fate, LostRequest);
    var r := AppendRange(n.cfg, n.a.mgr, log, JOURNAL, Events(n.flight), fate, LostRequest);
    PutBackHolds(spec, n.a, n.flight);
    RecomputedHolds(spec, n.a.(mgr := r.mgr, unconfirmed := n.a.unconfirmed - |n.flight|));
  }

  lemma PutBackHolds(spec: LogSpec, a: Adaptor, flight: seq<Value>)
    requires QueueHolds(spec, a, flight)
    ensures QueueHolds(spec, a.(pending := flight + a.pending), [])
  {
    hide Fold;
    assert [] + (flight + a.pending) == flight + a.pending;
  }

  lemma RecomputedHolds(spec: LogSpec, a: Adaptor)
    requires HasJournal(a.mgr) && a.unconfirmed == |a.pending|
    ensures QueueHolds(spec, Recompute(spec, a), [])
  {
    hide Fold;
    assert [] + a.pending == a.pending;
  }

  lemma WriteEndedIsGood(spec: LogSpec, n: Node, log: Log, history: seq<Value>, fate: Fate)
    requires LogHolds(spec, log, history) && NodeInv(spec, n, log, history) && n.flight != []
    ensures GoodEffect(spec, log, history, WriteEnded(n, log, fate))
  {
    hide MgrHolds, LogHolds, AppendRange, WriteEnded, Lands;
    var e := WriteEnded(n, log, fate);
    assert Settled(n) == n.a;
    WriteEndedShape(spec, n, log, fate, e);
    AppendHolds(n.cfg, n.a.mgr, log, history, JOURNAL, Events(n.flight), n.flight, fate, LostRequest);
  }

  lemma CompactIfDueHolds(cfg: Config, mgr: Manager, log: Log, history: seq<Value>, fate: Fate)
    requires LogHolds(cfg.spec, log, history) && MgrHolds(cfg, mgr, log, history)
    ensures WriteHolds(cfg, log, history, CompactIfDue(cfg, mgr, log, fate), [])
  {
    hide MgrHolds, LogHolds, Compact;
    assert history + [] == history;
    CompactHolds(cfg, mgr, log, history, fate);
  }

  lemma CompactionEndedIsGood(spec: LogSpec, n: Node, log: Log, history: seq<Value>, fate: Fate)
    requires LogHolds(spec, log, history) && NodeInv(spec, n, log, history) && n.applied > 0
    ensures GoodEffect(spec, log, history, CompactionEnded(n, log, fate))
  {
    hide MgrHolds, LogHolds, CompactIfDue;
    CompactIfDueHolds(n.cfg, n.a.mgr, log, history, fate);
    CompactKeepsMachines(n.cfg, n.a.mgr, log, fate);
    WriteTurn(spec, n, log, history, CompactIfDue(n.cfg, n.a.mgr, log, fate), [], CompactionEnded(n, log, fate).node);
  }

  lemma OtherAppendIsGood(spec: LogSpec, n: Node, log: Log, history: seq<Value>, m: Name, ps: seq<Payload>, fate: Fate, compaction: Fate)
    requires LogHolds(spec, log, history) && NodeInv(spec, n, log, history) && m != JOURNAL
    ensures var r := AppendRange(n.cfg, n.a.mgr, log, m, ps, fate, compaction);
      GoodEffect(spec, log, history, Effect(n.(a := n.a.(mgr := r.mgr)), r.log, []))
  {
    var r := AppendRange(n.cfg, n.a.mgr, log, m, ps, fate, compaction);
    assert history + [] == history;
    if Has(n.a.mgr.machines, m) && ps != [] {
      AppendHolds(n.cfg, n.a.mgr, log, history, m, ps, [], fate, compaction);
      OtherAppendKeepsView(n.cfg, n.a.mgr, log, m, ps, fate, compaction);
      hide MgrHolds, LogHolds, AppendRange;
      WriteTurn(spec, n, log, history, r, [], n.(a := n.a.(mgr := r.mgr)));
    }
  }

  lemma OtherAppendKeepsView(cfg: Config, mgr: Manager, log: Log, m: Name, ps: seq<Payload>, fate: Fate, compaction: Fate)
    requires HasJournal(mgr) && m != JOURNAL
    ensures var r := AppendRange(cfg, mgr, log, m, ps, fate, compaction);
      HasJournal(r.mgr) && Confirmed(r.mgr) == Confirmed(mgr)
  {
    if Has(mgr.machines, m) {
      AppliedJournal(cfg, mgr, Written(log, log.Entries() + OpFrames(m, ps)), m, ps);
    }
  }

  lemma CompactionIsGood(spec: LogSpec, n: Node, log: Log, history: seq<Value>, fate: Fate)
    requires LogHolds(spec, log, history) && NodeInv(spec, n, log, history)
    ensures var r := Compact(n.cfg, n.a.mgr, log, fate);
      GoodEffect(spec, log, history, Effect(n.(a := n.a.(mgr := r.mgr)), r.log, []))
  {
    CompactHolds(n.cfg, n.a.mgr, log, history, fate);
    var r := Compact(n.cfg, n.a.mgr, log, fate);
    assert r.mgr.machines == n.a.mgr.machines;
    hide MgrHolds, LogHolds, Compact;
    WriteTurn(spec, n, log, history, r, [], n.(a := n.a.(mgr := r.mgr)));
  }

  lemma RetryHolds(cfg: Config, log: Log, history: seq<Value>, passLog: Log, stored: seq<Value>, rest: Attempted)
    requires passLog == log ==> stored == []
    requires passLog == log || Newer(log, passLog)
    requires NodeHolds(cfg, rest.a, [], rest.log, history + stored + rest.stored)
    requires rest.log == passLog ==> rest.stored == []
    requires rest.log == passLog || Newer(passLog, rest.log)
    ensures NodeHolds(cfg, rest.a, [], rest.log, history + (stored + rest.stored))
    ensures rest.log == log ==> stored + rest.stored == []
    ensures rest.log == log || Newer(log, rest.log)
  {
    hide NodeHolds;
    assert history + stored + rest.stored == history + (stored + rest.stored);
  }

  /** An append from a view that knows how much is stored, or not; either way its log view stays good. */
  lemma {:induction false} AttemptHolds(cfg: Config, a: Adaptor, log: Log, history: seq<Value>, before: seq<Value>, events: seq<Value>, landsAt: int, fates: nat -> AttemptFates, attempt: nat, r: Attempted)
    requires NodeHolds(cfg, a, [], log, history)
    requires a.pending == before + events && events != []
    requires r == Attempt(cfg, a, log, events, landsAt, fates, attempt)
    ensures NodeHolds(cfg, r.a, [], r.log, history + r.stored)
    ensures r.log == log ==> r.stored == []
    ensures r.log == log || Newer(log, r.log)
    decreases MAX_APPEND_ATTEMPTS - attempt
  {
    hide MgrHolds, LogHolds, Confirm, Withdraw, Resync, Attempt;
    var f := fates(attempt);
    var pass := Confirm(cfg, a, log, f.write, f.compaction);
    ConfirmGrows(cfg, a, log, history, f.write, f.compaction, pass);
    var b := Resync(cfg, pass.a, pass.log);
    HeldMachinesAreOk(cfg, pass.a, pass.log, history + pass.stored);
    ResyncHolds(cfg, pass.a, pass.log, history + pass.stored);
    AttemptEnds(cfg, a, log, events, landsAt, fates, attempt, pass, b);
    if pass.outcome != Done && pass.outcome != Conflict {
      WithdrawHolds(cfg, pass.a, before, events);
      WithdrawHolds(cfg, b, before, events);
      if f.read && Confirmed(b.mgr).version < landsAt && attempt < MAX_APPEND_ATTEMPTS {
        var rest := Attempt(cfg, b, pass.log, events, landsAt, fates, attempt + 1);
        AttemptHolds(cfg, b, pass.log, history + pass.stored, before, events, landsAt, fates, attempt + 1, rest);
        RetryHolds(cfg, log, history, pass.log, pass.stored, rest);
      }
    }
  }

  lemma ConfirmGrows(cfg: Config, a: Adaptor, log: Log, history: seq<Value>, fate: Fate, compaction: Fate, p: Pass)
    requires NodeHolds(cfg, a, [], log, history) && a.pending != []
    requires p == Confirm(cfg, a, log, fate, compaction)
    ensures NodeHolds(cfg, p.a, [], p.log, history + p.stored)
    ensures p.a.pending == if p.outcome == Done || p.outcome == Conflict then [] else a.pending
    ensures p.log == log ==> p.stored == []
    ensures p.log == log || (p.log.Log? && (log.Log? ==> log.version < p.log.version))
  {
    ConfirmHolds(cfg, a, log, history, fate, compaction, p);
    ConfirmShape(cfg, a, log, fate, compaction);
    AppendHolds(cfg, a.mgr, log, history, JOURNAL, Events(a.pending), a.pending, fate, compaction);
  }

  lemma TryAppendIsGood(spec: LogSpec, n: Node, log: Log, history: seq<Value>, events: seq<Value>, fates: nat -> AttemptFates, r: Attempted)
    requires LogHolds(spec, log, history) && NodeInv(spec, n, log, history) && Idle(n)
    requires r == TryAppendRange(n.cfg, n.a, log, events, fates)
    ensures GoodEffect(spec, log, history, Effect(n.(a := r.a), r.log, r.stored))
  {
    hide MgrHolds, LogHolds, Attempt;
    if events == [] {
      assert history + [] == history;
    } else {
      var b := SubmitRange(n.cfg.spec, n.a, events);
      SubmittedHolds(n.cfg, n.a, log, history, events, b);
      AttemptHolds(n.cfg, b, log, history, n.a.pending, events, LandsAt(n.a, events), fates, 1, r);
    }
  }

  lemma RebuiltIsGood(spec: LogSpec, log: Log, history: seq<Value>, cfg: Config, mgr: Manager)
    requires cfg.spec == spec && MgrHolds(cfg, mgr, log, history)
    ensures NodeInv(spec, Rebuilt(cfg, mgr), log, history)
  {
    var none: seq<Value> := [];
    assert none + none == none;
  }

  lemma NoWriteIsGood(spec: LogSpec, n: Node, log: Log, history: seq<Value>)
    requires LogHolds(spec, log, history) && NodeInv(spec, n, log, history)
    ensures GoodEffect(spec, log, history, Effect(n, log, []))
  {
    assert history + [] == history;
  }

  lemma ReplayIsGood(spec: LogSpec, n: Node, log: Log, history: seq<Value>)
    requires LogHolds(spec, log, history) && NodeInv(spec, n, log, history)
    ensures NodeInv(spec, Rebuilt(n.cfg, FreshReplay(n.cfg, RegistrationsOf(n.a.mgr.machines), log)), log, history)
  {
    FreshReplayHolds(n.cfg, n.a.mgr, log, history);
    RebuiltIsGood(spec, log, history, n.cfg, FreshReplay(n.cfg, RegistrationsOf(n.a.mgr.machines), log));
  }

  lemma RaiseIsGood(spec: LogSpec, n: Node, log: Log, history: seq<Value>, events: seq<Value>)
    requires NodeInv(spec, n, log, history)
    ensures NodeInv(spec, n.(a := SubmitRange(spec, n.a, events)), log, history)
  {
    hide MgrHolds;
    SubmitRangeHolds(n.cfg, Settled(n), n.flight, events);
    SubmitRangeAdds(spec, n.a, events);
    SubmitRangeAdds(spec, Settled(n), events);
  }

  lemma ReReadIsGood(spec: LogSpec, n: Node, log: Log, history: seq<Value>)
    requires LogHolds(spec, log, history) && NodeInv(spec, n, log, history) && Idle(n)
    ensures NodeInv(spec, n.(a := Resync(n.cfg, n.a, log)), log, history)
  {
    hide MgrHolds, LogHolds, Resync;
    HeldMachinesAreOk(n.cfg, n.a, log, history);
    ResyncHolds(n.cfg, n.a, log, history);
  }

  /** Whatever is withdrawn, what is left is what the tentative view shows and the count counts. */
  lemma WithdrawIsGood(spec: LogSpec, n: Node, log: Log, history: seq<Value>, events: seq<Value>)
    requires NodeInv(spec, n, log, history) && Idle(n)
    ensures NodeInv(spec, n.(a := Withdraw(spec, n.a, events)), log, history)
  {
    hide MgrHolds, Removed;
    var left := Removed(n.a.pending, events);
    assert n.flight + left == left;
  }

  lemma BeginConfirmIsGood(spec: LogSpec, n: Node, log: Log, history: seq<Value>)
    requires NodeInv(spec, n, log, history) && Idle(n)
    ensures NodeInv(spec, n.(a := n.a.(pending := []), flight := n.a.pending), log, history)
  {
    hide MgrHolds;
    assert n.a.pending + [] == n.a.pending == n.flight + n.a.pending;
  }

  lemma NodeFacts(spec: LogSpec, n: Node, log: Log, history: seq<Value>)
    requires NodeInv(spec, n, log, history)
    ensures HasJournal(n.a.mgr) && MachinesOk(n.a.mgr.machines) && n.cfg.spec == spec
  {
  }

  lemma TurnIsGood(spec: LogSpec, n: Node, log: Log, history: seq<Value>, action: Action)
    requires LogHolds(spec, log, history) && NodeInv(spec, n, log, history)
    requires Legal(spec, action)
    ensures GoodEffect(spec, log, history, Turn(n, log, action))
  {
    hide LogHolds, NodeInv, GoodEffect, WriteEnded, CompactionEnded, Rebuilt, SubmitRange, TryAppendRange, HasJournal;
    NodeFacts(spec, n, log, history);
    NoWriteIsGood(spec, n, log, history);
    match action
    case Replay(answered) =>
      ReplayIsGood(spec, n, log, history);
      NoWriteIsGood(spec, Rebuilt(n.cfg, FreshReplay(n.cfg, RegistrationsOf(n.a.mgr.machines), log)), log, history);
    case Raise(events) =>
      RaiseIsGood(spec, n, log, history, events);
      NoWriteIsGood(spec, n.(a := SubmitRange(spec, n.a, events)), log, history);
    case BeginConfirm =>
      if Idle(n) {
        BeginConfirmIsGood(spec, n, log, history);
        NoWriteIsGood(spec, n.(a := n.a.(pending := []), flight := n.a.pending), log, history);
      }
    case EndWrite(fate) =>
      if n.flight != [] { WriteEndedIsGood(spec, n, log, history, fate); }
    case EndCompaction(compaction) =>
      if n.applied > 0 { CompactionEndedIsGood(spec, n, log, history, compaction); }
    case TryAppend(events, fates) =>
      if Idle(n) { TryAppendIsGood(spec, n, log, history, events, fates, TryAppendRange(n.cfg, n.a, log, events, fates)); }
    case OtherAppend(m, ps, fate, compaction) =>
      OtherAppendIsGood(spec, n, log, history, m, ps, fate, compaction);
    case Compaction(fate) =>
      CompactionIsGood(spec, n, log, history, fate);
    case ReRead =>
      if Idle(n) {
        ReReadIsGood(spec, n, log, history);
        NoWriteIsGood(spec, n.(a := Resync(n.cfg, n.a, log)), log, history);
      }
    case TakeBack(events) =>
      if Idle(n) {
        WithdrawIsGood(spec, n, log, history, events);
        NoWriteIsGood(spec, n.(a := Withdraw(spec, n.a, events)), log, history);
      }
    case _ =>
  }

  lemma ActivateHolds(log: Log, history: seq<Value>, cfg: Config, regs: Registrations, m: Manager)
    requires LogHolds(cfg.spec, log, history) && Legal(cfg.spec, Activate(cfg, regs)) && m == FreshReplay(cfg, regs, NoLog)
    ensures MgrHolds(cfg, m, log, history)
  {
    FreshReplayIsOk(cfg, regs, NoLog);
    ReplayedHasJournal(cfg, regs, NoLog);
    assert history[..0] == [];
    assert PayloadsFor([], JOURNAL) == [];
    assert Confirmed(m) == LogState(cfg.spec.initial, 0, []);
  }

  lemma ActivateKeepsInv(spec: LogSpec, w: World, id: nat, cfg: Config, regs: Registrations)
    requires Inv(spec, w) && Legal(spec, Activate(cfg, regs))
    ensures Inv(spec, Next(w, id, Activate(cfg, regs)))
  {
    hide NodeInv, LogHolds, MgrHolds, FreshReplay, Rebuilt;
    var m := FreshReplay(cfg, regs, NoLog);
    ActivateHolds(w.log, w.history, cfg, regs, m);
    RebuiltIsGood(spec, w.log, w.history, cfg, m);
  }

  /** A turn keeps its own node good and every other one where it was. */
  lemma TurnKeepsInv(spec: LogSpec, w: World, id: nat, action: Action)
    requires Inv(spec, w) && Legal(spec, action) && id in w.nodes && !action.Activate? && !action.Clear?
    ensures Inv(spec, Next(w, id, action))
  {
    hide NodeInv, LogHolds, Turn;
    assert NodeInv(spec, w.nodes[id], w.log, w.history);
    NodeFacts(spec, w.nodes[id], w.log, w.history);
    TurnIsGood(spec, w.nodes[id], w.log, w.history, action);
    var e := Turn(w.nodes[id], w.log, action);
    forall other | other in w.nodes && other != id ensures NodeInv(spec, w.nodes[other], e.log, w.history + e.stored) {
      assert NodeInv(spec, w.nodes[other], w.log, w.history);
      RivalWriteKeepsNode(spec, w.nodes[other], w.log, w.history, e.log, e.stored);
    }
  }

  lemma ClearKeepsInv(spec: LogSpec, w: World, id: nat)
    requires Inv(spec, w) && id in w.nodes
    ensures Inv(spec, Next(w, id, Clear))
  {
    hide NodeInv, LogHolds, MgrHolds, FreshReplay, Rebuilt;
    var n := w.nodes[id];
    assert NodeInv(spec, n, w.log, w.history);
    NodeFacts(spec, n, w.log, w.history);
    EmptyLogHolds(spec);
    FreshReplayHolds(n.cfg, n.a.mgr, NoLog, []);
    RebuiltIsGood(spec, NoLog, [], n.cfg, FreshReplay(n.cfg, RegistrationsOf(n.a.mgr.machines), NoLog));
  }

  lemma NextKeepsInv(spec: LogSpec, w: World, id: nat, action: Action)
    requires Inv(spec, w) && Legal(spec, action)
    ensures Inv(spec, Next(w, id, action))
  {
    hide Inv, Turn, Rebuilt, FreshReplay;
    if action.Activate? {
      ActivateKeepsInv(spec, w, id, action.cfg, action.regs);
    } else if id in w.nodes {
      if action.Clear? {
        ClearKeepsInv(spec, w, id);
      } else {
        TurnKeepsInv(spec, w, id, action);
      }
    }
  }

  lemma EmptyLogHolds(spec: LogSpec)
    ensures LogHolds(spec, NoLog, [])
  {
    assert PayloadsFor([], JOURNAL) == [];
  }

  lemma {:induction false} RunKeepsInv(spec: LogSpec, steps: seq<(nat, Action)>)
    requires forall i | 0 <= i < |steps| :: Legal(spec, steps[i].1)
    ensures Inv(spec, Run(EMPTY, steps))
    decreases |steps|
  {
    if steps == [] {
      EmptyLogHolds(spec);
    } else {
      RunKeepsInv(spec, steps[..|steps| - 1]);
      NextKeepsInv(spec, Run(EMPTY, steps[..|steps| - 1]), steps[|steps| - 1].0, steps[|steps| - 1].1);
    }
  }

  /**
   * After any run of raises, confirms, appends, compactions, replays and clears by any number of
   * incarnations, storage calls lost before or after they took effect: the confirmed view is the
   * fold of the history up to its version, which is the whole history for an incarnation at the
   * stored version; the tentative view adds exactly what is in flight and pending, and
   * `pendingCount` counts them, and a batch whose append has not returned; and every segment of the log that is answered is that stretch of
   * the history.
   */
  lemma LogViewRun(spec: LogSpec, steps: seq<(nat, Action)>, id: nat, from: int, to: int)
    requires forall i | 0 <= i < |steps| :: Legal(spec, steps[i].1)
    requires id in Run(EMPTY, steps).nodes
    ensures var w := Run(EMPTY, steps); var n := w.nodes[id];
      && HasJournal(n.a.mgr)
      && var s := Confirmed(n.a.mgr);
      && s.version <= |w.history|
      && s.confirmed == Fold(spec, spec.initial, w.history[..s.version])
      && (n.a.mgr.version == w.log.Version() ==> s.version == |w.history|)
      && n.a.tentative == Fold(spec, s.confirmed, n.flight + n.a.pending)
      && n.a.unconfirmed == |n.flight| + n.applied + |n.a.pending|
      && (RetrieveLogSegment(n.a.mgr, from, to).Some? ==>
            0 <= from <= to <= |w.history| && RetrieveLogSegment(n.a.mgr, from, to).value == w.history[from..to])
  {
    RunKeepsInv(spec, steps);
    var w := Run(EMPTY, steps);
    assert NodeInv(spec, w.nodes[id], w.log, w.history);
    SegmentIsHistory(w.nodes[id].cfg, w.nodes[id].a.mgr, w.log, w.history, from, to);
  }
}
