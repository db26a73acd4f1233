/** The custom-storage log view as the object that carries out its confirm loop against a host. */
module CustomStorageAdaptor {
  import opened Wrappers
  import opened CustomStorage
  import CustomStorageBooks
  import LogView

  /** What happens around the storage calls of one pass: other writers' events, and failures. */
  datatype Weather = Weather(
    before: seq<Value>, refused: bool, after: seq<Value>, throwsAt: Option<nat>,
    beforeRead: seq<Value>, readable: bool, afterRead: seq<Value>)

  /** The grain's own storage: a batch is applied exactly at the version its writer expects. */
  class CustomStorageHost {
    var log: seq<Item>

    constructor ()
      ensures log == []
    {
      log := [];
    }

    method OthersWrite(events: seq<Value>)
      modifies this
      ensures log == old(log) + Foreigns(events)
    {
      log := log + Foreigns(events);
    }

    method ApplyUpdates(batch: seq<Entry>, expected: nat) returns (applied: bool)
      modifies this
      ensures applied <==> |old(log)| == expected
      ensures log == old(log) + if applied then Owned(batch) else []
    {
      if |log| != expected {
        return false;
      }
      log := log + Owned(batch);
      return true;
    }

    method ReadState(spec: LogSpec) returns (version: nat, state: Value)
      ensures version == |log| && state == LogView.Fold(spec, spec.initial, LogEvents(log[..version]))
    {
      assert log[..|log|] == log;
      return |log|, LogView.Fold(spec, spec.initial, LogEvents(log));
    }

    method ClearState()
      modifies this
      ensures log == []
    {
      log := [];
    }
  }

  class CustomStorageLogViewAdaptor {
    const cfg: Config
    const host: CustomStorageHost
    var cached: Value
    var tentative: Value
    var version: nat
    var pending: seq<Entry>
    var settled: map<nat, bool>
    var raised: seq<Entry>
    ghost var ranges: seq<(nat, nat)>
    ghost var base: nat
    ghost var abandoned: set<nat>
    ghost var folded: seq<nat>
    ghost var under: seq<nat>
    ghost var shown: seq<Entry>
    ghost var phase: Phase
    ghost var stranded: bool

    ghost function Ledger(): Books
      reads this, host
    {
      Books(host.log, pending, settled, raised, ranges, base, abandoned)
    }

    ghost function CurrentView(): View
      reads this
    {
      View(version, cached, tentative, folded, under, shown)
    }

    ghost function State(): World
      reads this, host
    {
      World(Ledger(), CurrentView(), phase, stranded)
    }

    constructor (cfg: Config, host: CustomStorageHost)
      requires host.log == []
      ensures this.cfg == cfg && this.host == host && State() == Start(cfg.spec)
    {
      this.cfg, this.host := cfg, host;
      cached, tentative, version, pending := cfg.spec.initial, cfg.spec.initial, 0, [];
      settled, raised, ranges, base, abandoned := map[], [], [], 0, {};
      folded, under, shown, phase, stranded := [], [], [], Idle, false;
    }

    method RecomputeTentative()
      modifies this`tentative, this`under, this`shown
      ensures CurrentView() == Recompute(cfg.spec, old(CurrentView()), pending)
    {
      tentative := cached;
      for i := 0 to |pending|
        invariant tentative == LogView.Fold(cfg.spec, cached, Events(pending[..i]))
      {
        assert Events(pending[..i + 1])[..i] == Events(pending[..i]);
        tentative := cfg.spec.transition(tentative, pending[i].event);
      }
      assert pending[..|pending|] == pending;
      under, shown := folded, pending;
    }

    method Push(event: Value, position: Option<nat>)
      modifies this`pending, this`raised, this`tentative, this`shown
      ensures State() == CustomStorage.Push(cfg.spec, old(State()), event, position)
    {
      var e := Entry(|raised|, event, position);
      pending := pending + [e];
      raised := raised + [e];
      tentative := cfg.spec.transition(tentative, event);
      shown := shown + [e];
    }

    method Submit(event: Value)
      modifies this
      ensures State() == Next(cfg, old(State()), Action.Submit(event))
    {
      Push(event, None);
    }

    /** Queues a range under consecutive positions; the confirm it awaits is a call of its own. */
    method EnqueueConditional(events: seq<Value>)
      requires events != []
      modifies this
      ensures State() == Enqueue(cfg.spec, old(State()), events)
    {
      ghost var first := |raised|;
      for i := 0 to |events|
        invariant State() == PushConditional(cfg.spec, old(State()), events[..i])
      {
        assert events[..i + 1][..i] == events[..i];
        Push(events[i], Some(version + |pending|));
      }
      assert events[..|events|] == events;
      ranges := ranges + [(first, |events|)];
      stranded := stranded || phase.Closing?;
    }

    /**
     * Drops every conditional entry that would not land at its position, and every conditional entry
     * behind a dropped one.
     */
    method RemoveStaleConditionalUpdates()
      modifies this`pending, this`settled
      ensures Ledger() == DropFrom(old(Ledger()), FirstStale(version, old(pending), 0))
    {
      var kept: seq<Entry> := [];
      var found := false;
      ghost var s := 0;
      for pos := 0 to |pending|
        invariant pending == old(pending)
        invariant if found then s < pos && StaleAt(version, pending, s) else s == pos
        invariant forall k | 0 <= k < s :: !StaleAt(version, pending, k)
        invariant kept == pending[..s] + Unconditional(pending[s..pos])
        invariant settled == Settle(old(settled), pending[s..pos], false)
      {
        ghost var first := s;
        if pending[pos].position.Some? && (found || pending[pos].position.value != version + pos) {
          found := true;
          settled := settled[pending[pos].id := false];
        } else {
          kept := kept + [pending[pos]];
          if !found { s := pos + 1; }
        }
        if s == first {
          SettleOneMore(old(settled), pending[s..pos], pending[pos], false);
          UnconditionalOneMore(pending[s..pos], pending[pos]);
          SliceSnoc(pending, s, pos);
        }
      }
      assert pending[s..|pending|] == pending[s..];
      assert FirstStale(version, pending, 0) == s;
      pending := kept;
    }

    /** Drops every conditional entry: the attempts are used up. */
    method DropConditional()
      modifies this`pending, this`settled
      ensures Ledger() == DropFrom(old(Ledger()), 0)
    {
      var kept: seq<Entry> := [];
      for pos := 0 to |pending|
        invariant pending == old(pending)
        invariant kept == Unconditional(pending[..pos])
        invariant settled == Settle(old(settled), pending[..pos], false)
      {
        SettleOneMore(old(settled), pending[..pos], pending[pos], false);
        UnconditionalOneMore(pending[..pos], pending[pos]);
        assert pending[..pos + 1] == pending[..pos] + [pending[pos]];
        if pending[pos].position.None? {
          kept := kept + [pending[pos]];
        } else {
          settled := settled[pending[pos].id := false];
        }
      }
      assert pending[..|pending|] == pending == pending[0..];
      pending := kept;
    }

    method SettleAll(batch: seq<Entry>, appended: bool)
      modifies this`settled
      ensures settled == Settle(old(settled), batch, appended)
    {
      for i := 0 to |batch|
        invariant settled == Settle(old(settled), batch[..i], appended)
      {
        SettleOneMore(old(settled), batch[..i], batch[i], appended);
        assert batch[..i + 1] == batch[..i] + [batch[i]];
        if batch[i].position.Some? {
          settled := settled[batch[i].id := appended];
        }
      }
      assert batch[..|batch|] == batch;
    }

    /** The top of the loop: whether there is a batch to write, which is then the whole queue. */
    method PrepareBatch(ghost attempts: nat) returns (more: bool)
      modifies this
      ensures State() == LoopTop(cfg, old(State()), attempts)
      ensures if more then phase == Writing(pending, attempts + 1, false) && pending != [] else phase == Closing(Drained)
      ensures |pending| <= |old(pending)| && version == old(version)
    {
      hide LoopTop, FirstStale, Unconditional, Settle, Recompute;
      ghost var s := FirstStale(version, pending, 0);
      TopCases(cfg, State(), attempts);
      if |pending| == 0 {
        phase, stranded := Closing(Drained), false;
        return false;
      }
      RemoveStaleConditionalUpdates();
      CustomStorageBooks.UnconditionalIsShorter(old(pending)[s..]);
      if |pending| == 0 {
        RecomputeTentative();
        phase, stranded := Closing(Drained), false;
        return false;
      }
      phase := Writing(pending, attempts + 1, false);
      return true;
    }

    /** Folds a written batch into the view; a throwing transition leaves it half done. */
    method FoldWritten(batch: seq<Entry>, throwsAt: Option<nat>) returns (threw: bool)
      modifies this`version, this`cached, this`folded
      ensures CurrentView() == FoldBatch(cfg.spec, old(CurrentView()), batch, throwsAt)
      ensures threw <==> throwsAt.Some? && throwsAt.value < |batch|
    {
      for i := 0 to |batch|
        invariant version == old(version) + i && folded == old(folded) + Span(old(version), i)
        invariant cached == LogView.Fold(cfg.spec, old(cached), Events(batch[..i]))
        invariant throwsAt.Some? ==> i <= throwsAt.value || throwsAt.value >= |batch|
      {
        version := version + 1;
        if throwsAt == Some(i) {
          return true;
        }
        assert Events(batch[..i + 1])[..i] == Events(batch[..i]);
        cached := cfg.spec.transition(cached, batch[i].event);
        folded := folded + [version - 1];
      }
      assert batch[..|batch|] == batch;
      return false;
    }

    /** While the adaptor awaits, other writers write. */
    method OthersWrite(events: seq<Value>, ghost w0: World, ghost steps: seq<Action>) returns (ghost done: seq<Action>)
      requires State() == Run(cfg, w0, steps) && Quiet(steps)
      modifies host
      ensures State() == Run(cfg, w0, done) && Quiet(done)
      ensures host.log == old(host.log) + Foreigns(events)
    {
      RunStep(cfg, w0, steps, ForeignWrite(events));
      host.OthersWrite(events);
      done := steps + [ForeignWrite(events)];
    }

    /** The awaited write: refused by a failure, or decided by the host. */
    method Write(batch: seq<Entry>, weather: Weather, ghost w0: World, ghost steps: seq<Action>)
      returns (applied: bool, ghost done: seq<Action>)
      requires State() == Run(cfg, w0, steps) && Quiet(steps)
      requires phase.Writing? && phase.batch == batch && !phase.landed
      modifies host, this`phase
      ensures phase == Writing(batch, old(phase).attempts, applied)
      ensures State() == Run(cfg, w0, done) && Quiet(done)
    {
      hide Run, Next;
      done := OthersWrite(weather.before, w0, steps);
      applied := false;
      if !weather.refused {
        RunStep(cfg, w0, done, HostWrites);
        HostWritesStep(cfg, State());
        applied := host.ApplyUpdates(batch, version);
        phase := phase.(landed := applied);
        assert host.log + [] == host.log;
        done := done + [HostWrites];
      }
      done := OthersWrite(weather.after, w0, done);
    }

    /** The read itself, among other writers' writes. */
    method ReadHost(weather: Weather, ghost w0: World, ghost steps: seq<Action>)
      returns (v: nat, state: Value, ghost done: seq<Action>)
      requires State() == Run(cfg, w0, steps) && Quiet(steps) && phase.Reading?
      modifies host, this`phase
      ensures phase == old(phase).(taken := Some(v)) && State() == Run(cfg, w0, done) && Quiet(done)
      ensures v <= |host.log| && state == LogView.Fold(cfg.spec, cfg.spec.initial, LogEvents(host.log[..v]))
    {
      done := OthersWrite(weather.beforeRead, w0, steps);
      hide Run, Next;
      RunStep(cfg, w0, done, HostReads);
      HostReadsStep(cfg, State());
      v, state := host.ReadState(cfg.spec);
      phase := phase.(taken := Some(v));
      done := done + [HostReads];
      ghost var log := host.log;
      done := OthersWrite(weather.afterRead, w0, done);
      assert host.log[..v] == log[..v];
    }

    /** The awaited re-read, the view then following storage. */
    method Read(weather: Weather, ghost w0: World, ghost steps: seq<Action>) returns (answered: bool, ghost done: seq<Action>)
      requires State() == Run(cfg, w0, steps) && Quiet(steps) && phase.Reading?
      modifies this, host
      ensures pending == old(pending) && Quiet(done)
      ensures !answered ==> State() == Run(cfg, w0, done) && phase == Closing(ReadFailed)
      ensures answered ==> LoopTop(cfg, Answered(State(), old(phase.written)), old(phase.attempts)) == Run(cfg, w0, done)
    {
      hide LoopTop, Run, Next, ReadAt, Recompute;
      var v, state;
      v, state, done := ReadHost(weather, w0, steps);
      RunStep(cfg, w0, done, ReadAnswer(weather.readable));
      ReadAnswerStep(cfg, State(), weather.readable);
      done := done + [ReadAnswer(weather.readable)];
      answered := weather.readable;
      if !answered {
        abandoned := abandoned + ConditionalIds(phase.written);
        phase, stranded := Closing(ReadFailed), true;
      } else {
        Follow(v, state);
      }
    }

    /** The views follow what was read. */
    method Follow(v: nat, state: Value)
      requires v <= |host.log| && state == LogView.Fold(cfg.spec, cfg.spec.initial, LogEvents(host.log[..v]))
      modifies this`version, this`cached, this`folded, this`tentative, this`under, this`shown
      ensures CurrentView() == Recompute(cfg.spec, ReadAt(cfg.spec, old(CurrentView()), host.log, v), pending)
    {
      hide ReadAt, Recompute;
      ReadAtIs(cfg.spec, CurrentView(), host.log, v, state, CurrentView().(version := v, cached := state, folded := Span(0, v)));
      version, cached, folded := v, state, Span(0, v);
      RecomputeTentative();
    }

    /** The batch has been written: it leaves the queue, is folded in, and its callers are told. */
    method FinishWritten(batch: seq<Entry>, weather: Weather, ghost w0: World, ghost steps: seq<Action>)
      returns (answered: bool, ghost done: seq<Action>)
      requires State() == Run(cfg, w0, steps) && Quiet(steps)
      requires phase.Writing? && phase.batch == batch == pending && phase.landed
      modifies this, host
      ensures pending == [] && Quiet(done)
      ensures !answered ==> State() == Run(cfg, w0, done) && phase == Closing(ReadFailed)
      ensures answered ==> LoopTop(cfg, State(), 0) == Run(cfg, w0, done)
    {
      hide LoopTop, Run, Next, Recompute, FoldBatch, Settle;
      RunStep(cfg, w0, steps, WriteAnswer(weather.throwsAt));
      WriteAnswerStep(cfg, State(), weather.throwsAt);
      done := steps + [WriteAnswer(weather.throwsAt)];
      answered := true;
      pending := pending[|batch|..];
      var threw := FoldWritten(batch, weather.throwsAt);
      if threw {
        phase := Reading(0, None, batch);
        answered, done := Read(weather, w0, done);
        if !answered {
          return;
        }
      } else {
        RecomputeTentative();
      }
      SettleAll(batch, true);
    }

    /** The batch has not been written: give up, or re-read and go round again. */
    method FinishUnwritten(attempts: nat, weather: Weather, ghost w0: World, ghost steps: seq<Action>)
      returns (end: Option<End>, ghost done: seq<Action>)
      requires State() == Run(cfg, w0, steps) && Quiet(steps)
      requires phase == Writing(pending, attempts, false)
      modifies this, host
      ensures Quiet(done)
      ensures end.Some? ==> State() == Run(cfg, w0, done) && phase == Closing(end.value)
      ensures end.None? ==> attempts < cfg.maxAttempts && LoopTop(cfg, State(), attempts) == Run(cfg, w0, done) && pending == old(pending)
    {
      hide LoopTop, Run, Next, DropFrom, Recompute, FoldBatch, Settle;
      RunStep(cfg, w0, steps, WriteAnswer(weather.throwsAt));
      WriteAnswerStep(cfg, State(), weather.throwsAt);
      done := steps + [WriteAnswer(weather.throwsAt)];
      if attempts >= cfg.maxAttempts {
        DropConditional();
        RecomputeTentative();
        phase, stranded := Closing(Exhausted), false;
        return Some(Exhausted), done;
      }
      phase := Reading(attempts, None, []);
      var answered;
      answered, done := Read(weather, w0, done);
      if !answered {
        return Some(ReadFailed), done;
      }
      NothingToSettle(State());
      return None, done;
    }

    /**
     * The confirm loop, nothing being raised meanwhile: it terminates, and what it does is a run of
     * the transition system.
     */
    method RunConfirmLoop(weather: nat -> Weather) returns (end: End, ghost steps: seq<Action>)
      requires phase.Idle?
      modifies this, host
      ensures phase == Closing(end) && State() == Run(cfg, old(State()), steps) && Quiet(steps)
    {
      hide LoopTop, Run;
      ghost var w0 := State();
      var attempts, pass := 0, 0;
      steps := [Confirm];
      FirstStep(cfg, w0);
      while |pending| > 0
        invariant LoopTop(cfg, State(), attempts) == Run(cfg, w0, steps) && Quiet(steps)
        invariant attempts == 0 || attempts < cfg.maxAttempts
        decreases |pending|, cfg.maxAttempts - attempts
      {
        var more := PrepareBatch(attempts);
        if !more {
          return Drained, steps;
        }
        var batch := pending;
        attempts := attempts + 1;
        var applied;
        applied, steps := Write(batch, weather(pass), w0, steps);
        if applied {
          attempts := 0;
          var answered;
          answered, steps := FinishWritten(batch, weather(pass), w0, steps);
          if !answered {
            return ReadFailed, steps;
          }
        } else {
          var ended;
          ended, steps := FinishUnwritten(attempts, weather(pass), w0, steps);
          if ended.Some? {
            return ended.value, steps;
          }
        }
        pass := pass + 1;
      }
      EmptyTop(cfg, State(), attempts);
      phase, stranded := Closing(Drained), false;
      return Drained, steps;
    }

    /** Clears storage, tells everyone still waiting `false`, and reads the empty state back. */
    method ClearLog()
      requires phase.Idle?
      modifies this, host
      ensures State() == Next(cfg, old(State()), Clear)
    {
      host.ClearState();
      SettleAll(pending, false);
      pending, ranges, base := [], [], |raised|;
      version, cached := host.ReadState(cfg.spec);
      folded := [];
      RecomputeTentative();
      stranded := false;
    }
  }

  /** A run in which nothing is raised. */
  ghost predicate Quiet(steps: seq<Action>) {
    forall i | 0 <= i < |steps| :: !steps[i].Submit? && !steps[i].TryAppend? && !steps[i].Clear?
  }

  /** A re-read has been answered: a written batch waiting for it can be settled. */
  ghost function Answered(w: World, written: seq<Entry>): World {
    w.(books := w.books.(settled := Settle(w.books.settled, written, true)))
  }

  lemma NothingToSettle(w: World)
    ensures Answered(w, []) == w
  {
    assert Settle(w.books.settled, [], true) == w.books.settled;
  }

  lemma FirstStep(cfg: Config, w: World)
    requires w.phase.Idle?
    ensures Run(cfg, w, [Confirm]) == LoopTop(cfg, w, 0)
  {
    assert [Confirm][..0] == [];
    hide LoopTop;
  }

  lemma HostWritesStep(cfg: Config, w: World)
    requires w.phase.Writing? && !w.phase.landed
    ensures Next(cfg, w, HostWrites) ==
      if |w.books.log| == w.view.version then
        w.(books := w.books.(log := w.books.log + Owned(w.phase.batch)), phase := w.phase.(landed := true))
      else w
  {
  }

  lemma HostReadsStep(cfg: Config, w: World)
    requires w.phase.Reading?
    ensures Next(cfg, w, HostReads) == w.(phase := w.phase.(taken := Some(|w.books.log|)))
  {
  }

  lemma ReadAnswerStep(cfg: Config, w: World, answered: bool)
    requires w.phase.Reading? && w.phase.taken.Some? && w.phase.taken.value <= |w.books.log|
    ensures Next(cfg, w, ReadAnswer(answered)) ==
      if answered then
        LoopTop(cfg, Answered(w.(view := Recompute(cfg.spec, ReadAt(cfg.spec, w.view, w.books.log, w.phase.taken.value), w.books.pending)),
                              w.phase.written), w.phase.attempts)
      else
        w.(books := w.books.(abandoned := w.books.abandoned + ConditionalIds(w.phase.written)), phase := Closing(ReadFailed), stranded := true)
  {
    hide LoopTop;
  }

  lemma WriteAnswerStep(cfg: Config, w: World, throwsAt: Option<nat>)
    requires w.phase.Writing? && |w.phase.batch| <= |w.books.pending|
    ensures var Writing(batch, attempts, landed) := w.phase;
      var v := FoldBatch(cfg.spec, w.view, batch, throwsAt);
      var taken := w.books.(pending := w.books.pending[|batch|..]);
      Next(cfg, w, WriteAnswer(throwsAt)) ==
        if landed then
          if throwsAt.Some? && throwsAt.value < |batch| then w.(books := taken, view := v, phase := Reading(0, None, batch))
          else LoopTop(cfg, Answered(w.(books := taken, view := Recompute(cfg.spec, v, taken.pending)), batch), 0)
        else if attempts >= cfg.maxAttempts then
          World(DropFrom(w.books, 0), Recompute(cfg.spec, w.view, DropFrom(w.books, 0).pending), Closing(Exhausted), false)
        else w.(phase := Reading(attempts, None, []))
  {
    hide LoopTop, FoldBatch, DropFrom;
  }

  lemma ReadAtIs(spec: LogSpec, v: View, log: seq<Item>, version: nat, state: Value, v': View)
    requires version <= |log| && state == LogView.Fold(spec, spec.initial, LogEvents(log[..version]))
    requires v' == v.(version := version, cached := state, folded := Span(0, version))
    ensures v' == ReadAt(spec, v, log, version)
  {
  }

  lemma SliceSnoc(es: seq<Entry>, s: nat, pos: nat)
    requires s <= pos < |es|
    ensures es[s..pos + 1] == es[s..pos] + [es[pos]]
  {
  }

  lemma RunStep(cfg: Config, w: World, actions: seq<Action>, action: Action)
    ensures Run(cfg, w, actions + [action]) == Next(cfg, Run(cfg, w, actions), action)
  {
    assert (actions + [action])[..|actions|] == actions;
  }

  lemma TopCases(cfg: Config, w: World, attempts: nat)
    ensures var s := FirstStale(w.view.version, w.books.pending, 0); var b := DropFrom(w.books, s);
      LoopTop(cfg, w, attempts) ==
        if w.books.pending == [] then w.(phase := Closing(Drained), stranded := false)
        else if b.pending == [] then World(b, Recompute(cfg.spec, w.view, []), Closing(Drained), false)
        else w.(books := b, phase := Writing(b.pending, attempts + 1, false))
  {
    hide FirstStale, DropFrom;
  }

  lemma EmptyTop(cfg: Config, w: World, attempts: nat)
    requires w.books.pending == []
    ensures LoopTop(cfg, w, attempts) == w.(phase := Closing(Drained), stranded := false)
  {
  }

  lemma SettleOneMore(settled: map<nat, bool>, es: seq<Entry>, e: Entry, appended: bool)
    ensures Settle(settled, es + [e], appended) ==
      if e.position.Some? then Settle(settled, es, appended)[e.id := appended] else Settle(settled, es, appended)
  {
    assert forall f | f in es + [e] :: f in es || f == e;
    assert ConditionalIds(es + [e]) == ConditionalIds(es) + if e.position.Some? then {e.id} else {};
  }

  lemma {:induction false} UnconditionalOneMore(es: seq<Entry>, e: Entry)
    ensures Unconditional(es + [e]) == Unconditional(es) + if e.position.None? then [e] else []
  {
    if es == [] {
      assert [e][1..] == [];
    } else {
      UnconditionalOneMore(es[1..], e);
      assert (es + [e])[1..] == es[1..] + [e];
    }
  }
}
