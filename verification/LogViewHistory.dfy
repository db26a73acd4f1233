/**
 * Runs of journaled grains: incarnations of one grain, each with its log view, on one log. The
 * confirmed view is the fold of the confirmed history, and the answers of `tryAppendRange` are
 * compared with what is stored.
 */
module LogViewHistory {
  import opened Wrappers
  import opened OrderedMap
  import opened DurableMachines
  import opened JournalManager
  import opened LogView
  import JournalFencing

  // ----- The confirmed view and the history -----

  ghost predicate ViewIs(spec: LogSpec, s: State, history: seq<Value>) {
    s.LogState? && s.confirmed == Fold(spec, spec.initial, history) && s.version == |history|
  }

  /** The events a view still holds are the end of its history. */
  ghost predicate HoldsTail(s: State, history: seq<Value>) {
    s.LogState? && |s.confirmedEvents| <= |history| && s.confirmedEvents == history[|history| - |s.confirmedEvents|..]
  }

  ghost predicate Holds(spec: LogSpec, s: State, history: seq<Value>) {
    ViewIs(spec, s, history) && HoldsTail(s, history)
  }

  /** The log gives the journaled grain the fold of `history`, every event stored since it was last cleared. */
  ghost predicate LogHolds(spec: LogSpec, log: Log, history: seq<Value>) {
    && VesselsFirst(log.Entries())
    && (log.NoLog? ==> history == [])
    && Holds(spec, Meaning(spec, log.Entries(), JOURNAL, LogKind), history)
  }

  lemma EventHolds(spec: LogSpec, s: State, history: seq<Value>, e: Value)
    requires Holds(spec, s, history)
    ensures Holds(spec, Apply(spec, s, LogEvent(e)), history + [e])
  {
    assert (history + [e])[..|history|] == history;
  }

  lemma EventsSnoc(history: seq<Value>, events: seq<Value>)
    requires events != []
    ensures var init, e := events[..|events| - 1], events[|events| - 1];
      && Events(events)[..|events| - 1] == Events(init) && Events(events)[|events| - 1] == LogEvent(e)
      && history + events == (history + init) + [e]
  {
  }

  lemma {:induction false} RunEvents(spec: LogSpec, s: State, history: seq<Value>, events: seq<Value>)
    requires Holds(spec, s, history)
    ensures Holds(spec, Run(spec, s, Events(events)), history + events)
    decreases |events|
  {
    hide Holds, Apply;
    if events == [] {
      assert history + events == history;
    } else {
      var init := events[..|events| - 1];
      RunEvents(spec, s, history, init);
      EventsSnoc(history, events);
      EventHolds(spec, Run(spec, s, Events(init)), history + init, events[|events| - 1]);
    }
  }

  lemma AppendedLogHolds(spec: LogSpec, log: Log, history: seq<Value>, n: Name, ps: seq<Payload>, more: seq<Value>)
    requires LogHolds(spec, log, history)
    requires if n == JOURNAL then ps == Events(more) else more == []
    ensures LogHolds(spec, Written(log, log.Entries() + OpFrames(n, ps)), history + more)
  {
    OpsKeepVesselsFirst(log.Entries(), n, ps);
    MeaningAfterOps(spec, log.Entries(), n, ps, JOURNAL, LogKind);
    if n == JOURNAL {
      RunEvents(spec, Meaning(spec, log.Entries(), JOURNAL, LogKind), history, more);
    } else {
      assert history + more == history;
    }
  }

  lemma CompactedLogHolds(cfg: Config, mgr: Manager, log: Log, history: seq<Value>)
    requires LogHolds(cfg.spec, log, history) && HasJournal(mgr)
    requires InStep(cfg, mgr, log) && MachinesOk(mgr.machines)
    ensures LogHolds(cfg.spec, Written(log, Compacted(cfg, mgr)), history)
  {
    CompactedVesselsFirst(cfg, mgr, log);
    CompactedPayloads(cfg, mgr, log, JOURNAL);
    RegisteredMeaning(cfg, mgr, log, JOURNAL);
    RunOne(cfg.spec, Reset(cfg.spec, LogKind), Snapshot(Confirmed(mgr)));
    assert history[|history|..] == [];
  }

  // ----- One incarnation -----

  /**
   * The incarnation's confirmed view is the fold of the history up to its version, and of the whole
   * history when it is at the stored version.
   */
  ghost predicate MgrHolds(cfg: Config, mgr: Manager, log: Log, history: seq<Value>) {
    && JournalFencing.IncarnationInv(JournalFencing.Incarnation(cfg, mgr), log)
    && HasJournal(mgr)
    && Confirmed(mgr).version <= |history|
    && Holds(cfg.spec, Confirmed(mgr), history[..Confirmed(mgr).version])
    && (mgr.version == log.Version() ==> Confirmed(mgr).version == |history|)
  }

  /** Nothing is lost between the queue, the batch in flight, the count and the tentative view. */
  ghost predicate QueueHolds(spec: LogSpec, a: Adaptor, flight: seq<Value>) {
    && HasJournal(a.mgr)
    && a.unconfirmed == |flight| + |a.pending|
    && a.tentative == Fold(spec, Confirmed(a.mgr).confirmed, flight + a.pending)
  }

  /** What one write of a manager leaves behind: a good log, a good manager, and stale rivals still stale. */
  ghost predicate WriteHolds(cfg: Config, log: Log, history: seq<Value>, r: Step, stored: seq<Value>) {
    && LogHolds(cfg.spec, r.log, history + stored)
    && MgrHolds(cfg, r.mgr, r.log, history + stored)
    && (r.log == log ==> stored == [])
    && (r.log == log || (r.log.Log? && (log.Log? ==> log.version < r.log.version)))
  }

  lemma CompactHolds(cfg: Config, mgr: Manager, log: Log, history: seq<Value>, fate: Fate)
    requires LogHolds(cfg.spec, log, history) && MgrHolds(cfg, mgr, log, history)
    ensures WriteHolds(cfg, log, history, Compact(cfg, mgr, log, fate), [])
  {
    assert history + [] == history;
    JournalFencing.CompactIsGood(JournalFencing.Incarnation(cfg, mgr), log, fate);
    if Lands(mgr, log, fate) {
      CompactedLogHolds(cfg, mgr, log, history);
    }
  }

  /** How an append ends, by what became of its storage call. */
  lemma AppendOutcome(cfg: Config, mgr: Manager, log: Log, n: Name, ps: seq<Payload>, fate: Fate, compaction: Fate)
    requires Has(mgr.machines, n) && ps != []
    ensures var r := AppendRange(cfg, mgr, log, n, ps, fate, compaction);
      && (r.outcome == Done <==> Lands(mgr, log, fate) && fate == Answered)
      && (r.outcome == Conflict <==> fate != LostRequest && mgr.version != log.Version())
      && (r.outcome != Done ==> r.mgr == mgr)
      && (!Lands(mgr, log, fate) ==> r.log == log)
      && (Lands(mgr, log, fate) && fate == LostAnswer ==> r.log == Written(log, log.Entries() + OpFrames(n, ps)))
  {
  }

  lemma AppendHolds(cfg: Config, mgr: Manager, log: Log, history: seq<Value>, n: Name, ps: seq<Payload>, more: seq<Value>, fate: Fate, compaction: Fate)
    requires LogHolds(cfg.spec, log, history) && MgrHolds(cfg, mgr, log, history)
    requires if n == JOURNAL then ps == Events(more) else more == []
    requires Has(mgr.machines, n) && ps != []
    ensures var r := AppendRange(cfg, mgr, log, n, ps, fate, compaction);
      WriteHolds(cfg, log, history, r, if Lands(mgr, log, fate) then more else [])
  {
    AppendOutcome(cfg, mgr, log, n, ps, fate, compaction);
    if !Lands(mgr, log, fate) {
      assert history + [] == history;
    } else if fate == LostAnswer {
      UnansweredHolds(cfg, mgr, log, history, n, ps, more, compaction);
    } else {
      AnsweredHolds(cfg, mgr, log, history, n, ps, more, compaction);
    }
  }

  lemma UnansweredHolds(cfg: Config, mgr: Manager, log: Log, history: seq<Value>, n: Name, ps: seq<Payload>, more: seq<Value>, compaction: Fate)
    requires LogHolds(cfg.spec, log, history) && MgrHolds(cfg, mgr, log, history)
    requires if n == JOURNAL then ps == Events(more) else more == []
    requires Has(mgr.machines, n) && ps != [] && Lands(mgr, log, LostAnswer)
    ensures WriteHolds(cfg, log, history, AppendRange(cfg, mgr, log, n, ps, LostAnswer, compaction), more)
  {
    AppendedLogHolds(cfg.spec, log, history, n, ps, more);
    JournalFencing.AppendIsGood(JournalFencing.Incarnation(cfg, mgr), log, n, ps, LostAnswer, compaction);
    assert (history + more)[..Confirmed(mgr).version] == history[..Confirmed(mgr).version];
  }

  /** An answered append applies its range, and compacts if that has become due. */
  lemma AppendAnswered(cfg: Config, mgr: Manager, log: Log, n: Name, ps: seq<Payload>, compaction: Fate)
    requires Has(mgr.machines, n) && ps != [] && Lands(mgr, log, Answered)
    ensures var log' := Written(log, log.Entries() + OpFrames(n, ps));
      var mgr' := Applied(cfg, mgr, log', n, ps);
      var r := AppendRange(cfg, mgr, log, n, ps, Answered, compaction);
      var c := Compact(cfg, mgr', log', compaction);
      (r.mgr == mgr' && r.log == log') || (r.mgr == c.mgr && r.log == c.log)
  {
  }

  ghost predicate Newer(log: Log, log': Log) {
    log'.Log? && (log.Log? ==> log.version < log'.version)
  }

  lemma WrittenIsNewer(log: Log, entries: seq<Frame>)
    ensures Newer(log, Written(log, entries))
  {
  }

  lemma LaterWrite(cfg: Config, log: Log, history: seq<Value>, log': Log, more: seq<Value>, r: Step)
    requires Newer(log, log') && (r.log == log' || Newer(log', r.log))
    requires LogHolds(cfg.spec, r.log, history + more) && MgrHolds(cfg, r.mgr, r.log, history + more)
    ensures WriteHolds(cfg, log, history, r, more)
  {
    hide LogHolds, MgrHolds;
  }

  lemma NothingMore(cfg: Config, log: Log, history: seq<Value>, r: Step)
    requires WriteHolds(cfg, log, history, r, [])
    ensures LogHolds(cfg.spec, r.log, history) && MgrHolds(cfg, r.mgr, r.log, history)
    ensures r.log == log || Newer(log, r.log)
  {
    hide LogHolds, MgrHolds;
    assert history + [] == history;
  }

  lemma AnsweredHolds(cfg: Config, mgr: Manager, log: Log, history: seq<Value>, n: Name, ps: seq<Payload>, more: seq<Value>, compaction: Fate)
    requires LogHolds(cfg.spec, log, history) && MgrHolds(cfg, mgr, log, history)
    requires if n == JOURNAL then ps == Events(more) else more == []
    requires Has(mgr.machines, n) && ps != [] && Lands(mgr, log, Answered)
    ensures WriteHolds(cfg, log, history, AppendRange(cfg, mgr, log, n, ps, Answered, compaction), more)
  {
    hide MgrHolds, LogHolds, WriteHolds, AppendRange, Compact, Applied, Written, Newer;
    var log' := Written(log, log.Entries() + OpFrames(n, ps));
    var mgr' := Applied(cfg, mgr, log', n, ps);
    WrittenIsNewer(log, log.Entries() + OpFrames(n, ps));
    AppendedLogHolds(cfg.spec, log, history, n, ps, more);
    AppliedHolds(cfg, mgr, log, history, n, ps, more);
    CompactHolds(cfg, mgr', log', history + more, compaction);
    NothingMore(cfg, log', history + more, Compact(cfg, mgr', log', compaction));
    AppendAnswered(cfg, mgr, log, n, ps, compaction);
    LaterWrite(cfg, log, history, log', more, AppendRange(cfg, mgr, log, n, ps, Answered, compaction));
  }

  lemma AppliedJournal(cfg: Config, mgr: Manager, log': Log, n: Name, ps: seq<Payload>)
    requires HasJournal(mgr) && Has(mgr.machines, n)
    ensures var m := Applied(cfg, mgr, log', n, ps);
      HasJournal(m) && Confirmed(m) == if n == JOURNAL then Run(cfg.spec, Confirmed(mgr), ps) else Confirmed(mgr)
  {
    var s := Run(cfg.spec, Get(mgr.machines, n), ps);
    PutHas(mgr.machines, n, s, JOURNAL);
    if n == JOURNAL {
      RunKeepsOk(cfg.spec, Confirmed(mgr), ps);
    }
  }

  lemma AppliedHolds(cfg: Config, mgr: Manager, log: Log, history: seq<Value>, n: Name, ps: seq<Payload>, more: seq<Value>)
    requires LogHolds(cfg.spec, log, history) && MgrHolds(cfg, mgr, log, history)
    requires if n == JOURNAL then ps == Events(more) else more == []
    requires Has(mgr.machines, n) && mgr.version == log.Version()
    ensures var log' := Written(log, log.Entries() + OpFrames(n, ps));
      MgrHolds(cfg, Applied(cfg, mgr, log', n, ps), log', history + more)
  {
    var log' := Written(log, log.Entries() + OpFrames(n, ps));
    var mgr' := Applied(cfg, mgr, log', n, ps);
    assert JournalFencing.IncarnationInv(JournalFencing.Incarnation(cfg, mgr'), log') by {
      AppendKeepsInStep(cfg, mgr, log, n, ps);
    }
    AppliedJournal(cfg, mgr, log', n, ps);
    assert Holds(cfg.spec, Confirmed(mgr'), history + more) by {
      assert history[..|history|] == history;
      if n == JOURNAL {
        RunEvents(cfg.spec, Confirmed(mgr), history, more);
      } else {
        assert history + more == history;
      }
    }
    assert (history + more)[..|history + more|] == history + more;
  }

  /** What a log view relies on between its steps; `flight` is the batch a confirm has taken off the queue. */
  ghost predicate NodeHolds(cfg: Config, a: Adaptor, flight: seq<Value>, log: Log, history: seq<Value>) {
    && LogHolds(cfg.spec, log, history)
    && MgrHolds(cfg, a.mgr, log, history)
    && QueueHolds(cfg.spec, a, flight)
  }

  lemma SubmitRangeHolds(cfg: Config, a: Adaptor, flight: seq<Value>, events: seq<Value>)
    requires QueueHolds(cfg.spec, a, flight)
    ensures QueueHolds(cfg.spec, SubmitRange(cfg.spec, a, events), flight)
  {
    SubmitRangeAdds(cfg.spec, a, events);
    FoldConcat(cfg.spec, Confirmed(a.mgr).confirmed, flight + a.pending, events);
    assert flight + (a.pending + events) == (flight + a.pending) + events;
  }

  /** A confirm pass, read off its append. */
  lemma ConfirmShape(cfg: Config, a: Adaptor, log: Log, fate: Fate, compaction: Fate)
    requires QueueHolds(cfg.spec, a, []) && a.pending != []
    ensures var p := Confirm(cfg, a, log, fate, compaction);
      var r := AppendRange(cfg, a.mgr, log, JOURNAL, Events(a.pending), fate, compaction);
      && p.log == r.log && p.outcome == r.outcome && p.a.mgr == r.mgr
      && p.stored == (if Lands(a.mgr, log, fate) then a.pending else [])
      && p.a.pending == (if p.outcome == Done || p.outcome == Conflict then [] else a.pending)
      && QueueHolds(cfg.spec, p.a, [])
  {
    AppendOutcome(cfg, a.mgr, log, JOURNAL, Events(a.pending), fate, compaction);
    AppendKeepsJournal(cfg, a.mgr, log, JOURNAL, Events(a.pending), fate, compaction);
  }

  lemma ConfirmHolds(cfg: Config, a: Adaptor, log: Log, history: seq<Value>, fate: Fate, compaction: Fate, p: Pass)
    requires NodeHolds(cfg, a, [], log, history) && a.pending != []
    requires p == Confirm(cfg, a, log, fate, compaction)
    ensures NodeHolds(cfg, p.a, [], p.log, history + p.stored)
    ensures p.stored == if Lands(a.mgr, log, fate) then a.pending else []
    ensures p.outcome == Done <==> Lands(a.mgr, log, fate) && fate == Answered
    ensures p.outcome == Conflict ==> p.stored == []
    ensures p.a.pending == if p.outcome == Done || p.outcome == Conflict then [] else a.pending
    ensures p.stored == [] ==> p.log == log
  {
    ConfirmShape(cfg, a, log, fate, compaction);
    AppendOutcome(cfg, a.mgr, log, JOURNAL, Events(a.pending), fate, compaction);
    AppendHolds(cfg, a.mgr, log, history, JOURNAL, Events(a.pending), a.pending, fate, compaction);
  }

  lemma FreshReplayHolds(cfg: Config, mgr: Manager, log: Log, history: seq<Value>)
    requires LogHolds(cfg.spec, log, history) && HasJournal(mgr) && MachinesOk(mgr.machines)
    ensures var m := FreshReplay(cfg, RegistrationsOf(mgr.machines), log);
      MgrHolds(cfg, m, log, history) && Confirmed(m).version == |history|
  {
    var regs := RegistrationsOf(mgr.machines);
    var m := FreshReplay(cfg, regs, log);
    RegistrationsDistinct(mgr.machines);
    FreshReplayIsOk(cfg, regs, log);
    HasIndex(mgr.machines, JOURNAL);
    var i :| 0 <= i < |mgr.machines| && mgr.machines[i].0 == JOURNAL;
    GetIndex(mgr.machines, i);
    assert regs[i] == (JOURNAL, LogKind);
    GetIndex(m.machines, i);
    assert Confirmed(m) == Meaning(cfg.spec, log.Entries(), JOURNAL, LogKind);
    assert history[..|history|] == history;
  }

  lemma ResyncHolds(cfg: Config, a: Adaptor, log: Log, history: seq<Value>)
    requires LogHolds(cfg.spec, log, history) && HasJournal(a.mgr) && MachinesOk(a.mgr.machines)
    ensures var b := Resync(cfg, a, log);
      && NodeHolds(cfg, b, [], log, history)
      && b.pending == a.pending
      && b.mgr.version == log.Version()
      && Confirmed(b.mgr).version == |history|
  {
    FreshReplayHolds(cfg, a.mgr, log, history);
    assert [] + a.pending == a.pending;
  }

  lemma WithdrawHolds(cfg: Config, a: Adaptor, before: seq<Value>, events: seq<Value>)
    requires QueueHolds(cfg.spec, a, []) && a.pending == before + events
    ensures var w := Withdraw(cfg.spec, a, events);
      QueueHolds(cfg.spec, w, []) && w.pending == before && w.mgr == a.mgr
  {
    RemovedSuffix(before, events, events);
    assert [] + before == before;
  }

  // ----- tryAppendRange tells the truth -----

  /** What an answer claims about the events stored by the call, `before` having been pending already. */
  ghost predicate Truthful(r: Attempted, before: seq<Value>, events: seq<Value>) {
    match r.answer
    case Landed => r.stored == before + events && (r.a.pending == [] || r.a.pending == before)
    case NotLanded => r.stored == [] && (r.a.pending == [] || r.a.pending == before)
    case Threw => (r.stored == [] || r.stored == before + events) && r.a.pending == before
  }

  /** What a failed pass leads to once the log has been re-read. */
  lemma ReReadDecides(cfg: Config, pass: Pass, history: seq<Value>, before: seq<Value>, events: seq<Value>, landsAt: int, b: Adaptor)
    requires NodeHolds(cfg, pass.a, [], pass.log, history + pass.stored)
    requires pass.a.pending == before + events && (pass.stored == [] || pass.stored == before + events)
    requires |history| < landsAt <= |history| + |before| + |events|
    requires b == Resync(cfg, pass.a, pass.log)
    ensures NodeHolds(cfg, b, [], pass.log, history + pass.stored) && b.pending == before + events
    ensures Confirmed(b.mgr).version >= landsAt <==> pass.stored != []
    ensures var w := Withdraw(cfg.spec, b, events); NodeHolds(cfg, w, [], pass.log, history + pass.stored) && w.pending == before && w.mgr == b.mgr
    ensures b.mgr.version == pass.log.Version()
  {
    ResyncHolds(cfg, pass.a, pass.log, history + pass.stored);
    WithdrawHolds(cfg, b, before, events);
  }

  lemma {:induction false} AttemptTruthful(cfg: Config, a: Adaptor, log: Log, history: seq<Value>, before: seq<Value>, events: seq<Value>, landsAt: int, fates: nat -> AttemptFates, attempt: nat, r: Attempted)
    requires NodeHolds(cfg, a, [], log, history)
    requires a.pending == before + events && events != []
    requires |history| < landsAt <= |history| + |before| + |events|
    requires r == Attempt(cfg, a, log, events, landsAt, fates, attempt)
    ensures Truthful(r, before, events)
    ensures NodeHolds(cfg, r.a, [], r.log, history + r.stored)
    decreases MAX_APPEND_ATTEMPTS - attempt
  {
    hide MgrHolds, LogHolds, Confirm, Resync, Removed;
    var f := fates(attempt);
    var pass := Confirm(cfg, a, log, f.write, f.compaction);
    ConfirmHolds(cfg, a, log, history, f.write, f.compaction, pass);
    if pass.outcome == Done || pass.outcome == Conflict {
      assert r.a == pass.a && r.log == pass.log && r.stored == pass.stored;
    } else if !f.read {
      WithdrawHolds(cfg, pass.a, before, events);
    } else {
      var b := Resync(cfg, pass.a, pass.log);
      ReReadDecides(cfg, pass, history, before, events, landsAt, b);
      if Confirmed(b.mgr).version < landsAt && attempt < MAX_APPEND_ATTEMPTS {
        assert history + [] == history;
        var rest := Attempt(cfg, b, pass.log, events, landsAt, fates, attempt + 1);
        AttemptTruthful(cfg, b, pass.log, history, before, events, landsAt, fates, attempt + 1, rest);
        assert r.stored == [] + rest.stored == rest.stored;
      }
    }
  }

  /** The version at which the caller's range would land, were nothing stored beyond what this view knows. */
  function LandsAt(a: Adaptor, events: seq<Value>): int
    requires HasJournal(a.mgr)
  {
    Confirmed(a.mgr).version + |a.pending| + |events|
  }

  /**
   * For a sole writer with no confirm in flight: `true` means the range was stored, once, contiguous
   * and right after what was already pending; `false` means none of it was stored and none of it is
   * pending; a throw leaves it stored whole or not at all, and not pending.
   */
  lemma TryAppendTruthful(cfg: Config, a: Adaptor, log: Log, history: seq<Value>, events: seq<Value>, fates: nat -> AttemptFates, r: Attempted)
    requires NodeHolds(cfg, a, [], log, history) && events != []
    requires |history| < LandsAt(a, events)
    requires r == TryAppendRange(cfg, a, log, events, fates)
    ensures Truthful(r, a.pending, events)
    ensures NodeHolds(cfg, r.a, [], r.log, history + r.stored)
  {
    hide MgrHolds, LogHolds, Attempt;
    var b := SubmitRange(cfg.spec, a, events);
    SubmittedHolds(cfg, a, log, history, events, b);
    AttemptTruthful(cfg, b, log, history, a.pending, events, LandsAt(a, events), fates, 1, r);
  }

  lemma SubmittedHolds(cfg: Config, a: Adaptor, log: Log, history: seq<Value>, events: seq<Value>, b: Adaptor)
    requires NodeHolds(cfg, a, [], log, history)
    requires b == SubmitRange(cfg.spec, a, events)
    ensures NodeHolds(cfg, b, [], log, history) && b.mgr == a.mgr && b.pending == a.pending + events
    ensures LandsAt(a, events) == Confirmed(b.mgr).version + |b.pending|
    ensures LandsAt(a, events) <= |history| + |a.pending| + |events|
  {
    SubmitRangeAdds(cfg.spec, a, events);
    SubmitRangeHolds(cfg, a, [], events);
  }

  /** The storage call is lost on its way, and the re-read works. */
  const ALWAYS_LOST: nat -> AttemptFates := _ => AttemptFates(LostRequest, LostRequest, true)

  lemma LiesWhenBehind(cfg: Config, a: Adaptor, log: Log, history: seq<Value>, events: seq<Value>)
    requires NodeHolds(cfg, a, [], log, history) && events != []
    requires |history| >= LandsAt(a, events)
    ensures var r := TryAppendRange(cfg, a, log, events, ALWAYS_LOST);
      r.answer == Landed && r.stored == [] && r.log == log && r.a.pending == a.pending
  {
    hide LogHolds, Removed, RetrieveLogSegment;
    var b := SubmitRange(cfg.spec, a, events);
    SubmittedHolds(cfg, a, log, history, events, b);
    var pass := Confirm(cfg, b, log, LostRequest, LostRequest);
    ConfirmHolds(cfg, b, log, history, LostRequest, LostRequest, pass);
    assert pass.a == b && pass.log == log;
    ResyncHolds(cfg, b, log, history);
    WithdrawHolds(cfg, Resync(cfg, b, log), a.pending, events);
  }

  /**
   * Exactly when answers can be trusted: the events already stored must be fewer than the version
   * the range would land at. A view that an earlier, thrown append left behind the log can be told
   * `true` about a range that was never stored.
   */
  lemma AnswersTruthfulIffNotBehind(cfg: Config, a: Adaptor, log: Log, history: seq<Value>, events: seq<Value>)
    requires NodeHolds(cfg, a, [], log, history) && events != []
    ensures (forall fates: nat -> AttemptFates :: Truthful(TryAppendRange(cfg, a, log, events, fates), a.pending, events))
       <==> |history| < LandsAt(a, events)
  {
    if |history| < LandsAt(a, events) {
      forall fates: nat -> AttemptFates ensures Truthful(TryAppendRange(cfg, a, log, events, fates), a.pending, events) {
        TryAppendTruthful(cfg, a, log, history, events, fates, TryAppendRange(cfg, a, log, events, fates));
      }
    } else {
      LiesWhenBehind(cfg, a, log, history, events);
      assert !Truthful(TryAppendRange(cfg, a, log, events, ALWAYS_LOST), a.pending, events);
    }
  }

  /** The write lands, its answer is lost, and the re-read finds it. */
  const ANSWER_LOST: nat -> AttemptFates := _ => AttemptFates(LostAnswer, LostRequest, true)

  lemma UpToDateLandsAhead(cfg: Config, a: Adaptor, log: Log, history: seq<Value>, events: seq<Value>)
    requires NodeHolds(cfg, a, [], log, history) && events != [] && a.mgr.version == log.Version()
    ensures |history| < LandsAt(a, events)
  {
  }

  lemma FoundAt(cfg: Config, b: Adaptor, log: Log, history: seq<Value>, before: seq<Value>, events: seq<Value>, landsAt: int, fates: nat -> AttemptFates, attempt: nat, r: Attempted)
    requires NodeHolds(cfg, b, [], log, history) && b.mgr.version == log.Version()
    requires b.pending == before + events && events != [] && |history| < landsAt <= |history| + |before| + |events|
    requires fates(attempt) == AttemptFates(LostAnswer, LostRequest, true)
    requires r == Attempt(cfg, b, log, events, landsAt, fates, attempt)
    ensures r.answer == Landed && r.stored == before + events && r.a.pending == before
    ensures NodeHolds(cfg, r.a, [], r.log, history + r.stored) && r.a.mgr.version == r.log.Version()
  {
    hide MgrHolds, LogHolds, Confirm, Resync, Removed;
    var pass := Confirm(cfg, b, log, LostAnswer, LostRequest);
    ConfirmHolds(cfg, b, log, history, LostAnswer, LostRequest, pass);
    var c := Resync(cfg, pass.a, pass.log);
    ReReadDecides(cfg, pass, history, before, events, landsAt, c);
  }

  lemma FoundByReRead(cfg: Config, a: Adaptor, log: Log, history: seq<Value>, events: seq<Value>, r: Attempted)
    requires NodeHolds(cfg, a, [], log, history) && events != [] && a.mgr.version == log.Version()
    requires r == TryAppendRange(cfg, a, log, events, ANSWER_LOST)
    ensures r.answer == Landed && r.stored == a.pending + events && r.a.pending == a.pending
    ensures NodeHolds(cfg, r.a, [], r.log, history + r.stored) && r.a.mgr.version == r.log.Version()
  {
    hide MgrHolds, LogHolds, Attempt;
    UpToDateLandsAhead(cfg, a, log, history, events);
    var b := SubmitRange(cfg.spec, a, events);
    SubmittedHolds(cfg, a, log, history, events, b);
    FoundAt(cfg, b, log, history, a.pending, events, LandsAt(a, events), ANSWER_LOST, 1, r);
  }

  /**
   * A range found by the re-read is withdrawn from the queue, but what was pending before it, stored
   * by the same write, is not: it stays pending, and the next confirm stores it a second time.
   */
  lemma EarlierEventsStoredTwice(cfg: Config, a: Adaptor, log: Log, history: seq<Value>, events: seq<Value>, compaction: Fate, r: Attempted, c: Pass)
    requires NodeHolds(cfg, a, [], log, history) && events != [] && a.mgr.version == log.Version()
    requires a.pending != []
    requires r == TryAppendRange(cfg, a, log, events, ANSWER_LOST)
    requires HasJournal(r.a.mgr) && c == Confirm(cfg, r.a, r.log, Answered, compaction)
    ensures r.answer == Landed && c.outcome == Done
    ensures LogHolds(cfg.spec, c.log, history + a.pending + events + a.pending)
  {
    hide MgrHolds, LogHolds, Confirm, TryAppendRange;
    FoundByReRead(cfg, a, log, history, events, r);
    ConfirmHolds(cfg, r.a, r.log, history + r.stored, Answered, compaction, c);
    assert history + r.stored + c.stored == history + a.pending + events + a.pending;
  }

  /** The first request is lost; then the write lands and its answer is lost. */
  const SECOND_ANSWER_LOST: nat -> AttemptFates :=
    attempt => AttemptFates(if attempt == 1 then LostRequest else LostAnswer, LostRequest, true)

  /** A view that is behind catches up by the re-read of its first attempt, and is then like any other. */
  lemma FoundOnRetry(cfg: Config, a: Adaptor, log: Log, history: seq<Value>, events: seq<Value>, r: Attempted)
    requires NodeHolds(cfg, a, [], log, history) && events != [] && |history| < LandsAt(a, events)
    requires r == TryAppendRange(cfg, a, log, events, SECOND_ANSWER_LOST)
    ensures r.answer == Landed && r.a.pending == a.pending
  {
    hide MgrHolds, LogHolds, Attempt, Resync;
    var b := SubmitRange(cfg.spec, a, events);
    SubmittedHolds(cfg, a, log, history, events, b);
    var landsAt := LandsAt(a, events);
    LostAttempt(cfg, b, log, history, a.pending, events, landsAt, SECOND_ANSWER_LOST, 1);
    var c := Resync(cfg, b, log);
    FoundAt(cfg, c, log, history, a.pending, events, landsAt, SECOND_ANSWER_LOST, 2, Attempt(cfg, c, log, events, landsAt, SECOND_ANSWER_LOST, 2));
  }

  lemma LostPass(cfg: Config, b: Adaptor, log: Log, compaction: Fate)
    requires HasJournal(b.mgr) && b.pending != []
    ensures var pass := Confirm(cfg, b, log, LostRequest, compaction);
      pass.a == b && pass.log == log && pass.stored == [] && pass.outcome != Done && pass.outcome != Conflict
  {
    AppendOutcome(cfg, b.mgr, log, JOURNAL, Events(b.pending), LostRequest, compaction);
  }

  /** An attempt whose request is lost, the re-read not finding the range: the next attempt, or the end. */
  lemma LostAttempt(cfg: Config, b: Adaptor, log: Log, history: seq<Value>, before: seq<Value>, events: seq<Value>, landsAt: int, fates: nat -> AttemptFates, attempt: nat)
    requires NodeHolds(cfg, b, [], log, history) && b.pending == before + events && events != [] && |history| < landsAt
    requires fates(attempt).write == LostRequest && fates(attempt).read
    ensures HasJournal(b.mgr)
    ensures var c := Resync(cfg, b, log); var r := Attempt(cfg, b, log, events, landsAt, fates, attempt);
      && NodeHolds(cfg, c, [], log, history) && c.pending == before + events && c.mgr.version == log.Version()
      && if attempt >= 5 then r.answer == NotLanded && r.stored == [] && r.log == log && r.a.pending == before
         else
           var next := Attempt(cfg, c, log, events, landsAt, fates, attempt + 1);
           r.answer == next.answer && r.log == next.log && r.a == next.a && r.stored == next.stored
  {
    hide MgrHolds, LogHolds, Confirm, Resync, Removed, Withdraw;
    LostPass(cfg, b, log, fates(attempt).compaction);
    HeldMachinesAreOk(cfg, b, log, history);
    ResyncHolds(cfg, b, log, history);
    WithdrawHolds(cfg, Resync(cfg, b, log), before, events);
  }

  lemma HeldMachinesAreOk(cfg: Config, a: Adaptor, log: Log, history: seq<Value>)
    requires NodeHolds(cfg, a, [], log, history)
    ensures MachinesOk(a.mgr.machines)
  {
  }

  /** However an append that answers `true` went, it leaves nothing pending, or what was pending before it. */
  lemma {:induction false} LandedLeaves(cfg: Config, b: Adaptor, log: Log, history: seq<Value>, before: seq<Value>, events: seq<Value>, landsAt: int, fates: nat -> AttemptFates, attempt: nat, r: Attempted)
    requires NodeHolds(cfg, b, [], log, history) && b.pending == before + events && events != []
    requires r == Attempt(cfg, b, log, events, landsAt, fates, attempt)
    ensures r.answer == Landed ==> r.a.pending == [] || r.a.pending == before
    decreases MAX_APPEND_ATTEMPTS - attempt
  {
    hide MgrHolds, LogHolds, Confirm, Resync, Removed, Withdraw;
    var f := fates(attempt);
    var pass := Confirm(cfg, b, log, f.write, f.compaction);
    ConfirmHolds(cfg, b, log, history, f.write, f.compaction, pass);
    HeldMachinesAreOk(cfg, pass.a, pass.log, history + pass.stored);
    ResyncHolds(cfg, pass.a, pass.log, history + pass.stored);
    var c := Resync(cfg, pass.a, pass.log);
    if pass.outcome != Done && pass.outcome != Conflict {
      WithdrawHolds(cfg, c, before, events);
      if f.read && Confirmed(c.mgr).version < landsAt && attempt < MAX_APPEND_ATTEMPTS {
        LandedLeaves(cfg, c, pass.log, history + pass.stored, before, events, landsAt, fates, attempt + 1,
                     Attempt(cfg, c, pass.log, events, landsAt, fates, attempt + 1));
      }
    }
  }

  /**
   * Exactly when a successful append leaves nothing behind to be stored twice, whether or not the
   * view is up to date: when nothing was pending before it.
   */
  lemma NothingStoredStaysPendingIff(cfg: Config, a: Adaptor, log: Log, history: seq<Value>, events: seq<Value>)
    requires NodeHolds(cfg, a, [], log, history) && events != []
    ensures (forall fates: nat -> AttemptFates ::
        var r := TryAppendRange(cfg, a, log, events, fates); r.answer == Landed ==> r.a.pending == [])
      <==> a.pending == []
  {
    hide MgrHolds, LogHolds, Attempt;
    var b := SubmitRange(cfg.spec, a, events);
    SubmittedHolds(cfg, a, log, history, events, b);
    if a.pending == [] {
      forall fates: nat -> AttemptFates
        ensures var r := TryAppendRange(cfg, a, log, events, fates); r.answer == Landed ==> r.a.pending == []
      {
        LandedLeaves(cfg, b, log, history, [], events, LandsAt(a, events), fates, 1, TryAppendRange(cfg, a, log, events, fates));
      }
    } else if |history| < LandsAt(a, events) {
      FoundOnRetry(cfg, a, log, history, events, TryAppendRange(cfg, a, log, events, SECOND_ANSWER_LOST));
    } else {
      LiesWhenBehind(cfg, a, log, history, events);
      assert TryAppendRange(cfg, a, log, events, ALWAYS_LOST).answer == Landed;
    }
  }

  // ----- A false `true`, reached -----

  /** The write lands, its answer is lost, and the log cannot be re-read. */
  const ANSWER_LOST_UNREADABLE: nat -> AttemptFates := _ => AttemptFates(LostAnswer, LostRequest, false)

  /**
   * From any log view in step with its log: after an append that threw because the re-read failed
   * too, the next append of no more events can be answered `true` although nothing of it is stored.
   */
  lemma ThrownAppendThenFalseTrue(cfg: Config, a: Adaptor, log: Log, history: seq<Value>, first: seq<Value>, second: seq<Value>, r: Attempted, q: Attempted)
    requires NodeHolds(cfg, a, [], log, history) && a.mgr.version == log.Version()
    requires 0 < |second| <= |first|
    requires r == TryAppendRange(cfg, a, log, first, ANSWER_LOST_UNREADABLE)
    requires HasJournal(r.a.mgr) && q == TryAppendRange(cfg, r.a, r.log, second, ALWAYS_LOST)
    ensures r.answer == Threw && LogHolds(cfg.spec, r.log, history + (a.pending + first))
    ensures q.answer == Landed && q.log == r.log && q.a.pending == a.pending
  {
    ThrownAppend(cfg, a, log, history, first, r);
    hide LogHolds, TryAppendRange;
    LiesWhenBehind(cfg, r.a, r.log, history + (a.pending + first), second);
  }

  lemma ThrownAppend(cfg: Config, a: Adaptor, log: Log, history: seq<Value>, first: seq<Value>, r: Attempted)
    requires NodeHolds(cfg, a, [], log, history) && a.mgr.version == log.Version()
    requires first != [] && r == TryAppendRange(cfg, a, log, first, ANSWER_LOST_UNREADABLE)
    ensures r.answer == Threw && r.a.pending == a.pending && r.a.mgr == a.mgr
    ensures NodeHolds(cfg, r.a, [], r.log, history + (a.pending + first))
  {
    hide MgrHolds, LogHolds, Confirm, Removed;
    var b := SubmitRange(cfg.spec, a, first);
    SubmittedHolds(cfg, a, log, history, first, b);
    var pass := Confirm(cfg, b, log, LostAnswer, LostRequest);
    ConfirmHolds(cfg, b, log, history, LostAnswer, LostRequest, pass);
    FailedPassKeepsManager(cfg, b, log, LostAnswer, LostRequest);
    WithdrawHolds(cfg, pass.a, a.pending, first);
  }

  lemma FailedPassKeepsManager(cfg: Config, a: Adaptor, log: Log, fate: Fate, compaction: Fate)
    requires HasJournal(a.mgr) && a.pending != [] && fate != Answered
    ensures Confirm(cfg, a, log, fate, compaction).a.mgr == a.mgr
  {
    AppendOutcome(cfg, a.mgr, log, JOURNAL, Events(a.pending), fate, compaction);
  }

  // ----- retrieveLogSegment -----

  /** Every segment that is answered is that stretch of the history, even from a stale incarnation. */
  lemma SegmentIsHistory(cfg: Config, mgr: Manager, log: Log, history: seq<Value>, from: int, to: int)
    requires MgrHolds(cfg, mgr, log, history)
    ensures RetrieveLogSegment(mgr, from, to).Some? <==>
      Confirmed(mgr).version - |Confirmed(mgr).confirmedEvents| <= from <= to <= Confirmed(mgr).version
    ensures RetrieveLogSegment(mgr, from, to).Some? ==>
      0 <= from <= to <= |history| && RetrieveLogSegment(mgr, from, to).value == history[from..to]
  {
    var s := Confirmed(mgr);
    var known := history[..s.version];
    var base := s.version - |s.confirmedEvents|;
    assert s.confirmedEvents == known[base..];
    if base <= from <= to <= s.version {
      assert known[base..][from - base..to - base] == history[from..to];
    }
  }
}
