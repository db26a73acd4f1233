/** The journaled log view as the object that carries its operations out, queue and all. */
module LogViewAdaptor {
  import opened Wrappers
  import opened OrderedMap
  import opened DurableMachines
  import opened JournalManager
  import opened LogView
  import StateMachineManager

  class LogViewAdaptor {
    const manager: StateMachineManager.StateMachineManager
    var pending: seq<Value>
    var unconfirmedCount: int
    var tentative: Value

    ghost predicate Valid()
      reads this, manager, manager.storage
    {
      manager.Valid() && HasJournal(manager.State())
    }

    ghost function State(): Adaptor
      reads this, manager
    {
      Adaptor(manager.State(), pending, unconfirmedCount, tentative)
    }

    /** The view of a manager the journal has been registered with; the replay is still to come. */
    constructor (manager: StateMachineManager.StateMachineManager)
      requires manager.Valid() && HasJournal(manager.State())
      ensures Valid() && this.manager == manager
      ensures State() == Adaptor(manager.State(), [], 0, manager.cfg.spec.initial)
    {
      this.manager := manager;
      pending, unconfirmedCount, tentative := [], 0, manager.cfg.spec.initial;
    }

    method Submit(e: Value)
      requires Valid()
      modifies this
      ensures Valid() && State() == LogView.Submit(manager.cfg.spec, old(State()), e)
    {
      pending := pending + [e];
      unconfirmedCount := unconfirmedCount + 1;
      tentative := manager.cfg.spec.transition(tentative, e);
    }

    method SubmitRange(events: seq<Value>)
      requires Valid()
      modifies this
      ensures Valid() && State() == LogView.SubmitRange(manager.cfg.spec, old(State()), events)
    {
      for i := 0 to |events|
        invariant State() == LogView.SubmitRange(manager.cfg.spec, old(State()), events[..i])
      {
        assert events[..i + 1][..i] == events[..i];
        Submit(events[i]);
      }
      assert events[..|events|] == events;
    }

    /** The confirmed view folded with everything pending. */
    method RecomputeTentative()
      requires Valid()
      modifies this`tentative
      ensures State() == Recompute(manager.cfg.spec, old(State()))
    {
      tentative := Confirmed(manager.State()).confirmed;
      for i := 0 to |pending|
        invariant tentative == Fold(manager.cfg.spec, Confirmed(manager.State()).confirmed, pending[..i])
      {
        assert pending[..i + 1][..i] == pending[..i];
        tentative := manager.cfg.spec.transition(tentative, pending[i]);
      }
      assert pending[..|pending|] == pending;
    }

    /** Writes everything pending as one append, taking it off the queue for as long as the write lasts. */
    method RunConfirmLoop(fate: Fate, compaction: Fate) returns (outcome: Outcome)
      requires Valid()
      modifies this, manager, manager.storage
      ensures Valid()
      ensures var p := Confirm(manager.cfg, old(State()), old(manager.Log()), fate, compaction);
        State() == p.a && manager.Log() == p.log && outcome == p.outcome
    {
      hide Confirm, JournalManager.AppendRange, Fold, MachinesOk, Has, Get;
      ConfirmCases(manager.cfg, State(), manager.Log(), fate, compaction);
      outcome := Done;
      while |pending| > 0
        invariant Valid() && outcome == Done
        invariant (State() == old(State()) && manager.Log() == old(manager.Log()))
          || (pending == []
              && var p := Confirm(manager.cfg, old(State()), old(manager.Log()), fate, compaction);
              State() == p.a && manager.Log() == p.log && p.outcome == Done)
      {
        var batch := pending;
        pending := [];
        AppendKeepsJournal(manager.cfg, manager.State(), manager.Log(), JOURNAL, Events(batch), fate, compaction);
        outcome := manager.AppendRange(JOURNAL, Events(batch), fate, compaction);
        if outcome.Done? || outcome.Conflict? {
          unconfirmedCount := unconfirmedCount - |batch|;
          RecomputeTentative();
        } else {
          pending := batch + pending;
        }
        if !outcome.Done? {
          return;
        }
      }
    }

    /** Re-reads the log, keeping whatever is still pending. */
    method Resync()
      requires Valid()
      modifies this, manager
      ensures Valid() && State() == LogView.Resync(manager.cfg, old(State()), manager.Log())
    {
      FreshReplayKeepsJournal(manager.cfg, manager.State(), manager.Log());
      manager.Replay();
      unconfirmedCount := |pending|;
      RecomputeTentative();
    }

    method FindLast(e: Value) returns (index: int)
      ensures index == LastIndexOf(pending, e)
    {
      index := |pending| - 1;
      assert pending[..|pending|] == pending;
      while index >= 0 && pending[index] != e
        invariant -1 <= index < |pending|
        invariant LastIndexOf(pending, e) == LastIndexOf(pending[..index + 1], e)
      {
        assert pending[..index + 1][..index] == pending[..index];
        index := index - 1;
      }
      if index >= 0 {
        assert pending[..index + 1][index] == e;
      }
    }

    /** Takes the events back out of the queue and the tentative view. */
    method Withdraw(events: seq<Value>)
      requires Valid()
      modifies this
      ensures Valid() && State() == LogView.Withdraw(manager.cfg.spec, old(State()), events)
    {
      for i := 0 to |events|
        invariant Removed(pending, events[i..]) == Removed(old(pending), events)
        invariant |pending| <= |old(pending)|
        invariant unconfirmedCount == old(unconfirmedCount) - (|old(pending)| - |pending|)
        invariant tentative == old(tentative)
      {
        assert events[i..][1..] == events[i + 1..];
        var index := FindLast(events[i]);
        if index < 0 {
          continue;
        }
        pending := pending[..index] + pending[index + 1..];
        unconfirmedCount := unconfirmedCount - 1;
      }
      RecomputeTentative();
    }

    /** After a failed write: re-reads the log, which decides whether the write landed after all. */
    method SettleFailed(events: seq<Value>, landsAt: int, read: bool, last: bool) returns (answer: Option<Answer>)
      requires Valid()
      modifies this, manager
      ensures Valid() && manager.Log() == old(manager.Log())
      ensures Settled(manager.cfg, old(State()), manager.Log(), events, landsAt, read, last, State(), answer)
    {
      FreshReplayKeepsJournal(manager.cfg, manager.State(), manager.Log());
      hide LogView.Withdraw, LogView.Resync;
      if !read {
        Withdraw(events);
        return Some(Threw);
      }
      Resync();
      if Confirmed(manager.State()).version >= landsAt {
        Withdraw(events);
        return Some(Landed);
      }
      if last {
        Withdraw(events);
        return Some(NotLanded);
      }
      return None;
    }

    /** The confirm passes of one append, until its outcome is known. */
    method ConfirmUntilKnown(events: seq<Value>, landsAt: int, fates: nat -> AttemptFates) returns (answer: Answer)
      requires Valid()
      modifies this, manager, manager.storage
      ensures Valid()
      ensures Ended(Attempt(manager.cfg, old(State()), old(manager.Log()), events, landsAt, fates, 1), State(), manager.Log(), answer)
    {
      hide Confirm, Settled, Attempt;
      ghost var first := Attempt(manager.cfg, State(), manager.Log(), events, landsAt, fates, 1);
      var attempt := 1;
      while true
        invariant Valid() && attempt <= MAX_APPEND_ATTEMPTS
        invariant SameEnd(Attempt(manager.cfg, State(), manager.Log(), events, landsAt, fates, attempt), first)
        decreases MAX_APPEND_ATTEMPTS - attempt
      {
        ghost var a, log := State(), manager.Log();
        var outcome := RunConfirmLoop(fates(attempt).write, fates(attempt).compaction);
        ConfirmKeepsJournal(manager.cfg, a, log, fates(attempt).write, fates(attempt).compaction);
        AttemptEnds(manager.cfg, a, log, events, landsAt, fates, attempt);
        if outcome.Done? {
          return Landed;
        }
        if outcome.Conflict? {
          return NotLanded;
        }
        var known := SettleFailed(events, landsAt, fates(attempt).read, attempt >= MAX_APPEND_ATTEMPTS);
        AttemptSettles(manager.cfg, a, log, events, landsAt, fates, attempt, State(), known);
        if known.Some? {
          return known.value;
        }
        attempt := attempt + 1;
      }
    }

    /**
     * Appends a range and tells the caller whether it landed. `fates` says what becomes of each
     * attempt's storage calls.
     */
    method TryAppendRange(events: seq<Value>, fates: nat -> AttemptFates) returns (answer: Answer)
      requires Valid()
      modifies this, manager, manager.storage
      ensures Valid()
      ensures Ended(LogView.TryAppendRange(manager.cfg, old(State()), old(manager.Log()), events, fates), State(), manager.Log(), answer)
    {
      hide Attempt, LogView.TryAppendRange, LogView.SubmitRange, MachinesOk, Has, Get, Fold;
      if |events| == 0 {
        NothingToAppend(manager.cfg, State(), manager.Log(), fates);
        return Landed;
      }
      TryAppendSubmits(manager.cfg, State(), manager.Log(), events, fates);
      SubmitRange(events);
      var landsAt := Confirmed(manager.State()).version + |pending|;
      answer := ConfirmUntilKnown(events, landsAt, fates);
    }

    method RetrieveLogSegment(from: int, to: int) returns (r: Option<seq<Value>>)
      requires Valid()
      ensures r == LogView.RetrieveLogSegment(manager.State(), from, to)
    {
      var s := Confirmed(manager.State());
      var base := s.version - |s.confirmedEvents|;
      if from < base || to < from || to > s.version {
        return None;
      }
      return Some(s.confirmedEvents[from - base..to - base]);
    }

    /** Clears the log: the manager resets every structure, and this view with them. */
    method ClearLog()
      requires Valid()
      modifies this, manager, manager.storage
      ensures Valid() && manager.Log() == NoLog
      ensures State() == LogView.Resync(manager.cfg, old(State()).(pending := []), NoLog)
    {
      FreshReplayKeepsJournal(manager.cfg, manager.State(), NoLog);
      manager.Clear();
      pending := [];
      unconfirmedCount := 0;
      tentative := Confirmed(manager.State()).confirmed;
    }
  }

  ghost predicate Ended(r: Attempted, a: Adaptor, log: Log, answer: Answer) {
    r.a == a && r.log == log && r.answer == answer
  }

  ghost predicate SameEnd(r: Attempted, s: Attempted) {
    Ended(s, r.a, r.log, r.answer)
  }

  /** What is known after a failed attempt, and what the view is then. */
  ghost predicate Settled(cfg: Config, a: Adaptor, log: Log, events: seq<Value>, landsAt: int, read: bool, last: bool, a': Adaptor, answer: Option<Answer>)
    requires HasJournal(a.mgr)
  {
    FreshReplayKeepsJournal(cfg, a.mgr, log);
    var b := LogView.Resync(cfg, a, log);
    if !read then a' == LogView.Withdraw(cfg.spec, a, events) && answer == Some(Threw)
    else if Confirmed(b.mgr).version >= landsAt then a' == LogView.Withdraw(cfg.spec, b, events) && answer == Some(Landed)
    else if last then a' == LogView.Withdraw(cfg.spec, b, events) && answer == Some(NotLanded)
    else a' == b && answer == None
  }

  /** What a confirm pass does, by how its append ends. */
  lemma ConfirmCases(cfg: Config, a: Adaptor, log: Log, fate: Fate, compaction: Fate)
    requires HasJournal(a.mgr)
    ensures var r := JournalManager.AppendRange(cfg, a.mgr, log, JOURNAL, Events(a.pending), fate, compaction);
      var p := Confirm(cfg, a, log, fate, compaction);
      && HasJournal(r.mgr)
      && (a.pending == [] ==> p == Pass(a, log, Done, []))
      && (a.pending != [] ==>
            && p.log == r.log
            && p.outcome == r.outcome
            && p.a == if r.outcome.Done? || r.outcome.Conflict?
                      then Recompute(cfg.spec, Adaptor(r.mgr, [], a.unconfirmed - |a.pending|, a.tentative))
                      else a.(mgr := r.mgr))
  {
    AppendKeepsJournal(cfg, a.mgr, log, JOURNAL, Events(a.pending), fate, compaction);
  }

  lemma NothingToAppend(cfg: Config, a: Adaptor, log: Log, fates: nat -> AttemptFates)
    requires HasJournal(a.mgr)
    ensures Ended(LogView.TryAppendRange(cfg, a, log, [], fates), a, log, Landed)
  {
  }

  lemma TryAppendSubmits(cfg: Config, a: Adaptor, log: Log, events: seq<Value>, fates: nat -> AttemptFates)
    requires HasJournal(a.mgr) && events != []
    ensures var b := LogView.SubmitRange(cfg.spec, a, events);
      && b.mgr == a.mgr
      && LogView.TryAppendRange(cfg, a, log, events, fates)
           == Attempt(cfg, b, log, events, Confirmed(b.mgr).version + |b.pending|, fates, 1)
  {
    SubmitRangeAdds(cfg.spec, a, events);
    hide Attempt, LogView.SubmitRange;
  }

  lemma AttemptEnds(cfg: Config, a: Adaptor, log: Log, events: seq<Value>, landsAt: int, fates: nat -> AttemptFates, attempt: nat)
    requires HasJournal(a.mgr)
    ensures var f := fates(attempt);
      var pass := Confirm(cfg, a, log, f.write, f.compaction);
      var r := Attempt(cfg, a, log, events, landsAt, fates, attempt);
      && (pass.outcome.Done? ==> Ended(r, pass.a, pass.log, Landed))
      && (pass.outcome.Conflict? ==> Ended(r, pass.a, pass.log, NotLanded))
  {
    hide Confirm, LogView.Withdraw, LogView.Resync;
  }

  lemma AttemptSettles(cfg: Config, a: Adaptor, log: Log, events: seq<Value>, landsAt: int, fates: nat -> AttemptFates, attempt: nat, a': Adaptor, answer: Option<Answer>)
    requires HasJournal(a.mgr)
    requires var pass := Confirm(cfg, a, log, fates(attempt).write, fates(attempt).compaction);
      && !pass.outcome.Done? && !pass.outcome.Conflict? && HasJournal(pass.a.mgr)
      && Settled(cfg, pass.a, pass.log, events, landsAt, fates(attempt).read, attempt >= MAX_APPEND_ATTEMPTS, a', answer)
    ensures var pass := Confirm(cfg, a, log, fates(attempt).write, fates(attempt).compaction);
      var r := Attempt(cfg, a, log, events, landsAt, fates, attempt);
      && (answer.Some? ==> Ended(r, a', pass.log, answer.value))
      && (answer.None? ==>
            && HasJournal(a'.mgr)
            && attempt < MAX_APPEND_ATTEMPTS
            && SameEnd(Attempt(cfg, a', pass.log, events, landsAt, fates, attempt + 1), r))
  {
    var pass := Confirm(cfg, a, log, fates(attempt).write, fates(attempt).compaction);
    FreshReplayKeepsJournal(cfg, pass.a.mgr, pass.log);
    hide Confirm, LogView.Withdraw;
  }
}
