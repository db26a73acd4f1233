/** How many attempts an append of the journaled log view makes, and what the last of them decides. */
module LogViewAttempts {
  import opened Wrappers
  import opened DurableMachines
  import opened JournalManager
  import opened LogView
  import opened LogViewHistory

  lemma AnsweredAttempt(cfg: Config, b: Adaptor, log: Log, history: seq<Value>, events: seq<Value>, landsAt: int, fates: nat -> AttemptFates, attempt: nat)
    requires NodeHolds(cfg, b, [], log, history) && b.pending != [] && b.mgr.version == log.Version()
    requires fates(attempt).write == Answered
    ensures HasJournal(b.mgr)
    ensures var r := Attempt(cfg, b, log, events, landsAt, fates, attempt);
      r.answer == Landed && r.stored == b.pending && r.a.pending == [] && LogHolds(cfg.spec, r.log, history + b.pending)
  {
    hide MgrHolds, LogHolds, Confirm, Resync, Removed;
    ConfirmHolds(cfg, b, log, history, Answered, fates(attempt).compaction, Confirm(cfg, b, log, Answered, fates(attempt).compaction));
  }

  /** Every attempt before `k` is lost on its way, with the log readable, and the `k`-th is answered. */
  ghost predicate AnsweredOnly(fates: nat -> AttemptFates, from: nat, k: nat) {
    && (forall j | from <= j < k :: fates(j).write == LostRequest && fates(j).read)
    && fates(k).write == Answered
  }

  lemma {:induction false} LandsFrom(cfg: Config, b: Adaptor, log: Log, history: seq<Value>, before: seq<Value>, events: seq<Value>, landsAt: int,
    fates: nat -> AttemptFates, attempt: nat, k: nat)
    requires NodeHolds(cfg, b, [], log, history) && b.pending == before + events && events != [] && |history| < landsAt
    requires attempt <= k <= 5 && AnsweredOnly(fates, attempt, k) && (attempt == k ==> b.mgr.version == log.Version())
    ensures HasJournal(b.mgr)
    ensures var r := Attempt(cfg, b, log, events, landsAt, fates, attempt);
      r.answer == Landed && r.stored == before + events && r.a.pending == [] && LogHolds(cfg.spec, r.log, history + (before + events))
    decreases k - attempt
  {
    hide NodeHolds, LogHolds, Attempt, Resync;
    if attempt == k {
      AnsweredAttempt(cfg, b, log, history, events, landsAt, fates, attempt);
    } else {
      LostAttempt(cfg, b, log, history, before, events, landsAt, fates, attempt);
      LandsFrom(cfg, Resync(cfg, b, log), log, history, before, events, landsAt, fates, attempt + 1, k);
    }
  }

  /**
   * An append whose requests are lost lands with the first attempt that is answered, if that is one
   * of the first five: its range is stored after what was pending, and the answer is `true`.
   */
  lemma LandsWithinFive(cfg: Config, a: Adaptor, log: Log, history: seq<Value>, events: seq<Value>, fates: nat -> AttemptFates, k: nat)
    requires NodeHolds(cfg, a, [], log, history) && events != [] && |history| < LandsAt(a, events)
    requires 1 <= k <= 5 && AnsweredOnly(fates, 1, k) && (k == 1 ==> a.mgr.version == log.Version())
    ensures var r := TryAppendRange(cfg, a, log, events, fates);
      && r.answer == Landed && r.stored == a.pending + events && r.a.pending == []
      && LogHolds(cfg.spec, r.log, history + (a.pending + events))
  {
    hide MgrHolds, LogHolds, Attempt;
    var b := SubmitRange(cfg.spec, a, events);
    SubmittedHolds(cfg, a, log, history, events, b);
    LandsFrom(cfg, b, log, history, a.pending, events, LandsAt(a, events), fates, 1, k);
  }

  lemma {:induction false} LostFrom(cfg: Config, b: Adaptor, log: Log, history: seq<Value>, before: seq<Value>, events: seq<Value>, landsAt: int,
    fates: nat -> AttemptFates, attempt: nat)
    requires NodeHolds(cfg, b, [], log, history) && b.pending == before + events && events != [] && |history| < landsAt
    requires 1 <= attempt <= 5 && forall j | attempt <= j <= 5 :: fates(j).write == LostRequest && fates(j).read
    ensures HasJournal(b.mgr)
    ensures var r := Attempt(cfg, b, log, events, landsAt, fates, attempt);
      r.answer == NotLanded && r.stored == [] && r.log == log && r.a.pending == before
    decreases 5 - attempt
  {
    hide NodeHolds, Attempt, Resync;
    LostAttempt(cfg, b, log, history, before, events, landsAt, fates, attempt);
    if attempt < 5 {
      LostFrom(cfg, Resync(cfg, b, log), log, history, before, events, landsAt, fates, attempt + 1);
    }
  }

  /** After five attempts that are lost the answer is `false`, nothing is stored, and the range is not pending. */
  lemma GivesUpAfterFive(cfg: Config, a: Adaptor, log: Log, history: seq<Value>, events: seq<Value>, fates: nat -> AttemptFates)
    requires NodeHolds(cfg, a, [], log, history) && events != [] && |history| < LandsAt(a, events)
    requires forall j | 1 <= j <= 5 :: fates(j).write == LostRequest && fates(j).read
    ensures var r := TryAppendRange(cfg, a, log, events, fates);
      r.answer == NotLanded && r.stored == [] && r.log == log && r.a.pending == a.pending
  {
    hide MgrHolds, LogHolds, Attempt;
    var b := SubmitRange(cfg.spec, a, events);
    SubmittedHolds(cfg, a, log, history, events, b);
    LostFrom(cfg, b, log, history, a.pending, events, LandsAt(a, events), fates, 1);
  }

  /** A conflict is answered `false` at once, and takes the whole queue with it. */
  lemma ConflictDrops(cfg: Config, a: Adaptor, log: Log, history: seq<Value>, events: seq<Value>, fates: nat -> AttemptFates)
    requires NodeHolds(cfg, a, [], log, history) && events != []
    requires a.mgr.version != log.Version() && fates(1).write != LostRequest
    ensures var r := TryAppendRange(cfg, a, log, events, fates);
      r.answer == NotLanded && r.stored == [] && r.log == log && r.a.pending == []
  {
    hide MgrHolds, LogHolds, Confirm, Resync, Removed, Withdraw;
    var b := SubmitRange(cfg.spec, a, events);
    SubmittedHolds(cfg, a, log, history, events, b);
    var f := fates(1);
    var pass := Confirm(cfg, b, log, f.write, f.compaction);
    ConfirmHolds(cfg, b, log, history, f.write, f.compaction, pass);
    ConflictPass(cfg, b, log, f.write, f.compaction);
  }

  lemma ConflictPass(cfg: Config, b: Adaptor, log: Log, fate: Fate, compaction: Fate)
    requires HasJournal(b.mgr) && b.pending != [] && b.mgr.version != log.Version() && fate != LostRequest
    ensures Confirm(cfg, b, log, fate, compaction).outcome == Conflict
  {
    AppendOutcome(cfg, b.mgr, log, JOURNAL, Events(b.pending), fate, compaction);
  }
}
