/**
 * The log view of a journaled grain that keeps its events in the grain's journal: a confirmed view
 * folded from the log, a tentative view that adds the events still pending, group commit, and an
 * append whose caller is told whether it landed.
 */
module LogView {
  import opened Wrappers
  import opened OrderedMap
  import opened DurableMachines
  import opened JournalManager

  const JOURNAL: Name := "journal"
  const MAX_APPEND_ATTEMPTS := 5

  function Fold(spec: LogSpec, view: Value, events: seq<Value>): Value {
    if events == [] then view
    else spec.transition(Fold(spec, view, events[..|events| - 1]), events[|events| - 1])
  }

  lemma {:induction false} FoldConcat(spec: LogSpec, view: Value, a: seq<Value>, b: seq<Value>)
    ensures Fold(spec, view, a + b) == Fold(spec, Fold(spec, view, a), b)
    decreases |b|
  {
    if b == [] {
      assert a + b == a;
    } else {
      FoldConcat(spec, view, a, b[..|b| - 1]);
      assert (a + b)[..|a + b| - 1] == a + b[..|b| - 1];
    }
  }

  /** The adaptor: the manager whose machine `journal` is the confirmed view, and what is not confirmed yet. */
  datatype Adaptor = Adaptor(mgr: Manager, pending: seq<Value>, unconfirmed: int, tentative: Value)

  predicate HasJournal(mgr: Manager) {
    Has(mgr.machines, JOURNAL) && Get(mgr.machines, JOURNAL).LogState?
  }

  function Confirmed(mgr: Manager): (s: State)
    requires HasJournal(mgr)
    ensures s.LogState?
  {
    Get(mgr.machines, JOURNAL)
  }

  function Events(events: seq<Value>): (ps: seq<Payload>)
    ensures |ps| == |events|
  {
    seq(|events|, i requires 0 <= i < |events| => LogEvent(events[i]))
  }

  function Submit(spec: LogSpec, a: Adaptor, e: Value): Adaptor {
    a.(pending := a.pending + [e], unconfirmed := a.unconfirmed + 1, tentative := spec.transition(a.tentative, e))
  }

  function SubmitRange(spec: LogSpec, a: Adaptor, events: seq<Value>): Adaptor {
    if events == [] then a else Submit(spec, SubmitRange(spec, a, events[..|events| - 1]), events[|events| - 1])
  }

  lemma {:induction false} SubmitRangeAdds(spec: LogSpec, a: Adaptor, events: seq<Value>)
    ensures SubmitRange(spec, a, events) ==
      Adaptor(a.mgr, a.pending + events, a.unconfirmed + |events|, Fold(spec, a.tentative, events))
  {
    if events == [] {
      assert a.pending + events == a.pending;
    } else {
      SubmitRangeAdds(spec, a, events[..|events| - 1]);
      assert a.pending + events == (a.pending + events[..|events| - 1]) + [events[|events| - 1]];
    }
  }

  function Recompute(spec: LogSpec, a: Adaptor): Adaptor
    requires HasJournal(a.mgr)
  {
    a.(tentative := Fold(spec, Confirmed(a.mgr).confirmed, a.pending))
  }

  predicate Lands(mgr: Manager, log: Log, fate: Fate) {
    fate != LostRequest && mgr.version == log.Version()
  }

  /** What one confirm pass does: everything pending goes out as one append; `stored` is what of it landed. */
  datatype Pass = Pass(a: Adaptor, log: Log, outcome: Outcome, stored: seq<Value>)

  function Confirm(cfg: Config, a: Adaptor, log: Log, fate: Fate, compaction: Fate): Pass
    requires HasJournal(a.mgr)
  {
    if a.pending == [] then Pass(a, log, Done, [])
    else
      var r := AppendRange(cfg, a.mgr, log, JOURNAL, Events(a.pending), fate, compaction);
      var stored := if Lands(a.mgr, log, fate) then a.pending else [];
      match r.outcome
      case Done =>
        AppendKeepsJournal(cfg, a.mgr, log, JOURNAL, Events(a.pending), fate, compaction);
        Pass(Recompute(cfg.spec, Adaptor(r.mgr, [], a.unconfirmed - |a.pending|, a.tentative)), r.log, Done, stored)
      case Conflict => Pass(Recompute(cfg.spec, Adaptor(a.mgr, [], a.unconfirmed - |a.pending|, a.tentative)), r.log, Conflict, stored)
      case other => Pass(a, r.log, other, stored)
  }

  lemma AppendKeepsJournal(cfg: Config, mgr: Manager, log: Log, n: Name, ps: seq<Payload>, fate: Fate, compaction: Fate)
    requires HasJournal(mgr)
    ensures HasJournal(AppendRange(cfg, mgr, log, n, ps, fate, compaction).mgr)
  {
    if Has(mgr.machines, n) {
      var s := Get(mgr.machines, n);
      PutHas(mgr.machines, n, Run(cfg.spec, s, ps), JOURNAL);
      if n == JOURNAL {
        RunKeepsOk(cfg.spec, s, ps);
      }
    }
  }

  // ----- Re-reading and withdrawing -----

  lemma FreshReplayKeepsJournal(cfg: Config, mgr: Manager, log: Log)
    requires HasJournal(mgr)
    ensures HasJournal(FreshReplay(cfg, RegistrationsOf(mgr.machines), log))
  {
    var regs := RegistrationsOf(mgr.machines);
    var replayed := FreshReplay(cfg, regs, log);
    FirstIndex(mgr.machines, JOURNAL);
    var i :| 0 <= i < |mgr.machines| && mgr.machines[i] == (JOURNAL, Get(mgr.machines, JOURNAL))
      && forall j | 0 <= j < i :: mgr.machines[j].0 != JOURNAL;
    assert regs[i] == (JOURNAL, LogKind);
    ResetOk(cfg.spec, log.Entries(), JOURNAL, LogKind);
    GetFirst(replayed.machines, i);
  }

  lemma {:induction false} FirstIndex<V>(m: Entries<Name, V>, n: Name)
    requires Has(m, n)
    ensures exists i :: 0 <= i < |m| && m[i] == (n, Get(m, n)) && forall j | 0 <= j < i :: m[j].0 != n
  {
    if m[0].0 == n {
      assert m[0] == (n, Get(m, n));
    } else {
      FirstIndex(m[1..], n);
      var i :| 0 <= i < |m[1..]| && m[1..][i] == (n, Get(m, n)) && forall j | 0 <= j < i :: m[1..][j].0 != n;
      assert m[i + 1] == (n, Get(m, n));
      forall j | 0 <= j < i + 1 ensures m[j].0 != n {
        assert j > 0 ==> m[j] == m[1..][j - 1];
      }
    }
  }

  lemma {:induction false} GetFirst<V>(m: Entries<Name, V>, i: nat)
    requires i < |m| && forall j | 0 <= j < i :: m[j].0 != m[i].0
    ensures Has(m, m[i].0) && Get(m, m[i].0) == m[i].1
  {
    if i > 0 {
      assert m[0].0 != m[i].0;
      assert forall j | 0 <= j < i - 1 :: m[1..][j] == m[j + 1];
      assert m[1..][i - 1] == m[i];
      GetFirst(m[1..], i - 1);
    }
  }

  function Resync(cfg: Config, a: Adaptor, log: Log): Adaptor
    requires HasJournal(a.mgr)
  {
    FreshReplayKeepsJournal(cfg, a.mgr, log);
    Recompute(cfg.spec, Adaptor(FreshReplay(cfg, RegistrationsOf(a.mgr.machines), log), a.pending, |a.pending|, a.tentative))
  }

  function LastIndexOf(s: seq<Value>, e: Value): (i: int)
    ensures -1 <= i < |s|
    ensures i >= 0 ==> s[i] == e
    ensures forall j | i < j < |s| :: s[j] != e
  {
    if s == [] then -1 else if s[|s| - 1] == e then |s| - 1 else LastIndexOf(s[..|s| - 1], e)
  }

  function RemoveLast(s: seq<Value>, e: Value): seq<Value> {
    var i := LastIndexOf(s, e);
    if i < 0 then s else s[..i] + s[i + 1..]
  }

  function Removed(s: seq<Value>, events: seq<Value>): seq<Value>
    decreases events
  {
    if events == [] then s else Removed(RemoveLast(s, events[0]), events[1..])
  }

  function Withdraw(spec: LogSpec, a: Adaptor, events: seq<Value>): Adaptor
    requires HasJournal(a.mgr)
  {
    var left := Removed(a.pending, events);
    Recompute(spec, a.(pending := left, unconfirmed := a.unconfirmed - (|a.pending| - |left|)))
  }

  /** The last occurrence of something in the suffix lies in the suffix. */
  lemma {:induction false} LastIndexInSuffix(before: seq<Value>, suffix: seq<Value>, e: Value)
    requires e in suffix
    ensures LastIndexOf(suffix, e) >= 0
    ensures LastIndexOf(before + suffix, e) == |before| + LastIndexOf(suffix, e)
    decreases |suffix|
  {
    var n := |suffix| - 1;
    if suffix[n] != e {
      assert (before + suffix)[..|before + suffix| - 1] == before + suffix[..n];
      LastIndexInSuffix(before, suffix[..n], e);
    }
  }

  lemma CutOne(s: seq<Value>, i: nat)
    requires i < |s|
    ensures multiset(s[..i] + s[i + 1..]) == multiset(s) - multiset{s[i]}
  {
    assert s == s[..i] + [s[i]] + s[i + 1..];
  }

  lemma CutInSuffix(before: seq<Value>, suffix: seq<Value>, i: nat)
    requires i < |suffix|
    ensures var s, k := before + suffix, |before| + i; s[..k] + s[k + 1..] == before + (suffix[..i] + suffix[i + 1..])
  {
  }

  lemma RemoveLastCuts(s: seq<Value>, e: Value, i: nat)
    requires i < |s| && LastIndexOf(s, e) == i
    ensures s[i] == e && RemoveLast(s, e) == s[..i] + s[i + 1..]
  {
    hide LastIndexOf;
  }

  lemma RemoveLastOfSuffix(before: seq<Value>, suffix: seq<Value>, e: Value)
    requires e in suffix
    ensures RemoveLast(before + suffix, e) == before + RemoveLast(suffix, e)
    ensures multiset(RemoveLast(suffix, e)) == multiset(suffix) - multiset{e}
  {
    hide LastIndexOf, RemoveLast;
    LastIndexInSuffix(before, suffix, e);
    var i := LastIndexOf(suffix, e);
    RemoveLastCuts(suffix, e, i);
    RemoveLastCuts(before + suffix, e, |before| + i);
    CutOne(suffix, i);
    CutInSuffix(before, suffix, i);
  }

  lemma HeadInMultiset(events: seq<Value>, suffix: seq<Value>)
    requires events != [] && multiset(suffix) == multiset(events)
    ensures events[0] in suffix && multiset(events[1..]) == multiset(suffix) - multiset{events[0]}
  {
    assert events == [events[0]] + events[1..];
    assert events[0] in multiset(events);
  }

  /** Withdrawing the events submitted last leaves what was pending before them, duplicates and all. */
  lemma {:induction false} RemovedSuffix(before: seq<Value>, suffix: seq<Value>, events: seq<Value>)
    requires multiset(suffix) == multiset(events)
    ensures Removed(before + suffix, events) == before
    decreases events
  {
    if events == [] {
      assert |multiset(suffix)| == 0;
      assert before + suffix == before;
    } else {
      HeadInMultiset(events, suffix);
      RemoveLastOfSuffix(before, suffix, events[0]);
      RemovedSuffix(before, RemoveLast(suffix, events[0]), events[1..]);
    }
  }

  // ----- tryAppendRange -----

  datatype AttemptFates = AttemptFates(write: Fate, compaction: Fate, read: bool)

  /** What the caller learns: the range landed, it did not, or the log could not be read. */
  datatype Answer = Landed | NotLanded | Threw

  datatype Attempted = Attempted(a: Adaptor, log: Log, answer: Answer, stored: seq<Value>)

  /** The attempts from number `attempt` on; `landsAt` is the version the range lands at. */
  function Attempt(cfg: Config, a: Adaptor, log: Log, events: seq<Value>, landsAt: int, fates: nat -> AttemptFates, attempt: nat): Attempted
    requires HasJournal(a.mgr)
    decreases MAX_APPEND_ATTEMPTS - attempt
  {
    var f := fates(attempt);
    var pass := Confirm(cfg, a, log, f.write, f.compaction);
    ConfirmKeepsJournal(cfg, a, log, f.write, f.compaction);
    if pass.outcome == Done then Attempted(pass.a, pass.log, Landed, pass.stored)
    else if pass.outcome == Conflict then Attempted(pass.a, pass.log, NotLanded, pass.stored)
    else if !f.read then Attempted(Withdraw(cfg.spec, pass.a, events), pass.log, Threw, pass.stored)
    else
      var b := Resync(cfg, pass.a, pass.log);
      FreshReplayKeepsJournal(cfg, pass.a.mgr, pass.log);
      if Confirmed(b.mgr).version >= landsAt then Attempted(Withdraw(cfg.spec, b, events), pass.log, Landed, pass.stored)
      else if attempt >= MAX_APPEND_ATTEMPTS then Attempted(Withdraw(cfg.spec, b, events), pass.log, NotLanded, pass.stored)
      else
        var rest := Attempt(cfg, b, pass.log, events, landsAt, fates, attempt + 1);
        rest.(stored := pass.stored + rest.stored)
  }

  lemma ConfirmKeepsJournal(cfg: Config, a: Adaptor, log: Log, fate: Fate, compaction: Fate)
    requires HasJournal(a.mgr)
    ensures HasJournal(Confirm(cfg, a, log, fate, compaction).a.mgr)
  {
    AppendKeepsJournal(cfg, a.mgr, log, JOURNAL, Events(a.pending), fate, compaction);
  }

  function TryAppendRange(cfg: Config, a: Adaptor, log: Log, events: seq<Value>, fates: nat -> AttemptFates): Attempted
    requires HasJournal(a.mgr)
  {
    if events == [] then Attempted(a, log, Landed, [])
    else
      SubmitRangeAdds(cfg.spec, a, events);
      var b := SubmitRange(cfg.spec, a, events);
      Attempt(cfg, b, log, events, Confirmed(b.mgr).version + |b.pending|, fates, 1)
  }

  /** The events with global positions `[from, to)`, when this activation still holds them. */
  function RetrieveLogSegment(mgr: Manager, from: int, to: int): Option<seq<Value>>
    requires HasJournal(mgr)
  {
    var s := Confirmed(mgr);
    var base := s.version - |s.confirmedEvents|;
    if from < base || to < from || to > s.version then None
    else Some(s.confirmedEvents[from - base..to - base])
  }
}
