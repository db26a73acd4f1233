/** When an append compacts, what the log is then, and that operations do not pile up in it. */
module JournalCompaction {
  import opened Wrappers
  import opened OrderedMap
  import opened DurableMachines
  import opened JournalManager
  import JournalFencing

  /** The version of the `k`-th write to come. */
  function VersionAfter(log: Log, k: nat): nat {
    (if log.NoLog? then 0 else log.version) + k
  }

  lemma {:induction false} PutKnownLength(m: Machines, n: Name, s: State)
    requires Has(m, n)
    ensures |Put(m, n, s)| == |m|
  {
    if m[0].0 != n {
      PutKnownLength(m[1..], n, s);
    }
  }

  /**
   * An append that is answered. If the records of the log now reach both the threshold and one more
   * than the structures, the log is compacted, to one snapshot of each structure and the vessels that
   * have grace left, two versions on; otherwise it is the old log and the new operations, one version on.
   */
  lemma AppendCompactsWhenDue(cfg: Config, mgr: Manager, log: Log, n: Name, ps: seq<Payload>)
    requires Has(mgr.machines, n) && ps != [] && mgr.version == log.Version()
    ensures var r := AppendRange(cfg, mgr, log, n, ps, Answered, Answered);
      var machines := Put(mgr.machines, n, Run(cfg.spec, Get(mgr.machines, n), ps));
      var live := mgr.live + |ps|;
      && r.outcome == Done && r.mgr.machines == machines && r.log.Log? && r.mgr.version == Some(r.log.version)
      && (if live >= cfg.snapshotThreshold && live > |mgr.machines| then
            && r.log.entries == SnapFrames(machines) + VesselFrames(NextRetiring(mgr.retiring, cfg.grace))
            && r.log.version == VersionAfter(log, 2)
            && r.mgr.retiring == NextRetiring(mgr.retiring, cfg.grace) && r.mgr.live == |r.log.entries|
          else
            && r.log.entries == log.Entries() + OpFrames(n, ps)
            && r.log.version == VersionAfter(log, 1)
            && r.mgr.retiring == mgr.retiring && r.mgr.live == live)
  {
    PutKnownLength(mgr.machines, n, Run(cfg.spec, Get(mgr.machines, n), ps));
    hide Put, Run;
  }

  /** A compaction whose request is lost leaves the append as it is; one whose answer is lost, a manager that is behind. */
  lemma LostCompaction(cfg: Config, mgr: Manager, log: Log, n: Name, ps: seq<Payload>, fate: Fate)
    requires Has(mgr.machines, n) && ps != [] && mgr.version == log.Version() && fate != Answered
    ensures var r := AppendRange(cfg, mgr, log, n, ps, Answered, fate); var live := mgr.live + |ps|;
      && r.outcome == Done && r.mgr.machines == Put(mgr.machines, n, Run(cfg.spec, Get(mgr.machines, n), ps))
      && r.mgr.version == Some(VersionAfter(log, 1)) && r.mgr.live == live && r.mgr.retiring == mgr.retiring
      && (if fate == LostAnswer && live >= cfg.snapshotThreshold && live > |mgr.machines| then
            r.log == Log(SnapFrames(r.mgr.machines) + VesselFrames(NextRetiring(mgr.retiring, cfg.grace)), VersionAfter(log, 2))
          else r.log == Log(log.Entries() + OpFrames(n, ps), VersionAfter(log, 1)))
  {
    PutKnownLength(mgr.machines, n, Run(cfg.spec, Get(mgr.machines, n), ps));
    hide Put, Run;
  }

  // ----- The operations in the log -----

  /** How many records of single operations a log holds. */
  function OpCount(entries: seq<Frame>): nat {
    if entries == [] then 0 else OpCount(entries[1..]) + if entries[0].OpFrame? then 1 else 0
  }

  lemma {:induction false} NoOps(entries: seq<Frame>)
    ensures OpCount(entries) <= |entries|
    ensures (forall i | 0 <= i < |entries| :: !entries[i].OpFrame?) ==> OpCount(entries) == 0
  {
    if entries != [] {
      NoOps(entries[1..]);
    }
  }

  /** Appends that are answered, one after the other, each with the compaction it makes due. */
  function Appends(cfg: Config, mgr: Manager, log: Log, appends: seq<(Name, seq<Payload>)>): (Manager, Log) {
    if appends == [] then (mgr, log)
    else
      var (m, l) := Appends(cfg, mgr, log, appends[..|appends| - 1]);
      var (n, ps) := appends[|appends| - 1];
      var r := AppendRange(cfg, m, l, n, ps, Answered, Answered);
      (r.mgr, r.log)
  }

  ghost predicate SameNames(a: Machines, b: Machines) {
    |a| == |b| && forall n :: Has(a, n) <==> Has(b, n)
  }

  ghost predicate AppendsTo(mgr: Manager, appends: seq<(Name, seq<Payload>)>) {
    forall i | 0 <= i < |appends| :: Has(mgr.machines, appends[i].0) && appends[i].1 != []
  }

  /** The manager is in step with its log, which a replay can read. */
  ghost predicate Sound(cfg: Config, mgr: Manager, log: Log) {
    && JournalFencing.IncarnationInv(JournalFencing.Incarnation(cfg, mgr), log)
    && VesselsFirst(log.Entries())
    && mgr.version == log.Version()
  }

  lemma OneAppend(cfg: Config, mgr: Manager, log: Log, n: Name, ps: seq<Payload>)
    requires Sound(cfg, mgr, log) && Has(mgr.machines, n) && ps != []
    ensures var r := AppendRange(cfg, mgr, log, n, ps, Answered, Answered);
      && Sound(cfg, r.mgr, r.log) && SameNames(mgr.machines, r.mgr.machines)
      && (OpCount(r.log.Entries()) < cfg.snapshotThreshold || OpCount(r.log.Entries()) <= |mgr.machines|)
  {
    JournalFencing.AppendIsGood(JournalFencing.Incarnation(cfg, mgr), log, n, ps, Answered, Answered);
    AppendCompactsWhenDue(cfg, mgr, log, n, ps);
    assert mgr.live == |log.Entries()|;
    hide AppendRange, SnapFrames, VesselFrames, OpFrames, Run;
    var r := AppendRange(cfg, mgr, log, n, ps, Answered, Answered);
    var s := Run(cfg.spec, Get(mgr.machines, n), ps);
    PutKnownLength(mgr.machines, n, s);
    forall x ensures Has(mgr.machines, x) <==> Has(r.mgr.machines, x) { PutHas(mgr.machines, n, s, x); }
    NoOps(r.log.entries);
    CompactedHasNoOps(r.mgr.machines, r.mgr.retiring);
  }

  lemma CompactedHasNoOps(machines: Machines, retiring: Retiring)
    ensures OpCount(SnapFrames(machines) + VesselFrames(retiring)) == 0
  {
    NoOps(SnapFrames(machines) + VesselFrames(retiring));
  }

  /**
   * Operations do not pile up: after any run of appends that are answered, the log holds fewer
   * operations than the threshold, or no more than there are structures.
   */
  lemma {:induction false} OpsStayBounded(cfg: Config, mgr: Manager, log: Log, appends: seq<(Name, seq<Payload>)>)
    requires Sound(cfg, mgr, log) && AppendsTo(mgr, appends)
    ensures var (m, l) := Appends(cfg, mgr, log, appends);
      && Sound(cfg, m, l) && SameNames(mgr.machines, m.machines)
      && (appends != [] ==> OpCount(l.Entries()) < cfg.snapshotThreshold || OpCount(l.Entries()) <= |mgr.machines|)
    decreases |appends|
  {
    hide Sound, AppendRange;
    if appends != [] {
      var init, last := appends[..|appends| - 1], appends[|appends| - 1];
      OpsStayBounded(cfg, mgr, log, init);
      var (m, l) := Appends(cfg, mgr, log, init);
      OneAppend(cfg, m, l, last.0, last.1);
    }
  }
}
