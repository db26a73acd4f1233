/**
 * What the two views of a custom-storage log view show: which stored events the confirmed view has
 * folded in, and which entries the tentative view adds.
 */
module CustomStorageViews {
  import opened Wrappers
  import opened CustomStorage
  import LogView

  ghost predicate InLog(log: seq<Item>, indices: seq<nat>) {
    forall k | 0 <= k < |indices| :: indices[k] < |log|
  }

  /** The stored events at these indices. */
  ghost function At(log: seq<Item>, indices: seq<nat>): (r: seq<Value>)
    requires InLog(log, indices)
    ensures |r| == |indices|
  {
    seq(|indices|, k requires 0 <= k < |indices| => EventOf(log[indices[k]]))
  }

  /** The confirmed view is the fold of the stored events it has folded in: all, or too few. */
  ghost predicate CachedInv(spec: LogSpec, v: View, log: seq<Item>) {
    && v.version <= |log|
    && InLog(log, v.folded)
    && v.cached == LogView.Fold(spec, spec.initial, At(log, v.folded))
    && |v.folded| <= v.version
    && (|v.folded| == v.version ==> v.folded == Span(0, v.version))
  }

  /** The tentative view shows what it was rebuilt from and raised since: what it ought to, or too much. */
  ghost predicate TentativeInv(spec: LogSpec, v: View, log: seq<Item>, pending: seq<Entry>) {
    && InLog(log, v.under)
    && v.tentative == LogView.Fold(spec, spec.initial, At(log, v.under) + Events(v.shown))
    && |v.folded| + |pending| <= |v.under| + |v.shown|
    && (|v.folded| + |pending| == |v.under| + |v.shown| ==> v.under == v.folded && v.shown == pending)
  }

  ghost predicate ViewInv(spec: LogSpec, v: View, log: seq<Item>, pending: seq<Entry>) {
    CachedInv(spec, v, log) && TentativeInv(spec, v, log, pending)
  }

  // ----- Storage -----

  lemma StillAt(log: seq<Item>, more: seq<Item>, indices: seq<nat>)
    requires InLog(log, indices)
    ensures InLog(log + more, indices) && At(log + more, indices) == At(log, indices)
  {
  }

  lemma AtConcat(log: seq<Item>, a: seq<nat>, b: seq<nat>)
    requires InLog(log, a) && InLog(log, b)
    ensures InLog(log, a + b) && At(log, a + b) == At(log, a) + At(log, b)
  {
  }

  lemma AtSpan(log: seq<Item>, first: nat, n: nat)
    requires first + n <= |log|
    ensures InLog(log, Span(first, n)) && At(log, Span(first, n)) == LogEvents(log[first..first + n])
  {
  }

  lemma AtBatch(log: seq<Item>, version: nat, batch: seq<Entry>, n: nat)
    requires version + |batch| <= |log| && log[version..version + |batch|] == Owned(batch) && n <= |batch|
    ensures InLog(log, Span(version, n)) && At(log, Span(version, n)) == Events(batch[..n])
  {
    AtSpan(log, version, n);
    forall i | 0 <= i < n ensures At(log, Span(version, n))[i] == Events(batch[..n])[i] {
      assert log[version..version + |batch|][i] == Owned(batch)[i];
    }
  }

  lemma SpanOn(m: nat, n: nat)
    ensures Span(0, m) + Span(m, n) == Span(0, m + n)
  {
  }

  lemma GrownLogKeepsView(spec: LogSpec, v: View, log: seq<Item>, more: seq<Item>, pending: seq<Entry>)
    requires ViewInv(spec, v, log, pending)
    ensures ViewInv(spec, v, log + more, pending)
  {
    StillAt(log, more, v.folded);
    StillAt(log, more, v.under);
  }

  // ----- The views change -----

  lemma RecomputeShows(spec: LogSpec, v: View, log: seq<Item>, pending: seq<Entry>)
    requires CachedInv(spec, v, log)
    ensures ViewInv(spec, Recompute(spec, v, pending), log, pending)
  {
    LogView.FoldConcat(spec, spec.initial, At(log, v.folded), Events(pending));
  }

  lemma EventsSnoc(es: seq<Entry>, e: Entry)
    ensures Events(es + [e]) == Events(es) + [e.event]
  {
  }

  lemma FoldSnoc(spec: LogSpec, view: Value, events: seq<Value>, e: Value)
    ensures LogView.Fold(spec, view, events + [e]) == spec.transition(LogView.Fold(spec, view, events), e)
  {
    assert (events + [e])[..|events|] == events;
  }

  lemma PushKeepsView(spec: LogSpec, v: View, log: seq<Item>, pending: seq<Entry>, e: Entry)
    requires ViewInv(spec, v, log, pending)
    ensures ViewInv(spec, v.(tentative := spec.transition(v.tentative, e.event), shown := v.shown + [e]), log, pending + [e])
  {
    EventsSnoc(v.shown, e);
    var events := At(log, v.under) + Events(v.shown);
    FoldSnoc(spec, spec.initial, events, e.event);
    assert events + [e.event] == At(log, v.under) + Events(v.shown + [e]);
  }

  lemma FewerPendingKeepsView(spec: LogSpec, v: View, log: seq<Item>, pending: seq<Entry>, rest: seq<Entry>)
    requires ViewInv(spec, v, log, pending) && |rest| < |pending|
    ensures ViewInv(spec, v, log, rest)
    ensures |v.folded| + |rest| < |v.under| + |v.shown|
  {
  }

  lemma ReadKeepsCached(spec: LogSpec, v: View, log: seq<Item>, version: nat)
    requires version <= |log|
    ensures CachedInv(spec, ReadAt(spec, v, log, version), log)
  {
    AtSpan(log, 0, version);
  }

  lemma FoldsOn(spec: LogSpec, v: View, log: seq<Item>, batch: seq<Entry>, n: nat, v': View)
    requires CachedInv(spec, v, log) && n <= |batch|
    requires v.version + |batch| <= |log| && log[v.version..v.version + |batch|] == Owned(batch)
    requires v'.folded == v.folded + Span(v.version, n) && v'.cached == LogView.Fold(spec, v.cached, Events(batch[..n]))
    ensures InLog(log, v'.folded) && v'.cached == LogView.Fold(spec, spec.initial, At(log, v'.folded))
    ensures |v.folded| == v.version ==> v'.folded == Span(0, v.version + n)
  {
    AtBatch(log, v.version, batch, n);
    AtConcat(log, v.folded, Span(v.version, n));
    LogView.FoldConcat(spec, spec.initial, At(log, v.folded), Events(batch[..n]));
    SpanOn(v.version, n);
  }

  /** A fold that throws leaves the confirmed view short of an event, and the tentative one as it was. */
  lemma FoldedBatch(spec: LogSpec, v: View, log: seq<Item>, batch: seq<Entry>, throwsAt: Option<nat>)
    requires CachedInv(spec, v, log)
    requires v.version + |batch| <= |log| && log[v.version..v.version + |batch|] == Owned(batch)
    ensures var v' := FoldBatch(spec, v, batch, throwsAt);
      && CachedInv(spec, v', log)
      && v'.under == v.under && v'.shown == v.shown && v'.tentative == v.tentative
      && if throwsAt.Some? && throwsAt.value < |batch| then |v'.folded| < v'.version && |v'.folded| < |v.folded| + |batch|
         else (|v'.folded| < v'.version <==> |v.folded| < v.version)
  {
    var n := if throwsAt.Some? && throwsAt.value < |batch| then throwsAt.value else |batch|;
    assert batch[..|batch|] == batch;
    FoldsOn(spec, v, log, batch, n, FoldBatch(spec, v, batch, throwsAt));
  }
}
