/** What the confirm loop of a custom-storage log view gets done: who lands, who is dropped, and when it gives up. */
module CustomStorageProgress {
  import opened Wrappers
  import opened CustomStorage
  import opened CustomStorageBooks
  import opened CustomStorageViews
  import opened CustomStorageRuns
  import opened CustomStorageLags

  // ----- Who is dropped -----

  /** The entry would land at its position, were it the `q`-th written. */
  ghost predicate Fresh(e: Entry, version: nat, q: nat) {
    e.position.Some? ==> e.position.value == version + q
  }

  ghost predicate FreshUpTo(w: World, q: nat)
    requires q < |w.books.pending|
  {
    forall k | 0 <= k <= q :: Fresh(w.books.pending[k], w.view.version, k)
  }

  /**
   * The top of the loop. An entry stays, where it is, while it and all before it are fresh; behind the
   * first that is not, a conditional entry is told `false` and dropped, and an unconditional one stays.
   */
  lemma TopDecides(cfg: Config, w: World, attempts: nat, q: nat)
    requires BooksInv(w.books, 0, false, []) && q < |w.books.pending|
    ensures var w' := LoopTop(cfg, w, attempts); var e := w.books.pending[q];
      if FreshUpTo(w, q) then q < |w'.books.pending| && w'.books.pending[q] == e && e.id !in w'.books.settled
      else if e.position.Some? then e.id in w'.books.settled && !w'.books.settled[e.id] && NotIn(w'.books.pending, e.id)
      else !NotIn(w'.books.pending, e.id) && e.id !in w'.books.settled
  {
    var s := FirstStale(w.view.version, w.books.pending, 0);
    var b := DropFrom(w.books, s);
    var e := w.books.pending[q];
    FreshBefore(w, q);
    QueueIsOpen(w.books);
    DroppedNotIn(w.books, s, b, e.id);
    DroppedIds(w.books, s, b, e.id);
    OneOfEach(w.books, q);
    hide BooksInv, Increasing, Unconditional;
    if q < s {
      assert b.pending[q] == e;
    }
  }

  lemma QueueIsOpen(b: Books)
    requires BooksInv(b, 0, false, [])
    ensures Increasing(b.pending) && forall q | 0 <= q < |b.pending| :: b.pending[q].id !in b.settled
  {
  }

  lemma OneOfEach(b: Books, q: nat)
    requires Increasing(b.pending) && q < |b.pending|
    ensures forall k | 0 <= k < |b.pending| && b.pending[k].id == b.pending[q].id :: k == q
  {
  }

  lemma FreshBefore(w: World, q: nat)
    requires q < |w.books.pending|
    ensures FreshUpTo(w, q) <==> q < FirstStale(w.view.version, w.books.pending, 0)
  {
    var s := FirstStale(w.view.version, w.books.pending, 0);
    forall k | 0 <= k < s ensures Fresh(w.books.pending[k], w.view.version, k) {
      assert !StaleAt(w.view.version, w.books.pending, k);
    }
    if s <= q {
      assert StaleAt(w.view.version, w.books.pending, s);
      assert !Fresh(w.books.pending[s], w.view.version, s);
    }
  }

  // ----- Who lands -----

  /** Everyone in the queue would land. */
  ghost predicate AllFresh(w: World) {
    forall k | 0 <= k < |w.books.pending| :: Fresh(w.books.pending[k], w.view.version, k)
  }

  lemma AllFreshIsPositioned(w: World)
    requires AllFresh(w)
    ensures Positioned(w.books.pending, w.view.version)
  {
    forall q | 0 <= q < |w.books.pending| ensures !StaleAt(w.view.version, w.books.pending, q) {
      assert Fresh(w.books.pending[q], w.view.version, q);
    }
  }

  /** A queue written whole is in storage, in order, and everyone is told `true`. */
  ghost predicate QueueLanded(w: World, w': World) {
    && w'.phase == Closing(Drained) && w'.books.pending == []
    && w'.books.log == w.books.log + Owned(w.books.pending)
    && w'.view.version == |w'.books.log|
    && (forall q | 0 <= q < |w.books.pending| && w.books.pending[q].position.Some? ::
          w.books.pending[q].id in w'.books.settled && w'.books.settled[w.books.pending[q].id])
  }

  lemma ToldTrue(settled: map<nat, bool>, es: seq<Entry>)
    ensures forall q | 0 <= q < |es| && es[q].position.Some? ::
      es[q].id in Settle(settled, es, true) && Settle(settled, es, true)[es[q].id]
  {
    forall q | 0 <= q < |es| && es[q].position.Some? ensures es[q].id in ConditionalIds(es) {
      assert es[q] in es;
    }
  }

  lemma WrittenWhole(cfg: Config, w: World)
    requires w.phase.Writing? && !w.phase.landed && w.phase.batch == w.books.pending && |w.books.log| == w.view.version
    ensures QueueLanded(w, Next(cfg, Next(cfg, w, HostWrites), WriteAnswer(None)))
  {
    var n := |w.books.pending|;
    assert w.books.pending[n..] == [];
    ToldTrue(w.books.settled, w.books.pending);
    hide Settle, Recompute;
  }

  /** A confirm of a queue that is fresh, at storage's version and uncontended, writes all of it. */
  lemma FreshQueueLands(cfg: Config, w: World)
    requires w.phase.Idle? && w.books.pending != [] && AllFresh(w) && |w.books.log| == w.view.version
    ensures QueueLanded(w, Next(cfg, Next(cfg, Next(cfg, w, Confirm), HostWrites), WriteAnswer(None)))
  {
    AllFreshIsPositioned(w);
    FreshTop(cfg, w, 0);
    hide LoopTop;
    WrittenWhole(cfg, Next(cfg, w, Confirm));
  }

  /** A conditional range raised behind a fresh queue, at storage's version and uncontended, lands whole and is told `true`. */
  lemma UncontendedAppendLands(cfg: Config, w: World, events: seq<Value>)
    requires Raised(cfg.spec, w) && w.phase.Idle? && events != [] && AllFresh(w) && |w.books.log| == w.view.version
    ensures var raised := Enqueue(cfg.spec, w, events);
      var w' := Next(cfg, Next(cfg, Next(cfg, w, TryAppend(events)), HostWrites), WriteAnswer(None));
      && QueueLanded(raised, w')
      && |raised.books.pending| == |w.books.pending| + |events|
      && forall k | 0 <= k < |events| ::
           var e := raised.books.pending[|w.books.pending| + k];
           e.id == |w.books.raised| + k && e.event == events[k] && e.position == Some(w.view.version + |w.books.pending| + k)
  {
    hide Raised, AllFresh, PushConditional, LoopTop;
    RaisedEntries(cfg.spec, w, events);
    RaisedStaysFresh(cfg.spec, w, events);
    AllFreshIsPositioned(Enqueue(cfg.spec, w, events));
    FreshTop(cfg, Enqueue(cfg.spec, w, events), 0);
    var raised := Enqueue(cfg.spec, w, events);
    assert Next(cfg, w, TryAppend(events)) == raised.(phase := Writing(raised.books.pending, 1, false));
    WrittenWhole(cfg, Next(cfg, w, TryAppend(events)));
    SameQueueLanded(Next(cfg, w, TryAppend(events)), raised, Next(cfg, Next(cfg, Next(cfg, w, TryAppend(events)), HostWrites), WriteAnswer(None)));
  }

  lemma SameQueueLanded(v: World, w: World, w': World)
    requires QueueLanded(v, w') && v.books == w.books
    ensures QueueLanded(w, w')
  {
  }

  lemma {:induction false} RaisedEntries(spec: LogSpec, w: World, events: seq<Value>)
    ensures var u := PushConditional(spec, w, events);
      && u.phase == w.phase && u.books.log == w.books.log && u.view.version == w.view.version
      && |u.books.raised| == |w.books.raised| + |events|
      && |u.books.pending| == |w.books.pending| + |events| && u.books.pending[..|w.books.pending|] == w.books.pending
      && forall k | 0 <= k < |events| ::
           u.books.pending[|w.books.pending| + k] == Entry(|w.books.raised| + k, events[k], Some(w.view.version + |w.books.pending| + k))
    decreases |events|
  {
    if events != [] {
      var n := |events| - 1;
      RaisedEntries(spec, w, events[..n]);
      var v := PushConditional(spec, w, events[..n]);
      var u := PushConditional(spec, w, events);
      assert u.books.pending[..|w.books.pending|] == v.books.pending[..|w.books.pending|];
      forall k | 0 <= k < |events|
        ensures u.books.pending[|w.books.pending| + k] == Entry(|w.books.raised| + k, events[k], Some(w.view.version + |w.books.pending| + k))
      {
        if k < n { assert u.books.pending[|w.books.pending| + k] == v.books.pending[|w.books.pending| + k]; }
      }
    }
  }

  lemma EntryRaised(spec: LogSpec, w: World, events: seq<Value>, k: nat)
    requires k < |events|
    ensures var u := Enqueue(spec, w, events); var n := |w.books.pending|;
      n + k < |u.books.pending| && u.books.pending[n + k].position == Some(u.view.version + n + k)
  {
    hide PushConditional;
    RaisedEntries(spec, w, events);
    var p := PushConditional(spec, w, events);
    assert p.books.pending[|w.books.pending| + k] == Entry(|w.books.raised| + k, events[k], Some(w.view.version + |w.books.pending| + k));
  }

  lemma RaisedStaysFresh(spec: LogSpec, w: World, events: seq<Value>)
    requires AllFresh(w)
    ensures AllFresh(Enqueue(spec, w, events))
  {
    RaisedEntries(spec, w, events);
    hide PushConditional;
    var u := Enqueue(spec, w, events);
    var n := |w.books.pending|;
    forall k | 0 <= k < |u.books.pending| ensures Fresh(u.books.pending[k], u.view.version, k) {
      if k < n {
        assert u.books.pending[k] == u.books.pending[..n][k] == w.books.pending[k];
      } else {
        var j := k - n;
        assert 0 <= j < |events|;
        EntryRaised(spec, w, events, j);
      }
    }
  }

  // ----- When it gives up -----

  /** A loop starts with its first attempt. */
  lemma FirstAttempt(cfg: Config, w: World)
    requires w.phase.Idle? && Next(cfg, w, Confirm).phase.Writing?
    ensures Next(cfg, w, Confirm).phase.attempts == 1
  {
    hide FirstStale, DropFrom;
  }

  /** A batch that is written starts the count of attempts over. */
  lemma WrittenStartsOver(cfg: Config, w: World)
    requires w.phase.Writing? && w.phase.landed && |w.phase.batch| <= |w.books.pending|
    requires Next(cfg, w, WriteAnswer(None)).phase.Writing?
    ensures Next(cfg, w, WriteAnswer(None)).phase.attempts == 1
  {
    hide FirstStale, DropFrom, FoldBatch, Recompute, Settle;
  }

  /** A write that fails with attempts left is followed by a re-read, after which the view is storage's, and by the next attempt. */
  lemma FailedWriteTriesAgain(cfg: Config, w: World)
    requires w.phase.Writing? && !w.phase.landed && |w.phase.batch| <= |w.books.pending| && w.phase.attempts < cfg.maxAttempts
    ensures var w' := Next(cfg, Next(cfg, Next(cfg, w, WriteAnswer(None)), HostReads), ReadAnswer(true));
      && w'.books.log == w.books.log && w'.view.version == |w.books.log|
      && (if w'.phase.Writing? then w'.phase.attempts == w.phase.attempts + 1 && w'.phase.batch == w'.books.pending != []
          else w'.phase == Closing(Drained) && w'.books.pending == [])
  {
    hide FirstStale, Settle, LogEvents, Unconditional;
    var u := Next(cfg, Next(cfg, w, WriteAnswer(None)), HostReads);
    assert u.phase == Reading(w.phase.attempts, Some(|w.books.log|), []);
  }

  /**
   * A write that fails at the last attempt ends the loop: every conditional entry is told `false` and
   * dropped, and every unconditional one stays pending.
   */
  lemma LastFailureEnds(cfg: Config, w: World, q: nat)
    requires Inv(cfg.spec, w) && w.phase.Writing? && !w.phase.landed && w.phase.attempts >= cfg.maxAttempts && q < |w.books.pending|
    ensures var w' := Next(cfg, w, WriteAnswer(None)); var e := w.books.pending[q];
      && w'.phase == Closing(Exhausted) && w'.books.log == w.books.log
      && (if e.position.Some? then e.id in w'.books.settled && !w'.books.settled[e.id] && NotIn(w'.books.pending, e.id)
          else !NotIn(w'.books.pending, e.id) && e.id !in w'.books.settled)
  {
    var b := DropFrom(w.books, 0);
    var e := w.books.pending[q];
    StillOpen(cfg.spec, w);
    DroppedNotIn(w.books, 0, b, e.id);
    DroppedIds(w.books, 0, b, e.id);
    OneOfEach(w.books, q);
    PhaseFacts(cfg.spec, w);
    hide Inv, DropFrom, Recompute;
  }

  lemma StillOpen(spec: LogSpec, w: World)
    requires Inv(spec, w)
    ensures Increasing(w.books.pending) && forall q | 0 <= q < |w.books.pending| :: w.books.pending[q].id !in w.books.settled
  {
  }

  // ----- Clearing -----

  /** Clearing empties storage and the view, and tells everyone who waits `false`. */
  lemma ClearTellsEveryone(cfg: Config, w: World, q: nat)
    requires w.phase.Idle? && q < |w.books.pending|
    ensures var w' := Next(cfg, w, Clear); var e := w.books.pending[q];
      && w'.books.log == [] && w'.books.pending == [] && w'.view.version == 0
      && w'.view.cached == cfg.spec.initial && w'.view.tentative == cfg.spec.initial
      && (e.position.Some? ==> e.id in w'.books.settled && !w'.books.settled[e.id])
  {
    assert w.books.pending[q] in w.books.pending;
  }
}
