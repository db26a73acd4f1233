/** Runs of a custom-storage log view under arbitrary foreign writes, failures and raises. */
module CustomStorageRuns {
  import opened Wrappers
  import opened CustomStorage
  import opened CustomStorageBooks
  import opened CustomStorageViews

  function Cut(phase: Phase): nat {
    if phase.Writing? then |phase.batch| else 0
  }

  predicate Landed(phase: Phase) {
    phase.Writing? && phase.landed
  }

  function Flight(phase: Phase): seq<Entry> {
    if phase.Reading? then phase.written else []
  }

  ghost predicate AllUnconditional(es: seq<Entry>) {
    forall q | 0 <= q < |es| :: es[q].position.None?
  }

  ghost predicate PhaseInv(w: World) {
    match w.phase
    case Writing(batch, _, landed) =>
      && batch != []
      && |batch| <= |w.books.pending| && batch == w.books.pending[..|batch|]
      && Positioned(batch, w.view.version)
      && (landed ==> w.view.version + |batch| <= |w.books.log|
                     && w.books.log[w.view.version..w.view.version + |batch|] == Owned(batch))
    case Reading(_, taken, _) => taken.Some? ==> taken.value <= |w.books.log|
    case _ => !w.stranded ==> AllUnconditional(w.books.pending)
  }

  ghost predicate Inv(spec: LogSpec, w: World) {
    && BooksInv(w.books, Cut(w.phase), Landed(w.phase), Flight(w.phase))
    && PhaseInv(w)
    && ViewInv(spec, w.view, w.books.log, w.books.pending)
  }

  // ----- The top of the loop -----

  lemma StaleEntriesDropped(b: Books, version: nat, b': Books)
    requires BooksInv(b, 0, false, []) && b' == DropFrom(b, FirstStale(version, b.pending, 0))
    ensures BooksInv(b', |b'.pending|, false, [])
    ensures Positioned(b'.pending, version) && b'.log == b.log
    ensures |b'.pending| < |b.pending| || b'.pending == b.pending
  {
    var s := FirstStale(version, b.pending, 0);
    forall k | 0 <= k < |b.ranges| ensures Apart(b, s, 0, b.ranges[k]) {
      assert RangeInv(b, 0, [], b.ranges[k]);
      FirstStaleIsApart(b, version, 0, b.ranges[k]);
    }
    DropKeepsBooks(b, s, b', 0, |b'.pending|);
    BatchIsPositioned(b, version, b');
    StaleDropShrinks(b, version, b');
  }

  lemma LoopTopKeepsInv(cfg: Config, w: World, attempts: nat)
    requires BooksInv(w.books, 0, false, []) && ViewInv(cfg.spec, w.view, w.books.log, w.books.pending)
    ensures Inv(cfg.spec, LoopTop(cfg, w, attempts))
  {
    hide BooksInv, DropFrom, Positioned, FirstStale, CachedInv, TentativeInv, Recompute;
    if w.books.pending != [] {
      var b := DropFrom(w.books, FirstStale(w.view.version, w.books.pending, 0));
      StaleEntriesDropped(w.books, w.view.version, b);
      assert b.pending[..|b.pending|] == b.pending;
      RecomputeShows(cfg.spec, w.view, w.books.log, []);
      if |b.pending| < |w.books.pending| {
        FewerPendingKeepsView(cfg.spec, w.view, w.books.log, w.books.pending, b.pending);
      }
    }
  }

  // ----- Raises -----

  /** Everything a raise keeps, before it starts a loop. */
  ghost predicate Raised(spec: LogSpec, w: World) {
    && BooksInv(w.books, Cut(w.phase), Landed(w.phase), Flight(w.phase))
    && (w.phase.Writing? || w.phase.Reading? ==> PhaseInv(w))
    && ViewInv(spec, w.view, w.books.log, w.books.pending)
  }

  lemma PushKeeps(spec: LogSpec, w: World, event: Value, position: Option<nat>)
    requires Raised(spec, w)
    ensures Raised(spec, Push(spec, w, event, position))
  {
    RaisedBooks(spec, w);
    hide BooksInv, ViewInv, Positioned;
    var w' := Push(spec, w, event, position);
    var e := Entry(|w.books.raised|, event, position);
    PushKeepsBooks(w.books, Cut(w.phase), Landed(w.phase), Flight(w.phase), e, w'.books);
    PushKeepsView(spec, w.view, w.books.log, w.books.pending, e);
    if w.phase.Writing? {
      assert w'.books.pending[..|w.phase.batch|] == w.books.pending[..|w.phase.batch|];
    }
  }

  /** What the conditional entries raised together look like at the end of the queue. */
  ghost predicate Queued(w: World, w': World, n: nat) {
    && w'.phase == w.phase && w'.stranded == w.stranded
    && w'.books.ranges == w.books.ranges && w'.books.base == w.books.base && w'.books.log == w.books.log
    && w'.view.version == w.view.version
    && |w'.books.raised| == |w.books.raised| + n && |w'.books.pending| == |w.books.pending| + n
    && w'.books.raised[..|w.books.raised|] == w.books.raised
    && w'.books.pending[..|w.books.pending|] == w.books.pending
    && w'.books.pending[|w.books.pending|..] == w'.books.raised[|w.books.raised|..]
    && (forall k | |w.books.raised| <= k < |w'.books.raised| ::
          w'.books.raised[k].position == Some(w.view.version + |w.books.pending| + (k - |w.books.raised|)))
  }

  lemma {:induction false} PushConditionalQueues(spec: LogSpec, w: World, events: seq<Value>)
    requires Raised(spec, w)
    ensures Raised(spec, PushConditional(spec, w, events)) && Queued(w, PushConditional(spec, w, events), |events|)
    decreases |events|
  {
    hide Raised;
    if events != [] {
      var init := events[..|events| - 1];
      var u := PushConditional(spec, w, init);
      PushConditionalQueues(spec, w, init);
      var position := Some(u.view.version + |u.books.pending|);
      var w' := Push(spec, u, events[|events| - 1], position);
      PushKeeps(spec, u, events[|events| - 1], position);
      assert w'.books.raised[..|w.books.raised|] == u.books.raised[..|w.books.raised|];
      assert w'.books.pending[..|w.books.pending|] == u.books.pending[..|w.books.pending|];
    }
  }

  lemma NewRange(b: Books, cut: nat, landed: bool, flight: seq<Entry>, r: (nat, nat), q: nat, b': Books)
    requires BooksInv(b, cut, landed, flight) && b' == b.(ranges := b.ranges + [r])
    requires RangeShape(b, r) && RangeAt(b.pending, b.raised, r, cut, q)
    ensures BooksInv(b', cut, landed, flight)
  {
    forall id | 0 <= id < |b'.raised| ensures b'.raised[id].id == id && EntryInv(b', flight, id) {
      assert EntryInv(b, flight, id);
    }
    forall k | 0 <= k < |b'.ranges| ensures RangeInv(b', cut, flight, b'.ranges[k]) {
      if k < |b.ranges| {
        assert RangeInv(b, cut, flight, b.ranges[k]);
        SameQueueSameRange(b, b', cut, flight, b.ranges[k]);
      } else {
        assert RangeIn(b.pending, b.raised, r, cut);
        ShapeStays(b, b', r);
      }
    }
  }

  lemma RaisedRange(w: World, w': World, n: nat)
    requires Queued(w, w', n) && n > 0
    requires w.books.base <= |w.books.raised| && Cut(w.phase) <= |w.books.pending|
    ensures var r := (|w.books.raised|, n);
      RangeShape(w'.books, r) && RangeAt(w'.books.pending, w'.books.raised, r, Cut(w'.phase), |w.books.pending|)
  {
    var r := (|w.books.raised|, n);
    forall id | r.0 <= id < r.0 + r.1 ensures PositionFrom(w'.books.raised, r.0, id) {
    }
    assert w'.books.pending[|w.books.pending|..|w.books.pending| + n] == w'.books.pending[|w.books.pending|..];
    assert w'.books.raised[r.0..r.0 + r.1] == w'.books.raised[r.0..];
  }

  lemma RangeRecorded(spec: LogSpec, u: World, r: (nat, nat), stranded: bool)
    requires Raised(spec, u)
    requires BooksInv(u.books.(ranges := u.books.ranges + [r]), Cut(u.phase), Landed(u.phase), Flight(u.phase))
    ensures Raised(spec, u.(books := u.books.(ranges := u.books.ranges + [r]), stranded := stranded))
  {
    hide BooksInv, ViewInv, Positioned;
  }

  lemma RoomForBatch(spec: LogSpec, w: World)
    requires Inv(spec, w)
    ensures w.books.base <= |w.books.raised| && Cut(w.phase) <= |w.books.pending| && Raised(spec, w)
  {
  }

  lemma EnqueueKeeps(spec: LogSpec, w: World, events: seq<Value>)
    requires Inv(spec, w) && events != []
    ensures Raised(spec, Enqueue(spec, w, events))
    ensures Enqueue(spec, w, events).phase == w.phase && (w.phase.Closing? ==> Enqueue(spec, w, events).stranded)
  {
    hide Raised, Inv, BooksInv, PushConditional, RangeShape, RangeAt;
    var u, r := PushConditional(spec, w, events), (|w.books.raised|, |events|);
    RoomForBatch(spec, w);
    PushConditionalQueues(spec, w, events);
    RaisedRange(w, u, |events|);
    RaisedBooks(spec, u);
    NewRange(u.books, Cut(u.phase), Landed(u.phase), Flight(u.phase), r, |w.books.pending|, u.books.(ranges := u.books.ranges + [r]));
    RangeRecorded(spec, u, r, u.stranded || u.phase.Closing?);
  }

  lemma RaisedBooks(spec: LogSpec, u: World)
    requires Raised(spec, u)
    ensures BooksInv(u.books, Cut(u.phase), Landed(u.phase), Flight(u.phase))
  {
  }

  lemma TryAppendKeepsInv(cfg: Config, w: World, events: seq<Value>)
    requires Inv(cfg.spec, w)
    ensures Inv(cfg.spec, TryAppendRange(cfg, w, events))
  {
    if events != [] {
      EnqueueKeeps(cfg.spec, w, events);
      hide BooksInv, ViewInv, Positioned, LoopTop, Enqueue;
      if w.phase.Idle? {
        LoopTopKeepsInv(cfg, Enqueue(cfg.spec, w, events), 0);
      }
    }
  }

  // ----- The answers of the host -----

  lemma BatchSettled(b: Books, batch: seq<Entry>, b': Books)
    requires BooksInv(b, |batch|, true, []) && batch == b.pending[..|batch|]
    requires b' == b.(pending := b.pending[|batch|..], settled := Settle(b.settled, batch, true))
    ensures BooksInv(b', 0, false, [])
  {
    var taken := b.(pending := b.pending[|batch|..]);
    TakeKeepsBooks(b, |batch|, taken);
    SettleKeepsBooks(taken, batch, b');
  }

  lemma LandedKeepsInv(cfg: Config, w: World, throwsAt: Option<nat>)
    requires Inv(cfg.spec, w) && Landed(w.phase)
    ensures Inv(cfg.spec, WriteAnswered(cfg, w, throwsAt))
  {
    var batch := w.phase.batch;
    var rest := w.books.pending[|batch|..];
    FoldedBatch(cfg.spec, w.view, w.books.log, batch, throwsAt);
    hide BooksInv, CachedInv, LoopTop, FoldBatch, Recompute, Positioned;
    var v := FoldBatch(cfg.spec, w.view, batch, throwsAt);
    if throwsAt.Some? && throwsAt.value < |batch| {
      TakeKeepsBooks(w.books, |batch|, w.books.(pending := rest));
    } else {
      var b := w.books.(pending := rest, settled := Settle(w.books.settled, batch, true));
      BatchSettled(w.books, batch, b);
      RecomputeShows(cfg.spec, v, w.books.log, rest);
      LoopTopKeepsInv(cfg, w.(books := b, view := Recompute(cfg.spec, v, rest)), 0);
    }
  }

  lemma ConditionalEntriesDropped(b: Books, cut: nat, b': Books)
    requires BooksInv(b, cut, false, []) && b' == DropFrom(b, 0)
    ensures BooksInv(b', 0, false, []) && AllUnconditional(b'.pending) && b'.log == b.log
  {
    DropKeepsBooks(b, 0, b', cut, 0);
    hide BooksInv;
    forall q | 0 <= q < |b'.pending| ensures b'.pending[q].position.None? {
      var k := DroppedSource(b, 0, b', q);
    }
  }

  lemma ExhaustedKeepsInv(cfg: Config, w: World, throwsAt: Option<nat>)
    requires Inv(cfg.spec, w) && w.phase.Writing? && !w.phase.landed && w.phase.attempts >= cfg.maxAttempts
    ensures Inv(cfg.spec, WriteAnswered(cfg, w, throwsAt))
  {
    hide BooksInv, DropFrom, Recompute, CachedInv, TentativeInv;
    ConditionalEntriesDropped(w.books, |w.phase.batch|, DropFrom(w.books, 0));
    RecomputeShows(cfg.spec, w.view, w.books.log, DropFrom(w.books, 0).pending);
  }

  lemma CutDoesNotMatter(b: Books, cut: nat)
    requires BooksInv(b, cut, false, [])
    ensures BooksInv(b, 0, false, [])
  {
    forall k | 0 <= k < |b.ranges| ensures RangeInv(b, 0, [], b.ranges[k]) {
      assert RangeInv(b, cut, [], b.ranges[k]);
      if RangeIn(b.pending, b.raised, b.ranges[k], cut) {
        var q: nat :| RangeAt(b.pending, b.raised, b.ranges[k], cut, q);
        assert RangeAt(b.pending, b.raised, b.ranges[k], 0, q);
      }
    }
  }

  lemma WriteAnsweredKeepsInv(cfg: Config, w: World, throwsAt: Option<nat>)
    requires Inv(cfg.spec, w) && w.phase.Writing?
    ensures Inv(cfg.spec, WriteAnswered(cfg, w, throwsAt))
  {
    if w.phase.landed {
      LandedKeepsInv(cfg, w, throwsAt);
    } else if w.phase.attempts >= cfg.maxAttempts {
      ExhaustedKeepsInv(cfg, w, throwsAt);
    } else {
      CutDoesNotMatter(w.books, |w.phase.batch|);
      hide BooksInv;
    }
  }

  lemma ReadAnsweredKeepsInv(cfg: Config, w: World, answered: bool)
    requires Inv(cfg.spec, w) && w.phase.Reading?
    ensures Inv(cfg.spec, ReadAnswered(cfg, w, answered))
  {
    hide BooksInv, LoopTop, CachedInv, TentativeInv, ReadAt, Recompute;
    var Reading(attempts, taken, written) := w.phase;
    if !answered {
      AbandonKeepsBooks(w.books, written, w.books.(abandoned := w.books.abandoned + ConditionalIds(written)));
    } else if taken.Some? {
      var v := ReadAt(cfg.spec, w.view, w.books.log, taken.value);
      ReadKeepsCached(cfg.spec, w.view, w.books.log, taken.value);
      RecomputeShows(cfg.spec, v, w.books.log, w.books.pending);
      var b := w.books.(settled := Settle(w.books.settled, written, true));
      SettleKeepsBooks(w.books, written, b);
      LoopTopKeepsInv(cfg, w.(books := b, view := Recompute(cfg.spec, v, w.books.pending)), attempts);
    }
  }

  lemma ForeignWriteKeepsInv(cfg: Config, w: World, events: seq<Value>)
    requires Inv(cfg.spec, w)
    ensures Inv(cfg.spec, Next(cfg, w, ForeignWrite(events)))
  {
    hide BooksInv, CachedInv, TentativeInv;
    ForeignWriteKeepsBooks(w.books, Cut(w.phase), Landed(w.phase), Flight(w.phase), events);
    GrownLogKeepsView(cfg.spec, w.view, w.books.log, Foreigns(events), w.books.pending);
    var log' := w.books.log + Foreigns(events);
    if Landed(w.phase) {
      var n := |w.phase.batch|;
      assert log'[w.view.version..w.view.version + n] == w.books.log[w.view.version..w.view.version + n];
    }
  }

  lemma HostWritesKeepsInv(cfg: Config, w: World)
    requires Inv(cfg.spec, w)
    ensures Inv(cfg.spec, Next(cfg, w, HostWrites))
  {
    hide BooksInv, CachedInv, TentativeInv;
    if w.phase.Writing? && !w.phase.landed && |w.books.log| == w.view.version {
      var batch := w.phase.batch;
      var log' := w.books.log + Owned(batch);
      HostWriteKeepsBooks(w.books, batch, w.books.(log := log'));
      GrownLogKeepsView(cfg.spec, w.view, w.books.log, Owned(batch), w.books.pending);
      assert log'[w.view.version..w.view.version + |batch|] == Owned(batch);
    }
  }

  lemma SubmitKeepsInv(cfg: Config, w: World, event: Value)
    requires Inv(cfg.spec, w)
    ensures Inv(cfg.spec, Push(cfg.spec, w, event, None))
  {
    PushKeeps(cfg.spec, w, event, None);
    hide BooksInv, ViewInv, Positioned;
  }

  lemma LoopStepsKeepInv(cfg: Config, w: World, action: Action)
    requires Inv(cfg.spec, w) && (action.HostReads? || action.FinallyRuns? || action.Load?)
    ensures Inv(cfg.spec, Next(cfg, w, action))
  {
    hide BooksInv, Positioned, CachedInv, TentativeInv, Recompute, ReadAt;
    if action.Load? && w.phase.Idle? {
      var v := ReadAt(cfg.spec, w.view, w.books.log, |w.books.log|);
      ReadKeepsCached(cfg.spec, w.view, w.books.log, |w.books.log|);
      RecomputeShows(cfg.spec, v, w.books.log, w.books.pending);
    }
  }

  lemma EmptyView(spec: LogSpec)
    ensures ViewInv(spec, View(0, spec.initial, spec.initial, [], [], []), [], [])
  {
    assert At([], []) + Events([]) == [];
  }

  lemma ClearKeepsInv(cfg: Config, w: World)
    requires Inv(cfg.spec, w) && w.phase.Idle?
    ensures Inv(cfg.spec, ClearLog(cfg, w))
  {
    ClearKeepsBooks(w.books, ClearLog(cfg, w).books);
    EmptyView(cfg.spec);
    hide BooksInv, ViewInv;
  }

  lemma JoinKeepsInv(cfg: Config, w: World)
    requires Inv(cfg.spec, w)
    ensures Inv(cfg.spec, Join(cfg, w))
  {
    hide BooksInv, ViewInv, Positioned, LoopTop;
    if w.phase.Idle? {
      LoopTopKeepsInv(cfg, w, 0);
    }
  }

  lemma PhaseFacts(spec: LogSpec, w: World)
    requires Inv(spec, w)
    ensures w.phase.Writing? ==> |w.phase.batch| <= |w.books.pending|
    ensures w.phase.Reading? && w.phase.taken.Some? ==> w.phase.taken.value <= |w.books.log|
  {
  }

  lemma NextKeepsInv(cfg: Config, w: World, action: Action)
    requires Inv(cfg.spec, w)
    ensures Inv(cfg.spec, Next(cfg, w, action))
  {
    PhaseFacts(cfg.spec, w);
    hide Inv;
    match action
    case ForeignWrite(events) => ForeignWriteKeepsInv(cfg, w, events);
    case Submit(event) => SubmitKeepsInv(cfg, w, event);
    case TryAppend(events) => TryAppendKeepsInv(cfg, w, events);
    case Confirm => JoinKeepsInv(cfg, w);
    case HostWrites => HostWritesKeepsInv(cfg, w);
    case WriteAnswer(throwsAt) => if w.phase.Writing? { WriteAnsweredKeepsInv(cfg, w, throwsAt); }
    case ReadAnswer(answered) => if w.phase.Reading? { ReadAnsweredKeepsInv(cfg, w, answered); }
    case Clear => if w.phase.Idle? { ClearKeepsInv(cfg, w); }
    case _ => LoopStepsKeepInv(cfg, w, action);
  }

  lemma {:induction false} RunKeepsInv(cfg: Config, actions: seq<Action>)
    ensures Inv(cfg.spec, Run(cfg, Start(cfg.spec), actions))
    decreases |actions|
  {
    if actions == [] {
      EmptyView(cfg.spec);
    } else {
      RunKeepsInv(cfg, actions[..|actions| - 1]);
      NextKeepsInv(cfg, Run(cfg, Start(cfg.spec), actions[..|actions| - 1]), actions[|actions| - 1]);
    }
  }

  // ----- What every run keeps -----

  /**
   * A conditional append is truthful: an entry settled `true` is in storage at exactly the position
   * it was raised for; one settled `false` is in neither storage nor the queue.
   */
  lemma ConditionalAppendTruthful(cfg: Config, actions: seq<Action>, id: nat)
    requires var b := Run(cfg, Start(cfg.spec), actions).books; b.base <= id && id in b.settled
    ensures var b := Run(cfg, Start(cfg.spec), actions).books;
      && id < |b.raised| && b.raised[id].id == id && b.raised[id].position.Some?
      && NotIn(b.pending, id)
      && var p := b.raised[id].position.value;
      if b.settled[id] then p < |b.log| && b.log[p] == Own(b.raised[id]) else Absent(b.log, id)
  {
    RunKeepsInv(cfg, actions);
    var w := Run(cfg, Start(cfg.spec), actions);
    assert EntryInv(w.books, Flight(w.phase), id);
  }

  /** Storage holds our entries in the order they were raised, each at most once, and none is lost. */
  lemma EntriesStoredOnceInOrder(cfg: Config, actions: seq<Action>, id: nat, i: nat, j: nat)
    requires var b := Run(cfg, Start(cfg.spec), actions).books;
      b.base <= id < |b.raised| && i < j < |b.log| && b.log[i].Own? && b.log[j].Own?
    ensures var b := Run(cfg, Start(cfg.spec), actions).books;
      && b.log[i].entry.id < b.log[j].entry.id < |b.raised|
      && b.log[j].entry == b.raised[b.log[j].entry.id]
      && (!NotIn(b.pending, id) || !Absent(b.log, id) || (id in b.settled && !b.settled[id]))
  {
    RunKeepsInv(cfg, actions);
    var w := Run(cfg, Start(cfg.spec), actions);
    assert RaisedInOrder(w.books.log, i, j) && Placed(w.books.log[j], j, w.books.raised);
    assert EntryInv(w.books, Flight(w.phase), id);
  }

  /** All of the range is in storage, side by side from the position it was raised for. */
  ghost predicate WholeRangeStored(b: Books, r: (nat, nat)) {
    && r.0 + r.1 <= |b.raised| && 0 < r.1 && b.raised[r.0].position.Some?
    && var p := b.raised[r.0].position.value;
    && p + r.1 <= |b.log|
    && b.log[p..p + r.1] == Owned(b.raised[r.0..r.0 + r.1])
  }

  ghost predicate NothingStored(b: Books, r: (nat, nat)) {
    forall id | r.0 <= id < r.0 + r.1 :: Absent(b.log, id)
  }

  lemma StoredInRange(b: Books, r: (nat, nat), k: nat)
    requires RangeShape(b, r) && k < r.1 && Stored(b.log, b.raised[r.0 + k])
    ensures b.raised[r.0].position.Some?
    ensures var p := b.raised[r.0].position.value; p + k < |b.log| && b.log[p + k] == Own(b.raised[r.0 + k])
  {
    assert PositionFrom(b.raised, r.0, r.0 + k);
  }

  lemma EachStoredIsWhole(b: Books, r: (nat, nat))
    requires RangeShape(b, r)
    requires forall id | r.0 <= id < r.0 + r.1 :: Stored(b.log, b.raised[id])
    ensures WholeRangeStored(b, r)
  {
    StoredInRange(b, r, r.1 - 1);
    var p := b.raised[r.0].position.value;
    var found, wanted := b.log[p..p + r.1], Owned(b.raised[r.0..r.0 + r.1]);
    forall k | 0 <= k < r.1 ensures found[k] == wanted[k] {
      StoredInRange(b, r, k);
    }
  }

  lemma RangeInPlace(b: Books, cut: nat, landed: bool, flight: seq<Entry>, r: (nat, nat), q: nat)
    requires BooksInv(b, cut, landed, flight) && RangeShape(b, r) && RangeAt(b.pending, b.raised, r, cut, q)
    ensures WholeRangeStored(b, r) || NothingStored(b, r)
  {
    var done := if landed then cut else 0;
    assert AllStored(b.pending[..done], b.log) && Later(b.pending[done..], b.log);
    assert forall id | 0 <= id < |b.raised| :: b.raised[id].id == id;
    hide BooksInv;
    if q + r.1 <= done {
      forall id | r.0 <= id < r.0 + r.1 ensures Stored(b.log, b.raised[id]) {
        RangeMember(b.pending, b.raised, r, cut, q, id);
        assert b.pending[..done][q + (id - r.0)] == b.raised[id];
      }
      hide RangeAt;
      EachStoredIsWhole(b, r);
    } else {
      forall id | r.0 <= id < r.0 + r.1 ensures Absent(b.log, id) {
        RangeMember(b.pending, b.raised, r, cut, q, id);
        assert b.pending[done..][q + (id - r.0) - done] == b.raised[id];
        BelowIsAbsent(b.log, id);
      }
    }
  }

  lemma RangeStoredOrNot(b: Books, cut: nat, landed: bool, flight: seq<Entry>, r: (nat, nat))
    requires BooksInv(b, cut, landed, flight) && RangeInv(b, cut, flight, r)
    ensures WholeRangeStored(b, r) || NothingStored(b, r)
    ensures SettledAs(b.settled, r, true) ==> WholeRangeStored(b, r)
    ensures SettledAs(b.settled, r, false) ==> NothingStored(b, r)
  {
    if SettledAs(b.settled, r, false) {
      forall id | r.0 <= id < r.0 + r.1 ensures Absent(b.log, id) { assert EntryInv(b, flight, id); }
      assert r.0 in b.settled && !b.settled[r.0];
    } else if RangeIn(b.pending, b.raised, r, cut) {
      var q: nat :| RangeAt(b.pending, b.raised, r, cut, q);
      RangeInPlace(b, cut, landed, flight, r, q);
      RangeMember(b.pending, b.raised, r, cut, q, r.0);
      assert b.pending[q].id !in b.settled;
    } else {
      forall id | r.0 <= id < r.0 + r.1 ensures Stored(b.log, b.raised[id]) {
        RangeEntryStored(b, cut, landed, flight, r, id);
      }
      EachStoredIsWhole(b, r);
    }
  }

  lemma RangeEntryStored(b: Books, cut: nat, landed: bool, flight: seq<Entry>, r: (nat, nat), id: nat)
    requires BooksInv(b, cut, landed, flight) && RangeInv(b, cut, flight, r) && r.0 <= id < r.0 + r.1
    requires !RangeIn(b.pending, b.raised, r, cut) && !SettledAs(b.settled, r, false)
    ensures Stored(b.log, b.raised[id])
  {
    assert EntryInv(b, flight, id);
    if RangeIn(flight, b.raised, r, 0) {
      var q: nat :| RangeAt(flight, b.raised, r, 0, q);
      RangeMember(flight, b.raised, r, 0, q, id);
    } else if Unsettled(b, flight, r) {
      assert Nowhere(b.settled, b.pending, id);
    }
  }

  /**
   * A conditional range lands whole and contiguous where it was raised for, or not at all; its
   * callers are told one answer, and it is the right one.
   */
  lemma RangeLandsWholeOrNotAtAll(cfg: Config, actions: seq<Action>, k: nat)
    requires k < |Run(cfg, Start(cfg.spec), actions).books.ranges|
    ensures var b := Run(cfg, Start(cfg.spec), actions).books; var r := b.ranges[k];
      && (WholeRangeStored(b, r) || NothingStored(b, r))
      && (forall id | r.0 <= id < r.0 + r.1 && id in b.settled ::
            SettledAs(b.settled, r, b.settled[id]) && (if b.settled[id] then WholeRangeStored(b, r) else NothingStored(b, r)))
  {
    RunKeepsInv(cfg, actions);
    var w := Run(cfg, Start(cfg.spec), actions);
    var b, r := w.books, w.books.ranges[k];
    var cut, landed, flight := Cut(w.phase), Landed(w.phase), Flight(w.phase);
    assert RangeInv(b, cut, flight, r);
    RangeStoredOrNot(b, cut, landed, flight, r);
    forall id | r.0 <= id < r.0 + r.1 && id in b.settled ensures SettledAs(b.settled, r, b.settled[id]) {
      SettledTogether(b, cut, landed, flight, r, id);
    }
  }

  lemma UndecidedRange(b: Books, cut: nat, landed: bool, flight: seq<Entry>, r: (nat, nat), id: nat)
    requires BooksInv(b, cut, landed, flight) && r.0 <= id < r.0 + r.1
    requires RangeIn(b.pending, b.raised, r, cut) || RangeIn(flight, b.raised, r, 0) || Unsettled(b, flight, r)
    ensures id !in b.settled
  {
    if RangeIn(b.pending, b.raised, r, cut) {
      var q: nat :| RangeAt(b.pending, b.raised, r, cut, q);
      RangeMember(b.pending, b.raised, r, cut, q, id);
    } else if RangeIn(flight, b.raised, r, 0) {
      var q: nat :| RangeAt(flight, b.raised, r, 0, q);
      RangeMember(flight, b.raised, r, 0, q, id);
    } else {
      assert Nowhere(b.settled, b.pending, id);
    }
  }

  lemma SettledTogether(b: Books, cut: nat, landed: bool, flight: seq<Entry>, r: (nat, nat), id: nat)
    requires BooksInv(b, cut, landed, flight) && RangeInv(b, cut, flight, r)
    requires r.0 <= id < r.0 + r.1 && id in b.settled
    ensures SettledAs(b.settled, r, b.settled[id])
  {
    hide BooksInv, RangeIn, Unsettled;
    if RangeIn(b.pending, b.raised, r, cut) || RangeIn(flight, b.raised, r, 0) || Unsettled(b, flight, r) {
      UndecidedRange(b, cut, landed, flight, r, id);
    }
  }

  // ----- Raises that no loop takes care of -----

  ghost predicate AllSettled(b: Books, first: nat, n: nat) {
    forall id | first <= id < first + n :: id in b.settled
  }

  lemma UnservedStaysOpen(spec: LogSpec, u: World, r: (nat, nat), q: nat)
    requires Raised(spec, u) && r.1 > 0
    requires RangeAt(u.books.pending, u.books.raised, r, Cut(u.phase), q)
    ensures r.0 !in u.books.settled && !NotIn(u.books.pending, r.0)
  {
    RangeMember(u.books.pending, u.books.raised, r, Cut(u.phase), q, r.0);
    assert u.books.raised[r.0].id == r.0;
    assert u.books.pending[q].id !in u.books.settled;
  }

  lemma RangeAllDropped(b: Books, s: nat, b': Books, r: (nat, nat), q: nat)
    requires Increasing(b.pending) && (forall id | 0 <= id < |b.raised| :: b.raised[id].id == id)
    requires s <= |b.pending| && b' == DropFrom(b, s) && b'.pending == []
    requires RangeShape(b, r) && RangeAt(b.pending, b.raised, r, 0, q)
    ensures AllSettled(b', r.0, r.1)
  {
    forall id | r.0 <= id < r.0 + r.1 ensures id in b'.settled {
      RangeMember(b.pending, b.raised, r, 0, q, id);
      DroppedNotIn(b, s, b', id);
      DroppedIds(b, s, b', id);
      assert PositionFrom(b.raised, r.0, id);
      assert NotIn(b'.pending, id);
    }
  }

  lemma DroppedRaiseIsSettled(cfg: Config, u: World, r: (nat, nat), q: nat)
    requires Raised(cfg.spec, u) && u.phase.Idle? && r.1 > 0 && RangeShape(u.books, r)
    requires RangeAt(u.books.pending, u.books.raised, r, 0, q)
    ensures var w := LoopTop(cfg, u, 0); w.phase.Writing? || AllSettled(w.books, r.0, r.1)
  {
    assert Increasing(u.books.pending) && forall id | 0 <= id < |u.books.raised| :: u.books.raised[id].id == id;
    hide BooksInv, ViewInv, RangeShape, AllSettled, DropFrom;
    var s := FirstStale(u.view.version, u.books.pending, 0);
    var b := DropFrom(u.books, s);
    assert u.books.pending != [] by { RangeMember(u.books.pending, u.books.raised, r, 0, q, r.0); }
    if b.pending == [] {
      RangeAllDropped(u.books, s, b, r, q);
    }
  }

  lemma EnqueuedRange(spec: LogSpec, w: World, events: seq<Value>)
    requires Inv(spec, w) && events != []
    ensures var u := Enqueue(spec, w, events); var r := (|w.books.raised|, |events|);
      RangeShape(u.books, r) && RangeAt(u.books.pending, u.books.raised, r, Cut(u.phase), |w.books.pending|)
  {
    RoomForBatch(spec, w);
    hide Raised, Inv, BooksInv, PushConditional, RangeAt;
    var u := PushConditional(spec, w, events);
    PushConditionalQueues(spec, w, events);
    RaisedRange(w, u, |events|);
    ShapeStays(u.books, Enqueue(spec, w, events).books, (|w.books.raised|, |events|));
  }

  /**
   * Exactly when a conditional raise is taken care of, by a running loop or by an answer: unless it
   * comes between the end of a loop and the callback that uninstalls it. Then it joins a loop that
   * is over, and when that is uninstalled the entries are pending, unanswered, with no loop running:
   * its caller waits, or gets the failure of a re-read it had nothing to do with.
   */
  lemma RaiseIsServedIff(cfg: Config, actions: seq<Action>, events: seq<Value>)
    requires events != []
    ensures var w := Run(cfg, Start(cfg.spec), actions);
      var w' := Next(cfg, w, TryAppend(events)); var first := |w.books.raised|;
      && (w'.phase.Writing? || w'.phase.Reading? || AllSettled(w'.books, first, |events|) <==> !w.phase.Closing?)
      && (w.phase.Closing? ==>
            var idle := Next(cfg, w', FinallyRuns);
            && idle.phase.Idle? && !NotIn(idle.books.pending, first)
            && ReplyTo(idle.books.settled, w.phase.end, first) == if w.phase.end.ReadFailed? then Rejected else Waits)
  {
    RunKeepsInv(cfg, actions);
    var w := Run(cfg, Start(cfg.spec), actions);
    var u, r := Enqueue(cfg.spec, w, events), (|w.books.raised|, |events|);
    EnqueueKeeps(cfg.spec, w, events);
    EnqueuedRange(cfg.spec, w, events);
    hide Inv, Raised, Enqueue, LoopTop, RangeAt, RangeShape, Run;
    if w.phase.Closing? {
      UnservedStaysOpen(cfg.spec, u, r, |w.books.pending|);
      assert Next(cfg, w, TryAppend(events)) == u;
    } else if w.phase.Idle? {
      DroppedRaiseIsSettled(cfg, u, r, |w.books.pending|);
    }
  }
}
