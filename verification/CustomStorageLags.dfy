/**
 * Exactly when the views of a custom-storage log view are right, over all its runs: told by what its
 * callers and its host have seen happen, and not by what the view holds.
 */
module CustomStorageLags {
  import opened Wrappers
  import opened StructuralKeys
  import DurableMachines
  import opened CustomStorage
  import opened CustomStorageBooks
  import opened CustomStorageViews
  import opened CustomStorageRuns
  import LogView

  // ----- What happens in a step -----

  /** A transition throws while a batch that was written is folded in. */
  predicate FoldThrows(w: World, action: Action) {
    action.WriteAnswer? && Landed(w.phase) && action.throwsAt.Some? && action.throwsAt.value < |w.phase.batch|
  }

  /** Storage is read, or cleared and read. */
  predicate ReadSucceeds(w: World, action: Action) {
    || (action == ReadAnswer(true) && w.phase.Reading? && w.phase.taken.Some?)
    || ((action.Load? || action.Clear?) && w.phase.Idle?)
  }

  /** A batch is written and folded in, or its loop gives up. */
  predicate WriteEnds(cfg: Config, w: World, action: Action) {
    action.WriteAnswer? && w.phase.Writing? && !FoldThrows(w, action) && (w.phase.landed || w.phase.attempts >= cfg.maxAttempts)
  }

  /** Some caller of a conditional append is told `false`. */
  ghost predicate TellsFalse(before: map<nat, bool>, after: map<nat, bool>) {
    exists id :: id !in before && id in after && !after[id]
  }

  // ----- The two conditions -----

  /** A fold threw, and storage has not been read since. */
  predicate ConfirmedLags(cfg: Config, actions: seq<Action>) {
    actions != [] &&
    var init, last := actions[..|actions| - 1], actions[|actions| - 1];
    var w := Run(cfg, Start(cfg.spec), init);
    FoldThrows(w, last) || (ConfirmedLags(cfg, init) && !ReadSucceeds(w, last))
  }

  /**
   * A caller was told `false` by a loop that went on to write, or a fold threw; and since then nothing
   * was read, no write ended, and no loop dropped everything it had.
   */
  ghost predicate TentativeLags(cfg: Config, actions: seq<Action>) {
    actions != [] &&
    var init, last := actions[..|actions| - 1], actions[|actions| - 1];
    var w := Run(cfg, Start(cfg.spec), init);
    var w' := Next(cfg, w, last);
    || FoldThrows(w, last)
    || if TellsFalse(w.books.settled, w'.books.settled) then w'.phase.Writing?
       else TentativeLags(cfg, init) && !ReadSucceeds(w, last) && !WriteEnds(cfg, w, last)
  }

  // ----- What they come to in the state -----

  ghost predicate Torn(v: View) {
    |v.folded| < v.version
  }

  ghost predicate Behind(w: World) {
    |w.view.folded| + |w.books.pending| < |w.view.under| + |w.view.shown|
  }

  lemma {:induction false} PushConditionalKeeps(spec: LogSpec, w: World, events: seq<Value>)
    ensures var u := PushConditional(spec, w, events);
      && u.view.folded == w.view.folded && u.view.version == w.view.version && u.view.under == w.view.under
      && |u.view.shown| == |w.view.shown| + |events| && |u.books.pending| == |w.books.pending| + |events|
      && u.books.settled == w.books.settled && u.phase == w.phase
    decreases |events|
  {
    if events != [] {
      PushConditionalKeeps(spec, w, events[..|events| - 1]);
    }
  }

  lemma EnqueueIsEven(spec: LogSpec, w: World, events: seq<Value>)
    ensures var u := Enqueue(spec, w, events);
      && (Torn(u.view) <==> Torn(w.view)) && (Behind(u) <==> Behind(w))
      && |u.books.pending| == |w.books.pending| + |events|
      && u.books.settled == w.books.settled && u.phase == w.phase
  {
    PushConditionalKeeps(spec, w, events);
    hide PushConditional;
  }

  /** A drop settles entries that were open, and leaves every answer given before. */
  lemma DropTells(b: Books, s: nat, b': Books)
    requires BooksInv(b, 0, false, []) && s <= |b.pending| && b' == DropFrom(b, s)
    requires s < |b.pending| ==> b.pending[s].position.Some?
    ensures TellsFalse(b.settled, b'.settled) <==> s < |b.pending|
    ensures forall id | id in b.settled :: id in b'.settled && b'.settled[id] == b.settled[id]
  {
    forall id ensures id in b.settled ==> id in b'.settled && b'.settled[id] == b.settled[id] {
      DroppedIds(b, s, b', id);
    }
    if s < |b.pending| {
      DroppedIds(b, s, b', b.pending[s].id);
    }
  }

  /** What the top of the loop does to the views, and whom it tells. */
  lemma TopStep(cfg: Config, u: World, attempts: nat)
    requires BooksInv(u.books, 0, false, [])
    ensures var w := LoopTop(cfg, u, attempts); var tells := TellsFalse(u.books.settled, w.books.settled);
      && (Torn(w.view) <==> Torn(u.view))
      && (if tells && !w.phase.Writing? then !Behind(w) else if tells then u.books.pending != [] else Behind(w) <==> Behind(u))
      && (forall id | id in u.books.settled :: id in w.books.settled && w.books.settled[id] == u.books.settled[id])
      && (w.phase.Closing? ==> w.phase.end.Drained? && !w.stranded && (tells <==> u.books.pending != []))
      && (tells && w.phase.Writing? ==> |w.books.pending| < |u.books.pending| && w.view == u.view)
  {
    hide BooksInv, DropFrom, FirstStale;
    if u.books.pending != [] {
      var s := FirstStale(u.view.version, u.books.pending, 0);
      var b := DropFrom(u.books, s);
      assert s < |u.books.pending| ==> StaleAt(u.view.version, u.books.pending, s);
      DropTells(u.books, s, b);
      StaleDropShrinks(u.books, u.view.version, b);
    }
  }

  /** Nothing is shown too little: what is dropped is shown too much. */
  lemma DropsBehind(cfg: Config, u: World, attempts: nat)
    requires BooksInv(u.books, 0, false, []) && ViewInv(cfg.spec, u.view, u.books.log, u.books.pending)
    ensures var w := LoopTop(cfg, u, attempts);
      Behind(w) <==> if TellsFalse(u.books.settled, w.books.settled) then w.phase.Writing? else Behind(u)
  {
    hide BooksInv, LoopTop, CachedInv;
    TopStep(cfg, u, attempts);
  }

  /** Answers of `true` given before the top of the loop do not matter to who is told `false`. */
  lemma TellsThrough(before: map<nat, bool>, es: seq<Entry>, between: map<nat, bool>, after: map<nat, bool>)
    requires between == Settle(before, es, true)
    requires forall id | id in between :: id in after && after[id] == between[id]
    requires forall id | id in ConditionalIds(es) :: id !in before
    ensures TellsFalse(before, after) <==> TellsFalse(between, after)
  {
    if TellsFalse(before, after) {
      var id :| id !in before && id in after && !after[id];
      assert id !in between;
    }
    if TellsFalse(between, after) {
      var id :| id !in between && id in after && !after[id];
      assert id !in before;
    }
  }

  lemma ReadAnswerStep(cfg: Config, w: World)
    requires Inv(cfg.spec, w) && w.phase.Reading? && w.phase.taken.Some?
    ensures var v := ReadAt(cfg.spec, w.view, w.books.log, w.phase.taken.value);
      Next(cfg, w, ReadAnswer(true)) ==
        LoopTop(cfg, w.(books := w.books.(settled := Settle(w.books.settled, w.phase.written, true)),
                        view := Recompute(cfg.spec, v, w.books.pending)), w.phase.attempts)
  {
    hide BooksInv, ViewInv, LoopTop, ReadAt, Recompute;
  }

  lemma OpenFlight(b: Books, cut: nat, landed: bool, flight: seq<Entry>)
    requires BooksInv(b, cut, landed, flight)
    ensures forall id | id in ConditionalIds(flight) :: id !in b.settled
    ensures landed ==> forall id | id in ConditionalIds(b.pending[..cut]) :: id !in b.settled
  {
    forall e | e in flight ensures e.id !in b.settled {
      var q :| 0 <= q < |flight| && flight[q] == e;
    }
    forall e | e in b.pending[..cut] ensures e.id !in b.settled {
      var q :| 0 <= q < cut && b.pending[..cut][q] == e;
      assert b.pending[q].id !in b.settled;
    }
  }

  /** A step that rebuilds both views and goes to the top of the loop. */
  lemma RebuiltTop(cfg: Config, before: map<nat, bool>, es: seq<Entry>, u: World, v: View, attempts: nat)
    requires BooksInv(u.books, 0, false, []) && CachedInv(cfg.spec, v, u.books.log)
    requires u.view == Recompute(cfg.spec, v, u.books.pending)
    requires u.books.settled == Settle(before, es, true) && forall id | id in ConditionalIds(es) :: id !in before
    ensures var w := LoopTop(cfg, u, attempts);
      && (Torn(w.view) <==> Torn(v))
      && (Behind(w) <==> TellsFalse(before, w.books.settled) && w.phase.Writing?)
      && (w.phase.Closing? ==> w.phase.end.Drained? && !w.stranded)
  {
    hide BooksInv, CachedInv, LoopTop;
    RecomputeShows(cfg.spec, v, u.books.log, u.books.pending);
    DropsBehind(cfg, u, attempts);
    TopStep(cfg, u, attempts);
    TellsThrough(before, es, u.books.settled, LoopTop(cfg, u, attempts).books.settled);
  }

  lemma ReadStep(cfg: Config, w: World)
    requires Inv(cfg.spec, w) && w.phase.Reading? && w.phase.taken.Some?
    ensures var w' := Next(cfg, w, ReadAnswer(true));
      !Torn(w'.view) && (Behind(w') <==> TellsFalse(w.books.settled, w'.books.settled) && w'.phase.Writing?)
    ensures var w' := Next(cfg, w, ReadAnswer(true)); w'.phase.Closing? ==> w'.phase.end.Drained? && !w'.stranded
  {
    ReadAnswerStep(cfg, w);
    var written := w.phase.written;
    OpenFlight(w.books, 0, false, written);
    var v := ReadAt(cfg.spec, w.view, w.books.log, w.phase.taken.value);
    ReadKeepsCached(cfg.spec, w.view, w.books.log, w.phase.taken.value);
    var b := w.books.(settled := Settle(w.books.settled, written, true));
    SettleKeepsBooks(w.books, written, b);
    hide BooksInv, CachedInv, LoopTop, Next;
    RebuiltTop(cfg, w.books.settled, written, w.(books := b, view := Recompute(cfg.spec, v, w.books.pending)), v, w.phase.attempts);
  }

  lemma LandedStep(cfg: Config, w: World, throwsAt: Option<nat>)
    requires Inv(cfg.spec, w) && Landed(w.phase) && !FoldThrows(w, WriteAnswer(throwsAt))
    ensures var w' := Next(cfg, w, WriteAnswer(throwsAt));
      && (Torn(w'.view) <==> Torn(w.view))
      && (Behind(w') <==> TellsFalse(w.books.settled, w'.books.settled) && w'.phase.Writing?)
      && (w'.phase.Closing? ==> w'.phase.end.Drained? && !w'.stranded)
  {
    hide BooksInv, CachedInv, TentativeInv, LoopTop, FoldBatch, Recompute, TellsFalse, Behind, Positioned, Settle;
    var batch := w.phase.batch;
    var rest := w.books.pending[|batch|..];
    FoldedBatch(cfg.spec, w.view, w.books.log, batch, throwsAt);
    var v := FoldBatch(cfg.spec, w.view, batch, throwsAt);
    var b := w.books.(pending := rest, settled := Settle(w.books.settled, batch, true));
    OpenFlight(w.books, |batch|, true, []);
    BatchSettled(w.books, batch, b);
    RebuiltTop(cfg, w.books.settled, batch, w.(books := b, view := Recompute(cfg.spec, v, rest)), v, 0);
  }

  lemma TornStep(cfg: Config, w: World, action: Action)
    requires Inv(cfg.spec, w) && FoldThrows(w, action)
    ensures var w' := Next(cfg, w, action); Torn(w'.view) && Behind(w') && w'.phase.Reading?
  {
    FoldedBatch(cfg.spec, w.view, w.books.log, w.phase.batch, action.throwsAt);
    hide BooksInv, CachedInv, FoldBatch;
  }

  lemma NothingTold(settled: map<nat, bool>)
    ensures !TellsFalse(settled, settled)
  {
  }

  /** A loop that is started, by a confirm or by a raise. */
  lemma StartStep(cfg: Config, u: World)
    requires BooksInv(u.books, 0, false, []) && ViewInv(cfg.spec, u.view, u.books.log, u.books.pending)
    ensures var w' := LoopTop(cfg, u, 0);
      && (Torn(w'.view) <==> Torn(u.view))
      && (Behind(w') <==> if TellsFalse(u.books.settled, w'.books.settled) then w'.phase.Writing? else Behind(u))
      && (w'.phase.Closing? ==> w'.phase.end.Drained? && !w'.stranded && (TellsFalse(u.books.settled, w'.books.settled) <==> u.books.pending != []))
  {
    hide BooksInv, ViewInv, LoopTop;
    TopStep(cfg, u, 0);
    DropsBehind(cfg, u, 0);
  }

  /** What one step does to the views. */
  ghost predicate StepsRight(cfg: Config, w: World, action: Action) {
    var w' := Next(cfg, w, action);
    && (Torn(w'.view) <==> FoldThrows(w, action) || (Torn(w.view) && !ReadSucceeds(w, action)))
    && (Behind(w') <==>
          || FoldThrows(w, action)
          || if TellsFalse(w.books.settled, w'.books.settled) then w'.phase.Writing?
             else Behind(w) && !ReadSucceeds(w, action) && !WriteEnds(cfg, w, action))
  }

  /** What the step that ends a loop, other than by a failed re-read, leaves. */
  ghost predicate EndsRight(cfg: Config, w: World, action: Action) {
    var w' := Next(cfg, w, action);
    !w.phase.Closing? && w'.phase.Closing? && !w'.phase.end.ReadFailed? ==>
      && !w'.stranded
      && (Behind(w') <==> action.Confirm? && w.books.pending == [] && Behind(w))
  }

  lemma RaiseSteps(cfg: Config, w: World, events: seq<Value>)
    requires Inv(cfg.spec, w)
    ensures StepsRight(cfg, w, TryAppend(events)) && EndsRight(cfg, w, TryAppend(events))
  {
    hide BooksInv, ViewInv, PhaseInv, LoopTop, Enqueue, TellsFalse, Behind, Torn;
    NothingTold(w.books.settled);
    if events != [] {
      EnqueueKeeps(cfg.spec, w, events);
      EnqueueIsEven(cfg.spec, w, events);
      if w.phase.Idle? {
        StartStep(cfg, Enqueue(cfg.spec, w, events));
      }
    }
  }

  lemma ConfirmSteps(cfg: Config, w: World)
    requires Inv(cfg.spec, w)
    ensures StepsRight(cfg, w, Confirm) && EndsRight(cfg, w, Confirm)
  {
    hide BooksInv, ViewInv, LoopTop, TellsFalse, Behind;
    NothingTold(w.books.settled);
    if w.phase.Idle? {
      StartStep(cfg, w);
    }
  }

  lemma WriteSteps(cfg: Config, w: World, throwsAt: Option<nat>)
    requires Inv(cfg.spec, w)
    ensures StepsRight(cfg, w, WriteAnswer(throwsAt)) && EndsRight(cfg, w, WriteAnswer(throwsAt))
  {
    PhaseFacts(cfg.spec, w);
    NothingTold(w.books.settled);
    if FoldThrows(w, WriteAnswer(throwsAt)) {
      TornStep(cfg, w, WriteAnswer(throwsAt));
    } else if Landed(w.phase) {
      LandedStep(cfg, w, throwsAt);
    }
    hide Inv, LoopTop, FoldBatch, DropFrom;
  }

  lemma ReadSteps(cfg: Config, w: World, answered: bool)
    requires Inv(cfg.spec, w)
    ensures StepsRight(cfg, w, ReadAnswer(answered)) && EndsRight(cfg, w, ReadAnswer(answered))
  {
    NothingTold(w.books.settled);
    if answered && w.phase.Reading? && w.phase.taken.Some? {
      ReadStep(cfg, w);
    }
    hide Inv, LoopTop, ReadAt;
  }

  lemma OtherSteps(cfg: Config, w: World, action: Action)
    requires Inv(cfg.spec, w)
    requires !action.TryAppend? && !action.Confirm? && !action.WriteAnswer? && !action.ReadAnswer?
    ensures StepsRight(cfg, w, action) && EndsRight(cfg, w, action)
  {
    hide Inv;
    NothingTold(w.books.settled);
  }

  lemma EveryStep(cfg: Config, w: World, action: Action)
    requires Inv(cfg.spec, w)
    ensures StepsRight(cfg, w, action) && EndsRight(cfg, w, action)
  {
    hide Inv, StepsRight, EndsRight;
    match action
    case TryAppend(events) => RaiseSteps(cfg, w, events);
    case Confirm => ConfirmSteps(cfg, w);
    case WriteAnswer(throwsAt) => WriteSteps(cfg, w, throwsAt);
    case ReadAnswer(answered) => ReadSteps(cfg, w, answered);
    case _ => OtherSteps(cfg, w, action);
  }

  lemma {:induction false} LagsInState(cfg: Config, actions: seq<Action>)
    ensures var w := Run(cfg, Start(cfg.spec), actions);
      (Torn(w.view) <==> ConfirmedLags(cfg, actions)) && (Behind(w) <==> TentativeLags(cfg, actions))
    decreases |actions|
  {
    hide Inv, Next, FoldThrows, ReadSucceeds, WriteEnds, TellsFalse;
    if actions != [] {
      var init := actions[..|actions| - 1];
      LagsInState(cfg, init);
      RunKeepsInv(cfg, init);
      EveryStep(cfg, Run(cfg, Start(cfg.spec), init), actions[|actions| - 1]);
    }
  }

  // ----- The views -----

  /** In every reachable state each view is the fold of the events it shows, in the order it shows them. */
  lemma ViewsAreFolds(cfg: Config, actions: seq<Action>)
    ensures var w := Run(cfg, Start(cfg.spec), actions); var v, log := w.view, w.books.log;
      && v.version <= |log| && InLog(log, v.folded) && InLog(log, v.under)
      && v.cached == LogView.Fold(cfg.spec, cfg.spec.initial, At(log, v.folded))
      && v.tentative == LogView.Fold(cfg.spec, cfg.spec.initial, At(log, v.under) + Events(v.shown))
  {
    RunKeepsInv(cfg, actions);
  }

  /**
   * Exactly when the confirmed view has folded in storage's first `version` events: unless a fold
   * threw and storage has not been read since.
   */
  lemma ConfirmedIsWholeIff(cfg: Config, actions: seq<Action>)
    ensures var v := Run(cfg, Start(cfg.spec), actions).view; v.folded == Span(0, v.version) <==> !ConfirmedLags(cfg, actions)
  {
    RunKeepsInv(cfg, actions);
    LagsInState(cfg, actions);
    hide Run, BooksInv;
  }

  /**
   * Exactly when the tentative view shows what is pending on top of the confirmed view: unless a
   * loop told a caller `false` and went on, or a fold threw, and no later read or write made up for it.
   */
  lemma TentativeIsRightIff(cfg: Config, actions: seq<Action>)
    ensures var w := Run(cfg, Start(cfg.spec), actions);
      w.view.under == w.view.folded && w.view.shown == w.books.pending <==> !TentativeLags(cfg, actions)
  {
    RunKeepsInv(cfg, actions);
    LagsInState(cfg, actions);
    hide Run, BooksInv, CachedInv;
  }

  /** Where neither lags, the confirmed view is the fold of storage, and the tentative view adds the queue. */
  lemma ViewIsFoldOfStorage(cfg: Config, actions: seq<Action>)
    ensures var w := Run(cfg, Start(cfg.spec), actions); var v, b := w.view, w.books;
      && v.version <= |b.log|
      && (!ConfirmedLags(cfg, actions) ==> v.cached == LogView.Fold(cfg.spec, cfg.spec.initial, LogEvents(b.log[..v.version])))
      && (!TentativeLags(cfg, actions) ==> v.tentative == LogView.Fold(cfg.spec, v.cached, Events(b.pending)))
  {
    ViewsAreFolds(cfg, actions);
    ConfirmedIsWholeIff(cfg, actions);
    TentativeIsRightIff(cfg, actions);
    hide Run, ConfirmedLags, TentativeLags;
    var w := Run(cfg, Start(cfg.spec), actions);
    AtSpan(w.books.log, 0, w.view.version);
    LogView.FoldConcat(cfg.spec, cfg.spec.initial, At(w.books.log, w.view.folded), Events(w.books.pending));
  }

  // ----- A grain that can tell -----

  /** The view of a grain that keeps every event it is given. */
  function Record(view: Value, e: Value): Value {
    if view.Arr? then Arr(view.items + [e]) else view
  }

  const RECORDER := DurableMachines.LogSpec(Arr([]), Record)

  lemma {:induction false} RecordsAll(items: seq<Value>, events: seq<Value>)
    ensures LogView.Fold(RECORDER, Arr(items), events) == Arr(items + events)
    decreases |events|
  {
    if events == [] {
      assert items + events == items;
    } else {
      RecordsAll(items, events[..|events| - 1]);
      assert items + events == (items + events[..|events| - 1]) + [events[|events| - 1]];
    }
  }

  lemma RecorderViews(cfg: Config, actions: seq<Action>)
    requires cfg.spec == RECORDER
    ensures var w := Run(cfg, Start(cfg.spec), actions); var v, b := w.view, w.books;
      && v.version <= |b.log| && InLog(b.log, v.folded) && InLog(b.log, v.under)
      && v.cached == Arr(At(b.log, v.folded))
      && v.tentative == Arr(At(b.log, v.under) + Events(v.shown))
      && LogView.Fold(cfg.spec, cfg.spec.initial, LogEvents(b.log[..v.version])) == Arr(LogEvents(b.log[..v.version]))
      && LogView.Fold(cfg.spec, v.cached, Events(b.pending)) == Arr(At(b.log, v.folded) + Events(b.pending))
  {
    hide Run, LogView.Fold;
    ViewsAreFolds(cfg, actions);
    var w := Run(cfg, Start(cfg.spec), actions);
    var v, b := w.view, w.books;
    RecordsAll([], At(b.log, v.folded));
    RecordsAll([], At(b.log, v.under) + Events(v.shown));
    RecordsAll([], LogEvents(b.log[..v.version]));
    RecordsAll(At(b.log, v.folded), Events(b.pending));
    assert forall events: seq<Value> :: [] + events == events;
  }

  lemma LengthsTell(a: seq<Value>, b: seq<Value>)
    requires |a| != |b|
    ensures Arr(a) != Arr(b)
  {
    assert Arr(a).items != Arr(b).items;
  }

  /** For a grain that keeps every event, the views have the right values in no other case. */
  lemma RecorderTells(cfg: Config, actions: seq<Action>)
    requires cfg.spec == RECORDER
    ensures var w := Run(cfg, Start(cfg.spec), actions); var v, b := w.view, w.books;
      && v.version <= |b.log|
      && (v.cached == LogView.Fold(cfg.spec, cfg.spec.initial, LogEvents(b.log[..v.version])) <==> !ConfirmedLags(cfg, actions))
      && (v.tentative == LogView.Fold(cfg.spec, v.cached, Events(b.pending)) <==> !TentativeLags(cfg, actions))
  {
    hide Run, LogView.Fold, ConfirmedLags, TentativeLags;
    ViewIsFoldOfStorage(cfg, actions);
    LagsInState(cfg, actions);
    RecorderViews(cfg, actions);
    var w := Run(cfg, Start(cfg.spec), actions);
    var v, b := w.view, w.books;
    if Torn(v) {
      LengthsTell(At(b.log, v.folded), LogEvents(b.log[..v.version]));
    }
    if Behind(w) {
      LengthsTell(At(b.log, v.under) + Events(v.shown), At(b.log, v.folded) + Events(b.pending));
    }
  }

  // ----- The end of a loop -----

  lemma QuietMeansSettled(w: World)
    requires BooksInv(w.books, 0, false, []) && AllUnconditional(w.books.pending)
    ensures forall id | w.books.base <= id < |w.books.raised| && w.books.raised[id].position.Some? ::
      id in w.books.settled <==> id !in w.books.abandoned
  {
    var b := w.books;
    forall id | b.base <= id < |b.raised| && b.raised[id].position.Some? ensures id in b.settled <==> id !in b.abandoned {
      assert EntryInv(b, [], id);
      assert id in b.abandoned ==> Abandoned(b, [], id);
      forall q | 0 <= q < |b.pending| ensures b.pending[q].id != id {
        assert Known(b.pending[q], b.raised);
      }
    }
  }

  /**
   * A confirm loop that ends, with no re-read having failed, has told everyone but the callers of
   * abandoned entries; and the tentative view shows what is pending, unless the loop found nothing to
   * do and it already lagged.
   */
  lemma LoopEndSettlesEveryone(cfg: Config, actions: seq<Action>, action: Action)
    requires var w := Run(cfg, Start(cfg.spec), actions); var w' := Next(cfg, w, action);
      !w.phase.Closing? && w'.phase.Closing? && !w'.phase.end.ReadFailed?
    ensures var w := Run(cfg, Start(cfg.spec), actions); var w' := Next(cfg, w, action);
      && (forall id | w'.books.base <= id < |w'.books.raised| && w'.books.raised[id].position.Some? ::
            id in w'.books.settled <==> id !in w'.books.abandoned)
      && (w'.view.under == w'.view.folded && w'.view.shown == w'.books.pending
          <==> !(action.Confirm? && w.books.pending == [] && TentativeLags(cfg, actions)))
  {
    var w := Run(cfg, Start(cfg.spec), actions);
    RunKeepsInv(cfg, actions);
    LagsInState(cfg, actions);
    EveryStep(cfg, w, action);
    NextKeepsInv(cfg, w, action);
    hide Next, BooksInv, CachedInv, Run, TentativeLags;
    QuietMeansSettled(Next(cfg, w, action));
  }

  /** An abandoned entry is in storage, at the position it was raised for, though its caller saw a failure. */
  lemma AbandonedIsStored(cfg: Config, actions: seq<Action>, id: nat)
    requires var b := Run(cfg, Start(cfg.spec), actions).books; b.base <= id && id in b.abandoned
    ensures var b := Run(cfg, Start(cfg.spec), actions).books;
      id < |b.raised| && Stored(b.log, b.raised[id]) && NotIn(b.pending, id) && id !in b.settled
  {
    RunKeepsInv(cfg, actions);
    var w := Run(cfg, Start(cfg.spec), actions);
    assert Abandoned(w.books, Flight(w.phase), id);
    assert EntryInv(w.books, Flight(w.phase), id);
  }

  // ----- Two runs after which a view is wrong -----

  lemma RunStep(cfg: Config, w: World, actions: seq<Action>, action: Action)
    ensures Run(cfg, w, actions + [action]) == Next(cfg, Run(cfg, w, actions), action)
  {
    assert (actions + [action])[..|actions|] == actions;
  }

  /** A conditional raise loses its race to `x`; the next write fails, and then so does the re-read. */
  function LostRace(a: Value, x: Value, u: Value): seq<Action> {
    [TryAppend([a]), ForeignWrite([x]), WriteAnswer(None), Submit(u), HostReads, ReadAnswer(true), WriteAnswer(None), ReadAnswer(false)]
  }

  /** A loop whose whole queue is fresh writes it as it is. */
  lemma FreshTop(cfg: Config, w: World, attempts: nat)
    requires w.books.pending != [] && Positioned(w.books.pending, w.view.version)
    ensures LoopTop(cfg, w, attempts) == w.(phase := Writing(w.books.pending, attempts + 1, false))
  {
    var n := |w.books.pending|;
    assert FirstStale(w.view.version, w.books.pending, 0) == n;
    assert w.books.pending[n..] == [] && w.books.pending[..n] == w.books.pending;
    assert ConditionalIds([]) == {};
    assert Settle(w.books.settled, [], false) == w.books.settled;
    assert DropFrom(w.books, n).pending == w.books.pending;
  }

  lemma PushOne(cfg: Config, w: World, a: Value)
    ensures PushConditional(cfg.spec, w, [a]) == Push(cfg.spec, w, a, Some(w.view.version + |w.books.pending|))
  {
    hide Push;
    assert [a][..0] == [];
    assert PushConditional(cfg.spec, w, []) == w;
  }

  lemma RaceRaised(cfg: Config, a: Value) returns (w: World)
    ensures w == Next(cfg, Start(cfg.spec), TryAppend([a]))
    ensures w.books.pending == [Entry(0, a, Some(0))] && w.books.raised == [Entry(0, a, Some(0))]
    ensures w.phase == Writing(w.books.pending, 1, false) && w.books.log == [] && w.books.settled == map[]
  {
    var s := Start(cfg.spec);
    w := Next(cfg, s, TryAppend([a]));
    PushOne(cfg, s, a);
    var u := Enqueue(cfg.spec, s, [a]);
    assert u.books.pending == [Entry(0, a, Some(0))] && u.books.raised == [Entry(0, a, Some(0))];
    FreshTop(cfg, u, 0);
    hide LoopTop;
  }

  lemma RaceSteps(cfg: Config, w: World, e: Entry, x: Value, u: Value) returns (w': World)
    requires cfg.maxAttempts >= 2
    requires w.books.pending == w.books.raised == [e] && w.phase == Writing([e], 1, false) && w.books.log == []
    ensures w' == Next(cfg, Next(cfg, Next(cfg, Next(cfg, w, ForeignWrite([x])), WriteAnswer(None)), Submit(u)), HostReads)
    ensures w'.phase == Reading(1, Some(1), []) && w'.books.log == [Foreign(x)]
    ensures w'.books.pending == [e, Entry(1, u, None)] && w'.books.settled == w.books.settled
  {
    var w1 := Next(cfg, w, ForeignWrite([x]));
    assert w1.books.log == [Foreign(x)];
    var w2 := Next(cfg, w1, WriteAnswer(None));
    var w3 := Next(cfg, w2, Submit(u));
    assert w3.books.pending == [e, Entry(1, u, None)];
    w' := Next(cfg, w3, HostReads);
  }

  lemma RunFive(cfg: Config, s: World, all: seq<Action>)
    requires |all| >= 5
    ensures Run(cfg, s, all[..5]) ==
      Next(cfg, Next(cfg, Next(cfg, Next(cfg, Next(cfg, s, all[0]), all[1]), all[2]), all[3]), all[4])
  {
    var none: seq<Action> := [];
    assert Run(cfg, s, none) == s;
    hide Next, Run;
    assert all[..1] == none + [all[0]] && all[..2] == all[..1] + [all[1]] && all[..3] == all[..2] + [all[2]];
    assert all[..4] == all[..3] + [all[3]] && all[..5] == all[..4] + [all[4]];
    RunStep(cfg, s, none, all[0]);
    RunStep(cfg, s, all[..1], all[1]);
    RunStep(cfg, s, all[..2], all[2]);
    RunStep(cfg, s, all[..3], all[3]);
    RunStep(cfg, s, all[..4], all[4]);
  }

  /** The run of `LostRace` up to the re-read that reveals the raise as stale. */
  lemma RaceLost(cfg: Config, a: Value, x: Value, u: Value) returns (w: World)
    requires cfg.maxAttempts >= 3
    ensures w == Run(cfg, Start(cfg.spec), LostRace(a, x, u)[..5])
    ensures w.phase == Reading(1, Some(1), []) && w.books.log == [Foreign(x)]
    ensures w.books.pending == [Entry(0, a, Some(0)), Entry(1, u, None)] && w.books.settled == map[]
  {
    hide Next, Run;
    RunFive(cfg, Start(cfg.spec), LostRace(a, x, u));
    var raised := RaceRaised(cfg, a);
    w := RaceSteps(cfg, raised, Entry(0, a, Some(0)), x, u);
  }

  /**
   * A loop that ends because a re-read failed can leave a dropped entry in the tentative view:
   * dropping stale entries does not recompute it, only the next successful write or read does.
   */
  lemma DroppedEntryStaysVisible(cfg: Config, a: Value, x: Value, u: Value)
    requires cfg.maxAttempts >= 3
    ensures var w := Run(cfg, Start(cfg.spec), LostRace(a, x, u));
      && w.phase == Closing(ReadFailed)
      && w.books.settled == map[0 := false]
      && w.books.pending == [Entry(1, u, None)]
      && w.view.cached == cfg.spec.transition(cfg.spec.initial, x)
      && w.view.tentative == cfg.spec.transition(cfg.spec.transition(w.view.cached, a), u)
  {
    var s, all := Start(cfg.spec), LostRace(a, x, u);
    var w := RaceLost(cfg, a, x, u);
    var w' := Next(cfg, w, ReadAnswer(true));
    RaceRead(cfg, w, a, x, u);
    RaceEnds(cfg, w');
    hide Next, Run;
    RunStep(cfg, s, all[..5], all[5]);
    assert all[..6] == all[..5] + [all[5]];
    RunStep(cfg, s, all[..6], all[6]);
    assert all[..7] == all[..6] + [all[6]];
    RunStep(cfg, s, all[..7], all[7]);
    assert all == all[..7] + [all[7]];
  }

  lemma RaceEnds(cfg: Config, w: World)
    requires cfg.maxAttempts >= 3 && w.phase == Writing(w.books.pending, 2, false)
    ensures var w' := Next(cfg, Next(cfg, w, WriteAnswer(None)), ReadAnswer(false));
      && w'.phase == Closing(ReadFailed) && w'.view == w.view
      && w'.books.pending == w.books.pending && w'.books.settled == w.books.settled
  {
  }

  lemma FoldTwo(spec: LogSpec, view: Value, a: Value, u: Value)
    ensures LogView.Fold(spec, view, [a]) == spec.transition(view, a)
    ensures LogView.Fold(spec, view, [a, u]) == spec.transition(spec.transition(view, a), u)
  {
    assert [a][..0] == [] && [a, u][..1] == [a];
  }

  lemma RaceRead(cfg: Config, w: World, a: Value, x: Value, u: Value)
    requires w.phase == Reading(1, Some(1), []) && w.books.log == [Foreign(x)]
    requires w.books.pending == [Entry(0, a, Some(0)), Entry(1, u, None)] && w.books.settled == map[]
    ensures var w' := Next(cfg, w, ReadAnswer(true));
      && w'.phase == Writing([Entry(1, u, None)], 2, false) && w'.books.pending == [Entry(1, u, None)]
      && w'.books.settled == map[0 := false] && w'.books.log == [Foreign(x)]
      && w'.view.cached == cfg.spec.transition(cfg.spec.initial, x)
      && w'.view.tentative == cfg.spec.transition(cfg.spec.transition(w'.view.cached, a), u)
  {
    var e, f := Entry(0, a, Some(0)), Entry(1, u, None);
    var spec := cfg.spec;
    FoldTwo(spec, spec.initial, x, x);
    FoldTwo(spec, spec.transition(spec.initial, x), a, u);
    assert LogEvents([Foreign(x)][..1]) == [x] && Events([e, f]) == [a, u];
    assert ConditionalIds([]) == {};
    assert Settle(map[], [], true) == map[];
    assert FirstStale(1, [e, f], 0) == 0;
    assert [e, f][0..] == [e, f] && [e, f][1..] == [f];
    assert Unconditional([f]) == [f] && Unconditional([e, f]) == [f];
    assert e in [e, f] && f in [e, f] && ConditionalIds([e, f]) == {0};
    assert Settle(map[], [e, f], false) == map[0 := false];
  }

  /** A fold throws, the re-read fails; the next loop is none the wiser. */
  function TornRun(a: Value, c: Value): seq<Action> {
    [Submit(a), Confirm, HostWrites, WriteAnswer(Some(0)), ReadAnswer(false), FinallyRuns,
     Submit(c), Confirm, HostWrites, WriteAnswer(None)]
  }

  lemma SubmitLands(cfg: Config, w: World, x: Value)
    requires w.phase.Idle? && w.books.pending == [] && |w.books.log| == w.view.version
    ensures var e := Entry(|w.books.raised|, x, None);
      var w' := Next(cfg, Next(cfg, Next(cfg, w, Submit(x)), Confirm), HostWrites);
      && w'.phase == Writing([e], 1, true) && w'.books.pending == [e] && w'.books.log == w.books.log + [Own(e)]
      && w'.view.version == w.view.version && w'.view.cached == w.view.cached
  {
    hide LoopTop;
    var e := Entry(|w.books.raised|, x, None);
    var u := Next(cfg, w, Submit(x));
    assert u.books.pending == [e];
    FreshTop(cfg, u, 0);
    assert Owned([e]) == [Own(e)];
  }

  lemma FoldTears(cfg: Config, w: World, e: Entry)
    requires w.phase == Writing([e], 1, true) && w.books.pending == [e]
    ensures var w' := Next(cfg, Next(cfg, Next(cfg, w, WriteAnswer(Some(0))), ReadAnswer(false)), FinallyRuns);
      && w'.phase.Idle? && w'.books.pending == [] && w'.books.log == w.books.log
      && w'.view.version == w.view.version + 1 && w'.view.cached == w.view.cached
  {
    assert [e][1..] == [] && Events([e][..0]) == [];
  }

  lemma FoldCatchesUp(cfg: Config, w: World, e: Entry)
    requires w.phase == Writing([e], 1, true) && w.books.pending == [e]
    ensures var w' := Next(cfg, w, WriteAnswer(None));
      && w'.phase == Closing(Drained) && w'.books.pending == [] && w'.books.log == w.books.log
      && w'.view.version == w.view.version + 1 && w'.view.cached == cfg.spec.transition(w.view.cached, e.event)
  {
    assert [e][1..] == [] && Events([e]) == [e.event];
    FoldTwo(cfg.spec, w.view.cached, e.event, e.event);
  }

  lemma RunTen(cfg: Config, s: World, all: seq<Action>)
    requires |all| == 10
    ensures Run(cfg, s, all) ==
      Next(cfg, Next(cfg, Next(cfg, Next(cfg, Next(cfg, Run(cfg, s, all[..5]), all[5]), all[6]), all[7]), all[8]), all[9])
  {
    hide Next, Run;
    assert all[..6] == all[..5] + [all[5]] && all[..7] == all[..6] + [all[6]] && all[..8] == all[..7] + [all[7]];
    assert all[..9] == all[..8] + [all[8]] && all == all[..9] + [all[9]];
    RunStep(cfg, s, all[..5], all[5]);
    RunStep(cfg, s, all[..6], all[6]);
    RunStep(cfg, s, all[..7], all[7]);
    RunStep(cfg, s, all[..8], all[8]);
    RunStep(cfg, s, all[..9], all[9]);
  }

  /**
   * An event missing from the confirmed view stays missing: a later loop ends drained, at the version
   * of storage, without it.
   */
  lemma TornViewOutlivesItsLoop(cfg: Config, a: Value, c: Value)
    ensures var w := Run(cfg, Start(cfg.spec), TornRun(a, c));
      && w.phase == Closing(Drained) && w.books.pending == []
      && LogEvents(w.books.log) == [a, c] && w.view.version == 2
      && w.view.cached == cfg.spec.transition(cfg.spec.initial, c)
  {
    hide Next, Run;
    var s, all := Start(cfg.spec), TornRun(a, c);
    RunFive(cfg, s, all);
    RunTen(cfg, s, all);
    SubmitLands(cfg, s, a);
    var w := Next(cfg, Next(cfg, Next(cfg, s, all[0]), all[1]), all[2]);
    FoldTears(cfg, w, Entry(0, a, None));
    var torn := Next(cfg, Next(cfg, Next(cfg, w, all[3]), all[4]), all[5]);
    SubmitLands(cfg, torn, c);
    var last := Next(cfg, Next(cfg, Next(cfg, torn, all[6]), all[7]), all[8]);
    FoldCatchesUp(cfg, last, last.phase.batch[0]);
  }
}
