/**
 * The log view of a grain that owns its storage. Other writers append to the same storage; the
 * confirm loop writes the queue under a compare-and-set on the version, and an entry raised
 * conditionally carries the position it must land at.
 */
module CustomStorage {
  import opened Wrappers
  import DurableMachines
  import LogView

  type Value = DurableMachines.Value
  type LogSpec = DurableMachines.LogSpec

  /** `position` is the version the entry must land at; `None` for an unconditional one. */
  datatype Entry = Entry(id: nat, event: Value, position: Option<nat>)

  /** What storage holds, with the writer it came from. */
  datatype Item = Foreign(event: Value) | Own(entry: Entry)

  datatype Config = Config(spec: LogSpec, maxAttempts: nat)

  function EventOf(item: Item): Value {
    match item
    case Foreign(e) => e
    case Own(entry) => entry.event
  }

  function LogEvents(log: seq<Item>): (r: seq<Value>)
    ensures |r| == |log|
  {
    seq(|log|, i requires 0 <= i < |log| => EventOf(log[i]))
  }

  function Events(es: seq<Entry>): (r: seq<Value>)
    ensures |r| == |es|
  {
    seq(|es|, i requires 0 <= i < |es| => es[i].event)
  }

  function Owned(es: seq<Entry>): (r: seq<Item>)
    ensures |r| == |es|
  {
    seq(|es|, i requires 0 <= i < |es| => Own(es[i]))
  }

  function Foreigns(events: seq<Value>): (r: seq<Item>)
    ensures |r| == |events|
  {
    seq(|events|, i requires 0 <= i < |events| => Foreign(events[i]))
  }

  function Unconditional(es: seq<Entry>): seq<Entry> {
    if es == [] then [] else (if es[0].position.None? then [es[0]] else []) + Unconditional(es[1..])
  }

  function ConditionalIds(es: seq<Entry>): set<nat> {
    set e | e in es && e.position.Some? :: e.id
  }

  /** Settles the callers of the conditional entries among `es`. */
  function Settle(settled: map<nat, bool>, es: seq<Entry>, appended: bool): map<nat, bool> {
    settled + map id | id in ConditionalIds(es) :: appended
  }

  predicate StaleAt(version: nat, es: seq<Entry>, q: nat)
    requires q < |es|
  {
    es[q].position.Some? && es[q].position.value != version + q
  }

  /** The first conditional entry that would not land at its position, from `q` on. */
  function FirstStale(version: nat, es: seq<Entry>, q: nat): (s: nat)
    requires q <= |es|
    ensures q <= s <= |es|
    ensures forall k | q <= k < s :: !StaleAt(version, es, k)
    ensures s < |es| ==> StaleAt(version, es, s)
    decreases |es| - q
  {
    if q < |es| && !StaleAt(version, es, q) then FirstStale(version, es, q + 1) else q
  }

  // ----- The state -----

  /**
   * Where every entry is: in storage, in the queue, or settled. `raised` lists all entries ever
   * raised by id, those before `base` before the log was last cleared; `ranges` the ids of each
   * conditional range since. `abandoned` are the conditional entries of written batches whose fold
   * threw and whose re-read failed: their callers get that failure for an answer.
   */
  datatype Books = Books(
    log: seq<Item>, pending: seq<Entry>, settled: map<nat, bool>,
    raised: seq<Entry>, ranges: seq<(nat, nat)>, base: nat, abandoned: set<nat>)

  /**
   * `folded` are the indices of storage whose events `cached` has folded in. `under` are those it had
   * when `tentative` was last rebuilt, and `shown` the entries that `tentative` shows on top of them.
   */
  datatype View = View(version: nat, cached: Value, tentative: Value, folded: seq<nat>, under: seq<nat>, shown: seq<Entry>)

  datatype End = Drained | Exhausted | ReadFailed

  /**
   * The awaits of the confirm loop. `Writing` holds the batch in flight, which stays at the front of
   * the queue, and whether the host has applied it; `Reading` the version read so far and a written
   * batch still to be settled. `Closing` is a loop that has ended but is still installed.
   */
  datatype Phase =
    | Idle
    | Writing(batch: seq<Entry>, attempts: nat, landed: bool)
    | Reading(attempts: nat, taken: Option<nat>, written: seq<Entry>)
    | Closing(end: End)

  /** `stranded`: conditional entries may be waiting although no loop runs. */
  datatype World = World(books: Books, view: View, phase: Phase, stranded: bool)

  // ----- Its operations -----

  function Recompute(spec: LogSpec, v: View, pending: seq<Entry>): View {
    v.(tentative := LogView.Fold(spec, v.cached, Events(pending)), under := v.folded, shown := pending)
  }

  /** Drops the conditional entries from index `s` on and tells their callers `false`. */
  function DropFrom(b: Books, s: nat): Books
    requires s <= |b.pending|
  {
    b.(pending := b.pending[..s] + Unconditional(b.pending[s..]), settled := Settle(b.settled, b.pending[s..], false))
  }

  /** The top of the confirm loop, up to its next await. */
  function LoopTop(cfg: Config, w: World, attempts: nat): World {
    if w.books.pending == [] then w.(phase := Closing(Drained), stranded := false)
    else
      var s := FirstStale(w.view.version, w.books.pending, 0);
      var b := DropFrom(w.books, s);
      if b.pending == [] then World(b, Recompute(cfg.spec, w.view, []), Closing(Drained), false)
      else w.(books := b, phase := Writing(b.pending, attempts + 1, false))
  }

  function Push(spec: LogSpec, w: World, event: Value, position: Option<nat>): World {
    var e := Entry(|w.books.raised|, event, position);
    w.(books := w.books.(pending := w.books.pending + [e], raised := w.books.raised + [e]),
       view := w.view.(tentative := spec.transition(w.view.tentative, event), shown := w.view.shown + [e]))
  }

  function PushConditional(spec: LogSpec, w: World, events: seq<Value>): World {
    if events == [] then w
    else
      var u := PushConditional(spec, w, events[..|events| - 1]);
      Push(spec, u, events[|events| - 1], Some(u.view.version + |u.books.pending|))
  }

  /** `confirmSubmittedEntries`: starts a loop unless one is installed. */
  function Join(cfg: Config, w: World): World {
    if w.phase.Idle? then LoopTop(cfg, w, 0) else w
  }

  /** A conditional range takes consecutive positions at the end of the queue. */
  function Enqueue(spec: LogSpec, w: World, events: seq<Value>): World {
    var u := PushConditional(spec, w, events);
    u.(books := u.books.(ranges := u.books.ranges + [(|w.books.raised|, |events|)]),
       stranded := u.stranded || u.phase.Closing?)
  }

  function TryAppendRange(cfg: Config, w: World, events: seq<Value>): World {
    if events == [] then w else Join(cfg, Enqueue(cfg.spec, w, events))
  }

  function Span(first: nat, n: nat): (r: seq<nat>)
    ensures |r| == n
  {
    seq(n, i requires 0 <= i < n => first + i)
  }

  /** The view after a batch that was written has been folded in; a fold that throws leaves the rest out. */
  function FoldBatch(spec: LogSpec, v: View, batch: seq<Entry>, throwsAt: Option<nat>): View {
    if throwsAt.Some? && throwsAt.value < |batch| then
      v.(version := v.version + throwsAt.value + 1,
         cached := LogView.Fold(spec, v.cached, Events(batch[..throwsAt.value])),
         folded := v.folded + Span(v.version, throwsAt.value))
    else
      v.(version := v.version + |batch|,
         cached := LogView.Fold(spec, v.cached, Events(batch)),
         folded := v.folded + Span(v.version, |batch|))
  }

  /** The write's answer: whether the host applied the batch. */
  function WriteAnswered(cfg: Config, w: World, throwsAt: Option<nat>): World
    requires w.phase.Writing? && |w.phase.batch| <= |w.books.pending|
  {
    var Writing(batch, attempts, landed) := w.phase;
    if landed then
      var rest := w.books.pending[|batch|..];
      var v := FoldBatch(cfg.spec, w.view, batch, throwsAt);
      var b := w.books.(pending := rest);
      if throwsAt.Some? && throwsAt.value < |batch| then w.(books := b, view := v, phase := Reading(0, None, batch))
      else
        LoopTop(cfg, w.(books := b.(settled := Settle(b.settled, batch, true)), view := Recompute(cfg.spec, v, rest)), 0)
    else if attempts >= cfg.maxAttempts then
      var b := DropFrom(w.books, 0);
      World(b, Recompute(cfg.spec, w.view, b.pending), Closing(Exhausted), false)
    else w.(phase := Reading(attempts, None, []))
  }

  function ReadAt(spec: LogSpec, v: View, log: seq<Item>, version: nat): View
    requires version <= |log|
  {
    v.(version := version, cached := LogView.Fold(spec, spec.initial, LogEvents(log[..version])), folded := Span(0, version))
  }

  function ReadAnswered(cfg: Config, w: World, answered: bool): World
    requires w.phase.Reading? && (w.phase.taken.Some? ==> w.phase.taken.value <= |w.books.log|)
  {
    var Reading(attempts, taken, written) := w.phase;
    if !answered then
      w.(books := w.books.(abandoned := w.books.abandoned + ConditionalIds(written)), phase := Closing(ReadFailed), stranded := true)
    else if taken.None? then w
    else
      var v := Recompute(cfg.spec, ReadAt(cfg.spec, w.view, w.books.log, taken.value), w.books.pending);
      LoopTop(cfg, w.(books := w.books.(settled := Settle(w.books.settled, written, true)), view := v), attempts)
  }

  function ClearLog(cfg: Config, w: World): World {
    var b := w.books;
    World(b.(log := [], pending := [], settled := Settle(b.settled, b.pending, false), ranges := [], base := |b.raised|),
          View(0, cfg.spec.initial, cfg.spec.initial, [], [], []), w.phase, false)
  }

  datatype Action =
    | ForeignWrite(events: seq<Value>)
    | Submit(event: Value)
    | TryAppend(events: seq<Value>)
    | Confirm
    | HostWrites
    | WriteAnswer(throwsAt: Option<nat>)
    | HostReads
    | ReadAnswer(answered: bool)
    | FinallyRuns
    | Load
    | Clear

  function Next(cfg: Config, w: World, action: Action): World {
    match action
    case ForeignWrite(events) => w.(books := w.books.(log := w.books.log + Foreigns(events)))
    case Submit(event) => Push(cfg.spec, w, event, None)
    case TryAppend(events) => TryAppendRange(cfg, w, events)
    case Confirm => Join(cfg, w)
    case HostWrites =>
      // The host's compare-and-set: it applies the batch only at the version the loop expects.
      if w.phase.Writing? && !w.phase.landed && |w.books.log| == w.view.version then
        w.(books := w.books.(log := w.books.log + Owned(w.phase.batch)), phase := w.phase.(landed := true))
      else w
    case WriteAnswer(throwsAt) =>
      if w.phase.Writing? && |w.phase.batch| <= |w.books.pending| then WriteAnswered(cfg, w, throwsAt) else w
    case HostReads => if w.phase.Reading? then w.(phase := w.phase.(taken := Some(|w.books.log|))) else w
    case ReadAnswer(answered) =>
      if w.phase.Reading? && (w.phase.taken.Some? ==> w.phase.taken.value <= |w.books.log|) then ReadAnswered(cfg, w, answered)
      else w
    case FinallyRuns => if w.phase.Closing? then w.(phase := Idle) else w
    case Load =>
      if w.phase.Idle? then
        w.(view := Recompute(cfg.spec, ReadAt(cfg.spec, w.view, w.books.log, |w.books.log|), w.books.pending))
      else w
    case Clear => if w.phase.Idle? then ClearLog(cfg, w) else w
  }

  /** What a caller of `tryAppend` sees once the loop it awaits is over. */
  datatype Reply = Told(appended: bool) | Waits | Rejected

  /** The answer, or else the wait for one; but an error other than a lost race comes before either. */
  function ReplyTo(settled: map<nat, bool>, end: End, id: nat): Reply {
    if end.ReadFailed? then Rejected else if id in settled then Told(settled[id]) else Waits
  }

  function Start(spec: LogSpec): World {
    World(Books([], [], map[], [], [], 0, {}), View(0, spec.initial, spec.initial, [], [], []), Idle, false)
  }

  function Run(cfg: Config, w: World, actions: seq<Action>): World {
    if actions == [] then w
    else Next(cfg, Run(cfg, w, actions[..|actions| - 1]), actions[|actions| - 1])
  }
}
