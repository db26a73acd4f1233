/**
 * The durable structures of a grain as state machines: how each applies a journalled operation, and
 * the single snapshot operation that rebuilds it.
 */
module DurableMachines {
  import opened Wrappers
  import opened Text
  import opened OrderedMap
  import opened StructuralKeys

  type Value = Json

  /** How a journaled grain folds events into its view. */
  datatype LogSpec = LogSpec(initial: Value, transition: (Value, Value) -> Value)

  datatype Kind = CellKind | DictKind | ListKind | QueueKind | SetKind | LogKind

  /** What a machine holds. A list element is `None` where the array holds `undefined`. */
  datatype State =
    | CellState(current: Option<Value>)
    | DictState(entries: Entries<Value, Value>)
    | ListState(items: seq<Option<Value>>)
    | QueueState(queue: seq<Value>)
    | SetState(byKey: Entries<Text, Value>)
    | LogState(confirmed: Value, version: nat, confirmedEvents: seq<Value>)

  datatype Payload =
    | CellSet(v: Value) | CellClear
    | DictSet(k: Value, v: Value) | DictDel(k: Value) | DictClear | DictLoad(entries: Entries<Value, Value>)
    | ListAdd(v: Value) | ListSet(i: int, v: Value) | ListRemoveAt(i: int) | ListInsert(i: int, v: Value)
    | ListClear | ListLoad(items: seq<Option<Value>>)
    | QueueEnq(v: Value) | QueueDeq | QueueClear | QueueLoad(queue: seq<Value>)
    | SetAdd(v: Value) | SetDel(v: Value) | SetClear | SetLoad(values: seq<Value>)
    | LogEvent(e: Value) | LogSnap(s: Value, ver: Option<nat>)

  function KindOf(s: State): Kind {
    match s
    case CellState(_) => CellKind
    case DictState(_) => DictKind
    case ListState(_) => ListKind
    case QueueState(_) => QueueKind
    case SetState(_) => SetKind
    case LogState(_, _, _) => LogKind
  }

  function Reset(spec: LogSpec, kind: Kind): State {
    match kind
    case CellKind => CellState(None)
    case DictKind => DictState([])
    case ListKind => ListState([])
    case QueueKind => QueueState([])
    case SetKind => SetState([])
    case LogKind => LogState(spec.initial, 0, [])
  }

  // ----- Arrays -----

  /** Where `splice(i, ...)` starts on an array of length `n`. */
  function SpliceStart(n: nat, i: int): (start: nat)
    ensures start <= n
    ensures 0 <= i <= n ==> start == i
  {
    if i < 0 then (if n + i < 0 then 0 else n + i) else if i > n then n else i
  }

  function RemoveAt<T>(items: seq<T>, i: int): seq<T> {
    var start := SpliceStart(|items|, i);
    if start < |items| then items[..start] + items[start + 1..] else items
  }

  function InsertAt<T>(items: seq<T>, i: int, v: T): seq<T> {
    var start := SpliceStart(|items|, i);
    items[..start] + [v] + items[start..]
  }

  /** `items[i] = v`: past the end the gap reads as `undefined`; a negative index names no element. */
  function AssignAt(items: seq<Option<Value>>, i: int, v: Value): seq<Option<Value>> {
    if i < 0 then items
    else if i < |items| then items[i := Some(v)]
    else items + seq(i - |items|, _ => None) + [Some(v)]
  }

  // ----- Apply -----

  function PutValues(m: Entries<Text, Value>, values: seq<Value>): Entries<Text, Value>
    decreases values
  {
    if values == [] then m else PutValues(Put(m, StructuralKey(values[0]), values[0]), values[1..])
  }

  function Values(m: Entries<Text, Value>): (r: seq<Value>)
    ensures |r| == |m|
  {
    seq(|m|, i requires 0 <= i < |m| => m[i].1)
  }

  function Apply(spec: LogSpec, s: State, p: Payload): State {
    match s
    case CellState(_) => if p.CellSet? then CellState(Some(p.v)) else CellState(None)
    case DictState(m) => (
      match p
      case DictSet(k, v) => DictState(Put(m, k, v))
      case DictDel(k) => DictState(Delete(m, k))
      case DictClear => DictState([])
      case DictLoad(entries) => DictState(PutAll([], entries))
      case _ => s
    )
    case ListState(items) => (
      match p
      case ListAdd(v) => ListState(items + [Some(v)])
      case ListSet(i, v) => ListState(AssignAt(items, i, v))
      case ListRemoveAt(i) => ListState(RemoveAt(items, i))
      case ListInsert(i, v) => ListState(InsertAt(items, i, Some(v)))
      case ListClear => ListState([])
      case ListLoad(loaded) => ListState(loaded)
      case _ => s
    )
    case QueueState(queue) => (
      match p
      case QueueEnq(v) => QueueState(queue + [v])
      case QueueDeq => QueueState(if queue == [] then [] else queue[1..])
      case QueueClear => QueueState([])
      case QueueLoad(loaded) => QueueState(loaded)
      case _ => s
    )
    case SetState(m) => (
      match p
      case SetAdd(v) => SetState(Put(m, StructuralKey(v), v))
      case SetDel(v) => SetState(Delete(m, StructuralKey(v)))
      case SetClear => SetState([])
      case SetLoad(values) => SetState(PutValues([], values))
      case _ => s
    )
    case LogState(confirmed, version, events) => (
      match p
      case LogEvent(e) => LogState(spec.transition(confirmed, e), version + 1, events + [e])
      case LogSnap(view, ver) => LogState(view, if ver.Some? then ver.value else 0, [])
      case _ => s
    )
  }

  function Snapshot(s: State): Payload {
    match s
    case CellState(current) => if current.Some? then CellSet(current.value) else CellClear
    case DictState(m) => DictLoad(m)
    case ListState(items) => ListLoad(items)
    case QueueState(queue) => QueueLoad(queue)
    case SetState(m) => SetLoad(Values(m))
    case LogState(confirmed, version, _) => LogSnap(confirmed, Some(version))
  }

  /** Applies payloads in order. */
  function Run(spec: LogSpec, s: State, ps: seq<Payload>): State
    decreases |ps|
  {
    if ps == [] then s else Apply(spec, Run(spec, s, ps[..|ps| - 1]), ps[|ps| - 1])
  }

  lemma {:induction false} RunConcat(spec: LogSpec, s: State, ps: seq<Payload>, qs: seq<Payload>)
    ensures Run(spec, s, ps + qs) == Run(spec, Run(spec, s, ps), qs)
    decreases |qs|
  {
    if qs == [] {
      assert ps + qs == ps;
    } else {
      RunConcat(spec, s, ps, qs[..|qs| - 1]);
      assert (ps + qs)[..|ps + qs| - 1] == ps + qs[..|qs| - 1];
    }
  }

  // ----- What every machine keeps -----

  ghost predicate Keyed(m: Entries<Text, Value>) {
    forall i | 0 <= i < |m| :: m[i].0 == StructuralKey(m[i].1)
  }

  ghost predicate Ok(s: State) {
    match s
    case DictState(m) => Distinct(m)
    case SetState(m) => Distinct(m) && Keyed(m)
    case _ => true
  }

  /** Equal as far as a grain can tell after a compaction: for a log view, the view and the version. */
  ghost predicate SameState(s: State, t: State) {
    match (s, t)
    case (LogState(v, n, _), LogState(w, m, _)) => v == w && n == m
    case (_, _) => s == t
  }

  lemma {:induction false} PutKeyed(m: Entries<Text, Value>, v: Value)
    requires Keyed(m)
    ensures Keyed(Put(m, StructuralKey(v), v))
  {
    if m != [] && m[0].0 != StructuralKey(v) {
      assert Keyed(m[1..]);
      PutKeyed(m[1..], v);
    }
  }

  lemma {:induction false} DeleteKeyed(m: Entries<Text, Value>, k: Text)
    requires Keyed(m)
    ensures Keyed(Delete(m, k))
  {
    if m != [] && m[0].0 != k {
      assert Keyed(m[1..]);
      DeleteKeyed(m[1..], k);
    }
  }

  lemma {:induction false} PutValuesKeyed(m: Entries<Text, Value>, values: seq<Value>)
    requires Distinct(m) && Keyed(m)
    ensures Distinct(PutValues(m, values)) && Keyed(PutValues(m, values))
    decreases values
  {
    if values != [] {
      PutKeyed(m, values[0]);
      PutDistinct(m, StructuralKey(values[0]), values[0]);
      PutValuesKeyed(Put(m, StructuralKey(values[0]), values[0]), values[1..]);
    }
  }

  /** Re-adding the values of a keyed map, in order, is re-inserting its entries. */
  lemma {:induction false} PutValuesIsPutAll(m: Entries<Text, Value>, n: Entries<Text, Value>)
    requires Keyed(n)
    ensures PutValues(m, Values(n)) == PutAll(m, n)
    decreases n
  {
    if n != [] {
      assert Values(n)[1..] == Values(n[1..]);
      PutValuesIsPutAll(Put(m, n[0].0, n[0].1), n[1..]);
    }
  }

  lemma ApplyKeepsOk(spec: LogSpec, s: State, p: Payload)
    requires Ok(s)
    ensures Ok(Apply(spec, s, p)) && KindOf(Apply(spec, s, p)) == KindOf(s)
  {
    match s
    case DictState(m) =>
      match p {
        case DictSet(k, v) => PutDistinct(m, k, v);
        case DictDel(k) => DeleteDistinct(m, k);
        case DictLoad(entries) => PutAllDistinct<Value, Value>([], entries);
        case _ =>
      }
    case SetState(m) =>
      match p {
        case SetAdd(v) => PutDistinct(m, StructuralKey(v), v); PutKeyed(m, v);
        case SetDel(v) => DeleteDistinct(m, StructuralKey(v)); DeleteKeyed(m, StructuralKey(v));
        case SetLoad(values) => PutValuesKeyed([], values);
        case _ =>
      }
    case _ =>
  }

  lemma {:induction false} RunKeepsOk(spec: LogSpec, s: State, ps: seq<Payload>)
    requires Ok(s)
    ensures Ok(Run(spec, s, ps)) && KindOf(Run(spec, s, ps)) == KindOf(s)
    decreases |ps|
  {
    if ps != [] {
      RunKeepsOk(spec, s, ps[..|ps| - 1]);
      ApplyKeepsOk(spec, Run(spec, s, ps[..|ps| - 1]), ps[|ps| - 1]);
    }
  }

  lemma ApplyRespectsSame(spec: LogSpec, s: State, t: State, p: Payload)
    requires SameState(s, t)
    ensures SameState(Apply(spec, s, p), Apply(spec, t, p))
  {
  }

  lemma {:induction false} RunRespectsSame(spec: LogSpec, s: State, t: State, ps: seq<Payload>)
    requires SameState(s, t)
    ensures SameState(Run(spec, s, ps), Run(spec, t, ps))
    decreases |ps|
  {
    if ps != [] {
      RunRespectsSame(spec, s, t, ps[..|ps| - 1]);
      ApplyRespectsSame(spec, Run(spec, s, ps[..|ps| - 1]), Run(spec, t, ps[..|ps| - 1]), ps[|ps| - 1]);
    }
  }

  /** The snapshot contract: applied to a reset machine, a snapshot rebuilds the state it was taken of. */
  lemma SnapshotRebuilds(spec: LogSpec, s: State)
    requires Ok(s)
    ensures SameState(Apply(spec, Reset(spec, KindOf(s)), Snapshot(s)), s)
  {
    match s
    case DictState(m) =>
      assert [] + m == m;
      PutAllFresh<Value, Value>([], m);
    case SetState(m) =>
      assert [] + m == m;
      PutValuesIsPutAll([], m);
      PutAllFresh<Text, Value>([], m);
    case _ =>
  }

  // ----- The set machine -----

  ghost predicate WellFormedPayload(p: Payload) {
    match p
    case SetAdd(v) => WellFormed(v)
    case SetLoad(values) => forall i | 0 <= i < |values| :: WellFormed(values[i])
    case _ => true
  }

  ghost predicate WellFormedSet(m: Entries<Text, Value>) {
    forall i | 0 <= i < |m| :: WellFormed(m[i].1)
  }

  lemma {:induction false} PutWellFormed(m: Entries<Text, Value>, k: Text, v: Value)
    requires WellFormedSet(m) && WellFormed(v)
    ensures WellFormedSet(Put(m, k, v))
  {
    if m != [] && m[0].0 != k {
      assert WellFormedSet(m[1..]);
      PutWellFormed(m[1..], k, v);
    }
  }

  lemma {:induction false} DeleteWellFormed(m: Entries<Text, Value>, k: Text)
    requires WellFormedSet(m)
    ensures WellFormedSet(Delete(m, k))
  {
    if m != [] && m[0].0 != k {
      assert WellFormedSet(m[1..]);
      DeleteWellFormed(m[1..], k);
    }
  }

  lemma {:induction false} PutValuesWellFormed(m: Entries<Text, Value>, values: seq<Value>)
    requires WellFormedSet(m) && forall i | 0 <= i < |values| :: WellFormed(values[i])
    ensures WellFormedSet(PutValues(m, values))
    decreases values
  {
    if values != [] {
      PutWellFormed(m, StructuralKey(values[0]), values[0]);
      PutValuesWellFormed(Put(m, StructuralKey(values[0]), values[0]), values[1..]);
    }
  }

  lemma {:induction false} SetRunWellFormed(spec: LogSpec, ps: seq<Payload>)
    requires forall i | 0 <= i < |ps| :: WellFormedPayload(ps[i])
    ensures var s := Run(spec, SetState([]), ps); s.SetState? && Ok(s) && WellFormedSet(s.byKey)
    decreases |ps|
  {
    RunKeepsOk(spec, SetState([]), ps);
    if ps != [] {
      SetRunWellFormed(spec, ps[..|ps| - 1]);
      var m := Run(spec, SetState([]), ps[..|ps| - 1]).byKey;
      match ps[|ps| - 1]
      case SetAdd(v) => PutWellFormed(m, StructuralKey(v), v);
      case SetDel(v) => DeleteWellFormed(m, StructuralKey(v));
      case SetLoad(values) => PutValuesWellFormed([], values);
      case _ =>
    }
  }

  /**
   * After any run of set operations the set holds at most one value of each class of key-equal
   * values, and `has(v)` answers whether it holds one of the class of `v`.
   */
  lemma SetHoldsOnePerClass(spec: LogSpec, ps: seq<Payload>, v: Value)
    requires WellFormed(v) && forall i | 0 <= i < |ps| :: WellFormedPayload(ps[i])
    ensures Run(spec, SetState([]), ps).SetState?
    ensures var m := Run(spec, SetState([]), ps).byKey;
      && (forall i, j | 0 <= i < j < |m| :: !KeyEqual(m[i].1, m[j].1))
      && (Has(m, StructuralKey(v)) <==> exists i :: 0 <= i < |m| && KeyEqual(m[i].1, v))
  {
    SetRunWellFormed(spec, ps);
    var m := Run(spec, SetState([]), ps).byKey;
    forall i, j | 0 <= i < j < |m| ensures !KeyEqual(m[i].1, m[j].1) {
      assert KeysDiffer(m, i, j);
      KeyDecidesKeyEquality(m[i].1, m[j].1);
    }
    HasIndex(m, StructuralKey(v));
    forall i | 0 <= i < |m| ensures KeyEqual(m[i].1, v) <==> m[i].0 == StructuralKey(v) {
      KeyDecidesKeyEquality(m[i].1, v);
    }
  }

  // ----- The queue machine -----

  /** Everything that has entered the queue since it was last cleared or loaded. */
  function Entered(ps: seq<Payload>): seq<Value> {
    if ps == [] then []
    else
      var init := Entered(ps[..|ps| - 1]);
      match ps[|ps| - 1]
      case QueueEnq(v) => init + [v]
      case QueueClear => []
      case QueueLoad(queue) => queue
      case _ => init
  }

  /** How much of that has left it; an empty queue has nothing to give. */
  function Left(ps: seq<Payload>): (n: nat)
    ensures n <= |Entered(ps)|
  {
    if ps == [] then 0
    else
      var init := Left(ps[..|ps| - 1]);
      match ps[|ps| - 1]
      case QueueDeq => if init < |Entered(ps[..|ps| - 1])| then init + 1 else init
      case QueueClear => 0
      case QueueLoad(_) => 0
      case _ => init
  }

  /** First in, first out: after any run, what has not left is in the queue, in the order it entered. */
  lemma {:induction false} QueueIsFifo(spec: LogSpec, ps: seq<Payload>)
    ensures Run(spec, QueueState([]), ps) == QueueState(Entered(ps)[Left(ps)..])
    decreases |ps|
  {
    if ps != [] {
      var init, last := ps[..|ps| - 1], ps[|ps| - 1];
      QueueIsFifo(spec, init);
      var entered, left := Entered(init), Left(init);
      match last
      case QueueEnq(v) => assert (entered + [v])[left..] == entered[left..] + [v];
      case QueueDeq => assert left < |entered| ==> entered[left..][1..] == entered[left + 1..];
      case _ =>
    }
  }

  // ----- The dictionary machine -----

  function LastEntry(entries: Entries<Value, Value>, k: Value): Option<Value> {
    if entries == [] then None
    else if LastEntry(entries[1..], k).Some? then LastEntry(entries[1..], k)
    else if entries[0].0 == k then Some(entries[0].1)
    else None
  }

  /** The value last written under a key, unless it was removed since. */
  function LastWrite(ps: seq<Payload>, k: Value): Option<Value> {
    if ps == [] then None
    else
      match ps[|ps| - 1]
      case DictSet(x, v) => if x == k then Some(v) else LastWrite(ps[..|ps| - 1], k)
      case DictDel(x) => if x == k then None else LastWrite(ps[..|ps| - 1], k)
      case DictClear => None
      case DictLoad(entries) => LastEntry(entries, k)
      case _ => LastWrite(ps[..|ps| - 1], k)
  }

  ghost predicate Answers(m: Entries<Value, Value>, k: Value, answer: Option<Value>) {
    (Has(m, k) <==> answer.Some?) && (Has(m, k) ==> Get(m, k) == answer.value)
  }

  lemma {:induction false} PutAllAnswers(m: Entries<Value, Value>, entries: Entries<Value, Value>, k: Value)
    ensures Answers(PutAll(m, entries), k,
      if LastEntry(entries, k).Some? then LastEntry(entries, k) else if Has(m, k) then Some(Get(m, k)) else None)
    decreases entries
  {
    if entries != [] {
      PutHas(m, entries[0].0, entries[0].1, k);
      PutAllAnswers(Put(m, entries[0].0, entries[0].1), entries[1..], k);
    }
  }

  /** After any run a dictionary answers for every key with the value last written under it. */
  lemma {:induction false} DictionaryHoldsLastWrite(spec: LogSpec, ps: seq<Payload>, k: Value)
    ensures Run(spec, DictState([]), ps).DictState?
    ensures Answers(Run(spec, DictState([]), ps).entries, k, LastWrite(ps, k))
    decreases |ps|
  {
    RunKeepsOk(spec, DictState([]), ps);
    if ps != [] {
      var init := ps[..|ps| - 1];
      RunKeepsOk(spec, DictState([]), init);
      DictionaryHoldsLastWrite(spec, init, k);
      var m := Run(spec, DictState([]), init).entries;
      match ps[|ps| - 1]
      case DictSet(x, v) => PutHas(m, x, v, k);
      case DictDel(x) => DeleteHas(m, x, k);
      case DictLoad(entries) => PutAllAnswers([], entries, k);
      case _ =>
    }
  }
}
