/** What the operations of the list, the value and the set leave, told without the machines' own steps. */
module DurableLaws {
  import opened Wrappers
  import opened Text
  import opened OrderedMap
  import opened StructuralKeys
  import opened DurableMachines

  // ----- The list -----

  /** A JavaScript index into an array of length `n`: a negative one counts from the end. */
  function Clamped(n: nat, i: int): nat {
    if i >= n then n else if i >= 0 then i else if n + i >= 0 then n + i else 0
  }

  function Grown(n: nat, i: nat): nat {
    if i < n then n else i + 1
  }

  /**
   * What an operation leaves at every position of a list: `add` puts its item behind the others,
   * `set` in the place of the one there, `insert` before it, with the later ones moved up, and
   * `removeAt` takes it out, with the later ones moved down; past the end there is `undefined`.
   */
  lemma ListPositions(spec: LogSpec, items: seq<Option<Value>>, p: Payload, j: nat)
    requires p.ListAdd? || p.ListSet? || p.ListInsert? || p.ListRemoveAt? || p.ListClear? || p.ListLoad?
    ensures Apply(spec, ListState(items), p).ListState?
    ensures var r, n := Apply(spec, ListState(items), p).items, |items|;
      match p
      case ListAdd(v) => |r| == n + 1 && r[n] == Some(v) && (j < n ==> r[j] == items[j])
      case ListSet(i, v) =>
        if i < 0 then r == items
        else
          && |r| == Grown(n, i) && r[i] == Some(v)
          && (j < n && j != i ==> r[j] == items[j])
          && (n <= j < i ==> r[j] == None)
      case ListInsert(i, v) =>
        var k := Clamped(n, i);
        && |r| == n + 1 && r[k] == Some(v)
        && (j < k ==> r[j] == items[j])
        && (k <= j < n ==> r[j + 1] == items[j])
      case ListRemoveAt(i) =>
        var k := Clamped(n, i);
        if k == n then r == items
        else
          && |r| == n - 1
          && (j < k ==> r[j] == items[j])
          && (k < j < n ==> r[j - 1] == items[j])
      case ListClear => r == []
      case ListLoad(loaded) => r == loaded
      case _ => true
  {
  }

  // ----- The value -----

  /** The value last set, unless the cell was cleared since. */
  function LastSet(ps: seq<Payload>): Option<Value> {
    if ps == [] then None
    else
      match ps[|ps| - 1]
      case CellSet(v) => Some(v)
      case _ => None
  }

  /** After any run of its operations a value is the one last set, or absent if it was cleared since. */
  lemma ValueHoldsLastSet(spec: LogSpec, ps: seq<Payload>)
    requires forall i | 0 <= i < |ps| :: ps[i].CellSet? || ps[i].CellClear?
    ensures Run(spec, CellState(None), ps) == CellState(LastSet(ps))
  {
    RunKeepsOk(spec, CellState(None), ps);
    if ps != [] {
      RunKeepsOk(spec, CellState(None), ps[..|ps| - 1]);
    }
  }

  // ----- The set -----

  /** The last of some values that is in the class of `v`. */
  ghost function LastOfClass(values: seq<Value>, v: Value): Option<Value> {
    if values == [] then None
    else if KeyEqual(values[|values| - 1], v) then Some(values[|values| - 1])
    else LastOfClass(values[..|values| - 1], v)
  }

  /** What an operation makes of the class of `v`, which was `before`. */
  ghost function Touched(p: Payload, v: Value, before: Option<Value>): Option<Value> {
    match p
    case SetAdd(x) => if KeyEqual(x, v) then Some(x) else before
    case SetDel(x) => if KeyEqual(x, v) then None else before
    case SetClear => None
    case SetLoad(values) => LastOfClass(values, v)
    case _ => before
  }

  /** What the class of `v` was last added as, unless it was deleted or cleared since, or not loaded. */
  ghost function LastAdded(ps: seq<Payload>, v: Value): Option<Value> {
    if ps == [] then None else Touched(ps[|ps| - 1], v, LastAdded(ps[..|ps| - 1], v))
  }

  /** The value is a member, stored as `answer`, or not a member at all. */
  ghost predicate Member(m: Entries<Text, Value>, v: Value, answer: Option<Value>) {
    && (Has(m, StructuralKey(v)) <==> answer.Some?)
    && (Has(m, StructuralKey(v)) ==> Get(m, StructuralKey(v)) == answer.value)
  }

  lemma {:induction false} PutValuesSnoc(m: Entries<Text, Value>, values: seq<Value>, x: Value)
    ensures PutValues(m, values + [x]) == Put(PutValues(m, values), StructuralKey(x), x)
    decreases values
  {
    if values == [] {
      assert [x][1..] == [];
      assert [] + [x] == [x];
    } else {
      assert (values + [x])[1..] == values[1..] + [x];
      PutValuesSnoc(Put(m, StructuralKey(values[0]), values[0]), values[1..], x);
    }
  }

  lemma {:induction false} LoadedMembers(values: seq<Value>, v: Value)
    requires WellFormed(v) && forall i | 0 <= i < |values| :: WellFormed(values[i])
    ensures Member(PutValues([], values), v, LastOfClass(values, v))
    decreases |values|
  {
    if values != [] {
      var init, last := values[..|values| - 1], values[|values| - 1];
      LoadedMembers(init, v);
      assert values == init + [last];
      PutValuesSnoc([], init, last);
      PutHas(PutValues([], init), StructuralKey(last), last, StructuralKey(v));
      KeyDecidesKeyEquality(last, v);
    }
  }

  ghost predicate DeletesWellFormed(ps: seq<Payload>) {
    forall i | 0 <= i < |ps| :: WellFormedPayload(ps[i]) && (ps[i].SetDel? ==> WellFormed(ps[i].v))
  }

  /**
   * After any run of set operations a value is a member exactly if the last one that touched its
   * class added it, or loaded it; and it is stored as it was last added.
   */
  lemma {:induction false} SetHoldsLastAdded(spec: LogSpec, ps: seq<Payload>, v: Value)
    requires WellFormed(v) && DeletesWellFormed(ps)
    ensures Run(spec, SetState([]), ps).SetState?
    ensures Member(Run(spec, SetState([]), ps).byKey, v, LastAdded(ps, v))
    decreases |ps|
  {
    SetRunWellFormed(spec, ps);
    if ps != [] {
      var init := ps[..|ps| - 1];
      SetHoldsLastAdded(spec, init, v);
      SetRunWellFormed(spec, init);
      hide StructuralKey, KeyEqual, WellFormed;
      SetStep(spec, Run(spec, SetState([]), init).byKey, ps[|ps| - 1], v, LastAdded(init, v));
    }
  }

  lemma SetStep(spec: LogSpec, m: Entries<Text, Value>, p: Payload, v: Value, before: Option<Value>)
    requires WellFormed(v) && WellFormedPayload(p) && (p.SetDel? ==> WellFormed(p.v)) && Ok(SetState(m))
    requires Member(m, v, before)
    ensures Apply(spec, SetState(m), p).SetState?
    ensures Member(Apply(spec, SetState(m), p).byKey, v, Touched(p, v, before))
  {
    hide StructuralKey, KeyEqual;
    match p
    case SetAdd(x) =>
      PutHas(m, StructuralKey(x), x, StructuralKey(v));
      KeyDecidesKeyEquality(x, v);
    case SetDel(x) =>
      DeleteHas(m, StructuralKey(x), StructuralKey(v));
      KeyDecidesKeyEquality(x, v);
    case SetLoad(values) => LoadedMembers(values, v);
    case _ =>
  }
}
