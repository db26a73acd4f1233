/** The durable structures as the objects a grain holds: each changes in place as the machine says. */
module DurableStructures {
  import opened Wrappers
  import opened Text
  import opened OrderedMap
  import opened StructuralKeys
  import DM = DurableMachines

  type Value = DM.Value

  class DurableSet {
    var byKey: Entries<Text, Value>

    constructor ()
      ensures byKey == []
    {
      byKey := [];
    }

    method Reset()
      modifies this
      ensures byKey == []
    {
      byKey := [];
    }

    method Apply(spec: DM.LogSpec, op: DM.Payload)
      modifies this
      ensures DM.SetState(byKey) == DM.Apply(spec, DM.SetState(old(byKey)), op)
    {
      match op {
        case SetAdd(v) => byKey := Put(byKey, StructuralKey(v), v);
        case SetDel(v) => byKey := Delete(byKey, StructuralKey(v));
        case SetClear => byKey := [];
        case SetLoad(values) =>
          byKey := [];
          for i := 0 to |values|
            invariant DM.PutValues(byKey, values[i..]) == DM.PutValues([], values)
          {
            assert values[i..][1..] == values[i + 1..];
            byKey := Put(byKey, StructuralKey(values[i]), values[i]);
          }
        case _ =>
      }
    }

    method Snapshot() returns (op: DM.Payload)
      ensures op == DM.Snapshot(DM.SetState(byKey))
    {
      var values: seq<Value> := [];
      for i := 0 to |byKey|
        invariant values == DM.Values(byKey)[..i]
      {
        values := values + [byKey[i].1];
      }
      assert DM.Values(byKey)[..|byKey|] == DM.Values(byKey);
      return DM.SetLoad(values);
    }
  }

  class DurableDictionary {
    var entries: Entries<Value, Value>

    constructor ()
      ensures entries == []
    {
      entries := [];
    }

    method Reset()
      modifies this
      ensures entries == []
    {
      entries := [];
    }

    method Apply(spec: DM.LogSpec, op: DM.Payload)
      modifies this
      ensures DM.DictState(entries) == DM.Apply(spec, DM.DictState(old(entries)), op)
    {
      match op {
        case DictSet(k, v) => entries := Put(entries, k, v);
        case DictDel(k) => entries := Delete(entries, k);
        case DictClear => entries := [];
        case DictLoad(loaded) =>
          entries := [];
          for i := 0 to |loaded|
            invariant PutAll(entries, loaded[i..]) == PutAll([], loaded)
          {
            assert loaded[i..][1..] == loaded[i + 1..];
            entries := Put(entries, loaded[i].0, loaded[i].1);
          }
        case _ =>
      }
    }

    method Snapshot() returns (op: DM.Payload)
      ensures op == DM.Snapshot(DM.DictState(entries))
    {
      return DM.DictLoad(entries);
    }
  }

  class DurableList {
    var items: seq<Option<Value>>

    constructor ()
      ensures items == []
    {
      items := [];
    }

    method Reset()
      modifies this
      ensures items == []
    {
      items := [];
    }

    method Apply(spec: DM.LogSpec, op: DM.Payload)
      modifies this
      ensures DM.ListState(items) == DM.Apply(spec, DM.ListState(old(items)), op)
    {
      match op {
        case ListAdd(v) => items := items + [Some(v)];
        case ListSet(i, v) => items := DM.AssignAt(items, i, v);
        case ListRemoveAt(i) => items := DM.RemoveAt(items, i);
        case ListInsert(i, v) => items := DM.InsertAt(items, i, Some(v));
        case ListClear => items := [];
        case ListLoad(loaded) => items := loaded;
        case _ =>
      }
    }

    method Snapshot() returns (op: DM.Payload)
      ensures op == DM.Snapshot(DM.ListState(items))
    {
      return DM.ListLoad(items);
    }
  }

  class DurableQueue {
    var items: seq<Value>

    constructor ()
      ensures items == []
    {
      items := [];
    }

    method Reset()
      modifies this
      ensures items == []
    {
      items := [];
    }

    method Apply(spec: DM.LogSpec, op: DM.Payload)
      modifies this
      ensures DM.QueueState(items) == DM.Apply(spec, DM.QueueState(old(items)), op)
    {
      match op {
        case QueueEnq(v) => items := items + [v];
        case QueueDeq => items := if |items| == 0 then [] else items[1..];
        case QueueClear => items := [];
        case QueueLoad(loaded) => items := loaded;
        case _ =>
      }
    }

    method Snapshot() returns (op: DM.Payload)
      ensures op == DM.Snapshot(DM.QueueState(items))
    {
      return DM.QueueLoad(items);
    }
  }

  class DurableValue {
    var current: Option<Value>
    var present: bool

    ghost predicate Valid()
      reads this
    {
      present <==> current.Some?
    }

    constructor ()
      ensures Valid() && current == None
    {
      current, present := None, false;
    }

    method Reset()
      modifies this
      ensures Valid() && current == None
    {
      current, present := None, false;
    }

    method Apply(spec: DM.LogSpec, op: DM.Payload)
      modifies this
      ensures Valid() && DM.CellState(current) == DM.Apply(spec, DM.CellState(old(current)), op)
    {
      if op.CellSet? {
        current, present := Some(op.v), true;
      } else {
        current, present := None, false;
      }
    }

    method Snapshot() returns (op: DM.Payload)
      requires Valid()
      ensures op == DM.Snapshot(DM.CellState(current))
    {
      return if present then DM.CellSet(current.value) else DM.CellClear;
    }
  }
}
