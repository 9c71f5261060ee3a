/** Reconciling a list of HDX objects with incoming records matched by an id field: the pure
    specification of `_addupdate_hdxobject` and `_separate_hdxobjects`. Each element of a list
    is the dictionary of one HDX object. */
module Reconcile {
  import opened Values

  /** The list as it stands when a helper returns or raises. */
  datatype ListRun = ListRun(items: seq<Data>, status: Status)

  // ---------------------------------------------------------------------------------------
  // _addupdate_hdxobject

  /** The loop of `_addupdate_hdxobject` from position `i` on. Reading the id of an element
      or of the incoming record raises KeyError when it is absent. */
  function AddUpdateFrom(items: seq<Data>, i: nat, idField: string, incoming: Data, merge: (Data, Data) -> Data): ListRun
    requires i <= |items|
    decreases |items| - i
  {
    if i == |items| then ListRun(items + [incoming], Done)
    else if idField !in items[i] || idField !in incoming then ListRun(items, Raised(KeyMissing(idField)))
    else if items[i][idField] == incoming[idField] then ListRun(items[i := merge(items[i], incoming)], Done)
    else AddUpdateFrom(items, i + 1, idField, incoming, merge)
  }

  function AddUpdate(items: seq<Data>, idField: string, incoming: Data, merge: (Data, Data) -> Data): ListRun
  {
    AddUpdateFrom(items, 0, idField, incoming, merge)
  }

  /** Element `k` is the first whose id equals the incoming record's, and all before it have an id. */
  ghost predicate FirstMatchAt(items: seq<Data>, idField: string, incoming: Data, k: nat)
  {
    && k < |items|
    && idField in incoming
    && (forall j :: 0 <= j <= k ==> idField in items[j])
    && items[k][idField] == incoming[idField]
    && (forall j :: 0 <= j < k ==> items[j][idField] != incoming[idField])
  }

  /** No element's id equals the incoming record's, and every id can be read. */
  ghost predicate NoMatch(items: seq<Data>, idField: string, incoming: Data)
  {
    items == [] ||
    (idField in incoming && forall j :: 0 <= j < |items| ==> idField in items[j] && items[j][idField] != incoming[idField])
  }

  /** With a matching element, only the first such element is merged and nothing is added. */
  lemma {:induction false} AddUpdateMergesFirstMatch(items: seq<Data>, idField: string, incoming: Data, merge: (Data, Data) -> Data, k: nat)
    requires FirstMatchAt(items, idField, incoming, k)
    ensures AddUpdate(items, idField, incoming, merge) == ListRun(items[k := merge(items[k], incoming)], Done)
  {
    var i := 0;
    while i < k
      invariant i <= k
      invariant AddUpdateFrom(items, i, idField, incoming, merge) == AddUpdate(items, idField, incoming, merge)
    {
      i := i + 1;
    }
  }

  /** Without a matching element, the incoming record is appended at the end and the existing
      elements are left as they were. */
  lemma {:induction false} AddUpdateAppendsUnmatched(items: seq<Data>, idField: string, incoming: Data, merge: (Data, Data) -> Data)
    requires NoMatch(items, idField, incoming)
    ensures AddUpdate(items, idField, incoming, merge) == ListRun(items + [incoming], Done)
  {
    var i := 0;
    while i < |items|
      invariant i <= |items|
      invariant AddUpdateFrom(items, i, idField, incoming, merge) == AddUpdate(items, idField, incoming, merge)
    {
      i := i + 1;
    }
  }

  /** Whatever happens, no element is removed and at most one position changes: either one
      element is merged in place, or one record is appended, or (on KeyError) nothing changes. */
  lemma {:induction false} AddUpdateShape(items: seq<Data>, i: nat, idField: string, incoming: Data, merge: (Data, Data) -> Data)
    requires i <= |items|
    decreases |items| - i
    ensures var r := AddUpdateFrom(items, i, idField, incoming, merge);
      || (r.status.Raised? && r.items == items)
      || (r.status.Done? && r.items == items + [incoming])
      || (r.status.Done? && exists k :: i <= k < |items| && r.items == items[k := merge(items[k], incoming)])
  {
    if i < |items| && idField in items[i] && idField in incoming {
      if items[i][idField] == incoming[idField] {
        var r := AddUpdateFrom(items, i, idField, incoming, merge);
        assert r.items == items[i := merge(items[i], incoming)];
      } else {
        AddUpdateShape(items, i + 1, idField, incoming, merge);
      }
    }
  }

  // ---------------------------------------------------------------------------------------
  // _separate_hdxobjects

  /** The answer of the inner loop of `_separate_hdxobjects`. */
  datatype Probe = MatchAt(index: nat) | NoMatchFound | ProbeRaised(error: Error)

  /** The first incoming record, from position `j` on, whose id equals `name`; reading the id
      of a record before it raises KeyError when that id is absent. */
  function ProbeFrom(incoming: seq<Data>, j: nat, idField: string, name: Value): (p: Probe)
    requires j <= |incoming|
    decreases |incoming| - j
    ensures p.MatchAt? ==>
      && j <= p.index < |incoming|
      && idField in incoming[p.index] && incoming[p.index][idField] == name
      && forall k :: j <= k < p.index ==> idField in incoming[k] && incoming[k][idField] != name
    ensures p.NoMatchFound? ==>
      forall k :: j <= k < |incoming| ==> idField in incoming[k] && incoming[k][idField] != name
    ensures p.ProbeRaised? ==> p.error == KeyMissing(idField) && exists k :: j <= k < |incoming| && idField !in incoming[k]
  {
    if j == |incoming| then NoMatchFound
    else if idField !in incoming[j] then ProbeRaised(KeyMissing(idField))
    else if incoming[j][idField] == name then MatchAt(j)
    else ProbeFrom(incoming, j + 1, idField, name)
  }

  /** The first loop of `_separate_hdxobjects` from position `i` on: each element, whose id is
      read (KeyError) and hashed (TypeError) first, is merged with the first incoming record
      carrying the same id. */
  function AbsorbFrom(items: seq<Data>, i: nat, incoming: seq<Data>, idField: string, merge: (Data, Data) -> Data): ListRun
    requires i <= |items|
    decreases |items| - i
  {
    if i == |items| then ListRun(items, Done)
    else if idField !in items[i] then ListRun(items, Raised(KeyMissing(idField)))
    else if !Hashable(items[i][idField]) then ListRun(items, Raised(Unhashable))
    else match ProbeFrom(incoming, 0, idField, items[i][idField])
      case ProbeRaised(e) => ListRun(items, Raised(e))
      case NoMatchFound => AbsorbFrom(items, i + 1, incoming, idField, merge)
      case MatchAt(j) => AbsorbFrom(items[i := merge(items[i], incoming[j])], i + 1, incoming, idField, merge)
  }

  /** The second loop of `_separate_hdxobjects` from position `j` on: every incoming record
      whose id is not among `names` is appended. */
  function AppendFrom(items: seq<Data>, incoming: seq<Data>, j: nat, idField: string, names: set<Value>): ListRun
    requires j <= |incoming|
    decreases |incoming| - j
  {
    if j == |incoming| then ListRun(items, Done)
    else if idField !in incoming[j] then ListRun(items, Raised(KeyMissing(idField)))
    else if !Hashable(incoming[j][idField]) then ListRun(items, Raised(Unhashable))
    else if incoming[j][idField] in names then AppendFrom(items, incoming, j + 1, idField, names)
    else AppendFrom(items + [incoming[j]], incoming, j + 1, idField, names)
  }

  /** The ids of the elements that have one. */
  function IdSet(items: seq<Data>, idField: string): set<Value>
  {
    if items == [] then {}
    else
      var last := items[|items| - 1];
      IdSet(items[..|items| - 1], idField) + (if idField in last then {last[idField]} else {})
  }

  datatype Separation = Separation(data: Data, items: seq<Data>, status: Status)

  /** `_separate_hdxobjects`: absorb the records under `key` into `items` and delete `key`.
      A key that is absent or holds an empty value leaves everything as it is. A value that
      is not a list of records raises TypeError, or KeyError first when the first element has
      no id. */
  function Separate(data: Data, items: seq<Data>, key: string, idField: string, merge: (Data, Data) -> Data): Separation
  {
    if key !in data || Falsy(data[key]) then Separation(data, items, Done)
    else match data[key]
      case Records(incoming) =>
        var absorbed := AbsorbFrom(items, 0, incoming, idField, merge);
        if absorbed.status.Raised? then Separation(data, absorbed.items, absorbed.status)
        else
          var appended := AppendFrom(absorbed.items, incoming, 0, idField, IdSet(items, idField));
          if appended.status.Raised? then Separation(data, appended.items, appended.status)
          else Separation(data - {key}, appended.items, Done)
      case _ =>
        Separation(data, items, Raised(
          if |items| > 0 && idField !in items[0] then KeyMissing(idField)
          else if |items| > 0 && !Hashable(items[0][idField]) then Unhashable
          else NotRecords))
  }

  // ---------------------------------------------------------------------------------------
  // Reference definitions and properties of _separate_hdxobjects

  /** What an existing element becomes: merged with the first incoming record that carries its
      id, unchanged when there is none. */
  function Absorbed(item: Data, incoming: seq<Data>, idField: string, merge: (Data, Data) -> Data): Data
    requires idField in item
  {
    match ProbeFrom(incoming, 0, idField, item[idField])
    case MatchAt(j) => merge(item, incoming[j])
    case _ => item
  }

  /** The incoming records whose id is not among `names`, in incoming order, duplicates kept. */
  function Unmatched(incoming: seq<Data>, idField: string, names: set<Value>): seq<Data>
  {
    if incoming == [] then []
    else (if idField in incoming[0] && incoming[0][idField] in names then [] else [incoming[0]])
         + Unmatched(incoming[1..], idField, names)
  }

  /** Every record from position `j` on carries an id that can be hashed. */
  ghost predicate KeyedFrom(records: seq<Data>, idField: string, j: nat)
  {
    forall k :: j <= k < |records| ==> idField in records[k] && Hashable(records[k][idField])
  }

  /** Every record carries an id that can be hashed. */
  ghost predicate WellKeyed(records: seq<Data>, idField: string)
  {
    KeyedFrom(records, idField, 0)
  }

  lemma {:induction false} IdSetMembers(items: seq<Data>, idField: string, v: Value)
    ensures v in IdSet(items, idField) <==> exists k :: 0 <= k < |items| && idField in items[k] && items[k][idField] == v
  {
    if items != [] {
      var init := items[..|items| - 1];
      IdSetMembers(init, idField, v);
      if v in IdSet(items, idField) && v !in IdSet(init, idField) {
        assert items[|items| - 1][idField] == v;
      }
      if exists k :: 0 <= k < |items| && idField in items[k] && items[k][idField] == v {
        var k :| 0 <= k < |items| && idField in items[k] && items[k][idField] == v;
        if k < |items| - 1 {
          assert init[k] == items[k];
        }
      }
    }
  }

  lemma {:induction false} AbsorbFromSpec(items: seq<Data>, i: nat, incoming: seq<Data>, idField: string, merge: (Data, Data) -> Data)
    requires i <= |items|
    ensures var r := AbsorbFrom(items, i, incoming, idField, merge);
      && |r.items| == |items|
      && (forall k :: 0 <= k < i ==> r.items[k] == items[k])
      && (r.status.Done? ==> forall k :: i <= k < |items| ==> idField in items[k] && r.items[k] == Absorbed(items[k], incoming, idField, merge))
    ensures KeyedFrom(items, idField, i) && WellKeyed(incoming, idField) ==> AbsorbFrom(items, i, incoming, idField, merge).status.Done?
    decreases |items| - i
  {
    if i < |items| && idField in items[i] && Hashable(items[i][idField]) {
      var p := ProbeFrom(incoming, 0, idField, items[i][idField]);
      match p
      case ProbeRaised(e) =>
      case NoMatchFound =>
        AbsorbFromSpec(items, i + 1, incoming, idField, merge);
      case MatchAt(j) =>
        var next := items[i := merge(items[i], incoming[j])];
        AbsorbFromSpec(next, i + 1, incoming, idField, merge);
        var r := AbsorbFrom(next, i + 1, incoming, idField, merge);
        assert r == AbsorbFrom(items, i, incoming, idField, merge);
        assert r.items[i] == Absorbed(items[i], incoming, idField, merge);
        forall k | i < k < |items|
          ensures r.status.Done? ==> idField in items[k] && r.items[k] == Absorbed(items[k], incoming, idField, merge)
        {
          assert next[k] == items[k];
        }
        assert KeyedFrom(items, idField, i) ==> KeyedFrom(next, idField, i + 1);
    }
  }

  lemma {:induction false} AppendFromSpec(items: seq<Data>, incoming: seq<Data>, j: nat, idField: string, names: set<Value>)
    requires j <= |incoming|
    ensures var r := AppendFrom(items, incoming, j, idField, names);
      && |r.items| >= |items| && r.items[..|items|] == items
      && (r.status.Done? ==> r.items == items + Unmatched(incoming[j..], idField, names))
    ensures KeyedFrom(incoming, idField, j) ==> AppendFrom(items, incoming, j, idField, names).status.Done?
    decreases |incoming| - j
  {
    if j < |incoming| {
      assert incoming[j..][0] == incoming[j];
      assert incoming[j..][1..] == incoming[j + 1..];
      if idField in incoming[j] && Hashable(incoming[j][idField]) {
        if incoming[j][idField] in names {
          AppendFromSpec(items, incoming, j + 1, idField, names);
        } else {
          AppendFromSpec(items + [incoming[j]], incoming, j + 1, idField, names);
          assert (items + [incoming[j]])[..|items|] == items;
        }
      }
    }
  }

  /** `_separate_hdxobjects` when the key holds a non-empty list: existing elements keep their
      positions and count and each is merged with the first incoming record carrying its id;
      the incoming records whose ids were not among the existing ones follow, in incoming
      order; the key is gone. It succeeds whenever every record has a hashable id. On a raise
      the key stays and no element has been removed. */
  lemma SeparateReconciles(data: Data, items: seq<Data>, key: string, idField: string, merge: (Data, Data) -> Data)
    requires key in data && data[key].Records? && |data[key].items| > 0
    ensures var r := Separate(data, items, key, idField, merge);
      && |r.items| >= |items|
      && (r.status.Raised? ==> r.data == data)
      && (r.status.Done? ==>
            && r.data == data - {key} && key !in r.data
            && (forall k :: 0 <= k < |items| ==> idField in items[k] && r.items[k] == Absorbed(items[k], data[key].items, idField, merge))
            && r.items[|items|..] == Unmatched(data[key].items, idField, IdSet(items, idField)))
    ensures WellKeyed(items, idField) && WellKeyed(data[key].items, idField) ==>
      Separate(data, items, key, idField, merge).status.Done?
  {
    var incoming := data[key].items;
    AbsorbFromSpec(items, 0, incoming, idField, merge);
    assert items[0..] == items;
    var absorbed := AbsorbFrom(items, 0, incoming, idField, merge);
    if absorbed.status.Done? {
      AppendFromSpec(absorbed.items, incoming, 0, idField, IdSet(items, idField));
      assert incoming[0..] == incoming;
    }
  }

  /** A key that is absent, or whose value is empty, leaves the data and the list as they were. */
  lemma SeparateNoop(data: Data, items: seq<Data>, key: string, idField: string, merge: (Data, Data) -> Data)
    requires key !in data || Falsy(data[key])
    ensures Separate(data, items, key, idField, merge) == Separation(data, items, Done)
  {
  }

  /** The records appended are exactly the incoming ones whose id is not among `names`, each
      as many times as it occurs in `incoming`: two new records with the same id are both
      appended. */
  lemma {:induction false} UnmatchedMembers(incoming: seq<Data>, idField: string, names: set<Value>)
    requires WellKeyed(incoming, idField)
    ensures forall r :: r in Unmatched(incoming, idField, names) <==> r in incoming && r[idField] !in names
    ensures |Unmatched(incoming, idField, names)| <= |incoming|
    ensures forall r :: multiset(Unmatched(incoming, idField, names))[r] ==
                        (if r in incoming && r[idField] in names then 0 else multiset(incoming)[r])
  {
    if incoming != [] {
      assert WellKeyed(incoming[1..], idField) by {
        forall k | 0 <= k < |incoming| - 1 ensures idField in incoming[1..][k] && Hashable(incoming[1..][k][idField]) {
          assert incoming[1..][k] == incoming[k + 1];
        }
      }
      UnmatchedMembers(incoming[1..], idField, names);
      assert incoming == [incoming[0]] + incoming[1..];
      assert idField in incoming[0];
    }
  }

  /** A second incoming record with an existing element's id is neither merged nor appended:
      the element absorbs only the first such record, and no record with that id is appended. */
  lemma SecondMatchIgnored(items: seq<Data>, incoming: seq<Data>, idField: string, merge: (Data, Data) -> Data, i: nat, j1: nat, j2: nat)
    requires WellKeyed(items, idField) && WellKeyed(incoming, idField)
    requires i < |items| && j1 < j2 < |incoming|
    requires incoming[j1][idField] == items[i][idField] == incoming[j2][idField]
    requires forall k :: 0 <= k < j1 ==> incoming[k][idField] != items[i][idField]
    ensures Absorbed(items[i], incoming, idField, merge) == merge(items[i], incoming[j1])
    ensures forall r :: r in Unmatched(incoming, idField, IdSet(items, idField)) ==> idField in r && r[idField] != items[i][idField]
  {
    assert idField in incoming[j1];
    IdSetMembers(items, idField, items[i][idField]);
    UnmatchedMembers(incoming, idField, IdSet(items, idField));
  }
}
