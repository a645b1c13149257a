/** The KMZ/KML reader of `src/parsing.py`: the feature tree of a parsed KML document
    flattened into attribute rows, the KML entries of a KMZ archive, and the dispatch on
    the file name. The XML parser and the zip reader are the `Reader` given to it. */
module Parsing {
  import opened Wrappers
  import opened Seqs
  import opened Dicts
  import opened Strings
  import opened Geometry
  import opened Rows

  type Bytes = seq<bv8>

  // ---------------------------------------------------------------------------
  // The parsed document
  // ---------------------------------------------------------------------------

  /** One entry of a `SchemaData` block; `Unreadable` is an entry whose `name` or `value`
      cannot be read (reading it raises). */
  datatype DataItem = Item(name: Value, value: Value) | Unreadable

  /** One element of an `ExtendedData` list: a `Data` element (it has `name` and `value`),
      an element carrying a `data` list, or anything else. */
  datatype ExtElement = Data(name: Value, value: Value) | SchemaData(items: seq<DataItem>) | Unrecognised

  /** `pm.extended_data` (or its `elements`): absent or false, a list of elements, a plain
      dict, or some other object. */
  datatype ExtendedData =
    | NoExtendedData
    | ElementList(elements: seq<ExtElement>)
    | Mapping(pairs: seq<(Value, Value)>)
    | OtherShape

  datatype Placemark = Placemark(
    name: Option<string>,
    description: Option<string>,
    geometry: Option<KmlGeometry>,
    extendedData: ExtendedData)

  /** A feature of the parsed document: a container (document or folder: it has `name` and
      `features`) or a placemark. */
  datatype Node = Container(name: Option<string>, features: seq<Node>) | Leaf(placemark: Placemark)

  /** The libraries the reader calls: `fastkml.KML().from_string(...).features()` and
      `zipfile.ZipFile(...).namelist()` with `read`; `None` when the library raises. */
  datatype Reader = Reader(parse: Bytes -> Option<seq<Node>>, unzip: Bytes -> Option<seq<ZipEntry>>)

  datatype ZipEntry = ZipEntry(name: string, data: Bytes)

  // ---------------------------------------------------------------------------
  // _iter_placemarks and _geom_from_fastkml
  // ---------------------------------------------------------------------------

  /** `_iter_placemarks`: the leaves under `n`, depth first, children in document order. */
  function IterPlacemarks(n: Node): seq<Placemark>
    decreases n
  {
    match n
    case Leaf(pm) => [pm]
    case Container(_, fs) => IterPlacemarksAll(fs)
  }

  function IterPlacemarksAll(ns: seq<Node>): seq<Placemark>
    decreases ns
  {
    if ns == [] then [] else IterPlacemarks(ns[0]) + IterPlacemarksAll(ns[1..])
  }

  /** `_geom_from_fastkml`: no geometry for a missing one or one `shape` cannot convert. */
  function GeomFromKml(lib: Lib, g: Option<KmlGeometry>): Option<Geom>
  {
    match g
    case None => None
    case Some(obj) => lib.shape(obj)
  }

  // ---------------------------------------------------------------------------
  // _extract_extdata
  // ---------------------------------------------------------------------------

  /** What reading one entry does to the `data` dict: store a pair, or raise. */
  datatype Step = Store(key: string, value: Value) | Raise

  function ItemSteps(items: seq<DataItem>): (steps: seq<Step>)
    ensures |steps| == |items|
  {
    if items == [] then []
    else [match items[0] case Item(n, v) => Store(Str(n), v) case Unreadable => Raise] + ItemSteps(items[1..])
  }

  function ElementSteps(el: ExtElement): seq<Step>
  {
    match el
    case Data(n, v) => [Store(Str(n), v)]
    case SchemaData(items) => ItemSteps(items)
    case Unrecognised => []
  }

  function ElementListSteps(els: seq<ExtElement>): seq<Step>
  {
    if els == [] then [] else ElementSteps(els[0]) + ElementListSteps(els[1..])
  }

  function PairSteps(pairs: seq<(Value, Value)>): seq<Step>
  {
    if pairs == [] then [] else [Store(Str(pairs[0].0), pairs[0].1)] + PairSteps(pairs[1..])
  }

  /** The reads `_extract_extdata` performs, in order. */
  function ExtSteps(ed: ExtendedData): seq<Step>
  {
    match ed
    case ElementList(els) => ElementListSteps(els)
    case Mapping(pairs) => PairSteps(pairs)
    case _ => []
  }

  /** Performing the reads on `d` until one raises. */
  function Run(d: Dict<Value>, steps: seq<Step>): Dict<Value>
    decreases steps
  {
    if steps == [] || steps[0].Raise? then d
    else Run(Put(d, steps[0].key, steps[0].value), steps[1..])
  }

  /** `_extract_extdata(pm)` */
  function ExtractExtData(ed: ExtendedData): Dict<Value>
  {
    Run([], ExtSteps(ed))
  }

  /** The pairs stored by the reads done before the first one that raises. */
  function Completed(steps: seq<Step>): seq<(string, Value)>
  {
    if steps == [] || steps[0].Raise? then [] else [(steps[0].key, steps[0].value)] + Completed(steps[1..])
  }

  lemma {:induction false} LastValueCons(p: (string, Value), e: Dict<Value>, k: string)
    ensures LastValue([p] + e, k) == if k in Keys(e) then LastValue(e, k) else if k == p.0 then Some(p.1) else None
  {
    if e != [] {
      var init := e[..|e| - 1];
      assert ([p] + e)[..|e|] == [p] + init;
      LastValueCons(p, init, k);
      KeysSnoc(init, e[|e| - 1]);
      assert init + [e[|e| - 1]] == e;
    }
  }

  /** Extended data as a dict: for each key, the value of the LAST completed read of it;
      the reads after the first one that raises are lost, the ones before it are kept. */
  lemma {:induction false} RunIsLastWrite(d: Dict<Value>, steps: seq<Step>, k: string)
    ensures Get(Run(d, steps), k) ==
      if k in Keys(Completed(steps)) then LastValue(Completed(steps), k) else Get(d, k)
    decreases steps
  {
    if steps != [] && steps[0].Store? {
      RunIsLastWrite(Put(d, steps[0].key, steps[0].value), steps[1..], k);
      LastValueCons((steps[0].key, steps[0].value), Completed(steps[1..]), k);
    }
  }

  lemma {:induction false} RunKeepsUnique(d: Dict<Value>, steps: seq<Step>)
    requires UniqueKeys(d)
    ensures UniqueKeys(Run(d, steps))
    decreases steps
  {
    if steps != [] && steps[0].Store? {
      PutKeepsUnique(d, steps[0].key, steps[0].value);
      RunKeepsUnique(Put(d, steps[0].key, steps[0].value), steps[1..]);
    }
  }

  lemma {:induction false} RunAppend(d: Dict<Value>, a: seq<Step>, b: seq<Step>)
    requires Raise !in a
    ensures Run(d, a + b) == Run(Run(d, a), b)
    decreases a
  {
    if a != [] {
      assert (a + b)[1..] == a[1..] + b;
      RunAppend(Put(d, a[0].key, a[0].value), a[1..], b);
    } else {
      assert a + b == b;
    }
  }

  lemma RunSnoc(d: Dict<Value>, a: seq<Step>, s: Step)
    requires Raise !in a && s.Store?
    ensures Raise !in a + [s]
    ensures Run(d, a + [s]) == Put(Run(d, a), s.key, s.value)
  {
    RunAppend(d, a, [s]);
    assert [s][1..] == [];
  }

  /** `_extract_extdata` never raises; it returns a dict (distinct keys) whose entries are
      the last write of each key among the reads completed before any read that raised. */
  lemma ExtractExtDataIsDict(ed: ExtendedData, k: string)
    ensures UniqueKeys(ExtractExtData(ed))
    ensures Get(ExtractExtData(ed), k) ==
      if k in Keys(Completed(ExtSteps(ed))) then LastValue(Completed(ExtSteps(ed)), k) else None
  {
    RunKeepsUnique([], ExtSteps(ed));
    RunIsLastWrite([], ExtSteps(ed), k);
  }

  lemma {:induction false} RunStopsAtRaise(d: Dict<Value>, a: seq<Step>, b: seq<Step>)
    requires Raise in a
    ensures Run(d, a + b) == Run(d, a)
    decreases a
  {
    assert (a + b)[0] == a[0];
    if a[0].Store? {
      assert (a + b)[1..] == a[1..] + b;
      RunStopsAtRaise(Put(d, a[0].key, a[0].value), a[1..], b);
    }
  }

  lemma {:induction false} ItemStepsAppend(a: seq<DataItem>, b: seq<DataItem>)
    ensures ItemSteps(a + b) == ItemSteps(a) + ItemSteps(b)
  {
    if a == [] {
      assert a + b == b;
    } else {
      assert (a + b)[1..] == a[1..] + b;
      ItemStepsAppend(a[1..], b);
    }
  }

  lemma {:induction false} ElementListStepsAppend(a: seq<ExtElement>, b: seq<ExtElement>)
    ensures ElementListSteps(a + b) == ElementListSteps(a) + ElementListSteps(b)
  {
    if a == [] {
      assert a + b == b;
    } else {
      assert (a + b)[1..] == a[1..] + b;
      ElementListStepsAppend(a[1..], b);
    }
  }

  lemma {:induction false} PairStepsAppend(a: seq<(Value, Value)>, b: seq<(Value, Value)>)
    ensures PairSteps(a + b) == PairSteps(a) + PairSteps(b)
  {
    if a == [] {
      assert a + b == b;
    } else {
      assert (a + b)[1..] == a[1..] + b;
      PairStepsAppend(a[1..], b);
    }
  }

  /** Reading entry `j` of a `data` list after entries `..j` were read without raising. */
  lemma {:induction false} ItemRead(data: Dict<Value>, items: seq<DataItem>, j: int)
    requires 0 <= j < |items|
    requires Raise !in ItemSteps(items[..j])
    ensures items[j].Unreadable? ==>
      Raise in ItemSteps(items) && Run(data, ItemSteps(items)) == Run(data, ItemSteps(items[..j]))
    ensures items[j].Item? ==>
      && Raise !in ItemSteps(items[..j + 1])
      && Run(data, ItemSteps(items[..j + 1])) == Put(Run(data, ItemSteps(items[..j])), Str(items[j].name), items[j].value)
  {
    var done := ItemSteps(items[..j]);
    assert items[..j + 1] == items[..j] + [items[j]];
    ItemStepsAppend(items[..j], [items[j]]);
    assert items == items[..j + 1] + items[j + 1..];
    ItemStepsAppend(items[..j + 1], items[j + 1..]);
    if items[j].Unreadable? {
      assert ItemSteps(items[..j + 1]) == done + [Raise];
      RunStopsAtRaise(data, done + [Raise], ItemSteps(items[j + 1..]));
      RunAppend(data, done, [Raise]);
    } else {
      assert ItemSteps(items[..j + 1]) == done + [Store(Str(items[j].name), items[j].value)];
      RunAppend(data, done, [Store(Str(items[j].name), items[j].value)]);
    }
  }

  /** The inner loop over `el.data` (src/parsing.py:57-58): `raised` tells whether a read
      raised, in which case `out` holds what was stored before it. */
  method StoreItems(data: Dict<Value>, items: seq<DataItem>) returns (out: Dict<Value>, raised: bool)
    ensures out == Run(data, ItemSteps(items))
    ensures raised <==> Raise in ItemSteps(items)
  {
    out := data;
    var j := 0;
    while j < |items|
      invariant 0 <= j <= |items|
      invariant Raise !in ItemSteps(items[..j])
      invariant out == Run(data, ItemSteps(items[..j]))
    {
      ItemRead(data, items, j);
      match items[j] {
        case Unreadable =>
          return out, true;
        case Item(n, v) =>
          out := Put(out, Str(n), v);
      }
      j := j + 1;
    }
    assert items[..j] == items;
    raised := false;
  }

  /** Reading element `i` of an element list after elements `..i` were read without
      raising. */
  lemma {:induction false} ElementRead(els: seq<ExtElement>, i: int)
    requires 0 <= i < |els|
    requires Raise !in ElementListSteps(els[..i])
    ensures ElementListSteps(els[..i + 1]) == ElementListSteps(els[..i]) + ElementSteps(els[i])
    ensures Run([], ElementListSteps(els[..i + 1])) == Run(Run([], ElementListSteps(els[..i])), ElementSteps(els[i]))
    ensures Raise in ElementSteps(els[i]) ==> Run([], ElementListSteps(els)) == Run([], ElementListSteps(els[..i + 1]))
  {
    var done := ElementListSteps(els[..i]);
    assert els[..i + 1] == els[..i] + [els[i]];
    ElementListStepsAppend(els[..i], [els[i]]);
    assert els == els[..i + 1] + els[i + 1..];
    ElementListStepsAppend(els[..i + 1], els[i + 1..]);
    assert ElementListSteps([els[i]]) == ElementSteps(els[i]);
    RunAppend([], done, ElementSteps(els[i]));
    if Raise in ElementSteps(els[i]) {
      RunStopsAtRaise([], ElementListSteps(els[..i + 1]), ElementListSteps(els[i + 1..]));
    }
  }

  /** Reading one element of `pm.extended_data.elements` (src/parsing.py:54-58). */
  method StoreElement(data: Dict<Value>, el: ExtElement) returns (out: Dict<Value>, raised: bool)
    ensures out == Run(data, ElementSteps(el))
    ensures raised <==> Raise in ElementSteps(el)
  {
    match el {
      case Data(n, v) =>
        RunSnoc(data, [], Store(Str(n), v));
        out, raised := Put(data, Str(n), v), false;
      case SchemaData(items) =>
        out, raised := StoreItems(data, items);
      case Unrecognised =>
        out, raised := data, false;
    }
  }

  /** The loop over an element list (src/parsing.py:53-58). */
  method StoreElements(els: seq<ExtElement>) returns (data: Dict<Value>)
    ensures data == Run([], ElementListSteps(els))
  {
    data := [];
    var i := 0;
    while i < |els|
      invariant 0 <= i <= |els|
      invariant Raise !in ElementListSteps(els[..i])
      invariant data == Run([], ElementListSteps(els[..i]))
    {
      ElementRead(els, i);
      var raised;
      data, raised := StoreElement(data, els[i]);
      if raised {
        // the exception ends the whole extraction: what was collected is returned
        return;
      }
      i := i + 1;
    }
    assert els[..i] == els;
  }

  /** Reading pair `i` of a plain dict. */
  lemma {:induction false} PairRead(pairs: seq<(Value, Value)>, i: int)
    requires 0 <= i < |pairs|
    requires Raise !in PairSteps(pairs[..i])
    ensures Raise !in PairSteps(pairs[..i + 1])
    ensures Run([], PairSteps(pairs[..i + 1])) == Put(Run([], PairSteps(pairs[..i])), Str(pairs[i].0), pairs[i].1)
  {
    var s := Store(Str(pairs[i].0), pairs[i].1);
    assert pairs[..i + 1] == pairs[..i] + [pairs[i]];
    PairStepsAppend(pairs[..i], [pairs[i]]);
    assert PairSteps([pairs[i]]) == [s];
    RunSnoc([], PairSteps(pairs[..i]), s);
  }

  /** `_extract_extdata` (src/parsing.py:47-64). */
  method ExtractExtDataLoop(ed: ExtendedData) returns (data: Dict<Value>)
    ensures data == ExtractExtData(ed)
  {
    data := [];
    match ed {
      case ElementList(els) =>
        data := StoreElements(els);
      case Mapping(pairs) =>
        var i := 0;
        while i < |pairs|
          invariant 0 <= i <= |pairs|
          invariant Raise !in PairSteps(pairs[..i])
          invariant data == Run([], PairSteps(pairs[..i]))
        {
          PairRead(pairs, i);
          data := Put(data, Str(pairs[i].0), pairs[i].1);
          i := i + 1;
        }
        assert pairs[..i] == pairs;
      case NoExtendedData =>
      case OtherShape =>
    }
  }

  // ---------------------------------------------------------------------------
  // _walk
  // ---------------------------------------------------------------------------

  const PathSeparator := " / "

  /** The `__layer__` of a row: the folder path joined with `" / "`, or the layer hint
      (`""` when there is none) at the top of the document. */
  function LayerLabel(path: seq<string>, hint: Option<string>): string
  {
    if path != [] then Join(PathSeparator, path) else hint.GetOr("")
  }

  /** The path a container hands to its children: a container without a name, or with an
      empty one, adds nothing. */
  function Extend(path: seq<string>, name: Option<string>): seq<string>
  {
    if name.Some? && name.value != "" then path + [name.value] else path
  }

  /** The columns written before the extended data. */
  function BaseColumns(pm: Placemark, path: seq<string>, hint: Option<string>): Dict<Value>
  {
    Put(Put(Put([], LayerColumn, Text(LayerLabel(path, hint))), NameColumn, OptText(pm.name)),
        DescriptionColumn, OptText(pm.description))
  }

  /** The dict `_walk` appends for a placemark with extended data `ext` and geometry `g`:
      layer, name and description, then `ext` over them, then the geometry over
      everything. */
  function MakeRow(pm: Placemark, path: seq<string>, hint: Option<string>, ext: Dict<Value>, g: Geom): Row
  {
    Row(Remove(Update(BaseColumns(pm, path, hint), ext), GeometryColumn), Some(g))
  }

  /** The rows `_walk(n, path)` appends. */
  function Walk(lib: Lib, n: Node, path: seq<string>, hint: Option<string>): seq<Row>
    decreases n
  {
    match n
    case Leaf(pm) =>
      (match GeomFromKml(lib, pm.geometry)
       case None => []
       case Some(g) => [MakeRow(pm, path, hint, ExtractExtData(pm.extendedData), g)])
    case Container(name, fs) => WalkAll(lib, fs, Extend(path, name), hint)
  }

  function WalkAll(lib: Lib, ns: seq<Node>, path: seq<string>, hint: Option<string>): seq<Row>
    decreases ns
  {
    if ns == [] then [] else Walk(lib, ns[0], path, hint) + WalkAll(lib, ns[1..], path, hint)
  }

  lemma {:induction false} WalkAllSnoc(lib: Lib, ns: seq<Node>, n: Node, path: seq<string>, hint: Option<string>)
    ensures WalkAll(lib, ns + [n], path, hint) == WalkAll(lib, ns, path, hint) + Walk(lib, n, path, hint)
  {
    if ns == [] {
      assert [n][1..] == [];
    } else {
      assert (ns + [n])[1..] == ns[1..] + [n];
      WalkAllSnoc(lib, ns[1..], n, path, hint);
    }
  }

  /** A placemark without a geometry, or whose geometry `shape` cannot convert, is
      skipped; any other gives exactly one row. */
  lemma LeafRowCount(lib: Lib, pm: Placemark, path: seq<string>, hint: Option<string>)
    ensures Walk(lib, Leaf(pm), path, hint) == [] <==> pm.geometry.None? || lib.shape(pm.geometry.value).None?
    ensures |Walk(lib, Leaf(pm), path, hint)| <= 1
  {
  }

  /** A container without a name, or with an empty one, hands its own path to its
      children. */
  lemma UnnamedContainer(lib: Lib, name: Option<string>, fs: seq<Node>, path: seq<string>, hint: Option<string>)
    requires name.None? || name.value == ""
    ensures Walk(lib, Container(name, fs), path, hint) == WalkAll(lib, fs, path, hint)
  {
  }

  lemma WalkAllPrefix(lib: Lib, ns: seq<Node>, i: int, path: seq<string>, hint: Option<string>)
    requires 0 <= i < |ns|
    ensures WalkAll(lib, ns[..i + 1], path, hint) == WalkAll(lib, ns[..i], path, hint) + Walk(lib, ns[i], path, hint)
  {
    WalkAllSnoc(lib, ns[..i], ns[i], path, hint);
    assert ns[..i + 1] == ns[..i] + [ns[i]];
  }

  /** A placemark reached by `_walk` (src/parsing.py:92-99): no row when its geometry does
      not convert, otherwise the row built from its columns and extended data. */
  method LeafRows(lib: Lib, pm: Placemark, path: seq<string>, hint: Option<string>) returns (r: seq<Row>)
    ensures r == Walk(lib, Leaf(pm), path, hint)
  {
    var g := GeomFromKml(lib, pm.geometry);
    if g.None? {
      return [];
    }
    var ext := ExtractExtDataLoop(pm.extendedData);
    r := [MakeRow(pm, path, hint, ext, g.value)];
  }

  /** `_walk` (src/parsing.py:83-99) appending to `rows` as it goes. */
  method WalkInto(lib: Lib, rows: seq<Row>, n: Node, path: seq<string>, hint: Option<string>)
    returns (out: seq<Row>)
    ensures out == rows + Walk(lib, n, path, hint)
    decreases n, 1
  {
    match n {
      case Leaf(pm) =>
        var r := LeafRows(lib, pm, path, hint);
        out := rows + r;
      case Container(name, fs) =>
        var newPath := if name.Some? && name.value != "" then path + [name.value] else path;
        out := WalkChildren(lib, rows, fs, newPath, hint);
    }
  }

  /** The loop over a container's `features()` (src/parsing.py:86-87). */
  method WalkChildren(lib: Lib, rows: seq<Row>, fs: seq<Node>, path: seq<string>, hint: Option<string>)
    returns (out: seq<Row>)
    ensures out == rows + WalkAll(lib, fs, path, hint)
    decreases fs, 0
  {
    out := rows;
    for i := 0 to |fs|
      invariant out == rows + WalkAll(lib, fs[..i], path, hint)
    {
      WalkAllPrefix(lib, fs, i, path, hint);
      out := WalkInto(lib, out, fs[i], path, hint);
    }
    assert fs[..|fs|] == fs;
  }

  // ---------------------------------------------------------------------------
  // What the walk produces, stated against the leaves of the tree
  // ---------------------------------------------------------------------------

  /** The named containers among `ancestors`, outermost first. */
  function Named(ancestors: seq<Option<string>>): seq<string>
  {
    if ancestors == [] then []
    else
      var last := ancestors[|ancestors| - 1];
      Named(ancestors[..|ancestors| - 1]) + (if last.Some? && last.value != "" then [last.value] else [])
  }

  /** Each placemark under `n`, in document order, with the names of all its enclosing
      containers (named or not), outermost first. */
  function Leaves(n: Node, ancestors: seq<Option<string>>): seq<(Placemark, seq<Option<string>>)>
    decreases n
  {
    match n
    case Leaf(pm) => [(pm, ancestors)]
    case Container(name, fs) => LeavesAll(fs, ancestors + [name])
  }

  function LeavesAll(ns: seq<Node>, ancestors: seq<Option<string>>): seq<(Placemark, seq<Option<string>>)>
    decreases ns
  {
    if ns == [] then [] else Leaves(ns[0], ancestors) + LeavesAll(ns[1..], ancestors)
  }

  /** The row of one leaf, if its geometry converts. */
  function RowOf(lib: Lib, hint: Option<string>, leaf: (Placemark, seq<Option<string>>)): seq<Row>
  {
    match GeomFromKml(lib, leaf.0.geometry)
    case None => []
    case Some(g) => [MakeRow(leaf.0, Named(leaf.1), hint, ExtractExtData(leaf.0.extendedData), g)]
  }

  /** The rows of the leaves, in order: one for each leaf whose geometry converts. */
  function RowsOf(lib: Lib, hint: Option<string>, leaves: seq<(Placemark, seq<Option<string>>)>): (rows: seq<Row>)
    ensures |rows| <= |leaves|
    ensures forall r :: r in rows ==> r.geometry.Some?
  {
    if leaves == [] then [] else RowOf(lib, hint, leaves[0]) + RowsOf(lib, hint, leaves[1..])
  }

  lemma {:induction false} RowsOfAppend(lib: Lib, hint: Option<string>, a: seq<(Placemark, seq<Option<string>>)>, b: seq<(Placemark, seq<Option<string>>)>)
    ensures RowsOf(lib, hint, a + b) == RowsOf(lib, hint, a) + RowsOf(lib, hint, b)
  {
    if a == [] {
      assert a + b == b;
    } else {
      assert (a + b)[1..] == a[1..] + b;
      RowsOfAppend(lib, hint, a[1..], b);
    }
  }

  /** Walking a subtree with the path of its named ancestors yields exactly the rows of its
      leaves, in depth-first document order, each labelled with the names of its own named
      ancestors; a container without a (non-empty) name adds nothing to the path. */
  lemma {:induction false} WalkIsRowsOfLeaves(lib: Lib, n: Node, ancestors: seq<Option<string>>, hint: Option<string>)
    ensures Walk(lib, n, Named(ancestors), hint) == RowsOf(lib, hint, Leaves(n, ancestors))
    decreases n
  {
    match n
    case Leaf(pm) =>
      assert RowsOf(lib, hint, [(pm, ancestors)]) == RowOf(lib, hint, (pm, ancestors)) + RowsOf(lib, hint, []);
    case Container(name, fs) =>
      assert (ancestors + [name])[..|ancestors|] == ancestors;
      assert Named(ancestors + [name]) == Extend(Named(ancestors), name);
      WalkAllIsRowsOfLeaves(lib, fs, ancestors + [name], hint);
  }

  lemma {:induction false} WalkAllIsRowsOfLeaves(lib: Lib, ns: seq<Node>, ancestors: seq<Option<string>>, hint: Option<string>)
    ensures WalkAll(lib, ns, Named(ancestors), hint) == RowsOf(lib, hint, LeavesAll(ns, ancestors))
    decreases ns
  {
    if ns != [] {
      WalkIsRowsOfLeaves(lib, ns[0], ancestors, hint);
      WalkAllIsRowsOfLeaves(lib, ns[1..], ancestors, hint);
      RowsOfAppend(lib, hint, Leaves(ns[0], ancestors), LeavesAll(ns[1..], ancestors));
    }
  }

  /** The leaves visited by the walk are exactly those `_iter_placemarks` yields, in the
      same order. */
  lemma {:induction false} LeavesAreIterPlacemarks(n: Node, ancestors: seq<Option<string>>)
    ensures Map(Leaves(n, ancestors), (l: (Placemark, seq<Option<string>>)) => l.0) == IterPlacemarks(n)
    decreases n
  {
    match n
    case Leaf(pm) =>
    case Container(name, fs) => LeavesAllAreIterPlacemarks(fs, ancestors + [name]);
  }

  lemma {:induction false} LeavesAllAreIterPlacemarks(ns: seq<Node>, ancestors: seq<Option<string>>)
    ensures Map(LeavesAll(ns, ancestors), (l: (Placemark, seq<Option<string>>)) => l.0) == IterPlacemarksAll(ns)
    decreases ns
  {
    if ns != [] {
      LeavesAreIterPlacemarks(ns[0], ancestors);
      LeavesAllAreIterPlacemarks(ns[1..], ancestors);
      MapAppend(Leaves(ns[0], ancestors), LeavesAll(ns[1..], ancestors), (l: (Placemark, seq<Option<string>>)) => l.0);
    }
  }

  /** The rows of a document: every one has a geometry, there are at most as many as
      placemarks, and they are the rows of the document's leaves in document order. */
  lemma DocumentRows(lib: Lib, features: seq<Node>, hint: Option<string>)
    ensures WalkAll(lib, features, [], hint) == RowsOf(lib, hint, LeavesAll(features, []))
    ensures forall r :: r in WalkAll(lib, features, [], hint) ==> r.geometry.Some?
    ensures |WalkAll(lib, features, [], hint)| <= |IterPlacemarksAll(features)|
  {
    WalkAllIsRowsOfLeaves(lib, features, [], hint);
    LeavesAllAreIterPlacemarks(features, []);
  }

  /** In a row, an extended-data key wins over `__layer__`, `name` and `description`; the
      geometry is always the placemark's own, whatever the extended data holds. */
  lemma RowColumns(pm: Placemark, path: seq<string>, hint: Option<string>, g: Geom, k: string)
    ensures var r := MakeRow(pm, path, hint, ExtractExtData(pm.extendedData), g);
      var ext := ExtractExtData(pm.extendedData);
      && r.geometry == Some(g)
      && Get(r.attrs, GeometryColumn) == None
      && (k != GeometryColumn && k in Keys(ext) ==> Get(r.attrs, k) == Get(ext, k))
      && (k !in Keys(ext) ==>
           Get(r.attrs, k) == if k == LayerColumn then Some(Text(LayerLabel(path, hint)))
                              else if k == NameColumn then Some(OptText(pm.name))
                              else if k == DescriptionColumn then Some(OptText(pm.description))
                              else None)
  {
    var ext := ExtractExtData(pm.extendedData);
    var base := BaseColumns(pm, path, hint);
    ExtractExtDataIsDict(pm.extendedData, k);
    LastValueIsGet(ext, k);
    assert UniqueKeys(Put(Put(Put([], LayerColumn, Text(LayerLabel(path, hint))), NameColumn, OptText(pm.name)), DescriptionColumn, OptText(pm.description))) by {
      PutKeepsUnique([], LayerColumn, Text(LayerLabel(path, hint)));
      PutKeepsUnique(Put([], LayerColumn, Text(LayerLabel(path, hint))), NameColumn, OptText(pm.name));
      PutKeepsUnique(Put(Put([], LayerColumn, Text(LayerLabel(path, hint))), NameColumn, OptText(pm.name)), DescriptionColumn, OptText(pm.description));
    }
    UpdateKeepsUnique(base, ext);
    if k != GeometryColumn {
      RemoveKeepsOthers(Update(base, ext), GeometryColumn, k);
    }
  }

  // ---------------------------------------------------------------------------
  // parse_kml_bytes and _locate_kml_in_kmz
  // ---------------------------------------------------------------------------

  /** The rows of one KML document, `None` when the parser raises. */
  function ParseKml(lib: Lib, reader: Reader, data: Bytes, hint: Option<string>): Option<seq<Row>>
  {
    match reader.parse(data)
    case None => None
    case Some(features) => Some(WalkAll(lib, features, [], hint))
  }

  /** `parse_kml_bytes` on its fastkml path (src/parsing.py:78-107). */
  method ParseKmlBytes(lib: Lib, reader: Reader, data: Bytes, hint: Option<string>) returns (r: Option<seq<Row>>)
    ensures r == ParseKml(lib, reader, data, hint)
    ensures r.Some? ==> forall row :: row in r.value ==> row.geometry.Some?
  {
    var doc := reader.parse(data);
    if doc.None? {
      return None;
    }
    var features := doc.value;
    var rows: seq<Row> := [];
    for i := 0 to |features|
      invariant rows == WalkAll(lib, features[..i], [], hint)
    {
      WalkAllPrefix(lib, features, i, [], hint);
      rows := WalkInto(lib, rows, features[i], [], hint);
    }
    assert features[..|features|] == features;
    DocumentRows(lib, features, hint);
    return Some(rows);
  }

  /** `name.lower().endswith(".kml")` */
  predicate IsKmlName(name: string)
  {
    EndsWith(Lower(name), ".kml")
  }

  predicate IsKmlEntry(e: ZipEntry)
  {
    IsKmlName(e.name)
  }

  /** `_locate_kml_in_kmz` (src/parsing.py:66-72): the entries of the archive whose name
      ends in `.kml` in any case, in listing order. */
  method LocateKmlInKmz(reader: Reader, kmz: Bytes) returns (r: Option<seq<ZipEntry>>)
    ensures reader.unzip(kmz).None? ==> r.None?
    ensures reader.unzip(kmz).Some? ==> r == Some(Filter(reader.unzip(kmz).value, IsKmlEntry))
    ensures r.Some? ==> forall e :: e in r.value <==> e in reader.unzip(kmz).value && IsKmlName(e.name)
  {
    var listing := reader.unzip(kmz);
    if listing.None? {
      return None;
    }
    var entries := listing.value;
    var out: seq<ZipEntry> := [];
    for i := 0 to |entries|
      invariant out == Filter(entries[..i], IsKmlEntry)
    {
      FilterPrefix(entries, i, IsKmlEntry);
      if IsKmlEntry(entries[i]) {
        out := out + [entries[i]];
      }
    }
    assert entries[..|entries|] == entries;
    return Some(out);
  }

  // ---------------------------------------------------------------------------
  // parse_kmz_or_kml
  // ---------------------------------------------------------------------------

  datatype ParseError =
    | UnsupportedExtension     // "EXTENSÃO NÃO SUPORTADA (USE .KMZ OU .KML)."
    | NoKmlInKmz               // "KMZ SEM KML INTERNO."
    | BadArchive               // zipfile raised
    | MalformedKml(file: string) // the KML parser raised on this file

  /** The parsed upload: all rows, and the rows of each file before cleaning. */
  datatype Parsed = Parsed(rows: seq<Row>, layers: map<string, seq<Row>>)

  /** `g.buffer(0) if g and not g.is_valid else g` */
  function FixGeom(lib: Lib, g: Option<Geom>): Option<Geom>
  {
    match g
    case None => None
    case Some(x) => Some(if !lib.isEmpty(x) && !lib.isValid(x) then lib.repair(x) else x)
  }

  function FixRow(lib: Lib, r: Row): Row
  {
    r.(geometry := FixGeom(lib, r.geometry))
  }

  /** `dropna(subset=["geometry"])` followed by the repair of invalid geometries. */
  function Clean(lib: Lib, rows: seq<Row>): seq<Row>
  {
    Map(Filter(rows, HasGeometry), r => FixRow(lib, r))
  }

  /** Cleaning keeps the rows that have a geometry, in order, with the same columns; a
      geometry is replaced by its repair exactly when it is non-empty and invalid. */
  lemma CleanRows(lib: Lib, rows: seq<Row>)
    ensures |Clean(lib, rows)| == |Filter(rows, HasGeometry)|
    ensures forall i :: 0 <= i < |Clean(lib, rows)| ==>
      && Filter(rows, HasGeometry)[i].geometry.Some?
      && Clean(lib, rows)[i].attrs == Filter(rows, HasGeometry)[i].attrs
      && Clean(lib, rows)[i].geometry == FixGeom(lib, Filter(rows, HasGeometry)[i].geometry)
  {
  }

  /** Rows coming from the walk all have a geometry, so cleaning drops none of them. */
  lemma {:induction false} CleanKeepsWalkedRows(lib: Lib, rows: seq<Row>)
    requires forall r :: r in rows ==> r.geometry.Some?
    ensures |Clean(lib, rows)| == |rows|
  {
    FilterAll(rows, HasGeometry);
  }

  /** The per-file rows of the archive's KML entries, in order, or the name of the first
      file the parser rejects. */
  function ParseAll(lib: Lib, reader: Reader, kmls: seq<ZipEntry>): Result<seq<seq<Row>>, string>
  {
    if kmls == [] then Ok([])
    else
      var last := kmls[|kmls| - 1];
      match ParseAll(lib, reader, kmls[..|kmls| - 1])
      case Err(name) => Err(name)
      case Ok(frames) =>
        match ParseKml(lib, reader, last.data, Some(last.name))
        case None => Err(last.name)
        case Some(rows) => Ok(frames + [rows])
  }

  lemma {:induction false} ParseAllFailureSticks(lib: Lib, reader: Reader, a: seq<ZipEntry>, b: seq<ZipEntry>)
    requires ParseAll(lib, reader, a).Err?
    ensures ParseAll(lib, reader, a + b) == ParseAll(lib, reader, a)
  {
    if b == [] {
      assert a + b == a;
    } else {
      ParseAllFailureSticks(lib, reader, a, b[..|b| - 1]);
      assert (a + b)[..|a + b| - 1] == a + b[..|b| - 1];
    }
  }

  lemma {:induction false} ParseAllLength(lib: Lib, reader: Reader, kmls: seq<ZipEntry>)
    requires ParseAll(lib, reader, kmls).Ok?
    ensures |ParseAll(lib, reader, kmls).value| == |kmls|
  {
    if kmls != [] {
      ParseAllLength(lib, reader, kmls[..|kmls| - 1]);
    }
  }

  /** `layers[kml_name] = gdf` for each file in turn: a name listed twice keeps its last rows. */
  function LayerMap(kmls: seq<ZipEntry>, frames: seq<seq<Row>>): map<string, seq<Row>>
    requires |kmls| == |frames|
  {
    if kmls == [] then map[]
    else LayerMap(kmls[..|kmls| - 1], frames[..|frames| - 1])[kmls[|kmls| - 1].name := frames[|frames| - 1]]
  }

  /** The per-file side table has a key for every file, holding the rows of the last file
      listed under that name. */
  lemma {:induction false} LayerMapHoldsLastFile(kmls: seq<ZipEntry>, frames: seq<seq<Row>>, i: int)
    requires |kmls| == |frames|
    requires 0 <= i < |kmls|
    requires forall j :: i < j < |kmls| ==> kmls[j].name != kmls[i].name
    ensures kmls[i].name in LayerMap(kmls, frames)
    ensures LayerMap(kmls, frames)[kmls[i].name] == frames[i]
  {
    if i < |kmls| - 1 {
      LayerMapHoldsLastFile(kmls[..|kmls| - 1], frames[..|frames| - 1], i);
    }
  }

  /** `parse_kmz_or_kml` as a function of the upload. */
  function ParseUpload(lib: Lib, reader: Reader, file: Bytes, filename: string): Result<Parsed, ParseError>
  {
    if EndsWith(Lower(filename), ".kmz") then
      match reader.unzip(file)
      case None => Err(BadArchive)
      case Some(entries) =>
        var kmls := Filter(entries, IsKmlEntry);
        if kmls == [] then Err(NoKmlInKmz)
        else
          match ParseAll(lib, reader, kmls)
          case Err(name) => Err(MalformedKml(name))
          case Ok(frames) =>
            ParseAllLength(lib, reader, kmls);
            Ok(Parsed(Clean(lib, Concat(frames)), LayerMap(kmls, frames)))
    else if EndsWith(Lower(filename), ".kml") then
      match ParseKml(lib, reader, file, Some(filename))
      case None => Err(MalformedKml(filename))
      case Some(rows) => Ok(Parsed(Clean(lib, rows), map[filename := rows]))
    else Err(UnsupportedExtension)
  }

  /** The loop over the archive's KML entries (src/parsing.py:130-133): the rows of each
      file in order and the per-file table, or the name of the first file that fails. */
  method ParseEntries(lib: Lib, reader: Reader, entries: seq<ZipEntry>)
    returns (frames: seq<seq<Row>>, layers: map<string, seq<Row>>, failed: Option<string>)
    ensures failed.Some? <==> ParseAll(lib, reader, entries).Err?
    ensures failed.Some? ==> failed.value == ParseAll(lib, reader, entries).error
    ensures failed.None? ==> ParseAll(lib, reader, entries) == Ok(frames) && |frames| == |entries|
    ensures failed.None? ==> layers == LayerMap(entries, frames)
  {
    frames, layers, failed := [], map[], None;
    for i := 0 to |entries|
      invariant ParseAll(lib, reader, entries[..i]) == Ok(frames)
      invariant |frames| == i
      invariant layers == LayerMap(entries[..i], frames)
    {
      assert entries[..i + 1][..i] == entries[..i];
      var gdf := ParseKmlBytes(lib, reader, entries[i].data, Some(entries[i].name));
      if gdf.None? {
        assert ParseAll(lib, reader, entries[..i + 1]) == Err(entries[i].name);
        ParseAllFailureSticks(lib, reader, entries[..i + 1], entries[i + 1..]);
        assert entries[..i + 1] + entries[i + 1..] == entries;
        return frames, layers, Some(entries[i].name);
      }
      layers := layers[entries[i].name := gdf.value];
      frames := frames + [gdf.value];
      assert frames[..i] == frames[..|frames| - 1];
    }
    assert entries[..|entries|] == entries;
  }

  /** `parse_kmz_or_kml` (src/parsing.py:123-143), collecting the per-file frames in a loop. */
  method ParseKmzOrKml(lib: Lib, reader: Reader, file: Bytes, filename: string) returns (r: Result<Parsed, ParseError>)
    ensures r == ParseUpload(lib, reader, file, filename)
  {
    var lowered := Lower(filename);
    if EndsWith(lowered, ".kmz") {
      var kmls := LocateKmlInKmz(reader, file);
      if kmls.None? {
        return Err(BadArchive);
      }
      if kmls.value == [] {
        return Err(NoKmlInKmz);
      }
      var frames, layers, failed := ParseEntries(lib, reader, kmls.value);
      if failed.Some? {
        return Err(MalformedKml(failed.value));
      }
      return Ok(Parsed(Clean(lib, Concat(frames)), layers));
    } else if EndsWith(lowered, ".kml") {
      var gdf := ParseKmlBytes(lib, reader, file, Some(filename));
      if gdf.None? {
        return Err(MalformedKml(filename));
      }
      return Ok(Parsed(Clean(lib, gdf.value), map[filename := gdf.value]));
    } else {
      return Err(UnsupportedExtension);
    }
  }

  /** The outcome of an upload: an unknown extension and a `.kmz` without any `.kml` entry
      are refused; otherwise every row has a geometry and the rows are the cleaned
      concatenation of the files' rows in listing order, none of which cleaning drops. */
  lemma UploadOutcome(lib: Lib, reader: Reader, file: Bytes, filename: string)
    ensures var r := ParseUpload(lib, reader, file, filename);
      && (r == Err(UnsupportedExtension) <==> !EndsWith(Lower(filename), ".kmz") && !EndsWith(Lower(filename), ".kml"))
      && (EndsWith(Lower(filename), ".kmz") && reader.unzip(file).Some? ==>
            (r == Err(NoKmlInKmz) <==> forall e :: e in reader.unzip(file).value ==> !IsKmlName(e.name)))
      && (r.Ok? ==> forall row :: row in r.value.rows ==> row.geometry.Some?)
  {
    var r := ParseUpload(lib, reader, file, filename);
    if EndsWith(Lower(filename), ".kmz") && reader.unzip(file).Some? {
      var kmls := Filter(reader.unzip(file).value, IsKmlEntry);
      if kmls != [] {
        assert kmls[0] in kmls;
      }
    }
    if r.Ok? {
      forall row | row in r.value.rows ensures row.geometry.Some? {
        var raw := if EndsWith(Lower(filename), ".kmz") then
          Concat(ParseAll(lib, reader, Filter(reader.unzip(file).value, IsKmlEntry)).value)
        else ParseKml(lib, reader, file, Some(filename)).value;
        CleanRows(lib, raw);
      }
    }
  }
}
