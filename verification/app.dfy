/** The material editor of the application: the draft material built step by step (name, shape, dimensions),
    the list of saved materials with add/update, delete, drag reorder and search. */
module App {
  import opened Wrappers
  import opened Geometry
  import Lists
  import Text
  import ShapeVisualizer

  datatype Material = Material(name: string, shape: string, dimensions: ShapeVisualizer.Dims)

  /** A slot of the materials array. Assigning past the end of a JavaScript array leaves holes, which
      `filter` skips. Copying an array with spread (`[...a]`) or `Array.from` turns each hole into an
      explicit `undefined` entry, which `filter` does visit. */
  datatype Slot = Hole | Undefined | Item(material: Material)

  /** What the drag-and-drop library reports when a drag ends: the source index and, unless the item was
      dropped outside the list, the destination index. */
  datatype DropResult = DropResult(sourceIndex: int, destination: Option<int>)

  const InitialMaterial := Material("", "", map[])

  predicate PositiveDims(d: ShapeVisualizer.Dims) {
    forall k :: k in d ==> d[k] > 0.0
  }

  /** Every material in the list has positive dimensions. */
  predicate AllPositive(ms: seq<Slot>) {
    forall s :: s in ms && s.Item? ==> PositiveDims(s.material.dimensions)
  }

  predicate NoHoles(ms: seq<Slot>) {
    forall i :: 0 <= i < |ms| ==> !ms[i].Hole?
  }

  /** Every slot holds a material: no hole and no `undefined` entry. */
  predicate AllItems(ms: seq<Slot>) {
    forall s :: s in ms ==> s.Item?
  }

  // ---------------------------------------------------------------- draft material

  /** `handleDimensionChange`: a value that is not positive is ignored; otherwise exactly `key` is set. */
  function EditDimension(m: Material, key: string, value: real): (r: Material)
    ensures r.name == m.name && r.shape == m.shape
    ensures value <= 0.0 ==> r == m
    ensures value > 0.0 ==> r.dimensions.Keys == m.dimensions.Keys + {key} && r.dimensions[key] == value
    ensures forall k :: k in m.dimensions && k != key ==> r.dimensions[k] == m.dimensions[k]
  {
    if value <= 0.0 then m else m.(dimensions := m.dimensions[key := value])
  }

  /** Typed edits keep every dimension positive, and repeating an edit changes nothing more. */
  lemma EditDimensionKeepsPositive(m: Material, key: string, value: real)
    ensures PositiveDims(m.dimensions) ==> PositiveDims(EditDimension(m, key, value).dimensions)
    ensures EditDimension(EditDimension(m, key, value), key, value) == EditDimension(m, key, value)
  {
  }

  /** Typing a negative width or a zero width into the dimension dialog leaves the draft as it was; typing
      42 stores 42. */
  lemma EditDimensionExamples(m: Material)
    ensures EditDimension(m, "width", -5.0) == m && EditDimension(m, "width", 0.0) == m
    ensures EditDimension(m, "width", 42.0).dimensions["width"] == 42.0
  {
  }

  /** The defaults `handleShapeSelect` installs for each shape name. */
  function DefaultDimensions(shape: string): (r: ShapeVisualizer.Dims)
    ensures PositiveDims(r)
    ensures shape != "rectangle" && shape != "L-shape" && shape != "U-shape" ==> r == map[]
  {
    if shape == "rectangle" then map["width" := 40.0, "length" := 25.0]
    else if shape == "L-shape" then map["width1" := 25.0, "length1" := 60.0, "width2" := 40.0, "length2" := 25.0]
    else if shape == "U-shape" then
      map["width1" := 25.0, "length1" := 60.0, "width2" := 40.0, "length2" := 25.0, "width3" := 25.0, "length3" := 60.0]
    else map[]
  }

  /** The rectangle and L-shape defaults hold exactly the keys their outline reads, with the values
      40 x 25 and 25, 60, 40, 25; any other name gets no defaults the visualizer can use. */
  lemma DefaultsMatchVisualizerKeys()
    ensures DefaultDimensions("rectangle").Keys == {"width", "length"}
    ensures ShapeVisualizer.RectDimsOf(DefaultDimensions("rectangle")) == Some(ShapeVisualizer.RectDims(40.0, 25.0))
    ensures DefaultDimensions("L-shape").Keys == {"width1", "length1", "width2", "length2"}
    ensures ShapeVisualizer.LDimsOf(DefaultDimensions("L-shape")) == Some(ShapeVisualizer.LDims(25.0, 60.0, 40.0, 25.0))
  {
  }

  /** The rectangle defaults draw the 40 x 25 box, traced down first, with its viewBox. */
  lemma RectangleDefaultsDrawn()
    ensures ShapeVisualizer.ShapePath("rectangle", DefaultDimensions("rectangle"))
         == Some([Point(0.0, 0.0), Point(0.0, 25.0), Point(40.0, 25.0), Point(40.0, 0.0)])
    ensures ShapeVisualizer.ViewBox("rectangle", DefaultDimensions("rectangle")) == Some(Box(-30.0, -30.0, 100.0, 85.0))
  {
    ShapeVisualizer.RectOutlineVertices(ShapeVisualizer.RectDims(40.0, 25.0));
  }

  /** The L-shape defaults draw six vertices, and `side-left2` starts at x = 25 + 40 = 65. */
  lemma LShapeDefaultsDrawn()
    ensures var d := DefaultDimensions("L-shape");
      && ShapeVisualizer.ShapePath("L-shape", d).Some?
      && |ShapeVisualizer.ShapePath("L-shape", d).value| == 6
      && ShapeVisualizer.RenderSides("L-shape", d).Some?
      && ShapeVisualizer.RenderSides("L-shape", d).value[3].id == "side-left2"
      && ShapeVisualizer.RenderSides("L-shape", d).value[3].rect.x == 65.0
  {
  }

  /** The U-shape defaults use none of the keys the U-shape visualizer reads. */
  lemma UShapeDefaultsUseOtherKeys()
    ensures DefaultDimensions("U-shape").Keys !! {"width", "lengthTop", "lengthLeft", "lengthRight"}
  {
  }

  // ---------------------------------------------------------------- the list

  /** `[...a]` and `Array.from(a)`: a copy of the array in which every hole is an explicit `undefined`. */
  function Spread(ms: seq<Slot>): (r: seq<Slot>)
    ensures |r| == |ms| && NoHoles(r)
    ensures forall i :: 0 <= i < |ms| && !ms[i].Hole? ==> r[i] == ms[i]
    ensures forall i :: 0 <= i < |ms| && ms[i].Hole? ==> r[i] == Undefined
    ensures NoHoles(ms) ==> r == ms
  {
    seq(|ms|, i requires 0 <= i < |ms| => if ms[i].Hole? then Undefined else ms[i])
  }

  /** Spreading keeps the stored materials, and it leaves an `undefined` entry exactly where there was a
      hole or an `undefined` entry before. */
  lemma {:induction false} SpreadKeepsItems(ms: seq<Slot>)
    ensures Items(Spread(ms)) == Items(ms)
    ensures Undefined in Spread(ms) <==> Hole in ms || Undefined in ms
    decreases |ms|
  {
    if ms != [] {
      assert Spread(ms)[1..] == Spread(ms[1..]);
      SpreadKeepsItems(ms[1..]);
      assert ms == [ms[0]] + ms[1..];
      assert Spread(ms) == [Spread(ms)[0]] + Spread(ms[1..]);
    }
  }

  /** The materials of an array: holes and `undefined` entries skipped. */
  function Items(ms: seq<Slot>): (r: seq<Material>)
    ensures |r| <= |ms|
    ensures forall m :: m in r <==> Item(m) in ms
    decreases |ms|
  {
    if ms == [] then []
    else (if ms[0].Item? then [ms[0].material] else []) + Items(ms[1..])
  }

  /** Each material occurs among the items as often as it is stored. */
  lemma {:induction false} ItemsCount(ms: seq<Slot>)
    ensures forall m :: multiset(Items(ms))[m] == multiset(ms)[Item(m)]
    decreases |ms|
  {
    if ms != [] {
      ItemsCount(ms[1..]);
      assert ms == [ms[0]] + ms[1..];
    }
  }

  /** The items of a concatenation are the items of each part, in order. */
  lemma {:induction false} ItemsAppend(a: seq<Slot>, b: seq<Slot>)
    ensures Items(a + b) == Items(a) + Items(b)
    decreases |a|
  {
    if a == [] {
      assert a + b == b;
    } else {
      ItemsAppend(a[1..], b);
      var h := if a[0].Item? then [a[0].material] else [];
      assert (a + b)[0] == a[0] && (a + b)[1..] == a[1..] + b;
      assert Items(a + b) == h + Items(a[1..] + b);
      assert h + (Items(a[1..]) + Items(b)) == (h + Items(a[1..])) + Items(b);
    }
  }

  /** When every slot holds a material, the items are those materials, index for index. */
  lemma {:induction false} ItemsDense(ms: seq<Slot>)
    requires forall i :: 0 <= i < |ms| ==> ms[i].Item?
    ensures |Items(ms)| == |ms|
    ensures forall i :: 0 <= i < |ms| ==> Items(ms)[i] == ms[i].material
    decreases |ms|
  {
    if ms != [] {
      ItemsDense(ms[1..]);
    }
  }

  /** The array with its holes removed (an `undefined` entry is kept). */
  function Compact(ms: seq<Slot>): (r: seq<Slot>)
    ensures NoHoles(r)
    decreases |ms|
  {
    if ms == [] then []
    else (if ms[0].Hole? then [] else [ms[0]]) + Compact(ms[1..])
  }

  /** Dropping the holes keeps every other slot as often as it occurs, and so exactly the slots that are
      not holes. */
  lemma {:induction false} CompactCount(ms: seq<Slot>, s: Slot)
    ensures multiset(Compact(ms))[s] == if s.Hole? then 0 else multiset(ms)[s]
    ensures s in Compact(ms) <==> s in ms && !s.Hole?
    decreases |ms|
  {
    if ms != [] {
      CompactCount(ms[1..], s);
      assert ms == [ms[0]] + ms[1..];
    }
  }

  /** Dropping the holes of a concatenation drops them from each part: the other slots keep their order. */
  lemma {:induction false} CompactAppend(a: seq<Slot>, b: seq<Slot>)
    ensures Compact(a + b) == Compact(a) + Compact(b)
    decreases |a|
  {
    if a == [] {
      assert a + b == b;
    } else {
      CompactAppend(a[1..], b);
      var h := if a[0].Hole? then [] else [a[0]];
      assert (a + b)[0] == a[0] && (a + b)[1..] == a[1..] + b;
      assert Compact(a + b) == h + Compact(a[1..] + b);
      assert Compact(a) == h + Compact(a[1..]);
      assert h + (Compact(a[1..]) + Compact(b)) == (h + Compact(a[1..])) + Compact(b);
    }
  }

  lemma {:induction false} CompactDense(ms: seq<Slot>)
    requires NoHoles(ms)
    ensures Compact(ms) == ms
    decreases |ms|
  {
    if ms != [] {
      CompactDense(ms[1..]);
      assert [ms[0]] + ms[1..] == ms;
    }
  }

  /** `updated[i] = x` on a copy of the array: a write inside replaces one slot, a write past the end
      grows the array to i + 1 slots, leaving holes in between. */
  function Assign(ms: seq<Slot>, i: nat, x: Slot): (r: seq<Slot>)
    ensures |r| == if i < |ms| then |ms| else i + 1
    ensures r[i] == x
    ensures forall j :: 0 <= j < |ms| && j != i ==> r[j] == ms[j]
    ensures forall j :: |ms| <= j < i ==> r[j] == Hole
  {
    if i < |ms| then ms[i := x] else ms + seq(i - |ms|, _ => Hole) + [x]
  }

  /** `filter((_, i) => i !== d)` over the slots of `ms`, whose first slot has index `at`: the holes and
      the slot at index `d` go, everything else (an `undefined` entry too) stays. */
  function KeepAllBut(ms: seq<Slot>, d: int, at: int): (r: seq<Slot>)
    ensures |r| <= |ms| && NoHoles(r)
    ensures forall s :: s in r ==> s in ms
    decreases |ms|
  {
    if ms == [] then []
    else (if ms[0].Hole? || at == d then [] else [ms[0]]) + KeepAllBut(ms[1..], d, at + 1)
  }

  /** `deleteMaterial`: never lengthens the list, leaves no hole and adds nothing. */
  function DeleteAt(ms: seq<Slot>, d: int): (r: seq<Slot>)
    ensures |r| <= |ms| && NoHoles(r)
    ensures forall s :: s in r ==> s in ms
  {
    KeepAllBut(ms, d, 0)
  }

  lemma {:induction false} KeepAllButIsRemoveAt(ms: seq<Slot>, d: int, at: int)
    ensures KeepAllBut(ms, d, at) == Compact(if at <= d < at + |ms| then Lists.RemoveAt(ms, d - at) else ms)
    decreases |ms|
  {
    if ms != [] {
      var head := if ms[0].Hole? then [] else [ms[0]];
      KeepAllButIsRemoveAt(ms[1..], d, at + 1);
      if at == d {
        assert Lists.RemoveAt(ms, 0) == ms[1..];
      } else if at < d < at + |ms| {
        var x := [ms[0]] + Lists.RemoveAt(ms[1..], d - at - 1);
        Lists.RemoveAtTail(ms, d - at);
        assert x[1..] == Lists.RemoveAt(ms[1..], d - at - 1);
        assert Compact(x) == head + Compact(x[1..]);
      } else {
        assert Compact(ms) == head + Compact(ms[1..]);
      }
    }
  }

  /** Deleting removes exactly the slot at the index (when there is one) and drops the holes, keeping the
      order of the rest; on a list without holes it is exactly removal at the index, or nothing if out of
      range. */
  lemma DeleteAtSpec(ms: seq<Slot>, d: int)
    ensures DeleteAt(ms, d) == Compact(if 0 <= d < |ms| then Lists.RemoveAt(ms, d) else ms)
    ensures NoHoles(ms) && 0 <= d < |ms| ==> DeleteAt(ms, d) == Lists.RemoveAt(ms, d)
    ensures NoHoles(ms) && !(0 <= d < |ms|) ==> DeleteAt(ms, d) == ms
  {
    KeepAllButIsRemoveAt(ms, d, 0);
    if NoHoles(ms) {
      if 0 <= d < |ms| {
        var r := Lists.RemoveAt(ms, d);
        assert NoHoles(r) by {
          forall j | 0 <= j < |r| ensures !r[j].Hole? {
            if j < d { assert r[j] == ms[j]; } else { assert r[j] == ms[j + 1]; }
          }
        }
        CompactDense(r);
      } else {
        CompactDense(ms);
      }
    }
  }

  /** `onDragEnd`: nothing happens without a destination; otherwise the array is copied with
      `Array.from` (holes become `undefined`) and the source slot is spliced out and back in at the
      destination. */
  function Reorder(ms: seq<Slot>, result: DropResult): (r: seq<Slot>)
    requires 0 <= result.sourceIndex < |ms|
    requires result.destination.Some? ==> 0 <= result.destination.value < |ms|
    ensures |r| == |ms|
    ensures result.destination.None? ==> r == ms
    ensures result.destination.Some? ==> NoHoles(r) && multiset(r) == multiset(Spread(ms))
    ensures result.destination.Some? ==>
      r[result.destination.value] == Spread(ms)[result.sourceIndex]
      && Lists.RemoveAt(r, result.destination.value) == Lists.RemoveAt(Spread(ms), result.sourceIndex)
  {
    match result.destination
    case None => ms
    case Some(to) =>
      var c := Spread(ms);
      Lists.MoveSpec(c, result.sourceIndex, to);
      var r := Lists.Move(c, result.sourceIndex, to);
      assert NoHoles(r) by {
        forall i | 0 <= i < |r| ensures !r[i].Hole? {
          assert r[i] in multiset(c);
        }
      }
      r
  }

  /** The search test: the lower-cased name or shape includes the lower-cased term. The empty term, and a
      term equal to the name up to case, always match. */
  predicate Matches(m: Material, term: string)
    ensures term == "" ==> Matches(m, term)
    ensures Text.Lower(term) == Text.Lower(m.name) ==> Matches(m, term)
  {
    Text.IncludesEmptyAndSelf(Text.Lower(m.name));
    Text.Includes(Text.Lower(m.name), Text.Lower(term)) || Text.Includes(Text.Lower(m.shape), Text.Lower(term))
  }

  /** The test `filteredMaterials` applies to each material. */
  function SearchTest(term: string): Material -> bool {
    (m: Material) => Matches(m, term)
  }

  /** `filteredMaterials`. Reading `.name` of an `undefined` entry throws, so the list has no filtered
      view (`None`) exactly when it holds one. Otherwise the view keeps the stored materials that match,
      each as often as it is stored, in list order; the empty term keeps them all. */
  function FilteredMaterials(ms: seq<Slot>, term: string): (r: Option<seq<Material>>)
    ensures r.None? <==> Undefined in ms
    ensures r.Some? ==> Lists.IsSubsequence(r.value, Items(ms))
    ensures r.Some? ==> forall m :: m in r.value <==> Item(m) in ms && Matches(m, term)
    ensures r.Some? ==> forall m :: multiset(r.value)[m] == if Matches(m, term) then multiset(ms)[Item(m)] else 0
    ensures r.Some? && term == "" ==> r.value == Items(ms)
  {
    if Undefined in ms then None
    else
      FilterSpec(Items(ms), term);
      ItemsCount(ms);
      Some(Lists.Filter(Items(ms), SearchTest(term)))
  }

  lemma FilterSpec(items: seq<Material>, term: string)
    ensures Lists.IsSubsequence(Lists.Filter(items, SearchTest(term)), items)
    ensures forall m :: m in Lists.Filter(items, SearchTest(term)) <==> m in items && Matches(m, term)
    ensures forall m :: multiset(Lists.Filter(items, SearchTest(term)))[m] == if Matches(m, term) then multiset(items)[m] else 0
    ensures term == "" ==> Lists.Filter(items, SearchTest(term)) == items
  {
    var p := SearchTest(term);
    Lists.FilterIsSubsequence(items, p);
    forall m ensures m in Lists.Filter(items, p) <==> m in items && Matches(m, term) {
      Lists.FilterMembership(items, p, m);
    }
    forall m ensures multiset(Lists.Filter(items, p))[m] == if Matches(m, term) then multiset(items)[m] else 0 {
      Lists.FilterCount(items, p, m);
    }
    if term == "" {
      Lists.FilterKeepsAll(items, p);
    }
  }

  /** The filtered view of a list split anywhere is the view of the first part followed by the view of
      the second: the view keeps the order of the stored list. */
  lemma FilteredMaterialsAppend(a: seq<Slot>, b: seq<Slot>, term: string)
    ensures FilteredMaterials(a + b, term) ==
      if FilteredMaterials(a, term).Some? && FilteredMaterials(b, term).Some?
      then Some(FilteredMaterials(a, term).value + FilteredMaterials(b, term).value)
      else None
  {
    assert Undefined in a + b <==> Undefined in a || Undefined in b;
    ItemsAppend(a, b);
    Lists.FilterAppend(Items(a), Items(b), SearchTest(term));
  }

  /** Search ignores ASCII case: a term and its lower-cased form select the same materials. */
  lemma SearchIgnoresCase(ms: seq<Slot>, term: string)
    ensures FilteredMaterials(ms, Text.Lower(term)) == FilteredMaterials(ms, term)
  {
    Text.LowerIdempotent(term);
    Lists.FilterCongruent(Items(ms), SearchTest(Text.Lower(term)), SearchTest(term));
  }

  /** A material is always found by its own name, whatever the case of the term, unless the list holds an
      `undefined` entry and has no view at all. */
  lemma FoundByOwnName(ms: seq<Slot>, m: Material)
    requires Item(m) in ms
    ensures FilteredMaterials(ms, m.name).Some? <==> Undefined !in ms
    ensures FilteredMaterials(ms, m.name).Some? ==> m in FilteredMaterials(ms, m.name).value
  {
  }

  /** Once the list has a hole, the next `addMaterial` copies it with spread: the hole becomes an
      `undefined` entry and the list has no filtered view any more. */
  lemma AppendAfterHoleLosesView(ms: seq<Slot>, m: Material, term: string)
    requires Hole in ms
    ensures FilteredMaterials(Spread(ms) + [Item(m)], term).None?
  {
    SpreadKeepsItems(ms);
  }

  /** Appending a material to the spread copy of a list of materials leaves a list of materials. */
  lemma AddKeepsAllItems(ms: seq<Slot>, m: Material)
    requires AllItems(ms)
    ensures AllItems(Spread(ms) + [Item(m)]) && |Spread(ms) + [Item(m)]| == |ms| + 1
  {
    assert NoHoles(ms) by {
      forall i | 0 <= i < |ms| ensures !ms[i].Hole? { assert ms[i] in ms; }
    }
  }

  /** Updating an index inside a list of materials keeps its length and leaves no hole: only a write past
      the end, which needs the list to have shrunk since the edit began, can make one. */
  lemma UpdateKeepsAllItems(ms: seq<Slot>, i: nat, m: Material)
    requires AllItems(ms) && i < |ms|
    ensures AllItems(Assign(Spread(ms), i, Item(m))) && |Assign(Spread(ms), i, Item(m))| == |ms|
  {
    var r := Assign(Spread(ms), i, Item(m));
    forall s | s in r ensures s.Item? {
      var j :| 0 <= j < |r| && r[j] == s;
      if j != i { assert ms[j] in ms; }
    }
  }

  /** Reordering a list of materials leaves a list of materials. */
  lemma ReorderKeepsAllItems(ms: seq<Slot>, result: DropResult)
    requires AllItems(ms)
    requires 0 <= result.sourceIndex < |ms|
    requires result.destination.Some? ==> 0 <= result.destination.value < |ms|
    ensures AllItems(Reorder(ms, result))
  {
    var r := Reorder(ms, result);
    forall s | s in r ensures s.Item? {
      if result.destination.Some? {
        assert s in multiset(Spread(ms));
        var j :| 0 <= j < |ms| && Spread(ms)[j] == s;
        assert ms[j] in ms;
      }
    }
  }

  /** Holes come from a delete: with three materials, editing the last one, deleting the first one twice
      and then saving writes past the end of the one-material list and leaves a hole at index 1. */
  lemma DeleteThenUpdateLeavesHole(a: Material, b: Material, c: Material, m: Material)
    ensures DeleteAt(DeleteAt([Item(a), Item(b), Item(c)], 0), 0) == [Item(c)]
    ensures Assign(Spread([Item(c)]), 2, Item(m)) == [Item(c), Hole, Item(m)]
  {
    var ms := [Item(a), Item(b), Item(c)];
    assert ms[1..] == [Item(b), Item(c)] && ms[1..][1..] == [Item(c)] && ms[1..][1..][1..] == [];
    assert KeepAllBut([Item(c)], 0, 2) == [Item(c)] + KeepAllBut([], 0, 3);
    assert KeepAllBut(ms[1..], 0, 1) == [Item(b)] + KeepAllBut([Item(c)], 0, 2);
    assert KeepAllBut(ms, 0, 0) == [Item(b), Item(c)];
    var ns := [Item(b), Item(c)];
    assert ns[1..] == [Item(c)] && ns[1..][1..] == [];
    assert KeepAllBut(ns[1..], 0, 1) == [Item(c)] + KeepAllBut([], 0, 2);
    assert KeepAllBut(ns, 0, 0) == [Item(c)];
  }

  lemma DeleteAtKeepsPositive(ms: seq<Slot>, d: int)
    requires AllPositive(ms)
    ensures AllPositive(DeleteAt(ms, d))
  {
  }

  lemma ReorderKeepsPositive(ms: seq<Slot>, result: DropResult)
    requires 0 <= result.sourceIndex < |ms|
    requires result.destination.Some? ==> 0 <= result.destination.value < |ms|
    requires AllPositive(ms)
    ensures AllPositive(Reorder(ms, result))
  {
    var r := Reorder(ms, result);
    forall s | s in r && s.Item? ensures s in ms {
      if result.destination.Some? {
        assert s in multiset(Spread(ms));
        var i :| 0 <= i < |ms| && Spread(ms)[i] == s;
      }
    }
  }

  lemma AssignKeepsPositive(ms: seq<Slot>, i: nat, m: Material)
    requires AllPositive(ms) && PositiveDims(m.dimensions)
    ensures AllPositive(Assign(ms, i, Item(m)))
  {
    var r := Assign(ms, i, Item(m));
    forall s | s in r && s.Item? ensures PositiveDims(s.material.dimensions) {
      var j :| 0 <= j < |r| && r[j] == s;
      if j != i && j < |ms| { assert ms[j] == s; }
    }
  }

  /** Spreading keeps every stored material positive. */
  lemma SpreadKeepsPositive(ms: seq<Slot>)
    requires AllPositive(ms)
    ensures AllPositive(Spread(ms))
  {
    forall s | s in Spread(ms) && s.Item? ensures s in ms {
      var i :| 0 <= i < |ms| && Spread(ms)[i] == s;
    }
  }

  // ---------------------------------------------------------------- the component state

  /** The editor's state: the saved list, the draft, the index being edited (-1 for a new material), the
      wizard step (0 name, 1 shape, 2 dimensions), the index picked for deletion and the search term. */
  class MaterialStore {
    var materials: seq<Slot>
    var newMaterial: Material
    var editIndex: int
    var inputStep: int
    var deleteIndex: int
    var searchTerm: string

    ghost predicate Valid()
      reads this
    {
      && editIndex >= -1 && deleteIndex >= -1
      && 0 <= inputStep <= 2
      && PositiveDims(newMaterial.dimensions) && AllPositive(materials)
    }

    /** The states the buttons the component wires up can reach: every slot holds a material, and an edit
        in progress names one of them. Only `DeleteMaterial`, which nothing calls, can leave it. */
    ghost predicate Dense()
      reads this
    {
      AllItems(materials) && editIndex < |materials|
    }

    constructor ()
      ensures Valid()
      ensures materials == [] && newMaterial == InitialMaterial && editIndex == -1
      ensures inputStep == 0 && deleteIndex == -1 && searchTerm == ""
      ensures Dense()
    {
      materials := [];
      newMaterial := InitialMaterial;
      editIndex := -1;
      inputStep := 0;
      deleteIndex := -1;
      searchTerm := "";
    }

    /** `handleInputChange` on the name field. */
    method SetName(name: string)
      requires Valid()
      modifies this`newMaterial
      ensures Valid() && newMaterial == old(newMaterial).(name := name)
    {
      newMaterial := newMaterial.(name := name);
    }

    method HandleDimensionChange(key: string, value: real)
      requires Valid()
      modifies this`newMaterial
      ensures Valid() && newMaterial == EditDimension(old(newMaterial), key, value)
    {
      newMaterial := EditDimension(newMaterial, key, value);
    }

    /** `handleShapeSelect`: set the shape and its defaults, keep the name, go to the dimensions step. */
    method HandleShapeSelect(shape: string)
      requires Valid()
      modifies this`newMaterial, this`inputStep
      ensures Valid()
      ensures newMaterial == Material(old(newMaterial.name), shape, DefaultDimensions(shape)) && inputStep == 2
    {
      newMaterial := newMaterial.(shape := shape, dimensions := DefaultDimensions(shape));
      inputStep := 2;
    }

    /** The "Next" button of the name step. */
    method NextStep()
      requires Valid()
      modifies this`inputStep
      ensures Valid() && inputStep == 1
    {
      inputStep := 1;
    }

    /** `handleBack`: one step back, never below the first step. */
    method HandleBack()
      requires Valid()
      modifies this`inputStep
      ensures Valid()
      ensures inputStep == if old(inputStep) > 0 then old(inputStep) - 1 else old(inputStep)
    {
      if inputStep > 0 {
        inputStep := inputStep - 1;
      }
    }

    /** `addMaterial`: a name that trims to nothing changes nothing; otherwise the list is copied with
        spread (holes become `undefined`), the draft is appended (no edit in progress) or written at
        `editIndex`, and the draft, the edit index and the step are reset. */
    method AddMaterial()
      requires Valid()
      modifies this`materials, this`newMaterial, this`editIndex, this`inputStep
      ensures Valid()
      ensures Text.Trim(old(newMaterial.name)) == "" ==>
        materials == old(materials) && newMaterial == old(newMaterial)
        && editIndex == old(editIndex) && inputStep == old(inputStep)
      ensures Text.Trim(old(newMaterial.name)) != "" ==>
        && materials == (if old(editIndex) == -1 then Spread(old(materials)) + [Item(old(newMaterial))]
                         else Assign(Spread(old(materials)), old(editIndex), Item(old(newMaterial))))
        && newMaterial == InitialMaterial && editIndex == -1 && inputStep == 0
      ensures old(Dense()) ==> Dense()
    {
      if Text.Trim(newMaterial.name) == "" {
        return;
      }
      ghost var wasDense := Dense();
      var next: seq<Slot>;
      SpreadKeepsPositive(materials);
      if editIndex == -1 {
        next := Spread(materials) + [Item(newMaterial)];
        if wasDense { AddKeepsAllItems(materials, newMaterial); }
      } else {
        next := Assign(Spread(materials), editIndex, Item(newMaterial));
        if wasDense { UpdateKeepsAllItems(materials, editIndex, newMaterial); }
        AssignKeepsPositive(Spread(materials), editIndex, newMaterial);
      }
      assert wasDense ==> AllItems(next);
      materials := next;
      editIndex := -1;
      newMaterial := InitialMaterial;
      inputStep := 0;
    }

    /** `editMaterial`: load the material at `index` into the draft and go back to the name step. */
    method EditMaterial(index: int)
      requires Valid()
      requires 0 <= index < |materials| && materials[index].Item?
      modifies this`newMaterial, this`editIndex, this`inputStep
      ensures Valid()
      ensures newMaterial == materials[index].material && editIndex == index && inputStep == 0
      ensures old(Dense()) ==> Dense()
    {
      assert materials[index] in materials;
      newMaterial := materials[index].material;
      editIndex := index;
      inputStep := 0;
    }

    /** `handleDeleteClick`: the only handler the delete icon runs. It stores the index for a confirmation
        dialog that is never rendered, and its frame leaves the list as it was. */
    method HandleDeleteClick(index: nat)
      requires Valid()
      modifies this`deleteIndex
      ensures Valid() && deleteIndex == index
    {
      deleteIndex := index;
    }

    /** `deleteMaterial`, which the delete icon evidently should end in. The edit index is left as it is,
        so an edit begun before a delete can later write past the end of the shorter list. */
    method DeleteMaterial()
      requires Valid()
      modifies this`materials
      ensures Valid() && materials == DeleteAt(old(materials), deleteIndex)
    {
      DeleteAtKeepsPositive(materials, deleteIndex);
      materials := DeleteAt(materials, deleteIndex);
    }

    /** `onDragEnd`; the indices are those the drag-and-drop library reports. */
    method OnDragEnd(result: DropResult)
      requires Valid()
      requires 0 <= result.sourceIndex < |materials|
      requires result.destination.Some? ==> 0 <= result.destination.value < |materials|
      modifies this`materials
      ensures Valid() && materials == Reorder(old(materials), result)
      ensures old(Dense()) ==> Dense()
    {
      if Dense() { ReorderKeepsAllItems(materials, result); }
      ReorderKeepsPositive(materials, result);
      materials := Reorder(materials, result);
    }

    method SetSearchTerm(term: string)
      requires Valid()
      modifies this`searchTerm
      ensures Valid() && searchTerm == term
    {
      searchTerm := term;
    }

    /** The list as displayed: `filteredMaterials`; `None` when an `undefined` entry makes it throw. */
    function Visible(): (r: Option<seq<Material>>)
      reads this
      ensures r.None? <==> Undefined in materials
      ensures AllItems(materials) ==> r.Some?
      ensures r.Some? ==> Lists.IsSubsequence(r.value, Items(materials))
      ensures r.Some? ==>
        forall m :: multiset(r.value)[m] == if Matches(m, searchTerm) then multiset(materials)[Item(m)] else 0
    {
      FilteredMaterials(materials, searchTerm)
    }
  }
}
