/**
 * Parents and children from the Potato Pedigree image maps. The boxes of a
 * pedigree's image map form a binary tree drawn left to right: the variety in
 * column 0, its two parents one column further at half the vertical distance
 * above and below, their parents one column further again, and so on. The
 * extractor reifies the boxes into a grid keyed by column and row, walks the
 * tree depth-first from the box in column 0, records a PARENT_OF signal under
 * each parent and a CHILD_OF signal under each child, and finally merges the
 * signals of all pedigrees, dropping duplicates.
 */
module Parentage {
  import opened Wrappers
  import opened Extractor
  import opened Dicts
  import Finite

  /** What extracting raises: a missing dictionary key, or Python's recursion limit. */
  datatype Error = KeyError(key: string) | RecursionError

  /** The reified image map: column to row to the name in the box there. */
  type Grid = map<int, map<int, string>>

  /** The grid, and the row of the first box placed in column 0 (the first key of that column). */
  datatype Placed = Placed(grid: Grid, firstAtZero: Option<int>)

  /** An entry whose coordinates describe a rectangle. */
  predicate Boxed(e: Entry)
  {
    e.coordinates.Some? && |e.coordinates.value| == 4
  }

  /** An entry the reifying loop raises on: no coordinates, or a rectangle with no name. */
  predicate Raises(e: Entry)
  {
    e.coordinates.None? || (Boxed(e) && e.name.None?)
  }

  /** The key whose absence makes the reifying loop raise on `e`. */
  function MissingKey(e: Entry): string
  {
    if e.coordinates.None? then "coordinates" else "name"
  }

  function Column(e: Entry): int
    requires Boxed(e)
  {
    e.coordinates.value[0]
  }

  /** The row of a box: its top edge moved down to its middle. */
  function Row(e: Entry, yOffset: int): int
    requires Boxed(e)
  {
    e.coordinates.value[1] + yOffset
  }

  /** Column 0 exists exactly when a first row was recorded for it, and that row is one of its keys. */
  ghost predicate WellPlaced(p: Placed)
  {
    (p.firstAtZero.Some? <==> 0 in p.grid) && (p.firstAtZero.Some? ==> p.firstAtZero.value in p.grid[0])
  }

  /** The reifying loop over `entries`, one entry at a time: the grid it fills, or the key it raises on. */
  function Place(entries: seq<Entry>, yOffset: int): (r: Result<Placed, Error>)
    ensures r.Ok? ==> WellPlaced(r.value)
    decreases |entries|
  {
    if entries == [] then Ok(Placed(map[], None))
    else
      match Place(entries[..|entries| - 1], yOffset)
      case Err(err) => Err(err)
      case Ok(p) =>
        var e := entries[|entries| - 1];
        if e.coordinates.None? then Err(KeyError("coordinates"))
        else if !Boxed(e) then Ok(p)
        else if e.name.None? then Err(KeyError("name"))
        else
          var x, y := Column(e), Row(e, yOffset);
          var column := if x in p.grid then p.grid[x] else map[];
          Ok(Placed(p.grid[x := column[y := e.name.value]], if p.firstAtZero.None? && x == 0 then Some(y) else p.firstAtZero))
  }

  /** The loop raises exactly when some entry lacks its coordinates, or is a rectangle without a name; it raises on the first such entry. */
  lemma {:induction false} PlaceRaises(entries: seq<Entry>, yOffset: int)
    ensures Place(entries, yOffset).Err? <==> exists i :: 0 <= i < |entries| && Raises(entries[i])
    ensures Place(entries, yOffset).Err? ==>
      exists i :: 0 <= i < |entries| && Raises(entries[i])
        && (forall j :: 0 <= j < i ==> !Raises(entries[j]))
        && Place(entries, yOffset).error == KeyError(MissingKey(entries[i]))
    decreases |entries|
  {
    if entries != [] {
      var init := entries[..|entries| - 1];
      PlaceRaises(init, yOffset);
      assert forall i :: 0 <= i < |init| ==> init[i] == entries[i];
    }
  }

  /** The grid has a box exactly where some rectangle is. */
  lemma {:induction false} PlacePositions(entries: seq<Entry>, yOffset: int, x: int, y: int)
    requires Place(entries, yOffset).Ok?
    ensures var g := Place(entries, yOffset).value.grid;
      (x in g && y in g[x]) <==> exists i :: 0 <= i < |entries| && Boxed(entries[i]) && Column(entries[i]) == x && Row(entries[i], yOffset) == y
    decreases |entries|
  {
    if entries != [] {
      var init := entries[..|entries| - 1];
      PlacePositions(init, yOffset, x, y);
      assert forall i :: 0 <= i < |init| ==> init[i] == entries[i];
    }
  }

  /** A box holds the name of the last rectangle placed there: a later entry overwrites an earlier one. */
  lemma {:induction false} PlaceLastWins(entries: seq<Entry>, yOffset: int, i: nat)
    requires Place(entries, yOffset).Ok?
    requires i < |entries| && Boxed(entries[i])
    requires forall j :: i < j < |entries| && Boxed(entries[j]) ==>
      (Column(entries[j]), Row(entries[j], yOffset)) != (Column(entries[i]), Row(entries[i], yOffset))
    ensures var g := Place(entries, yOffset).value.grid;
      Column(entries[i]) in g && Row(entries[i], yOffset) in g[Column(entries[i])]
      && entries[i].name == Some(g[Column(entries[i])][Row(entries[i], yOffset)])
    decreases |entries|
  {
    var init := entries[..|entries| - 1];
    assert forall j :: 0 <= j < |init| ==> init[j] == entries[j];
    if i < |entries| - 1 {
      PlaceLastWins(init, yOffset, i);
    }
  }

  /** The first row of column 0 is the row of the first rectangle in column 0. */
  lemma {:induction false} PlaceFirstAtZero(entries: seq<Entry>, yOffset: int)
    requires Place(entries, yOffset).Ok?
    ensures var first := Place(entries, yOffset).value.firstAtZero;
      && (first.None? <==> forall i :: 0 <= i < |entries| && Boxed(entries[i]) ==> Column(entries[i]) != 0)
      && (first.Some? ==>
            exists i :: 0 <= i < |entries| && Boxed(entries[i]) && Column(entries[i]) == 0
              && Row(entries[i], yOffset) == first.value
              && forall j :: 0 <= j < i && Boxed(entries[j]) ==> Column(entries[j]) != 0)
    decreases |entries|
  {
    if entries != [] {
      var init := entries[..|entries| - 1];
      PlaceFirstAtZero(init, yOffset);
      assert forall i :: 0 <= i < |init| ==> init[i] == entries[i];
    }
  }

  /** The name that is never treated as a parent. */
  const Unknown: string := "unknown"

  /**
   * One parent found by the walk: the child's and the parent's names and boxes,
   * and how many levels above the starting box the child sits.
   */
  datatype Edge = Edge(child: string, parent: string, childAt: (int, int), parentAt: (int, int), level: nat)

  /**
   * The parents found by `_dfs` from the box `(x, y)` holding `child`, in the order
   * they are recorded, with `fuel` calls left before the recursion limit.
   */
  function Edges(g: Grid, child: string, x: int, y: int, yDiff: int, xOffset: int, fuel: nat, level: nat)
    : Result<seq<Edge>, Error>
    decreases fuel, 2, 0
  {
    if fuel == 0 then Err(RecursionError)
    else if x + xOffset !in g then Ok([])
    else Branches(g, child, x, y, yDiff, xOffset, fuel, level, [y - yDiff, y + yDiff])
  }

  /** The loop of `_dfs` over the candidate rows `rows` of the next column. */
  function Branches(g: Grid, child: string, x: int, y: int, yDiff: int, xOffset: int, fuel: nat, level: nat, rows: seq<int>)
    : Result<seq<Edge>, Error>
    requires fuel > 0 && x + xOffset in g
    decreases fuel, 1, |rows|
  {
    if rows == [] then Ok([])
    else
      match Branches(g, child, x, y, yDiff, xOffset, fuel, level, rows[..|rows| - 1])
      case Err(err) => Err(err)
      case Ok(before) =>
        match Branch(g, child, x, y, rows[|rows| - 1], yDiff, xOffset, fuel, level)
        case Err(err) => Err(err)
        case Ok(found) => Ok(before + found)
  }

  /** One candidate row: nothing if its box is empty or unknown, else that parent and, recursively, its parents. */
  function Branch(g: Grid, child: string, x: int, y: int, nextY: int, yDiff: int, xOffset: int, fuel: nat, level: nat)
    : Result<seq<Edge>, Error>
    requires fuel > 0 && x + xOffset in g
    decreases fuel, 0, 0
  {
    var nextX := x + xOffset;
    if nextY !in g[nextX] || g[nextX][nextY] == Unknown then Ok([])
    else
      var parent := g[nextX][nextY];
      match Edges(g, parent, nextX, nextY, yDiff / 2, xOffset, fuel - 1, level + 1)
      case Err(err) => Err(err)
      case Ok(above) => Ok([Edge(child, parent, (x, y), (nextX, nextY), level)] + above)
  }

  /** `yDiff` halved (rounding down) `n` times. */
  function Halved(yDiff: int, n: nat): int
  {
    if n == 0 then yDiff else Halved(yDiff, n - 1) / 2
  }

  /** A box of the grid holding `name`. */
  ghost predicate InGrid(g: Grid, at: (int, int), name: string)
  {
    at.0 in g && at.1 in g[at.0] && g[at.0][at.1] == name
  }

  /**
   * Where a found parent sits: one column offset further than its child, and the
   * starting distance halved once per level above or below it; it is in the grid
   * under its own name, which is never "unknown".
   */
  ghost predicate Follows(g: Grid, x: int, yDiff: int, xOffset: int, level: nat, e: Edge)
  {
    && e.level >= level
    && e.childAt.0 == x + (e.level - level) * xOffset
    && e.parentAt.0 == e.childAt.0 + xOffset
    && (e.parentAt.1 == e.childAt.1 - Halved(yDiff, e.level - level) || e.parentAt.1 == e.childAt.1 + Halved(yDiff, e.level - level))
    && InGrid(g, e.parentAt, e.parent)
    && e.parent != Unknown
  }

  lemma HalvedOnceMore(yDiff: int, n: nat)
    ensures Halved(yDiff / 2, n) == Halved(yDiff, n + 1)
  {
    if n > 0 {
      HalvedOnceMore(yDiff, n - 1);
    }
  }

  /** Every parent the walk finds lies where the bifurcating layout puts it. */
  lemma {:induction false} EdgesFollowLayout(g: Grid, child: string, x: int, y: int, yDiff: int, xOffset: int, fuel: nat, level: nat)
    requires Edges(g, child, x, y, yDiff, xOffset, fuel, level).Ok?
    ensures forall e :: e in Edges(g, child, x, y, yDiff, xOffset, fuel, level).value ==> Follows(g, x, yDiff, xOffset, level, e)
    decreases fuel, 2, 0
  {
    if fuel > 0 && x + xOffset in g {
      BranchesFollowLayout(g, child, x, y, yDiff, xOffset, fuel, level, [y - yDiff, y + yDiff]);
    }
  }

  lemma {:induction false} BranchesFollowLayout(g: Grid, child: string, x: int, y: int, yDiff: int, xOffset: int, fuel: nat, level: nat, rows: seq<int>)
    requires fuel > 0 && x + xOffset in g
    requires Branches(g, child, x, y, yDiff, xOffset, fuel, level, rows).Ok?
    requires forall i :: 0 <= i < |rows| ==> rows[i] == y - yDiff || rows[i] == y + yDiff
    ensures forall e :: e in Branches(g, child, x, y, yDiff, xOffset, fuel, level, rows).value ==> Follows(g, x, yDiff, xOffset, level, e)
    decreases fuel, 1, |rows|
  {
    if rows != [] {
      var init := rows[..|rows| - 1];
      assert forall i :: 0 <= i < |init| ==> init[i] == rows[i];
      BranchesFollowLayout(g, child, x, y, yDiff, xOffset, fuel, level, init);
      var nextY := rows[|rows| - 1];
      var nextX := x + xOffset;
      if nextY in g[nextX] && g[nextX][nextY] != Unknown {
        var parent := g[nextX][nextY];
        EdgesFollowLayout(g, parent, nextX, nextY, yDiff / 2, xOffset, fuel - 1, level + 1);
        var above := Edges(g, parent, nextX, nextY, yDiff / 2, xOffset, fuel - 1, level + 1).value;
        forall e | e in above
          ensures Follows(g, x, yDiff, xOffset, level, e)
        {
          assert Follows(g, nextX, yDiff / 2, xOffset, level + 1, e);
          HalvedOnceMore(yDiff, e.level - level - 1);
          assert e.childAt.0 == x + (e.level - level) * xOffset by {
            assert e.childAt.0 == nextX + (e.level - (level + 1)) * xOffset;
          }
        }
      }
    }
  }

  /** The columns strictly to the right of `x`. */
  function ColumnsAfter(g: Grid, x: int): set<int>
  {
    set c | c in g && c > x
  }

  /**
   * With a positive column offset the walk moves right at every level, so it
   * never needs more calls than there are columns to the right of its start.
   */
  lemma {:induction false} EdgesTerminate(g: Grid, child: string, x: int, y: int, yDiff: int, xOffset: int, fuel: nat, level: nat)
    requires xOffset > 0 && fuel > |ColumnsAfter(g, x)|
    ensures Edges(g, child, x, y, yDiff, xOffset, fuel, level).Ok?
    decreases fuel, 2, 0
  {
    if x + xOffset in g {
      var later := ColumnsAfter(g, x + xOffset);
      assert later < ColumnsAfter(g, x) by {
        assert x + xOffset in ColumnsAfter(g, x) && x + xOffset !in later;
      }
      Finite.ProperSubsetCardinality(later, ColumnsAfter(g, x));
      BranchesTerminate(g, child, x, y, yDiff, xOffset, fuel, level, [y - yDiff, y + yDiff]);
    }
  }

  lemma {:induction false} BranchesTerminate(g: Grid, child: string, x: int, y: int, yDiff: int, xOffset: int, fuel: nat, level: nat, rows: seq<int>)
    requires xOffset > 0 && x + xOffset in g && fuel > 0
    requires fuel - 1 > |ColumnsAfter(g, x + xOffset)|
    ensures Branches(g, child, x, y, yDiff, xOffset, fuel, level, rows).Ok?
    decreases fuel, 1, |rows|
  {
    if rows != [] {
      BranchesTerminate(g, child, x, y, yDiff, xOffset, fuel, level, rows[..|rows| - 1]);
      var nextY := rows[|rows| - 1];
      var nextX := x + xOffset;
      if nextY in g[nextX] && g[nextX][nextY] != Unknown {
        EdgesTerminate(g, g[nextX][nextY], nextX, nextY, yDiff / 2, xOffset, fuel - 1, level + 1);
      }
    }
  }

  /** The signals gathered so far, per breed, in the order they were appended. */
  type Results = map<Name, seq<Signal>>

  /** `results[k].append(s)`, creating the list first when `k` is new. */
  function Append(results: Results, k: Name, s: Signal): Results
  {
    results[k := (if k in results then results[k] else []) + [s]]
  }

  /** The two signals `_dfs` appends for one parent found. */
  function RecordEdge(results: Results, e: Edge): Results
  {
    var r := Append(results, Name(e.parent, Pedigree), Signal(ParentOf, Str(e.child)));
    Append(r, Name(e.child, Pedigree), Signal(ChildOf, Str(e.parent)))
  }

  /** The signals of `edges` appended, in order, to `results`. */
  function Recorded(results: Results, edges: seq<Edge>): Results
    decreases |edges|
  {
    if edges == [] then results else Recorded(RecordEdge(results, edges[0]), edges[1..])
  }

  /** Signal `s` is filed under breed `k`. */
  ghost predicate Has(m: Results, k: Name, s: Signal)
  {
    k in m && s in m[k]
  }

  /** Edge `e` files signal `s` under breed `k`. */
  ghost predicate Files(e: Edge, k: Name, s: Signal)
  {
    || (k == Name(e.parent, Pedigree) && s == Signal(ParentOf, Str(e.child)))
    || (k == Name(e.child, Pedigree) && s == Signal(ChildOf, Str(e.parent)))
  }

  /** A name some edge of `edges` files signals under. */
  ghost predicate Mentions(edges: seq<Edge>, k: Name)
  {
    exists e :: e in edges && (k == Name(e.parent, Pedigree) || k == Name(e.child, Pedigree))
  }

  lemma {:induction false} RecordedConcat(results: Results, a: seq<Edge>, b: seq<Edge>)
    ensures Recorded(Recorded(results, a), b) == Recorded(results, a + b)
    decreases |a|
  {
    if a != [] {
      assert (a + b)[0] == a[0] && (a + b)[1..] == a[1..] + b;
      RecordedConcat(RecordEdge(results, a[0]), a[1..], b);
    } else {
      assert a + b == b;
    }
  }

  /** Recording only adds: it files exactly the signals of the edges, under exactly the names they mention. */
  lemma {:induction false} RecordedContents(results: Results, edges: seq<Edge>)
    ensures forall k :: k in Recorded(results, edges) <==> k in results || Mentions(edges, k)
    ensures forall k, s :: Has(Recorded(results, edges), k, s) <==> Has(results, k, s) || exists e :: e in edges && Files(e, k, s)
    decreases |edges|
  {
    if edges != [] {
      var r := RecordEdge(results, edges[0]);
      RecordedContents(r, edges[1..]);
      forall k
        ensures k in Recorded(results, edges) <==> k in results || Mentions(edges, k)
      {
        if Mentions(edges, k) && k !in results {
          var e :| e in edges && (k == Name(e.parent, Pedigree) || k == Name(e.child, Pedigree));
          if e != edges[0] {
            assert e in edges[1..];
          }
        }
        if Mentions(edges[1..], k) {
          var e :| e in edges[1..] && (k == Name(e.parent, Pedigree) || k == Name(e.child, Pedigree));
          assert e in edges;
        }
      }
      forall k, s
        ensures Has(Recorded(results, edges), k, s) <==> Has(results, k, s) || exists e :: e in edges && Files(e, k, s)
      {
        assert Has(r, k, s) <==> Has(results, k, s) || Files(edges[0], k, s);
        if exists e :: e in edges && Files(e, k, s) {
          var e :| e in edges && Files(e, k, s);
          if e != edges[0] {
            assert e in edges[1..];
          }
        }
        if exists e :: e in edges[1..] && Files(e, k, s) {
          var e :| e in edges[1..] && Files(e, k, s);
          assert e in edges;
        }
      }
    }
  }

  /** `list(set(v))` for every list: the signals per breed without duplicates. */
  function Deduped(m: Results): (d: map<Name, set<Signal>>)
    ensures d.Keys == m.Keys
  {
    map k | k in m :: set s | s in m[k]
  }

  /** Every PARENT_OF is matched by the CHILD_OF filed under the other breed, and the other way round. */
  ghost predicate Paired(m: map<Name, set<Signal>>)
  {
    forall p: string, c: string ::
      (Name(p, Pedigree) in m && Signal(ParentOf, Str(c)) in m[Name(p, Pedigree)])
      <==> (Name(c, Pedigree) in m && Signal(ChildOf, Str(p)) in m[Name(c, Pedigree)])
  }

  /** No breed is named as a parent "unknown", and none has it as a child. */
  ghost predicate NoUnknownParent(m: map<Name, set<Signal>>)
  {
    && (Name(Unknown, Pedigree) in m ==> forall c :: Signal(ParentOf, Str(c)) !in m[Name(Unknown, Pedigree)])
    && forall k :: k in m ==> Signal(ChildOf, Str(Unknown)) !in m[k]
  }

  lemma DedupedHas(m: Results, k: Name, s: Signal)
    ensures (k in Deduped(m) && s in Deduped(m)[k]) <==> Has(m, k, s)
  {
  }

  /** Signals recorded from edges alone pair up. */
  lemma RecordedPaired(edges: seq<Edge>)
    ensures Paired(Deduped(Recorded(map[], edges)))
  {
    var m := Recorded(map[], edges);
    RecordedContents(map[], edges);
    forall p: string, c: string
      ensures (Name(p, Pedigree) in Deduped(m) && Signal(ParentOf, Str(c)) in Deduped(m)[Name(p, Pedigree)])
        <==> (Name(c, Pedigree) in Deduped(m) && Signal(ChildOf, Str(p)) in Deduped(m)[Name(c, Pedigree)])
    {
      DedupedHas(m, Name(p, Pedigree), Signal(ParentOf, Str(c)));
      DedupedHas(m, Name(c, Pedigree), Signal(ChildOf, Str(p)));
      if Has(m, Name(p, Pedigree), Signal(ParentOf, Str(c))) {
        var e :| e in edges && Files(e, Name(p, Pedigree), Signal(ParentOf, Str(c)));
        assert Files(e, Name(c, Pedigree), Signal(ChildOf, Str(p)));
      }
      if Has(m, Name(c, Pedigree), Signal(ChildOf, Str(p))) {
        var e :| e in edges && Files(e, Name(c, Pedigree), Signal(ChildOf, Str(p)));
        assert Files(e, Name(p, Pedigree), Signal(ParentOf, Str(c)));
      }
    }
  }

  /** Signals recorded from edges none of which has an unknown parent name no unknown parent. */
  lemma RecordedNoUnknown(edges: seq<Edge>)
    requires forall e :: e in edges ==> e.parent != Unknown
    ensures NoUnknownParent(Deduped(Recorded(map[], edges)))
  {
    var m := Recorded(map[], edges);
    RecordedContents(map[], edges);
    forall c | Name(Unknown, Pedigree) in m
      ensures Signal(ParentOf, Str(c)) !in Deduped(m)[Name(Unknown, Pedigree)]
    {
      DedupedHas(m, Name(Unknown, Pedigree), Signal(ParentOf, Str(c)));
      assert forall e :: e in edges ==> !Files(e, Name(Unknown, Pedigree), Signal(ParentOf, Str(c)));
    }
    forall k | k in m
      ensures Signal(ChildOf, Str(Unknown)) !in Deduped(m)[k]
    {
      DedupedHas(m, k, Signal(ChildOf, Str(Unknown)));
      assert forall e :: e in edges ==> !Files(e, k, Signal(ChildOf, Str(Unknown)));
    }
  }

  /** The records `_extract_parents` returns `{}` for before looking at the grid. */
  predicate Skipped(p: PedigreeRecord)
  {
    || p.parentage.None?
    || |p.parentage.value| < 2
    || !Boxed(p.parentage.value[0])
    || !Boxed(p.parentage.value[1])
  }

  /**
   * `_extract_parents` of one record with `limit` calls of `_dfs` allowed: the
   * column offset is the distance between the first two boxes, the row offset
   * half the first box's height, and the walk starts at the first box placed in
   * column 0 with half its row as the vertical distance.
   */
  function Parents(p: PedigreeRecord, limit: nat): Result<Results, Error>
  {
    if Skipped(p) then Ok(map[])
    else
      var first, second := p.parentage.value[0], p.parentage.value[1];
      var xOffset := Column(second) - Column(first);
      var yOffset := (first.coordinates.value[3] - first.coordinates.value[1]) / 2;
      match Place(p.parentage.value, yOffset)
      case Err(err) => Err(err)
      case Ok(placed) =>
        if placed.firstAtZero.None? then Err(KeyError("0"))
        else
          var y := placed.firstAtZero.value;
          RecordedBy(map[], Edges(placed.grid, placed.grid[0][y], 0, y, y / 2, xOffset, limit, 0))
  }

  /** The signals of a walk appended to `results`, or the error the walk raised. */
  function RecordedBy(results: Results, walk: Result<seq<Edge>, Error>): Result<Results, Error>
  {
    match walk
    case Err(err) => Err(err)
    case Ok(edges) => Ok(Recorded(results, edges))
  }

  /** The signals of one record pair up, and no unknown breed is named as a parent. */
  lemma ParentsPaired(p: PedigreeRecord, limit: nat)
    requires Parents(p, limit).Ok?
    ensures Paired(Deduped(Parents(p, limit).value))
    ensures NoUnknownParent(Deduped(Parents(p, limit).value))
  {
    if !Skipped(p) {
      var first, second := p.parentage.value[0], p.parentage.value[1];
      var xOffset := Column(second) - Column(first);
      var yOffset := (first.coordinates.value[3] - first.coordinates.value[1]) / 2;
      var placed := Place(p.parentage.value, yOffset).value;
      var y := placed.firstAtZero.value;
      var g := placed.grid;
      EdgesFollowLayout(g, g[0][y], 0, y, y / 2, xOffset, limit, 0);
      var edges := Edges(g, g[0][y], 0, y, y / 2, xOffset, limit, 0).value;
      RecordedPaired(edges);
      RecordedNoUnknown(edges);
    } else {
      assert Deduped(map[]) == map[];
    }
  }

  /** With the second box right of the first, a limit above the number of columns is never reached. */
  lemma ParentsTerminate(p: PedigreeRecord, limit: nat)
    requires !Skipped(p) && Column(p.parentage.value[1]) > Column(p.parentage.value[0])
    requires var first := p.parentage.value[0];
      var placed := Place(p.parentage.value, (first.coordinates.value[3] - first.coordinates.value[1]) / 2);
      placed.Ok? && limit > |placed.value.grid.Keys|
    ensures Parents(p, limit) != Err(RecursionError)
  {
    var first, second := p.parentage.value[0], p.parentage.value[1];
    var xOffset := Column(second) - Column(first);
    var yOffset := (first.coordinates.value[3] - first.coordinates.value[1]) / 2;
    var placed := Place(p.parentage.value, yOffset).value;
    if placed.firstAtZero.Some? {
      var y := placed.firstAtZero.value;
      var g := placed.grid;
      Finite.SubsetCardinality(ColumnsAfter(g, 0), g.Keys);
      EdgesTerminate(g, g[0][y], 0, y, y / 2, xOffset, limit, 0);
    }
  }

  /** Once the reifying loop has raised on a prefix, it raises the same on the whole list. */
  lemma {:induction false} PlaceKeepsError(entries: seq<Entry>, yOffset: int, i: nat)
    requires i <= |entries| && Place(entries[..i], yOffset).Err?
    ensures Place(entries, yOffset) == Place(entries[..i], yOffset)
    decreases |entries|
  {
    if i < |entries| {
      var init := entries[..|entries| - 1];
      assert init[..i] == entries[..i];
      PlaceKeepsError(init, yOffset, i);
    } else {
      assert entries[..i] == entries;
    }
  }

  /** The reifying loop of `_extract_parents` (`coords`, and the first key placed in column 0). */
  method Reify(entries: seq<Entry>, yOffset: int) returns (r: Result<Placed, Error>)
    ensures r == Place(entries, yOffset)
  {
    var grid: Grid := map[];
    var firstAtZero: Option<int> := None;
    for i := 0 to |entries|
      invariant Place(entries[..i], yOffset) == Ok(Placed(grid, firstAtZero))
    {
      assert entries[..i + 1][..i] == entries[..i];
      var e := entries[i];
      if e.coordinates.None? {
        PlaceKeepsError(entries, yOffset, i + 1);
        return Err(KeyError("coordinates"));
      }
      var c := e.coordinates.value;
      if |c| != 4 {
        continue;
      }
      var x := c[0];
      var y := c[1] + yOffset;
      ghost var before := grid;
      if x !in grid {
        grid := grid[x := map[]];
      }
      assert grid[x] == if x in before then before[x] else map[];
      if e.name.None? {
        PlaceKeepsError(entries, yOffset, i + 1);
        return Err(KeyError("name"));
      }
      grid := grid[x := grid[x][y := e.name.value]];
      assert grid == before[x := (if x in before then before[x] else map[])[y := e.name.value]];
      if firstAtZero.None? && x == 0 {
        firstAtZero := Some(y);
      }
    }
    assert entries[..|entries|] == entries;
    return Ok(Placed(grid, firstAtZero));
  }

  /**
   * `_dfs`: looks for the parents of `child`, at `(x, y)`, one column offset to the
   * right and `yDiff` above and below, records each one found and recurses on it
   * with half the distance. `fuel` is the number of calls left before the
   * recursion limit; `level` only names the depth in the specification.
   */
  method Dfs(g: Grid, child: string, x: int, y: int, yDiff: int, xOffset: int, results: Results, fuel: nat, ghost level: nat)
    returns (r: Result<Results, Error>)
    ensures r == RecordedBy(results, Edges(g, child, x, y, yDiff, xOffset, fuel, level))
    decreases fuel
  {
    if fuel == 0 {
      return Err(RecursionError);
    }
    var nextX := x + xOffset;
    if nextX !in g {
      return Ok(results);
    }
    var rows := [y - yDiff, y + yDiff];
    var acc := results;
    ghost var found: seq<Edge> := [];
    for i := 0 to 2
      invariant Branches(g, child, x, y, yDiff, xOffset, fuel, level, rows[..i]) == Ok(found)
      invariant acc == Recorded(results, found)
    {
      assert rows[..i + 1][..i] == rows[..i];
      var nextY := rows[i];
      if nextY !in g[nextX] || g[nextX][nextY] == Unknown {
        assert found + [] == found;
        continue;
      }
      var parent := g[nextX][nextY];
      acc := Append(acc, Name(parent, Pedigree), Signal(ParentOf, Str(child)));
      acc := Append(acc, Name(child, Pedigree), Signal(ChildOf, Str(parent)));
      var sub := Dfs(g, parent, nextX, nextY, yDiff / 2, xOffset, acc, fuel - 1, level + 1);
      if sub.Err? {
        assert Branches(g, child, x, y, yDiff, xOffset, fuel, level, rows[..i + 1]) == Err(sub.error);
        assert rows[..2] == rows;
        if i == 0 {
          assert rows[..2][..1] == rows[..1];
        }
        return Err(sub.error);
      }
      ghost var edge := Edge(child, parent, (x, y), (nextX, nextY), level);
      ghost var above := Edges(g, parent, nextX, nextY, yDiff / 2, xOffset, fuel - 1, level + 1).value;
      RecordedConcat(results, found, [edge] + above);
      assert ([edge] + above)[0] == edge && ([edge] + above)[1..] == above;
      acc := sub.value;
      found := found + ([edge] + above);
    }
    assert rows[..2] == rows;
    return Ok(acc);
  }

  /** `_extract_parents` of one record. */
  method ExtractParents(p: PedigreeRecord, limit: nat) returns (r: Result<Results, Error>)
    ensures r == Parents(p, limit)
  {
    if p.parentage.None? || |p.parentage.value| < 2 {
      return Ok(map[]);
    }
    var first := p.parentage.value[0];
    var second := p.parentage.value[1];
    if first.coordinates.None? || second.coordinates.None? {
      return Ok(map[]);
    }
    if |first.coordinates.value| != 4 || |second.coordinates.value| != 4 {
      return Ok(map[]);
    }
    var xOffset := second.coordinates.value[0] - first.coordinates.value[0];
    var yOffset := (first.coordinates.value[3] - first.coordinates.value[1]) / 2;
    var placed := Reify(p.parentage.value, yOffset);
    if placed.Err? {
      return Err(placed.error);
    }
    var coords := placed.value.grid;
    if 0 !in coords {
      return Err(KeyError("0"));
    }
    var y := placed.value.firstAtZero.value;
    r := Dfs(coords, coords[0][y], 0, y, y / 2, xOffset, map[], limit, 0);
  }

  /** `results[k]`, or the empty list when `k` is absent. */
  function Get(results: Results, k: Name): seq<Signal>
  {
    if k in results then results[k] else []
  }

  /** `result[k] += v` for every `k, v` of `res`. */
  function Merge(acc: Results, res: Results): (m: Results)
    ensures m.Keys == acc.Keys + res.Keys
  {
    map k | k in acc.Keys + res.Keys :: Get(acc, k) + Get(res, k)
  }

  /** The signals of all records merged, before duplicates are dropped. */
  function Merged(pedigrees: seq<PedigreeRecord>, limit: nat): Result<Results, Error>
    decreases |pedigrees|
  {
    if pedigrees == [] then Ok(map[])
    else
      match Merged(pedigrees[..|pedigrees| - 1], limit)
      case Err(err) => Err(err)
      case Ok(acc) =>
        match Parents(pedigrees[|pedigrees| - 1], limit)
        case Err(err) => Err(err)
        case Ok(res) => Ok(Merge(acc, res))
  }

  /** `ParentageExtractor.extract`. */
  function ExtractAll(pedigrees: seq<PedigreeRecord>, limit: nat): Result<map<Name, set<Signal>>, Error>
  {
    match Merged(pedigrees, limit)
    case Err(err) => Err(err)
    case Ok(m) => Ok(Deduped(m))
  }

  /** A merged dictionary files what either side files, under the keys of either side. */
  lemma MergeHas(acc: Results, res: Results, k: Name, s: Signal)
    ensures Has(Merge(acc, res), k, s) <==> Has(acc, k, s) || Has(res, k, s)
  {
    if k in acc.Keys + res.Keys {
      assert Merge(acc, res)[k] == Get(acc, k) + Get(res, k);
    }
  }

  /** Merging succeeds exactly when every record's extraction does. */
  lemma {:induction false} MergedOk(pedigrees: seq<PedigreeRecord>, limit: nat)
    ensures Merged(pedigrees, limit).Ok? <==> forall i :: 0 <= i < |pedigrees| ==> Parents(pedigrees[i], limit).Ok?
    decreases |pedigrees|
  {
    if pedigrees != [] {
      var init := pedigrees[..|pedigrees| - 1];
      MergedOk(init, limit);
      assert forall i :: 0 <= i < |init| ==> init[i] == pedigrees[i];
    }
  }

  /** The merged keys are the keys of the records' extractions. */
  lemma {:induction false} MergedKeys(pedigrees: seq<PedigreeRecord>, limit: nat)
    requires Merged(pedigrees, limit).Ok?
    ensures forall k :: k in Merged(pedigrees, limit).value <==>
      exists i :: 0 <= i < |pedigrees| && Parents(pedigrees[i], limit).Ok? && k in Parents(pedigrees[i], limit).value
    decreases |pedigrees|
  {
    if pedigrees != [] {
      var init := pedigrees[..|pedigrees| - 1];
      MergedKeys(init, limit);
      assert forall i :: 0 <= i < |init| ==> init[i] == pedigrees[i];
    }
  }

  /** Some record's extraction files signal `s` under breed `k`. */
  ghost predicate FiledBySome(pedigrees: seq<PedigreeRecord>, limit: nat, k: Name, s: Signal)
  {
    exists i :: 0 <= i < |pedigrees| && Parents(pedigrees[i], limit).Ok? && Has(Parents(pedigrees[i], limit).value, k, s)
  }

  lemma FiledBySomeSplit(pedigrees: seq<PedigreeRecord>, limit: nat, k: Name, s: Signal)
    requires pedigrees != []
    ensures var n := |pedigrees| - 1;
      FiledBySome(pedigrees, limit, k, s) <==>
        FiledBySome(pedigrees[..n], limit, k, s)
        || (Parents(pedigrees[n], limit).Ok? && Has(Parents(pedigrees[n], limit).value, k, s))
  {
    var n := |pedigrees| - 1;
    if FiledBySome(pedigrees, limit, k, s) {
      var i :| 0 <= i < |pedigrees| && Parents(pedigrees[i], limit).Ok? && Has(Parents(pedigrees[i], limit).value, k, s);
      if i < n {
        assert pedigrees[..n][i] == pedigrees[i];
      }
    }
    if FiledBySome(pedigrees[..n], limit, k, s) {
      var i :| 0 <= i < n && Parents(pedigrees[..n][i], limit).Ok? && Has(Parents(pedigrees[..n][i], limit).value, k, s);
      assert pedigrees[..n][i] == pedigrees[i];
    }
  }

  /** The merge files a signal under a breed exactly when some record's extraction does. */
  lemma {:induction false} MergedContents(pedigrees: seq<PedigreeRecord>, limit: nat)
    requires Merged(pedigrees, limit).Ok?
    ensures forall k, s :: Has(Merged(pedigrees, limit).value, k, s) <==> FiledBySome(pedigrees, limit, k, s)
    decreases |pedigrees|
  {
    if pedigrees != [] {
      var n := |pedigrees| - 1;
      var init := pedigrees[..n];
      MergedContents(init, limit);
      var acc := Merged(init, limit).value;
      var res := Parents(pedigrees[n], limit).value;
      forall k, s
        ensures Has(Merged(pedigrees, limit).value, k, s) <==> FiledBySome(pedigrees, limit, k, s)
      {
        MergeHas(acc, res, k, s);
        FiledBySomeSplit(pedigrees, limit, k, s);
      }
    }
  }

  /** Records without a usable image map contribute nothing; in particular no records give the empty map. */
  lemma {:induction false} ExtractAllSkipped(pedigrees: seq<PedigreeRecord>, limit: nat)
    requires forall i :: 0 <= i < |pedigrees| ==> Skipped(pedigrees[i])
    ensures ExtractAll(pedigrees, limit) == Ok(map[])
    decreases |pedigrees|
  {
    if pedigrees != [] {
      var init := pedigrees[..|pedigrees| - 1];
      assert forall i :: 0 <= i < |init| ==> init[i] == pedigrees[i];
      ExtractAllSkipped(init, limit);
      assert Merge(map[], map[]) == map[];
    }
    assert Deduped(map[]) == map[];
  }

  /** Over all records, too, every PARENT_OF has its CHILD_OF, and "unknown" is never a parent. */
  lemma ExtractAllPaired(pedigrees: seq<PedigreeRecord>, limit: nat)
    requires ExtractAll(pedigrees, limit).Ok?
    ensures Paired(ExtractAll(pedigrees, limit).value)
    ensures NoUnknownParent(ExtractAll(pedigrees, limit).value)
  {
    var m := Merged(pedigrees, limit).value;
    MergedOk(pedigrees, limit);
    MergedContents(pedigrees, limit);
    forall i | 0 <= i < |pedigrees|
      ensures Paired(Deduped(Parents(pedigrees[i], limit).value))
      ensures NoUnknownParent(Deduped(Parents(pedigrees[i], limit).value))
    {
      ParentsPaired(pedigrees[i], limit);
    }
    forall p: string, c: string
      ensures (Name(p, Pedigree) in Deduped(m) && Signal(ParentOf, Str(c)) in Deduped(m)[Name(p, Pedigree)])
        <==> (Name(c, Pedigree) in Deduped(m) && Signal(ChildOf, Str(p)) in Deduped(m)[Name(c, Pedigree)])
    {
      DedupedHas(m, Name(p, Pedigree), Signal(ParentOf, Str(c)));
      DedupedHas(m, Name(c, Pedigree), Signal(ChildOf, Str(p)));
      if Has(m, Name(p, Pedigree), Signal(ParentOf, Str(c))) {
        assert FiledBySome(pedigrees, limit, Name(p, Pedigree), Signal(ParentOf, Str(c)));
        var i :| 0 <= i < |pedigrees| && Has(Parents(pedigrees[i], limit).value, Name(p, Pedigree), Signal(ParentOf, Str(c)));
        var res := Parents(pedigrees[i], limit).value;
        DedupedHas(res, Name(p, Pedigree), Signal(ParentOf, Str(c)));
        DedupedHas(res, Name(c, Pedigree), Signal(ChildOf, Str(p)));
      }
      if Has(m, Name(c, Pedigree), Signal(ChildOf, Str(p))) {
        assert FiledBySome(pedigrees, limit, Name(c, Pedigree), Signal(ChildOf, Str(p)));
        var i :| 0 <= i < |pedigrees| && Has(Parents(pedigrees[i], limit).value, Name(c, Pedigree), Signal(ChildOf, Str(p)));
        var res := Parents(pedigrees[i], limit).value;
        DedupedHas(res, Name(p, Pedigree), Signal(ParentOf, Str(c)));
        DedupedHas(res, Name(c, Pedigree), Signal(ChildOf, Str(p)));
      }
    }
    forall c | Name(Unknown, Pedigree) in m
      ensures Signal(ParentOf, Str(c)) !in Deduped(m)[Name(Unknown, Pedigree)]
    {
      DedupedHas(m, Name(Unknown, Pedigree), Signal(ParentOf, Str(c)));
      forall i | 0 <= i < |pedigrees|
        ensures !Has(Parents(pedigrees[i], limit).value, Name(Unknown, Pedigree), Signal(ParentOf, Str(c)))
      {
        DedupedHas(Parents(pedigrees[i], limit).value, Name(Unknown, Pedigree), Signal(ParentOf, Str(c)));
      }
    }
    forall k | k in m
      ensures Signal(ChildOf, Str(Unknown)) !in Deduped(m)[k]
    {
      DedupedHas(m, k, Signal(ChildOf, Str(Unknown)));
      forall i | 0 <= i < |pedigrees|
        ensures !Has(Parents(pedigrees[i], limit).value, k, Signal(ChildOf, Str(Unknown)))
      {
        DedupedHas(Parents(pedigrees[i], limit).value, k, Signal(ChildOf, Str(Unknown)));
      }
    }
  }

  /** The merge loop of `extract` part-way: the keys of `done` merged into `acc`. */
  ghost function MergedSoFar(acc: Results, res: Results, done: set<Name>): Results
  {
    map k | k in acc.Keys + done :: Get(acc, k) + (if k in done then Get(res, k) else [])
  }

  lemma MergeStep(acc: Results, res: Results, done: set<Name>, k: Name)
    requires k in res && k !in done
    ensures var m := MergedSoFar(acc, res, done);
      m[k := Get(m, k) + res[k]] == MergedSoFar(acc, res, done + {k})
  {
    var m := MergedSoFar(acc, res, done);
    var m' := MergedSoFar(acc, res, done + {k});
    assert m[k := Get(m, k) + res[k]].Keys == m'.Keys;
    forall j | j in m'
      ensures m[k := Get(m, k) + res[k]][j] == m'[j]
    {
      if j == k {
        assert Get(m, k) == Get(acc, k);
      }
    }
  }

  lemma MergeStart(acc: Results, res: Results)
    ensures MergedSoFar(acc, res, {}) == acc
  {
    var m := MergedSoFar(acc, res, {});
    assert m.Keys == acc.Keys;
    forall k | k in acc
      ensures m[k] == acc[k]
    {
      assert m[k] == acc[k] + [];
    }
  }

  lemma MergeDone(acc: Results, res: Results)
    ensures MergedSoFar(acc, res, res.Keys) == Merge(acc, res)
  {
  }

  /** The merge loop of `extract` for one record's signals. */
  method MergeInto(acc: Results, res: Results) returns (out: Results)
    ensures out == Merge(acc, res)
  {
    out := acc;
    var todo := res.Keys;
    ghost var done: set<Name> := {};
    MergeStart(acc, res);
    while todo != {}
      invariant todo !! done && todo + done == res.Keys
      invariant out == MergedSoFar(acc, res, done)
      decreases |todo|
    {
      var k :| k in todo;
      MergeStep(acc, res, done, k);
      out := out[k := Get(out, k) + res[k]];
      todo := todo - {k};
      done := done + {k};
    }
    assert done == res.Keys;
    MergeDone(acc, res);
  }

  /** The de-duplicating loop of `extract`. */
  method Dedupe(m: Results) returns (d: map<Name, set<Signal>>)
    ensures d == Deduped(m)
  {
    d := map[];
    var todo := m.Keys;
    while todo != {}
      invariant todo <= m.Keys
      invariant d.Keys == m.Keys - todo
      invariant forall k :: k in d ==> d[k] == set s | s in m[k]
      decreases |todo|
    {
      var k :| k in todo;
      d := d[k := set s | s in m[k]];
      todo := todo - {k};
    }
  }

  /** `ParentageExtractor.extract`: every record's signals merged, then duplicates dropped. */
  method Extract(pedigrees: seq<PedigreeRecord>, limit: nat) returns (r: Result<map<Name, set<Signal>>, Error>)
    ensures r == ExtractAll(pedigrees, limit)
  {
    var result: Results := map[];
    for i := 0 to |pedigrees|
      invariant Merged(pedigrees[..i], limit) == Ok(result)
    {
      assert pedigrees[..i + 1][..i] == pedigrees[..i];
      var res := ExtractParents(pedigrees[i], limit);
      if res.Err? {
        MergedKeepsError(pedigrees, limit, i + 1);
        return Err(res.error);
      }
      result := MergeInto(result, res.value);
    }
    assert pedigrees[..|pedigrees|] == pedigrees;
    var d := Dedupe(result);
    return Ok(d);
  }

  /** Once merging has raised on a prefix, it raises the same on the whole list. */
  lemma {:induction false} MergedKeepsError(pedigrees: seq<PedigreeRecord>, limit: nat, i: nat)
    requires i <= |pedigrees| && Merged(pedigrees[..i], limit).Err?
    ensures Merged(pedigrees, limit) == Merged(pedigrees[..i], limit)
    decreases |pedigrees|
  {
    if i < |pedigrees| {
      var init := pedigrees[..|pedigrees| - 1];
      assert init[..i] == pedigrees[..i];
      MergedKeepsError(init, limit, i);
    } else {
      assert pedigrees[..i] == pedigrees;
    }
  }
}
