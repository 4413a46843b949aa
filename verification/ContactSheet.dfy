/** Splitting a deck over contact sheets and laying thumbnails out on a sheet. */
module ContactSheet {
  import opened Wrappers

  /** Division rounded up, for a positive divisor. */
  function CeilDiv(n: nat, d: nat): (q: nat)
    requires d > 0
    ensures d * q >= n && d * q < n + d
    ensures n > 0 ==> q > 0
  {
    var q := (n + d - 1) / d;
    assert n + d - 1 == d * q + (n + d - 1) % d;
    q
  }

  function GroupCount(n: nat, maxGroups: nat, maxPerGroup: nat): (count: nat)
    requires maxPerGroup > 0
    ensures count > 0
  {
    var count := MinInt(maxGroups, CeilDiv(n, maxPerGroup));
    if count == 0 then 1 else count
  }

  function ChunkSize(n: nat, maxGroups: nat, maxPerGroup: nat): nat
    requires maxPerGroup > 0
  {
    CeilDiv(n, GroupCount(n, maxGroups, maxPerGroup))
  }

  /** Consecutive chunks of the given size; the last may be shorter. */
  function Chunks<T>(items: seq<T>, size: nat): (chunks: seq<seq<T>>)
    requires size > 0
    ensures forall i :: 0 <= i < |chunks| ==> 0 < |chunks[i]| <= size
    ensures size * |chunks| < |items| + size
    decreases |items|
  {
    if items == [] then []
    else if |items| <= size then [items]
    else
      var rest := Chunks(items[size..], size);
      assert size * (|rest| + 1) == size * |rest| + size;
      [items[..size]] + rest
  }

  function Flatten<T>(groups: seq<seq<T>>): seq<T> {
    if groups == [] then [] else groups[0] + Flatten(groups[1..])
  }

  lemma {:induction false} ChunksFlatten<T>(items: seq<T>, size: nat)
    requires size > 0
    ensures Flatten(Chunks(items, size)) == items
    decreases |items|
  {
    if items == [] {
    } else if |items| <= size {
      assert [items][1..] == [];
    } else {
      ChunksFlatten(items[size..], size);
      assert ([items[..size]] + Chunks(items[size..], size))[1..] == Chunks(items[size..], size);
      assert items == items[..size] + items[size..];
    }
  }

  function EqualGroups<T>(items: seq<T>, maxGroups: nat, maxPerGroup: nat): (groups: seq<seq<T>>)
    requires maxPerGroup > 0 && items != []
    ensures Flatten(groups) == items
    ensures |groups| <= MaxInt(1, maxGroups)
    ensures forall i :: 0 <= i < |groups| ==> groups[i] != []
    ensures |items| <= maxGroups * maxPerGroup ==> forall i :: 0 <= i < |groups| ==> |groups[i]| <= maxPerGroup
  {
    var count, size := GroupCount(|items|, maxGroups, maxPerGroup), ChunkSize(|items|, maxGroups, maxPerGroup);
    ChunksFlatten(items, size);
    FewEnough(|items|, count, size, |Chunks(items, size)|);
    if |items| <= maxGroups * maxPerGroup then
      SmallEnough(|items|, maxGroups, maxPerGroup);
      Chunks(items, size)
    else
      Chunks(items, size)
  }

  /** The slides in order, over at most `maxGroups` sheets, none holding more than `maxPerGroup` whenever the deck
      fits at all. None is the source raising: it divides by `maxPerGroup`, and with no slides steps a range by
      zero. */
  function SplitIntoGroups<T>(items: seq<T>, maxGroups: nat, maxPerGroup: nat): (groups: Option<seq<seq<T>>>)
    ensures groups.None? <==> items == [] || maxPerGroup == 0
    ensures groups.Some? ==>
      && Flatten(groups.value) == items && |groups.value| <= MaxInt(1, maxGroups)
      && (forall i :: 0 <= i < |groups.value| ==> groups.value[i] != [])
      && (|items| <= maxGroups * maxPerGroup ==> forall i :: 0 <= i < |groups.value| ==> |groups.value[i]| <= maxPerGroup)
  {
    if maxPerGroup == 0 || items == [] then None else Some(EqualGroups(items, maxGroups, maxPerGroup))
  }

  /** `k` sheets of `maxPerGroup` are enough for `n` slides and one fewer is not. */
  predicate FewestSheets(k: nat, n: nat, maxPerGroup: nat) {
    k * maxPerGroup >= n && (k > 0 ==> (k - 1) * maxPerGroup < n)
  }

  /** All groups are of one size but the last, which is no larger, and that size is the smallest with which `count` groups
      hold everything. */
  ghost predicate Balanced<T>(groups: seq<seq<T>>, count: nat, n: nat) {
    && groups != []
    && (forall i :: 0 <= i < |groups| - 1 ==> |groups[i]| == |groups[0]|)
    && |groups[|groups| - 1]| <= |groups[0]|
    && |groups[0]| * count >= n && (|groups[0]| > 0 ==> (|groups[0]| - 1) * count < n)
  }

  lemma {:induction false} ChunkSizes<T>(items: seq<T>, size: nat)
    requires size > 0 && items != []
    ensures var chunks := Chunks(items, size);
      && chunks != []
      && (forall i :: 0 <= i < |chunks| - 1 ==> |chunks[i]| == size)
      && |chunks[0]| == MinInt(size, |items|) && |chunks[|chunks| - 1]| <= |chunks[0]|
    decreases |items|
  {
    if |items| > size {
      ChunkSizes(items[size..], size);
    }
  }

  lemma {:induction false} CeilIsFewest(n: nat, d: nat)
    requires d > 0
    ensures FewestSheets(CeilDiv(n, d), n, d)
  {
    var q := CeilDiv(n, d);
    assert q > 0 ==> (q - 1) * d == d * q - d;
  }

  lemma {:induction false} CeilAtMost(n: nat, d: nat)
    requires d > 0
    ensures CeilDiv(n, d) <= n
  {
    assert d * n >= n;
    assert d * (n + 1) == d * n + d;
    CancelLess(d, CeilDiv(n, d), n + 1);
  }

  /** The slides are spread evenly over as few sheets as hold them, or over the allowed number if that is fewer. */
  lemma {:induction false} GroupsAreBalanced<T>(items: seq<T>, maxGroups: nat, maxPerGroup: nat, k: nat)
    requires items != [] && maxPerGroup > 0 && FewestSheets(k, |items|, maxPerGroup)
    ensures SplitIntoGroups(items, maxGroups, maxPerGroup).Some?
    ensures Balanced(SplitIntoGroups(items, maxGroups, maxPerGroup).value, MaxInt(1, MinInt(maxGroups, k)), |items|)
  {
    var n, count := |items|, GroupCount(|items|, maxGroups, maxPerGroup);
    CeilIsFewest(n, maxPerGroup);
    FewestIsUnique(k, CeilDiv(n, maxPerGroup), n, maxPerGroup);
    CeilIsFewest(n, count);
    CeilAtMost(n, count);
    ChunkSizes(items, ChunkSize(n, maxGroups, maxPerGroup));
  }

  lemma {:induction false} FewestIsUnique(j: nat, k: nat, n: nat, d: nat)
    requires FewestSheets(j, n, d) && FewestSheets(k, n, d)
    ensures j == k
  {
    if k > 0 {
      assert d * (k - 1) < d * j;
      CancelLess(d, k - 1, j);
    }
    if j > 0 {
      assert d * (j - 1) < d * k;
      CancelLess(d, j - 1, k);
    }
  }

  lemma {:induction false} CancelLess(k: nat, a: nat, b: nat)
    requires k * a < k * b
    ensures a < b
  {
    assert a >= b ==> k * a >= k * b;
  }

  lemma {:induction false} FewEnough(n: nat, count: nat, size: nat, chunks: nat)
    requires size * count >= n && size * chunks < n + size
    ensures chunks <= count
  {
    assert size * (count + 1) == size * count + size;
    CancelLess(size, chunks, count + 1);
  }

  lemma {:induction false} SmallEnough(n: nat, maxGroups: nat, maxPerGroup: nat)
    requires 0 < n <= maxGroups * maxPerGroup && maxPerGroup > 0
    ensures ChunkSize(n, maxGroups, maxPerGroup) <= maxPerGroup
  {
    var count, size := GroupCount(n, maxGroups, maxPerGroup), ChunkSize(n, maxGroups, maxPerGroup);
    assert maxGroups > 0;
    assert count * maxPerGroup >= n;
    assert count * (maxPerGroup + 1) == count * maxPerGroup + count;
    CancelLess(count, size, maxPerGroup + 1);
  }

  // ----- the grid

  datatype Cell = Cell(x: nat, y: nat)

  function CellOf(idx: nat, columns: nat, tw: nat, th: nat): Cell
    requires columns > 0
  {
    Cell((idx % columns) * tw, (idx / columns) * th)
  }

  predicate CellsOverlap(a: Cell, b: Cell, tw: nat, th: nat) {
    a.x < b.x + tw && b.x < a.x + tw && a.y < b.y + th && b.y < a.y + th
  }

  predicate CellInSheet(cell: Cell, rows: nat, columns: nat, tw: nat, th: nat) {
    cell.x + tw <= tw * columns && cell.y + th <= th * rows
  }

  /** Distinct steps of width k do not overlap. */
  lemma {:induction false} Spread(i: nat, j: nat, k: nat)
    requires i < j
    ensures i * k + k <= j * k
  {
    assert (i + 1) * k == i * k + k;
    assert (i + 1) * k <= j * k;
  }

  lemma {:induction false} ApartOnOneAxis(ci: nat, cj: nat, ri: nat, rj: nat, tw: nat, th: nat)
    requires ci != cj || ri != rj
    ensures !CellsOverlap(Cell(ci * tw, ri * th), Cell(cj * tw, rj * th), tw, th)
  {
    if ri < rj {
      Spread(ri, rj, th);
    } else if rj < ri {
      Spread(rj, ri, th);
    } else if ci < cj {
      Spread(ci, cj, tw);
    } else {
      Spread(cj, ci, tw);
    }
  }

  lemma {:induction false} DivModDiffers(i: nat, j: nat, d: nat)
    requires d > 0 && i != j
    ensures i % d != j % d || i / d != j / d
  {
    assert i == d * (i / d) + i % d && j == d * (j / d) + j % d;
  }

  lemma {:induction false} RowInRange(idx: nat, count: nat, columns: nat, r: nat, c: nat, rows: nat)
    requires idx == columns * r + c && idx < count && columns * rows >= count
    ensures r < rows
  {
    CancelLess(columns, r, rows);
  }

  lemma {:induction false} PlaceInside(c: nat, columns: nat, r: nat, rows: nat, tw: nat, th: nat)
    requires c < columns && r < rows
    ensures CellInSheet(Cell(c * tw, r * th), rows, columns, tw, th)
  {
    Spread(c, columns, tw);
    Spread(r, rows, th);
  }

  lemma {:induction false} CellInside(idx: nat, count: nat, columns: nat, tw: nat, th: nat)
    requires columns > 0 && idx < count
    ensures CellInSheet(CellOf(idx, columns, tw, th), CeilDiv(count, columns), columns, tw, th)
  {
    var c, r, rows := idx % columns, idx / columns, CeilDiv(count, columns);
    RowInRange(idx, count, columns, r, c, rows);
    PlaceInside(c, columns, r, rows, tw, th);
  }

  /** The cells run from the top left corner along the first row, and every further one is right below the one a row's
      length before it. */
  ghost predicate ReadingOrder(cells: seq<Cell>, columns: nat, tw: nat, th: nat)
    requires columns > 0
  {
    && (cells != [] ==> cells[0] == Cell(0, 0))
    && (forall i :: 0 <= i && i + 1 < columns && i + 1 < |cells| ==> cells[i + 1] == Cell(cells[i].x + tw, cells[i].y))
    && (forall i :: 0 <= i && i + columns < |cells| ==> cells[i + columns] == Cell(cells[i].x, cells[i].y + th))
  }

  lemma {:induction false} CellSteps(i: nat, columns: nat, tw: nat, th: nat)
    requires columns > 0
    ensures CellOf(0, columns, tw, th) == Cell(0, 0)
    ensures i + 1 < columns ==>
      CellOf(i + 1, columns, tw, th) == Cell(CellOf(i, columns, tw, th).x + tw, CellOf(i, columns, tw, th).y)
    ensures CellOf(i + columns, columns, tw, th) == Cell(CellOf(i, columns, tw, th).x, CellOf(i, columns, tw, th).y + th)
  {
    NextPlace(i, columns);
    PlaceBelow(i, columns, i / columns, i % columns);
    assert (i / columns + 1) * th == (i / columns) * th + th;
    assert i + 1 < columns ==> (i + 1) * tw == i * tw + tw;
  }

  lemma {:induction false} NextPlace(i: nat, columns: nat)
    requires columns > 0
    ensures i + 1 < columns ==> i % columns == i && (i + 1) % columns == i + 1 && i / columns == (i + 1) / columns == 0
  {
    if i + 1 < columns {
      DivModUnique(i, columns, 0, i);
      DivModUnique(i + 1, columns, 0, i + 1);
    }
  }

  lemma {:induction false} PlaceBelow(i: nat, columns: nat, q: nat, r: nat)
    requires columns > 0 && q == i / columns && r == i % columns
    ensures (i + columns) % columns == r && (i + columns) / columns == q + 1
  {
    assert i == columns * q + r;
    assert columns * (q + 1) == columns * q + columns;
    DivModUnique(i + columns, columns, q + 1, r);
  }

  lemma {:induction false} DivModUnique(n: nat, d: nat, q: nat, r: nat)
    requires d > 0 && r < d && n == d * q + r
    ensures n / d == q && n % d == r
  {
    var q', r' := n / d, n % d;
    assert n == d * q' + r';
    assert d * (q + 1) == d * q + d && d * (q' + 1) == d * q' + d;
    CancelLess(d, q, q' + 1);
    CancelLess(d, q', q + 1);
  }

  lemma {:induction false} CellsApart(i: nat, j: nat, columns: nat, tw: nat, th: nat)
    requires columns > 0 && i != j
    ensures !CellsOverlap(CellOf(i, columns, tw, th), CellOf(j, columns, tw, th), tw, th)
  {
    DivModDiffers(i, j, columns);
    ApartOnOneAxis(i % columns, j % columns, i / columns, j / columns, tw, th);
  }

  /** Every thumbnail is pasted inside the sheet and no two overlap. */
  method RenderGrid(count: nat, columns: nat, tw: nat, th: nat) returns (cells: seq<Cell>)
    requires columns > 0
    ensures |cells| == count
    ensures forall i :: 0 <= i < count ==> CellInSheet(cells[i], CeilDiv(count, columns), columns, tw, th)
    ensures forall i, j :: 0 <= i < j < count ==> !CellsOverlap(cells[i], cells[j], tw, th)
    ensures ReadingOrder(cells, columns, tw, th)
  {
    cells := [];
    for idx := 0 to count
      invariant |cells| == idx && forall i :: 0 <= i < idx ==> cells[i] == CellOf(i, columns, tw, th)
    {
      cells := cells + [CellOf(idx, columns, tw, th)];
    }
    forall i | 0 <= i < count
      ensures CellInSheet(cells[i], CeilDiv(count, columns), columns, tw, th)
    {
      CellInside(i, count, columns, tw, th);
    }
    forall i, j | 0 <= i < j < count
      ensures !CellsOverlap(cells[i], cells[j], tw, th)
    {
      CellsApart(i, j, columns, tw, th);
    }
    CellSteps(0, columns, tw, th);
    forall i | 0 <= i && i + 1 < columns && i + 1 < count
      ensures cells[i + 1] == Cell(cells[i].x + tw, cells[i].y)
    {
      CellSteps(i, columns, tw, th);
    }
    forall i | 0 <= i && i + columns < count
      ensures cells[i + columns] == Cell(cells[i].x, cells[i].y + th)
    {
      CellSteps(i, columns, tw, th);
    }
  }
}
