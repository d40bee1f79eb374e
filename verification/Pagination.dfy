/** Offset pagination over Go's 64-bit ints: the page arithmetic of the repository's List and
    the tiling of a list by its pages. */
module Pagination {
  import opened Basics

  const MAX_INT: int := 0x7fff_ffff_ffff_ffff

  /** The int that a 64-bit addition or multiplication yields for the true value x. */
  function Wrap(x: int): (r: int)
    ensures -MAX_INT - 1 <= r <= MAX_INT
    ensures -MAX_INT - 1 <= x <= MAX_INT ==> r == x
  {
    (x + MAX_INT + 1) % 0x1_0000_0000_0000_0000 - MAX_INT - 1
  }

  function NormalPage(page: int): int {
    if page < 1 then 1 else page
  }

  function NormalSize(size: int, defaultSize: int, maxSize: int): int {
    var s := if size <= 0 then defaultSize else size;
    if s > maxSize then maxSize else s
  }

  class PageRequest {
    var Page: int
    var PageSize: int

    constructor (page: int, pageSize: int)
      ensures Page == page && PageSize == pageSize
    {
      Page := page;
      PageSize := pageSize;
    }

    method Normalize(defaultSize: int, maxSize: int)
      modifies this
      ensures Page == NormalPage(old(Page)) && PageSize == NormalSize(old(PageSize), defaultSize, maxSize)
      ensures Page == if old(Page) < 1 then 1 else old(Page)
      ensures PageSize == Min(if old(PageSize) <= 0 then defaultSize else old(PageSize), maxSize)
    {
      if Page < 1 {
        Page := 1;
      }
      if PageSize <= 0 {
        PageSize := defaultSize;
      }
      if PageSize > maxSize {
        PageSize := maxSize;
      }
    }

    function Offset(): int
      reads this
    {
      if Page < 1 then 0 else Wrap((Page - 1) * PageSize)
    }
  }

  datatype Panic = SliceBoundsOutOfRange

  function Clamp(x: int, limit: int): int {
    if x > limit then limit else x
  }

  /** `all[start:end]` as List computes its bounds; Go panics when they are out of range. */
  function PageOf<T>(all: seq<T>, page: int, size: int): Result<seq<T>, Panic> {
    var start := Clamp(if page < 1 then 0 else Wrap((page - 1) * size), |all|);
    var end := Clamp(Wrap(start + size), |all|);
    if 0 <= start <= end then Ok(all[start..end]) else Err(SliceBoundsOutOfRange)
  }

  /** Page number p of the list, counting from 1, with unbounded arithmetic. */
  function Tile<T>(all: seq<T>, p: int, size: int): seq<T>
    requires p >= 1 && size >= 1
  {
    Bounds(|all|, p, size);
    all[Clamp((p - 1) * size, |all|)..Clamp(p * size, |all|)]
  }

  lemma Bounds(n: nat, p: int, size: int)
    requires p >= 1 && size >= 1
    ensures 0 <= Clamp((p - 1) * size, n) <= Clamp(p * size, n) <= n
    ensures p * size == (p - 1) * size + size
  {
    assert p * size == (p - 1) * size + size;
    assert (p - 1) * size >= 0 by {
      var a, b := p - 1, size;
      assert a >= 0 && b >= 0;
      NonNegativeProduct(a, b);
    }
  }

  lemma NonNegativeProduct(a: nat, b: nat)
    ensures a * b >= 0
  {
  }

  /** A slice of pointers fits in the address space. */
  predicate Addressable(n: nat) {
    n <= MAX_INT / 8
  }

  /** A request is answered with its tile exactly when the offset fits in 64 bits, or wraps to
      a value past the end.  Any other page panics or repeats an earlier page's items. */
  lemma PageIsTileIff<T>(all: seq<T>, page: int, size: int)
    requires Addressable(|all|) && page >= 1 && 1 <= size <= 100
    ensures PageOf(all, page, size) == Ok(Tile(all, page, size))
       <==> (page - 1) * size <= MAX_INT || |all| <= Wrap((page - 1) * size)
  {
    Bounds(|all|, page, size);
    var offset := (page - 1) * size;
    if offset <= MAX_INT {
      assert Wrap(offset) == offset;
    } else if |all| <= Wrap(offset) {
      assert Tile(all, page, size) == [];
    } else if 0 <= Wrap(offset) {
      assert Tile(all, page, size) == [];
      assert |PageOf(all, page, size).value| >= 1;
    }
  }

  /** A page whose offset fits in 64 bits has the items after the first `skipped`, at most size. */
  lemma PageItems<T>(all: seq<T>, page: int, size: int, skipped: int)
    requires Addressable(|all|) && page >= 1 && 1 <= size <= 100 && skipped == (page - 1) * size <= MAX_INT
    ensures 0 <= skipped && PageOf(all, page, size).Ok?
    ensures var items := PageOf(all, page, size).value;
            && |items| == Max(0, Min(size, |all| - skipped))
            && forall j | 0 <= j < |items| :: items[j] == all[skipped + j]
  {
    NonNegativeProduct(page - 1, size);
    assert Wrap(skipped) == skipped;
  }

  /** The bounds are in range for every page whose offset fits, whatever the page size. */
  lemma NoPanicWithinRange<T>(all: seq<T>, page: int, size: int)
    requires Addressable(|all|) && 1 <= size <= 100 && (page - 1) * 100 <= MAX_INT
    ensures PageOf(all, NormalPage(page), size) == Ok(Tile(all, NormalPage(page), size))
  {
    var p := NormalPage(page);
    Bounds(|all|, p, size);
    if page >= 1 {
      ProductMonotone(page - 1, size, 100);
    }
    PageIsTileIff(all, p, size);
  }

  lemma ProductMonotone(a: nat, b: int, c: int)
    requires b <= c
    ensures a * b <= a * c
  {
  }

  /** A request panics exactly when its offset wraps to a negative value. */
  lemma PanicIff<T>(all: seq<T>, page: int, size: int)
    requires Addressable(|all|) && page >= 1 && 1 <= size <= 100
    ensures PageOf(all, page, size).Err? <==> Wrap((page - 1) * size) < 0
  {
  }

  lemma HugePagePanics<T>(all: seq<T>)
    requires Addressable(|all|)
    ensures PageOf(all, 0x4000_0000_0000_0001, 2) == Err(SliceBoundsOutOfRange)
  {
    assert Wrap((0x4000_0000_0000_0001 - 1) * 2) == -MAX_INT - 1;
  }

  /** A page whose offset wraps into the list repeats earlier items. */
  lemma HugePageRepeatsFirst<T>(all: seq<T>)
    requires Addressable(|all|)
    ensures PageOf(all, 0x400_0000_0000_0001, 64) == PageOf(all, 1, 64)
  {
    assert Wrap((0x400_0000_0000_0001 - 1) * 64) == 0;
  }

  /** The concatenation of pages; the first panic ends it. */
  function Concat<T>(pages: seq<Result<seq<T>, Panic>>): Result<seq<T>, Panic> {
    if pages == [] then Ok([])
    else
      var earlier, last := Concat(pages[..|pages| - 1]), pages[|pages| - 1];
      if earlier.Err? then earlier else if last.Err? then last else Ok(earlier.value + last.value)
  }

  /** The pages 1..k that List returns. */
  function PagesOf<T>(all: seq<T>, k: nat, size: int): seq<Result<seq<T>, Panic>> {
    seq(k, i => PageOf(all, i + 1, size))
  }

  /** Page p is its part of the list, from lo to hi; or else the list was complete before it, and
      it panics or repeats items. */
  ghost predicate Extends<T>(all: seq<T>, page: Result<seq<T>, Panic>, lo: int, hi: int, good: bool) {
    && 0 <= lo <= hi <= |all|
    && if good then page == Ok(all[lo..hi]) else lo == |all| && (page.Err? || |page.value| > 0)
  }

  lemma {:induction false} ConcatExtends<T>(all: seq<T>, pages: seq<Result<seq<T>, Panic>>, ends: seq<int>,
                                           good: seq<bool>)
    requires |ends| == |pages| + 1 && |good| == |pages| && ends[0] == 0
    requires forall i :: 0 <= i < |pages| ==> Extends(all, pages[i], ends[i], ends[i + 1], good[i])
    ensures 0 <= ends[|pages|] <= |all|
    ensures (forall i :: 0 <= i < |pages| ==> good[i]) <==> Concat(pages) == Ok(all[..ends[|pages|]])
    ensures (forall i :: 0 <= i < |pages| ==> good[i]) || Concat(pages).Err? || |Concat(pages).value| > |all|
  {
    var n := |pages| - 1;
    if n >= 0 {
      ConcatExtends(all, pages[..n], ends[..n + 1], good[..n]);
      assert Extends(all, pages[n], ends[n], ends[n + 1], good[n]);
      assert all[..ends[n]] + all[ends[n]..ends[n + 1]] == all[..ends[n + 1]];
      assert (forall i :: 0 <= i < n ==> good[..n][i]) <==> (forall i :: 0 <= i < n ==> good[i]);
    }
  }

  /** The offset of the page after the first i fits in 64 bits, or wraps past the end. */
  predicate OffsetFits(n: nat, i: nat, size: int) {
    i * size <= MAX_INT || n <= Wrap(i * size)
  }

  lemma NextPage<T>(all: seq<T>, i: nat, size: int)
    requires Addressable(|all|) && 1 <= size <= 100
    ensures Extends(all, PageOf(all, i + 1, size), Clamp(i * size, |all|), Clamp((i + 1) * size, |all|),
                    OffsetFits(|all|, i, size))
  {
    Bounds(|all|, i + 1, size);
    PageIsTileIff(all, i + 1, size);
  }

  predicate AllFit(n: nat, k: nat, size: int) {
    forall i | 0 <= i < k :: OffsetFits(n, i, size)
  }

  /** The pages List returns tile the list: the first k of them concatenate to its first k * size
      items exactly when none of their offsets wraps into the list or below zero.  Otherwise one
      of them panics, or items are repeated. */
  lemma PagesTileTheListIff<T>(all: seq<T>, k: nat, size: int)
    requires Addressable(|all|) && 1 <= size <= 100
    ensures 0 <= Clamp(k * size, |all|) <= |all|
    ensures AllFit(|all|, k, size) <==> Concat(PagesOf(all, k, size)) == Ok(all[..Clamp(k * size, |all|)])
    ensures var pages := Concat(PagesOf(all, k, size));
            AllFit(|all|, k, size) || pages.Err? || |pages.value| > |all|
  {
    var pages, ends, good := PagesOf(all, k, size), Ends(|all|, k, size), Fitting(|all|, k, size);
    forall i | 0 <= i < k
      ensures Extends(all, pages[i], ends[i], ends[i + 1], good[i])
    {
      NextPage(all, i, size);
    }
    ConcatExtends(all, pages, ends, good);
  }

  function Fitting(n: nat, k: nat, size: int): (good: seq<bool>)
    ensures |good| == k
    ensures forall i | 0 <= i < k :: good[i] == OffsetFits(n, i, size)
    ensures AllFit(n, k, size) <==> forall i | 0 <= i < k :: good[i]
  {
    var good := seq(k, i requires 0 <= i < k => OffsetFits(n, i, size));
    assert forall i | 0 <= i < k :: good[i] == OffsetFits(n, i, size);
    good
  }

  function Ends(n: nat, k: nat, size: int): (ends: seq<int>)
    ensures |ends| == k + 1 && ends[0] == Clamp(0, n) && ends[k] == Clamp(k * size, n)
    ensures forall i | 0 <= i <= k :: ends[i] == Clamp(i * size, n)
  {
    seq(k + 1, i => Clamp(i * size, n))
  }

  lemma FitWithin(n: nat, k: nat, size: int)
    requires 1 <= size && (k - 1) * size <= MAX_INT
    ensures AllFit(n, k, size)
  {
    forall i | 0 <= i < k
      ensures OffsetFits(n, i, size)
    {
      ProductMonotone(size, i, k - 1);
    }
  }

  /** So they do for every k whose last offset fits in 64 bits, to the whole list as soon as
      k * size reaches its length; a later page whose offset fits is empty. */
  lemma PagesTileTheList<T>(all: seq<T>, k: nat, size: int)
    requires Addressable(|all|) && 1 <= size <= 100 && (k - 1) * size <= MAX_INT
    ensures 0 <= Clamp(k * size, |all|) <= |all|
    ensures Concat(PagesOf(all, k, size)) == Ok(all[..Clamp(k * size, |all|)])
    ensures |all| <= k * size ==> Concat(PagesOf(all, k, size)) == Ok(all)
    ensures |all| <= k * size <= MAX_INT ==> PageOf(all, k + 1, size) == Ok([])
  {
    FitWithin(|all|, k, size);
    PagesTileTheListIff(all, k, size);
    NextPage(all, k, size);
    assert all[..|all|] == all;
  }

  /** Item i is on page i / size + 1 as List returns it and, the items being distinct, on no
      other page whose offset fits in 64 bits. */
  lemma EachItemOnOnePage<T>(all: seq<T>, i: nat, p: int, size: int)
    requires Addressable(|all|) && 1 <= size <= 100 && p >= 1 && (p - 1) * size <= MAX_INT && i < |all|
    requires forall j, k :: 0 <= j < k < |all| ==> all[j] != all[k]
    ensures PageOf(all, p, size).Ok?
    ensures all[i] in PageOf(all, p, size).value <==> p == i / size + 1
  {
    PageIsTileIff(all, p, size);
    InTileIff(all, i, p, size);
  }

  lemma InTileIff<T>(all: seq<T>, i: nat, p: int, size: int)
    requires size >= 1 && p >= 1 && i < |all|
    requires forall j, k :: 0 <= j < k < |all| ==> all[j] != all[k]
    ensures all[i] in Tile(all, p, size) <==> p == i / size + 1
  {
    Bounds(|all|, p, size);
    var lo, hi := Clamp((p - 1) * size, |all|), Clamp(p * size, |all|);
    if all[i] in Tile(all, p, size) {
      var j :| 0 <= j < |Tile(all, p, size)| && Tile(all, p, size)[j] == all[i];
      assert all[lo + j] == all[i];
    }
    if lo <= i < hi {
      assert Tile(all, p, size)[i - lo] == all[i];
    }
    assert all[i] in Tile(all, p, size) <==> lo <= i < hi;
    assert lo <= i < hi <==> (p - 1) * size <= i < p * size;
    QuotientIff(i, p - 1, size);
  }

  lemma QuotientIff(i: nat, q: nat, size: int)
    requires size >= 1
    ensures q * size <= i < (q + 1) * size <==> q == i / size
  {
    var d, r := i / size, i % size;
    assert i == d * size + r;
    assert (q + 1) * size == q * size + size;
    if q < d {
      ProductMonotone(size, q + 1, d);
    } else if q > d {
      ProductMonotone(size, d + 1, q);
      assert (d + 1) * size == d * size + size;
    }
  }
}
