/** Block ranges cut into pages, and pages into batches. */
module Paging {
  const RECORDS_PER_PAGE: nat := 450

  datatype Range = Range(from: int, to: int)

  function Blocks(from: int, to: int): seq<int>
    decreases to - from
  {
    if to < from then [] else Blocks(from, to - 1) + [to]
  }

  /** All blocks that a list of requests asks for, in the order of asking. */
  function Requested(ranges: seq<Range>): seq<int> {
    if ranges == [] then []
    else Requested(ranges[..|ranges| - 1]) + Blocks(ranges[|ranges| - 1].from, ranges[|ranges| - 1].to)
  }

  /** `Math.ceil((to - from) / recordsPerPage)`: one block short of the range. */
  function PageCount(from: int, to: int): nat
    requires from < to
  {
    (to - from + RECORDS_PER_PAGE - 1) / RECORDS_PER_PAGE
  }

  /** The k-th page; the last one is stretched to `end`. */
  function Page(from: int, count: nat, end: int, k: nat): Range {
    var start := from + RECORDS_PER_PAGE * k;
    Range(start, if k + 1 == count then end else start + RECORDS_PER_PAGE - 1)
  }

  /** The first k of `count` pages. */
  function FirstPages(from: int, count: nat, end: int, k: nat): seq<Range> {
    if k == 0 then [] else FirstPages(from, count, end, k - 1) + [Page(from, count, end, k - 1)]
  }

  /** The pages of [from, to], the last of them reaching `end` instead. */
  function Pages(from: int, to: int, end: int): seq<Range>
    requires from < to
  {
    FirstPages(from, PageCount(from, to), end, PageCount(from, to))
  }

  /** What the inner loop asks for: full batches and a rest. */
  function Batches(start: int, end: int, size: nat): seq<Range>
    requires size >= 1
    decreases end - start
  {
    if start > end then []
    else [Range(start, if start + size - 1 < end then start + size - 1 else end)] + Batches(start + size, end, size)
  }

  function AllBatches(pages: seq<Range>, size: nat): seq<Range>
    requires size >= 1
  {
    if pages == [] then []
    else AllBatches(pages[..|pages| - 1], size) + Batches(pages[|pages| - 1].from, pages[|pages| - 1].to, size)
  }

  /** Pages follow one another without gap or overlap, from `from` to `end`. */
  ghost predicate Tile(pages: seq<Range>, from: int, end: int) {
    && (pages == [] ==> end == from - 1)
    && (pages != [] ==> pages[0].from == from && pages[|pages| - 1].to == end)
    && (forall k | 0 <= k < |pages| :: pages[k].from <= pages[k].to)
    && (forall j, k | 0 <= j < k < |pages| && k == j + 1 :: pages[k].from == pages[j].to + 1)
  }

  lemma PageCountFits(from: int, to: int)
    requires from < to
    ensures var n := PageCount(from, to); n >= 1 && RECORDS_PER_PAGE * (n - 1) < to - from <= RECORDS_PER_PAGE * n
  {
  }

  lemma {:induction false} FirstPagesTile(from: int, count: nat, end: int, k: nat)
    requires 1 <= k <= count && from + RECORDS_PER_PAGE * (count - 1) <= end
    ensures Tile(FirstPages(from, count, end, k), from, Page(from, count, end, k - 1).to)
  {
    if k > 1 {
      FirstPagesTile(from, count, end, k - 1);
      TileSnoc(FirstPages(from, count, end, k - 1), from, Page(from, count, end, k - 2).to, Page(from, count, end, k - 1));
    } else {
      assert FirstPages(from, count, end, 1) == [Page(from, count, end, 0)];
    }
  }

  lemma TileSnoc(pages: seq<Range>, from: int, end: int, r: Range)
    requires Tile(pages, from, end) && r.from == end + 1 && r.from <= r.to
    ensures Tile(pages + [r], from, r.to)
  {
  }

  lemma PagesTile(from: int, to: int, end: int)
    requires from < to <= end
    ensures Tile(Pages(from, to, end), from, end)
  {
    PageCountFits(from, to);
    FirstPagesTile(from, PageCount(from, to), end, PageCount(from, to));
  }

  lemma {:induction false} FirstPagesAreSmall(from: int, to: int, count: nat, k: nat)
    requires k <= count && RECORDS_PER_PAGE * (count - 1) < to - from <= RECORDS_PER_PAGE * count
    ensures forall r | r in FirstPages(from, count, to, k) :: 1 <= r.to - r.from + 1 <= RECORDS_PER_PAGE + 1
  {
    if k > 0 {
      FirstPagesAreSmall(from, to, count, k - 1);
    }
  }

  lemma PagesAreSmall(from: int, to: int)
    requires from < to
    ensures forall r | r in Pages(from, to, to) :: 1 <= r.to - r.from + 1 <= RECORDS_PER_PAGE + 1
  {
    PageCountFits(from, to);
    FirstPagesAreSmall(from, to, PageCount(from, to), PageCount(from, to));
  }

  lemma BlocksConcat(a: int, b: int, c: int)
    requires a <= b + 1 && b <= c
    ensures Blocks(a, b) + Blocks(b + 1, c) == Blocks(a, c)
    decreases c - b
  {
    if b < c {
      BlocksConcat(a, b, c - 1);
      assert Blocks(a, b) + (Blocks(b + 1, c - 1) + [c]) == (Blocks(a, b) + Blocks(b + 1, c - 1)) + [c];
    }
  }

  lemma TilePrefix(pages: seq<Range>, from: int, end: int)
    requires pages != [] && Tile(pages, from, end)
    ensures Tile(pages[..|pages| - 1], from, pages[|pages| - 1].from - 1)
    ensures from <= pages[|pages| - 1].from <= end
    decreases |pages|
  {
    if |pages| > 1 {
      TilePrefix(pages[..|pages| - 1], from, pages[|pages| - 1].from - 1);
    }
  }

  /** Tiles ask for every block of the range exactly once, in order. */
  lemma {:induction false} TileIsExact(pages: seq<Range>, from: int, end: int)
    requires Tile(pages, from, end)
    ensures Requested(pages) == Blocks(from, end)
    decreases |pages|
  {
    if pages != [] {
      TilePrefix(pages, from, end);
      var last := pages[|pages| - 1];
      TileIsExact(pages[..|pages| - 1], from, last.from - 1);
      BlocksConcat(from, last.from - 1, end);
    }
  }

  lemma {:induction false} RequestedConcat(a: seq<Range>, b: seq<Range>)
    ensures Requested(a + b) == Requested(a) + Requested(b)
    decreases |b|
  {
    if b == [] {
      assert a + b == a;
    } else {
      hide Blocks;
      RequestedConcat(a, b[..|b| - 1]);
      assert (a + b)[..|a + b| - 1] == a + b[..|b| - 1] && (a + b)[|a + b| - 1] == b[|b| - 1];
    }
  }

  /** The batches of a range are exact and no larger than their size. */
  lemma {:induction false} BatchesAreExact(start: int, end: int, size: nat)
    requires size >= 1 && start <= end + size
    ensures Requested(Batches(start, end, size)) == Blocks(start, end)
    ensures forall r | r in Batches(start, end, size) :: 1 <= r.to - r.from + 1 <= size
    decreases end - start
  {
    if start <= end {
      var first := Range(start, if start + size - 1 < end then start + size - 1 else end);
      BatchesAreExact(start + size, end, size);
      RequestedConcat([first], Batches(start + size, end, size));
      assert Requested([first]) == Blocks(start, first.to) by {
        assert [first][..0] == [];
      }
      if first.to < end {
        BlocksConcat(start, first.to, end);
      } else {
        assert Blocks(start + size, end) == [];
      }
    }
  }

  lemma {:induction false} AllBatchesAreExact(pages: seq<Range>, from: int, end: int, size: nat)
    requires size >= 1 && Tile(pages, from, end)
    ensures Requested(AllBatches(pages, size)) == Blocks(from, end)
    ensures forall r | r in AllBatches(pages, size) :: 1 <= r.to - r.from + 1 <= size
    decreases |pages|
  {
    if pages != [] {
      TilePrefix(pages, from, end);
      var last := pages[|pages| - 1];
      AllBatchesAreExact(pages[..|pages| - 1], from, last.from - 1, size);
      BatchesAreExact(last.from, last.to, size);
      RequestedConcat(AllBatches(pages[..|pages| - 1], size), Batches(last.from, last.to, size));
      BlocksConcat(from, last.from - 1, end);
    }
  }

  /** All batches but the last are full. */
  lemma {:induction false} BatchesAreFull(start: int, end: int, size: nat)
    requires size >= 1
    ensures forall k | 0 <= k < |Batches(start, end, size)| - 1 ::
              Batches(start, end, size)[k].to - Batches(start, end, size)[k].from + 1 == size
    decreases end - start
  {
    if start <= end {
      BatchesAreFull(start + size, end, size);
    }
  }

  lemma {:induction false} FirstPagesAreBatches(from: int, count: nat, end: int, k: nat)
    requires k < count && from + RECORDS_PER_PAGE * (count - 1) <= end
    ensures Batches(from, end, RECORDS_PER_PAGE)
            == AllBatches(FirstPages(from, count, end, k), RECORDS_PER_PAGE) + Batches(from + RECORDS_PER_PAGE * k, end, RECORDS_PER_PAGE)
  {
    if k > 0 {
      var before, page := FirstPages(from, count, end, k - 1), Page(from, count, end, k - 1);
      FirstPagesAreBatches(from, count, end, k - 1);
      assert (before + [page])[..|before|] == before;
      assert Batches(page.to + 1, page.to, RECORDS_PER_PAGE) == [];
      assert Batches(page.from, page.to, RECORDS_PER_PAGE) == [page];
      assert Batches(page.from, end, RECORDS_PER_PAGE) == [page] + Batches(page.to + 1, end, RECORDS_PER_PAGE);
      assert AllBatches(before, RECORDS_PER_PAGE) + ([page] + Batches(page.to + 1, end, RECORDS_PER_PAGE))
          == (AllBatches(before, RECORDS_PER_PAGE) + [page]) + Batches(page.to + 1, end, RECORDS_PER_PAGE);
    }
  }

  /** Pages cut into batches of the same size are batches, whatever the last page is stretched to. */
  lemma PagesAreBatches(from: int, to: int, end: int)
    requires from < to <= end
    ensures AllBatches(Pages(from, to, end), RECORDS_PER_PAGE) == Batches(from, end, RECORDS_PER_PAGE)
  {
    PageCountFits(from, to);
    var count := PageCount(from, to);
    FirstPagesAreBatches(from, count, end, count - 1);
    var before, page := FirstPages(from, count, end, count - 1), Page(from, count, end, count - 1);
    assert (before + [page])[..|before|] == before;
  }

  lemma {:induction false} FullPages(from: int, count: nat, end: int, k: nat)
    requires k <= count
    ensures |FirstPages(from, count, end, k)| == k
    ensures forall j | 0 <= j < k && j + 1 < count ::
              FirstPages(from, count, end, k)[j].to - FirstPages(from, count, end, k)[j].from + 1 == 450
  {
    if k > 0 {
      FullPages(from, count, end, k - 1);
    }
  }

  /** Paging is exact: for every from < to, the pages alone ask for each block of [from, to]
      once and in order, at most 451 at a time; the pages cut into batches do the same, at most
      450 at a time, and reach the later block `end` if the last page is stretched to it. Only
      the last page and the last batch are not of exactly 450 blocks. */
  lemma PagingIsExact(from: int, to: int, end: int)
    requires from < to <= end
    ensures Requested(Pages(from, to, to)) == Blocks(from, to)
    ensures forall r | r in Pages(from, to, to) :: 1 <= r.to - r.from + 1 <= 451
    ensures Requested(AllBatches(Pages(from, to, end), RECORDS_PER_PAGE)) == Blocks(from, end)
    ensures forall r | r in AllBatches(Pages(from, to, end), RECORDS_PER_PAGE) :: 1 <= r.to - r.from + 1 <= 450
    ensures var pages, batches := Pages(from, to, to), AllBatches(Pages(from, to, end), RECORDS_PER_PAGE);
            && (forall k | 0 <= k < |pages| - 1 :: pages[k].to - pages[k].from + 1 == 450)
            && (forall k | 0 <= k < |batches| - 1 :: batches[k].to - batches[k].from + 1 == 450)
  {
    FullPages(from, PageCount(from, to), to, PageCount(from, to));
    PagesAreBatches(from, to, end);
    BatchesAreFull(from, end, RECORDS_PER_PAGE);
    hide Batches, AllBatches;
    PagesTile(from, to, to);
    PagesAreSmall(from, to);
    TileIsExact(Pages(from, to, to), from, to);
    PagesTile(from, to, end);
    AllBatchesAreExact(Pages(from, to, end), from, end, RECORDS_PER_PAGE);
  }
}
