/**
 * Pagination of the file listing: a fixed page size, the page count
 * `Math.ceil(count / PAGE_SIZE)`, and the window `slice((page - 1) * PAGE_SIZE, page * PAGE_SIZE)`.
 */
module Paging {

  /** Number of files returned per page. */
  const PAGE_SIZE: nat := 10

  function Min(a: int, b: int): int {
    if a <= b then a else b
  }

  /** `Math.ceil(count / PAGE_SIZE)`: the fewest pages that hold `count` items. */
  function TotalPages(count: nat): (r: nat)
    ensures r == 0 <==> count == 0
    ensures count <= r * PAGE_SIZE
    ensures r > 0 ==> (r - 1) * PAGE_SIZE < count
  {
    (count + PAGE_SIZE - 1) / PAGE_SIZE
  }

  /**
   * `s.slice(start, end)` for non-negative bounds: both bounds are clamped to
   * `|s|` and an end at or before the start gives the empty sequence.
   */
  function Slice<T>(s: seq<T>, start: nat, end: nat): (r: seq<T>)
    ensures |r| == if end <= start || |s| <= start then 0 else Min(end, |s|) - start
    ensures forall i :: 0 <= i < |r| ==> r[i] == s[start + i]
  {
    var from := Min(start, |s|);
    var to := Min(end, |s|);
    if to <= from then [] else s[from..to]
  }

  /** Index in the full sequence of the first item of page `page` (pages count from 1). */
  function PageStart(page: nat): nat
    requires page >= 1
  {
    (page - 1) * PAGE_SIZE
  }

  /** The items shown on page `page`. */
  function Page<T>(s: seq<T>, page: nat): (r: seq<T>)
    requires page >= 1
    ensures |r| <= PAGE_SIZE
    ensures |r| == if |s| <= PageStart(page) then 0 else Min(PAGE_SIZE, |s| - PageStart(page))
    ensures forall i :: 0 <= i < |r| ==> r[i] == s[PageStart(page) + i]
  {
    Slice(s, PageStart(page), page * PAGE_SIZE)
  }

  /** A page past the last one is empty; it is not an error. */
  lemma PageBeyondEnd<T>(s: seq<T>, page: nat)
    requires page > TotalPages(|s|)
    ensures Page(s, page) == []
  {
  }

  /**
   * Every page up to the last is non-empty; every page before the last is full;
   * the last page holds what remains.
   */
  lemma PageWithinRange<T>(s: seq<T>, page: nat)
    requires 1 <= page <= TotalPages(|s|)
    ensures 0 < |Page(s, page)|
    ensures page < TotalPages(|s|) ==> |Page(s, page)| == PAGE_SIZE
    ensures page == TotalPages(|s|) ==> |Page(s, page)| == |s| - PageStart(page)
  {
    assert PageStart(page) < |s|;
    if page < TotalPages(|s|) {
      assert PageStart(page) + PAGE_SIZE <= PageStart(TotalPages(|s|));
    }
  }

  /** Pages `1..count` concatenated in order. */
  function Pages<T>(s: seq<T>, count: nat): seq<T> {
    if count == 0 then [] else Pages(s, count - 1) + Page(s, count)
  }

  /** The first `count` pages are the first `count * PAGE_SIZE` items (or all of them). */
  lemma {:induction false} PagesArePrefix<T>(s: seq<T>, count: nat)
    ensures Pages(s, count) == s[..Min(count * PAGE_SIZE, |s|)]
  {
    if count > 0 {
      PagesArePrefix(s, count - 1);
      var lo := Min((count - 1) * PAGE_SIZE, |s|);
      var hi := Min(count * PAGE_SIZE, |s|);
      assert Page(s, count) == s[lo..hi];
      assert s[..lo] + s[lo..hi] == s[..hi];
    }
  }

  /** Concatenating pages `1..TotalPages` reproduces the whole sequence exactly. */
  lemma PagesReassemble<T>(s: seq<T>)
    ensures Pages(s, TotalPages(|s|)) == s
  {
    PagesArePrefix(s, TotalPages(|s|));
  }

  /**
   * Item `i` of the sequence sits at one place only: position `i % PAGE_SIZE`
   * of page `i / PAGE_SIZE + 1`. So no two pages share an item.
   */
  lemma PageOfIndex<T>(s: seq<T>, i: nat, page: nat, j: nat)
    requires i < |s| && page >= 1 && j < |Page(s, page)|
    ensures Page(s, page)[j] == s[PageStart(page) + j]
    ensures PageStart(page) + j == i <==> page == i / PAGE_SIZE + 1 && j == i % PAGE_SIZE
  {
  }

  /** Item `i` of the sequence is on a page in `1..TotalPages`. */
  lemma IndexOnSomePage<T>(s: seq<T>, i: nat)
    requires i < |s|
    ensures 1 <= i / PAGE_SIZE + 1 <= TotalPages(|s|)
    ensures i % PAGE_SIZE < |Page(s, i / PAGE_SIZE + 1)|
    ensures Page(s, i / PAGE_SIZE + 1)[i % PAGE_SIZE] == s[i]
  {
    var p := i / PAGE_SIZE + 1;
    assert PageStart(p) + i % PAGE_SIZE == i;
  }

  /** 23 items: page 1 has 10 items, page 3 has 3, page 4 none, and there are 3 pages. */
  lemma TwentyThreeItems<T>(s: seq<T>)
    requires |s| == 23
    ensures TotalPages(|s|) == 3
    ensures |Page(s, 1)| == 10 && |Page(s, 3)| == 3 && Page(s, 4) == []
  {
  }
}
