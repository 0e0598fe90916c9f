/** 1-based paging as the services do it: `PageRequest.of(page - 1, size,
    sort)` and `findAll(pageable).getContent()`. The repository's content,
    already in the requested sort order, is a sequence; a page is a window of
    it. The page's offset, `(page - 1) * size`, is a `long`; the JPA
    repository passes it to the query as an `int` and refuses one that does
    not fit. */
module Paging {
  import opened Wrappers
  import opened Model

  const INT_MIN: int := -0x8000_0000
  const INT_MAX: int := 0x7fff_ffff

  /** A value of Java's 32-bit `int`. */
  predicate IsInt(x: int) {
    INT_MIN <= x <= INT_MAX
  }

  /** `x - 1` on a Java `int`, which wraps from the least value to the greatest. */
  function IntPredecessor(x: int): (y: int)
    requires IsInt(x)
    ensures IsInt(y)
  {
    if x == INT_MIN then INT_MAX else x - 1
  }

  function Min(a: int, b: int): (m: int) {
    if a <= b then a else b
  }

  /** Page `index` (0-based) of `size` items: the items from position
      `index * size` on, at most `size` of them. */
  function Slice<T>(items: seq<T>, index: nat, size: nat): (r: seq<T>)
    ensures |r| == if index * size >= |items| then 0 else Min(size, |items| - index * size)
    ensures forall i :: 0 <= i < |r| ==> r[i] == items[index * size + i]
  {
    var start := index * size;
    if start >= |items| then [] else items[start .. Min(start + size, |items|)]
  }

  /** The content of 1-based page `page` of `size` items. `PageRequest.of`
      throws for a negative page index or a size below one; the repository
      throws for an offset above `INT_MAX`. */
  function PageOf<T>(items: seq<T>, page: int, size: int): (r: Result<seq<T>, Error>)
    requires IsInt(page) && IsInt(size)
    ensures r.Failure? <==>
              IntPredecessor(page) < 0 || size < 1 || IntPredecessor(page) * size > INT_MAX
    ensures IntPredecessor(page) < 0 || size < 1 ==> r == Failure(InvalidPage)
    ensures r.Failure? && r.error != InvalidPage ==> r.error == OffsetTooLarge
    ensures r.Success? ==> r.value == Slice(items, IntPredecessor(page), size)
  {
    var index := IntPredecessor(page);
    if index < 0 || size < 1 then Failure(InvalidPage)
    else if index * size > INT_MAX then Failure(OffsetTooLarge)
    else Success(Slice(items, index, size))
  }

  /** Pages are numbered from 1: page `p >= 1` starts at item `(p - 1) * size`
      as long as that offset fits an `int`, and is refused beyond; pages 0
      down to -2147483647 are refused. */
  lemma OneBasedPages<T>(items: seq<T>, page: int, size: int)
    requires IsInt(page) && IsInt(size) && size >= 1
    ensures page >= 1 && (page - 1) * size <= INT_MAX ==>
              PageOf(items, page, size) == Success(Slice(items, page - 1, size))
    ensures page >= 1 && (page - 1) * size > INT_MAX ==>
              PageOf(items, page, size) == Failure(OffsetTooLarge)
    ensures INT_MIN < page < 1 ==> PageOf(items, page, size) == Failure(InvalidPage)
  {
  }

  /** Page -2147483648 passes `PageRequest.of`, since `page - 1` wraps to
      the greatest index. With pages of one item its offset just fits and the
      page is empty; with larger pages the repository refuses the offset. */
  lemma LeastPageWraps<T>(items: seq<T>, size: int)
    requires IsInt(size) && size >= 1
    requires |items| <= INT_MAX
    ensures size == 1 ==> PageOf(items, INT_MIN, size) == Success([])
    ensures size >= 2 ==> PageOf(items, INT_MIN, size) == Failure(OffsetTooLarge)
  {
    assert INT_MAX * size >= INT_MAX;
    if size >= 2 {
      assert INT_MAX * size >= INT_MAX * 2;
    }
  }

  /** Item j lies on 0-based page j / size, at position j % size. */
  lemma ItemOnItsPage<T>(items: seq<T>, size: nat, j: nat)
    requires size >= 1 && j < |items|
    ensures j % size < |Slice(items, j / size, size)|
    ensures Slice(items, j / size, size)[j % size] == items[j]
  {
    var q, m := j / size, j % size;
    assert j == q * size + m;
  }

  /** The first k pages, one after the other. */
  function FirstPages<T>(items: seq<T>, size: nat, k: nat): (read: seq<T>) {
    if k == 0 then [] else FirstPages(items, size, k - 1) + Slice(items, k - 1, size)
  }

  /** Reading pages 1 to k in turn yields the first k * size items, each
      once and in order: the pages neither overlap nor leave gaps. */
  lemma {:induction false} FirstPagesArePrefix<T>(items: seq<T>, size: nat, k: nat)
    ensures FirstPages(items, size, k) == items[..Min(k * size, |items|)]
  {
    if k > 0 {
      FirstPagesArePrefix(items, size, k - 1);
      assert (k - 1) * size + size == k * size;
      var start := (k - 1) * size;
      if start < |items| {
        assert items[..Min(k * size, |items|)]
            == items[..start] + items[start .. Min(start + size, |items|)];
      } else {
        assert (k - 1) * size <= k * size;
      }
    }
  }

  /** Sixty items in pages of fifty: fifty on page 1, ten on page 2, none on page 3. */
  lemma SixtyItemsInPagesOfFifty<T>(items: seq<T>)
    requires |items| == 60
    ensures PageOf(items, 1, 50).Success? && |PageOf(items, 1, 50).value| == 50
    ensures PageOf(items, 2, 50).Success? && |PageOf(items, 2, 50).value| == 10
    ensures PageOf(items, 3, 50) == Success([])
  {
  }
}
