/** Listings read page by page, pages counted from 1. */
module Pages {

  function Min(a: nat, b: nat): nat {
    if a < b then a else b
  }

  /** The number of pages of `size` items. */
  function PageCount<T>(items: seq<T>, size: nat): nat
    requires size > 0
  {
    (|items| + size - 1) / size
  }

  /** Where page `k` ends. */
  function Offset(size: nat, k: nat): nat {
    if k == 0 then 0 else Offset(size, k - 1) + size
  }

  lemma {:induction false} OffsetIsProduct(size: nat, k: nat)
    ensures Offset(size, k) == k * size
  {
    if k > 0 {
      OffsetIsProduct(size, k - 1);
    }
  }

  /** The items up to the end of page `k`. */
  function FirstPages<T>(items: seq<T>, size: nat, k: nat): seq<T> {
    items[..Min(Offset(size, k), |items|)]
  }

  function PageAt<T>(items: seq<T>, size: nat, k: nat): seq<T>
    requires k >= 1
  {
    items[Min(Offset(size, k - 1), |items|)..Min(Offset(size, k), |items|)]
  }

  lemma PagesAppend<T>(items: seq<T>, size: nat, k: nat)
    requires k >= 1
    ensures FirstPages(items, size, k) == FirstPages(items, size, k - 1) + PageAt(items, size, k)
  {
  }

  /** Page `k` holds the items from number `(k - 1) * size` on, `size` at most. */
  lemma PageHolds<T>(items: seq<T>, size: nat, k: nat, j: nat)
    requires k >= 1
    ensures j < |PageAt(items, size, k)| <==> j < size && (k - 1) * size + j < |items|
    ensures j < |PageAt(items, size, k)| ==> PageAt(items, size, k)[j] == items[(k - 1) * size + j]
  {
    OffsetIsProduct(size, k - 1);
  }

  lemma LastPageEnds<T>(items: seq<T>, size: nat, k: nat)
    requires size > 0 && k >= PageCount(items, size)
    ensures Offset(size, k) >= |items|
  {
    OffsetIsProduct(size, k);
    var q := PageCount(items, size);
    assert q * size >= |items|;
    assert k * size >= q * size by { assert (k - q) * size >= 0; }
  }

  lemma FirstPage<T>(items: seq<T>, size: nat)
    ensures PageAt(items, size, 1) == items[..Min(size, |items|)]
    ensures |items| <= size ==> PageAt(items, size, 1) == items
  {
    assert Offset(size, 1) == size;
    assert items[..|items|] == items;
  }

  /** There is a second page exactly if the first does not hold everything. */
  lemma MoreThanOnePage<T>(items: seq<T>, size: nat)
    requires size > 0
    ensures PageCount(items, size) > 1 <==> |items| > size
  {
    if |items| > size {
      assert (|items| + size - 1) / size >= (2 * size) / size == 2;
    }
  }
}
