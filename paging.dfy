/**
 * Page-numbered listing endpoints (`?page=N&per_page=10`).
 *
 * An endpoint's responses are a finite sequence of pages: page `n`
 * (numbered from 1) is `pages[n - 1]`, and every page past the end is
 * empty, as the API answers with an empty list there. The script asks for
 * pages 1, 2, ... and stops after the first page holding fewer than
 * `PerPage` entries.
 */
module Paging {

  /** `PER_PAGE`: the page size the script asks for. */
  const PerPage := 10

  function Page<T>(pages: seq<seq<T>>, n: nat): seq<T>
    requires n >= 1
  {
    if n <= |pages| then pages[n - 1] else []
  }

  /** A page that makes the script ask for the next one. */
  predicate Full<T>(pages: seq<seq<T>>, n: nat)
    requires n >= 1
  {
    |Page(pages, n)| >= PerPage
  }

  function FirstShortFrom<T>(pages: seq<seq<T>>, n: nat): (k: nat)
    requires 1 <= n <= |pages| + 1
    ensures n <= k <= |pages| + 1
    ensures !Full(pages, k)
    ensures forall j :: n <= j < k ==> Full(pages, j)
    decreases |pages| + 1 - n
  {
    if !Full(pages, n) then n else FirstShortFrom(pages, n + 1)
  }

  /** The number of the page after which the script stops: the first short page. */
  function LastPage<T>(pages: seq<seq<T>>): (k: nat)
    ensures 1 <= k <= |pages| + 1
    ensures !Full(pages, k)
    ensures forall j :: 1 <= j < k ==> Full(pages, j)
  {
    FirstShortFrom(pages, 1)
  }

  /** The entries of pages 1 to `n`, in page order and in order within each page. */
  function Gathered<T>(pages: seq<seq<T>>, n: nat): seq<T> {
    if n == 0 then [] else Gathered(pages, n - 1) + Page(pages, n)
  }

  /** The sum of the lengths of pages 1 to `n`. */
  function SumLengths<T>(pages: seq<seq<T>>, n: nat): nat {
    if n == 0 then 0 else SumLengths(pages, n - 1) + |Page(pages, n)|
  }

  /** Everything the script receives from the endpoint. */
  function Collected<T>(pages: seq<seq<T>>): seq<T> {
    Gathered(pages, LastPage(pages))
  }

  /** All pages one after the other. */
  function Flatten<T>(pages: seq<seq<T>>): seq<T> {
    if pages == [] then [] else Flatten(pages[..|pages| - 1]) + pages[|pages| - 1]
  }

  // ---------------------------------------------------------------------
  // Lemmas

  /** The stopping page is determined by the two facts a loop can observe. */
  lemma LastPageUnique<T>(pages: seq<seq<T>>, k: nat)
    requires k >= 1 && !Full(pages, k)
    requires forall j :: 1 <= j < k ==> Full(pages, j)
    ensures LastPage(pages) == k
  {
  }

  lemma {:induction false} GatheredLength<T>(pages: seq<seq<T>>, n: nat)
    ensures |Gathered(pages, n)| == SumLengths(pages, n)
  {
    if n > 0 {
      GatheredLength(pages, n - 1);
    }
  }

  lemma {:induction false} GatheredPrefix<T>(pages: seq<seq<T>>, n: nat, m: nat)
    requires n <= m
    ensures Gathered(pages, n) <= Gathered(pages, m)
    decreases m
  {
    if n < m {
      GatheredPrefix(pages, n, m - 1);
    }
  }

  /** Pages 1 to `n` of a sequence depend only on its first `n` pages. */
  lemma {:induction false} GatheredOfPrefix<T>(pages: seq<seq<T>>, n: nat, extra: seq<seq<T>>)
    requires n <= |pages|
    ensures Gathered(pages[..n] + extra, n) == Gathered(pages, n)
  {
    if n > 0 {
      GatheredOfPrefix(pages, n - 1, [pages[n - 1]] + extra);
      assert pages[..n - 1] + ([pages[n - 1]] + extra) == pages[..n] + extra;
    }
  }

  /** `len(result)` of a fully collected listing is the sum of the lengths of its pages 1..k. */
  lemma CollectedLength<T>(pages: seq<seq<T>>)
    ensures |Collected(pages)| == SumLengths(pages, LastPage(pages))
  {
    GatheredLength(pages, LastPage(pages));
  }

  /**
   * Nothing the endpoint would answer after the first short page is ever
   * requested: replacing those pages changes nothing.
   */
  lemma CollectedIgnoresLaterPages<T>(pages: seq<seq<T>>, extra: seq<seq<T>>)
    requires LastPage(pages) <= |pages|
    ensures Collected(pages[..LastPage(pages)] + extra) == Collected(pages)
  {
    var k := LastPage(pages);
    var pages' := pages[..k] + extra;
    forall j | 1 <= j <= k
      ensures Page(pages', j) == Page(pages, j) && (Full(pages', j) <==> Full(pages, j))
    {
    }
    LastPageUnique(pages', k);
    GatheredOfPrefix(pages, k, extra);
  }

  lemma {:induction false} GatheredAll<T>(pages: seq<seq<T>>, n: nat)
    requires n <= |pages|
    ensures Gathered(pages, n) == Flatten(pages[..n])
  {
    if n > 0 {
      GatheredAll(pages, n - 1);
      assert pages[..n][..n - 1] == pages[..n - 1];
    }
  }

  /**
   * For an endpoint that behaves as documented (every page but the last is
   * full, the last one is short) the script receives every entry, in order.
   */
  lemma CollectedWellFormed<T>(pages: seq<seq<T>>)
    requires pages != []
    requires forall i :: 0 <= i < |pages| - 1 ==> |pages[i]| >= PerPage
    requires |pages[|pages| - 1]| < PerPage
    ensures Collected(pages) == Flatten(pages)
  {
    forall j | 1 <= j < |pages|
      ensures Full(pages, j)
    {
    }
    LastPageUnique(pages, |pages|);
    GatheredAll(pages, |pages|);
    assert pages[..|pages|] == pages;
  }
}
