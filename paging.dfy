/** The page loop's bookkeeping, independent of what a page holds: the
    outcomes of pages 1..n in order, the rows they add up to, and how many
    of them are requested before the first failure stops the loop. */
module Paging {
  import opened Wrappers
  import opened Errors

  /** The rows of pages 1..|pages|, page after page; the first page that
      fails ends the collection with its error. */
  function Concat<T>(pages: seq<Result<seq<T>, Error>>): Result<seq<T>, Error>
    decreases |pages|
  {
    if pages == [] then Ok([])
    else
      match Concat(pages[..|pages| - 1])
      case Err(e) => Err(e)
      case Ok(rows) =>
        match pages[|pages| - 1]
        case Err(e) => Err(e)
        case Ok(page) => Ok(rows + page)
  }

  /** How many of the pages are requested: all of them, unless one fails,
      and then none after it. */
  function Reached<T>(pages: seq<Result<seq<T>, Error>>): nat
    decreases |pages|
  {
    if pages == [] then 0
    else if Concat(pages[..|pages| - 1]).Err? then Reached(pages[..|pages| - 1])
    else |pages|
  }

  /** One more page: its rows follow the rows so far, or its error ends
      the collection, and it is requested exactly when the pages before it
      all succeeded. */
  lemma ConcatNext<T>(pages: seq<Result<seq<T>, Error>>, k: nat)
    requires k < |pages|
    requires Concat(pages[..k]).Ok?
    ensures pages[k].Err? ==> Concat(pages[..k + 1]) == Err(pages[k].error)
    ensures pages[k].Ok? ==> Concat(pages[..k + 1]) == Ok(Concat(pages[..k]).value + pages[k].value)
    ensures Reached(pages[..k + 1]) == k + 1
  {
    assert pages[..k + 1][..k] == pages[..k];
  }

  /** Once pages[..k] fail, every longer prefix fails the same way, and no
      later page is requested. */
  lemma {:induction false} ConcatStops<T>(pages: seq<Result<seq<T>, Error>>, k: nat, n: nat)
    requires k <= n <= |pages|
    requires Concat(pages[..k]).Err?
    ensures Concat(pages[..n]) == Concat(pages[..k])
    ensures Reached(pages[..n]) == Reached(pages[..k])
    decreases n - k
  {
    if k < n {
      assert pages[..k + 1][..k] == pages[..k];
      ConcatStops(pages, k + 1, n);
    }
  }

  /** The requested pages are a prefix of all pages: all of them when the
      collection succeeds; otherwise up to and including the first failing
      page, whose error is the collection's. */
  lemma {:induction false} StopsAtFailure<T>(pages: seq<Result<seq<T>, Error>>)
    ensures Reached(pages) <= |pages|
    ensures Concat(pages).Ok? ==> Reached(pages) == |pages|
    ensures Concat(pages).Err? ==>
              var m := Reached(pages);
              1 <= m && Concat(pages[..m - 1]).Ok? && pages[m - 1] == Concat(pages)
    decreases |pages|
  {
    if pages != [] {
      var init := pages[..|pages| - 1];
      StopsAtFailure(init);
      if Concat(init).Err? {
        var m := Reached(init);
        assert init[..m - 1] == pages[..m - 1];
      } else {
        assert pages[..|pages| - 1] == init;
      }
    }
  }

  /** Rows come page by page: the rows of a prefix of the pages are a
      prefix of the rows of all of them. */
  lemma {:induction false} InPageOrder<T>(pages: seq<Result<seq<T>, Error>>, k: nat)
    requires k <= |pages|
    requires Concat(pages).Ok?
    ensures Concat(pages[..k]).Ok?
    ensures Concat(pages[..k]).value <= Concat(pages).value
    decreases |pages| - k
  {
    if k < |pages| {
      var init := pages[..|pages| - 1];
      assert init[..k] == pages[..k];
      InPageOrder(init, k);
    } else {
      assert pages[..k] == pages;
    }
  }
}
