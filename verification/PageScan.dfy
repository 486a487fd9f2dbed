/** Where reading a list page by page stops: the arithmetic shared by the paging loops. */
module PageScan {

  /** Where a scan by whole pages from position at ends, when it goes on while below limit and the list. */
  function CleanEnd(n: nat, at: nat, limit: int, page: nat): (e: nat)
    requires page > 0 && at <= n
    ensures at <= e <= n
    decreases n - at
  {
    if at < limit && at < n then CleanEnd(n, PageEnd(n, at, page), limit, page) else at
  }

  function PageEnd(n: nat, at: nat, page: nat): (e: nat)
    requires at <= n
    ensures at <= e <= n && e <= at + page
  {
    if at + page < n then at + page else n
  }

  /** The number of pages that reach limit. */
  function PagesFor(limit: int, page: nat): nat
    requires page > 0
  {
    if limit <= 0 then 0 else (limit + page - 1) / page
  }

  lemma DivideBounds(x: int, d: int)
    requires d > 0
    ensures x / d * d <= x < x / d * d + d
  {
  }

  lemma ProductsRise(a: int, b: int, c: int)
    requires a <= b && c >= 0
    ensures a * c <= b * c
  {
  }

  lemma NextPage(k: int, page: int)
    ensures (k + 1) * page == k * page + page
  {
  }

  lemma PagesReach(limit: int, page: nat, k: nat)
    requires page > 0
    ensures k * page >= limit <==> k >= PagesFor(limit, page)
  {
    var p := PagesFor(limit, page);
    if limit <= 0 {
      ProductsRise(0, k, page);
    } else {
      DivideBounds(limit + page - 1, page);
      NextPage(p - 1, page);
      if k >= p {
        ProductsRise(p, k, page);
      } else {
        ProductsRise(k, p - 1, page);
      }
    }
  }

  /** A scan of a list of n by pages ends at the list's end, or after the first pages that reach limit. */
  lemma {:induction false} CleanEndIs(n: nat, k: nat, limit: int, page: nat)
    requires page > 0 && k * page <= n && k <= PagesFor(limit, page)
    ensures CleanEnd(n, k * page, limit, page)
         == var all := PagesFor(limit, page) * page; if all < n then all else n
    decreases n - k * page
  {
    var p := PagesFor(limit, page);
    PagesReach(limit, page, k);
    NextPage(k, page);
    if k * page < limit && k * page < n {
      ProductsRise(k + 1, p, page);
      if (k + 1) * page <= n {
        CleanEndIs(n, k + 1, limit, page);
      }
    } else {
      ProductsRise(k, p, page);
    }
  }
}
