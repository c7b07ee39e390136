/** Server-side pagination: the query builder counts the ordered matches, then
    applies `offset(skip).limit(limit)`, which keeps the matches at positions
    skip, skip+1, … up to limit of them. */
module Paging {

  function Min(a: int, b: int): int { if a <= b then a else b }

  /** The rows `offset(skip).limit(limit)` keeps of the ordered matches. */
  function PageOf<T>(ordered: seq<T>, skip: nat, limit: nat): (page: seq<T>)
    ensures |page| <= limit
    ensures |page| == if skip >= |ordered| then 0 else Min(limit, |ordered| - skip)
    ensures forall i :: 0 <= i < |page| ==> page[i] == ordered[skip + i]
  {
    if skip >= |ordered| then [] else ordered[skip..Min(skip + limit, |ordered|)]
  }

  /** Pages 0 .. n-1 of size pageSize, laid end to end. */
  function FirstPages<T>(ordered: seq<T>, pageSize: nat, n: nat): seq<T>
  {
    if n == 0 then [] else FirstPages(ordered, pageSize, n - 1) + PageOf(ordered, (n - 1) * pageSize, pageSize)
  }

  /** One more page extends the prefix read so far by the page's rows. */
  lemma PrefixThenPage<T>(ordered: seq<T>, start: nat, pageSize: nat)
    ensures ordered[..Min(start, |ordered|)] + PageOf(ordered, start, pageSize)
            == ordered[..Min(start + pageSize, |ordered|)]
  {
    if start < |ordered| {
      assert ordered[..start] + ordered[start..Min(start + pageSize, |ordered|)]
          == ordered[..Min(start + pageSize, |ordered|)];
    }
  }

  lemma NextPageStart(n: nat, pageSize: nat)
    requires n > 0
    ensures n * pageSize == (n - 1) * pageSize + pageSize
  {
  }

  /** Walking the pages in order visits the ordered matches exactly once each,
      in order, with nothing skipped and nothing repeated. */
  lemma {:induction false} FirstPagesArePrefix<T>(ordered: seq<T>, pageSize: nat, n: nat)
    ensures FirstPages(ordered, pageSize, n) == ordered[..Min(n * pageSize, |ordered|)]
  {
    if n > 0 {
      FirstPagesArePrefix(ordered, pageSize, n - 1);
      NextPageStart(n, pageSize);
      PrefixThenPage(ordered, (n - 1) * pageSize, pageSize);
    } else {
      assert n * pageSize == 0;
    }
  }

  /** Enough pages cover every match: the last page that starts inside the
      matches ends with the last of them. */
  lemma AllPagesCoverMatches<T>(ordered: seq<T>, pageSize: nat, n: nat)
    requires n * pageSize >= |ordered|
    ensures FirstPages(ordered, pageSize, n) == ordered
  {
    FirstPagesArePrefix(ordered, pageSize, n);
  }
}
