/** Offset/limit paging and the `next`/`previous` cursor rule that both
    listing routes write out inline. */
module Pagination {
  import opened Wrappers
  import opened Text
  import opened Models

  function Min(a: int, b: int): int { if a <= b then a else b }

  /** `$skip: n`, and `cursor.skip(n)`: drop the first `n` documents. */
  function Skip<T>(s: seq<T>, n: nat): (r: seq<T>)
    ensures |r| == if n <= |s| then |s| - n else 0
    ensures forall k :: 0 <= k < |r| ==> r[k] == s[n + k]
  {
    if n <= |s| then s[n..] else []
  }

  /** `$limit: n`, and `cursor.limit(n)`: keep the first `n` documents. For
      `cursor.limit`, 0 means no limit at all; both routes only pass `n >= 1`. */
  function Limit<T>(s: seq<T>, n: nat): (r: seq<T>)
    ensures n == 0 ==> r == s
    ensures n > 0 ==> |r| == Min(n, |s|)
    ensures r == s[..|r|]
  {
    if n == 0 || |s| <= n then s else s[..n]
  }

  /** The page the routes fetch: skip `offset`, then take `limit`. */
  function Page<T>(s: seq<T>, offset: nat, limit: nat): seq<T> {
    Limit(Skip(s, offset), limit)
  }

  /** The page is the `[offset, offset + limit)` window of `s`, cut to its end. */
  lemma PageIsWindow<T>(s: seq<T>, offset: nat, limit: nat)
    requires limit >= 1
    ensures Page(s, offset, limit) == s[Min(offset, |s|)..Min(offset + limit, |s|)]
    ensures |Page(s, offset, limit)| <= limit
  {
    var p := Page(s, offset, limit);
    assert |p| == Min(offset + limit, |s|) - Min(offset, |s|);
    forall k | 0 <= k < |p| ensures p[k] == s[Min(offset, |s|)..Min(offset + limit, |s|)][k] {
    }
  }

  /** The pages at offsets 0, limit, 2*limit, ..., (n-1)*limit, one after the other. */
  function Pages<T>(s: seq<T>, limit: nat, n: nat): seq<T> {
    if n == 0 then [] else Pages(s, limit, n - 1) + Page(s, (n - 1) * limit, limit)
  }

  /** Walking the pages from offset 0 yields a prefix of `s`, each element once, in order. */
  lemma {:induction false} PagesArePrefix<T>(s: seq<T>, limit: nat, n: nat)
    requires limit >= 1
    ensures Pages(s, limit, n) == s[..Min(n * limit, |s|)]
  {
    if n > 0 {
      var m := (n - 1) * limit;
      NextOffset(n, limit);
      PagesArePrefix(s, limit, n - 1);
      PageIsWindow(s, m, limit);
      AppendWindow(s, Min(m, |s|), Min(m + limit, |s|));
    }
  }

  lemma NextOffset(n: nat, limit: nat)
    requires n >= 1
    ensures (n - 1) * limit + limit == n * limit
  {
  }

  lemma AppendWindow<T>(s: seq<T>, a: nat, b: nat)
    requires a <= b <= |s|
    ensures s[..a] + s[a..b] == s[..b]
  {
  }

  /** Once a page comes back with fewer than `limit` entries, the pages read so
      far are the whole of `s`. */
  lemma ShortPageEndsListing<T>(s: seq<T>, limit: nat, n: nat)
    requires limit >= 1 && n >= 1
    requires |Page(s, (n - 1) * limit, limit)| < limit
    ensures Pages(s, limit, n) == s
  {
    PagesArePrefix(s, limit, n);
    PageIsWindow(s, (n - 1) * limit, limit);
    NextOffset(n, limit);
  }

  /** The cursor rule: `next` is `str(offset + limit)` when the page came back
      full, `previous` is `str(offset - limit)` whenever `offset > 0`, and the
      request's `limit` and `offset` are echoed. */
  function Cursors(offset: int, limit: int, returned: nat): (p: Pagination)
    ensures p.limit == limit && p.offset == offset
    ensures p.next.Some? <==> returned == limit
    ensures p.next.Some? ==> ParseInt(p.next.value) == Some(offset + limit)
    ensures p.previous.Some? <==> offset > 0
    ensures p.previous.Some? ==> ParseInt(p.previous.value) == Some(offset - limit)
  {
    ParseIntToString(offset + limit);
    ParseIntToString(offset - limit);
    Pagination(
      if returned == limit then Some(IntToString(offset + limit)) else None,
      limit,
      offset,
      if offset > 0 then Some(IntToString(offset - limit)) else None)
  }

  /** The boundary quirk: an offset strictly between 0 and the limit makes
      `previous` point before the start, e.g. "-5" for offset 5 and limit 10. */
  lemma PreviousMayBeNegative(offset: int, limit: int, returned: nat)
    requires 0 < offset < limit
    ensures Cursors(offset, limit, returned).previous.Some?
    ensures ParseInt(Cursors(offset, limit, returned).previous.value).value < 0
    ensures Cursors(5, 10, returned).previous == Some("-5")
    ensures Cursors(0, 10, returned).previous == None
  {
    assert IntToString(-5) == "-" + NatToString(5) == "-5";
  }

  /** A full last page still yields a `next` cursor, and following it reads an empty page. */
  lemma FullLastPageHasNext<T>(s: seq<T>, offset: nat, limit: nat)
    requires limit >= 1 && offset + limit == |s|
    ensures Cursors(offset, limit, |Page(s, offset, limit)|).next == Some(IntToString(offset + limit))
    ensures Page(s, offset + limit, limit) == []
  {
    PageIsWindow(s, offset, limit);
  }
}
