/** Paged listings of one bucket. `rows` is the snapshot of its live rows in the order of the index. */
module Listing {
  import opened Prelude
  import opened KeyOrder

  datatype Entry = Entry(key: Bytes, size: int, etag: string)

  function RowKey(row: Entry): Bytes {
    row.key
  }

  ghost predicate Sorted(rows: seq<Entry>) {
    Ascending(rows, RowKey)
  }

  /** The query's condition on a key; a cursor replaces the prefix's lower bound. */
  predicate Matches(after: Option<Bytes>, prefix: Option<Bytes>, key: Bytes) {
    && (match after
        case Some(a) => Less(a, key)
        case None => prefix.Some? ==> !Less(key, prefix.value))
    && (prefix.Some? ==> Below(key, Incremented(prefix.value)))
  }

  function Selected(rows: seq<Entry>, after: Option<Bytes>, prefix: Option<Bytes>): seq<Entry> {
    if rows == [] then []
    else Selected(rows[..|rows| - 1], after, prefix)
         + if Matches(after, prefix, rows[|rows| - 1].key) then [rows[|rows| - 1]] else []
  }

  datatype Page = Panic | Page(rows: seq<Entry>, truncated: bool)

  function FirstOf<T>(s: seq<T>, n: nat): seq<T> {
    s[..Min(n, |s|)]
  }

  predicate BadPrefix(prefix: Option<Bytes>) {
    prefix.Some? && Incremented(prefix.value).Some? && !Utf8(Incremented(prefix.value).value)
  }

  /** list_objects: one row more than the page is fetched to see whether there are more. */
  method ListObjects(rows: seq<Entry>, after: Option<Bytes>, prefix: Option<Bytes>, pageSize: nat) returns (r: Page)
    ensures r == Panic <==> BadPrefix(prefix)
    ensures r != Panic ==> r.rows == FirstOf(Selected(rows, after, prefix), pageSize)
    ensures r != Panic ==> (r.truncated <==> pageSize < |Selected(rows, after, prefix)|)
  {
    var upper := NoUpper;
    if prefix.Some? {
      upper := IncrementPrefix(prefix.value);
    }
    if upper.Panics? {
      return Panic;
    }
    var limit := pageSize + 1;
    var found: seq<Entry> := [];
    var i := 0;
    while i < |rows| && |found| < limit
      invariant 0 <= i <= |rows| && |found| <= limit
      invariant found == Selected(rows[..i], after, prefix)
    {
      var key := rows[i].key;
      assert rows[..i + 1][..i] == rows[..i];
      var aboveLower := if after.Some? then Less(after.value, key) else prefix.Some? ==> !Less(key, prefix.value);
      if aboveLower && (upper.Upper? ==> Less(key, upper.bound)) {
        found := found + [rows[i]];
      }
      i := i + 1;
    }
    SelectedGrows(rows, after, prefix, i);
    assert i == |rows| ==> rows[..i] == rows;
    r := Page(FirstOf(found, pageSize), pageSize < |found|);
  }

  lemma {:induction false} SelectedGrows(rows: seq<Entry>, after: Option<Bytes>, prefix: Option<Bytes>, i: nat)
    requires i <= |rows|
    ensures Selected(rows[..i], after, prefix) <= Selected(rows, after, prefix)
  {
    if i < |rows| {
      SelectedGrows(rows[..|rows| - 1], after, prefix, i);
      assert rows[..|rows| - 1][..i] == rows[..i];
    } else {
      assert rows[..i] == rows;
    }
  }

  lemma {:induction false} SelectedRows(rows: seq<Entry>, after: Option<Bytes>, prefix: Option<Bytes>)
    requires Sorted(rows)
    ensures Sorted(Selected(rows, after, prefix))
    ensures forall e :: e in Selected(rows, after, prefix) <==> e in rows && Matches(after, prefix, e.key)
  {
    if rows != [] {
      var init, last := rows[..|rows| - 1], rows[|rows| - 1];
      SelectedRows(init, after, prefix);
      assert rows == init + [last];
      forall i | 0 <= i < |Selected(init, after, prefix)| ensures Less(Selected(init, after, prefix)[i].key, last.key) {
        assert Selected(init, after, prefix)[i] in init;
      }
    }
  }

  // ── what a page shows ─────────────────────────────────────────────────────

  /** Without a cursor, the rows selected are exactly those whose key has the prefix. */
  lemma PrefixSelects(rows: seq<Entry>, prefix: Bytes)
    requires Sorted(rows)
    ensures forall e :: e in Selected(rows, None, Some(prefix)) <==> e in rows && HasPrefix(e.key, prefix)
  {
    SelectedRows(rows, None, Some(prefix));
    forall e: Entry ensures Matches(None, Some(prefix), e.key) <==> HasPrefix(e.key, prefix) {
      PrefixRange(e.key, prefix);
    }
  }

  /** A cursor drops the prefix's lower bound. Whatever the bucket holds, only keys with the prefix are
      shown if and only if the prefix is not above the first key after the cursor. */
  lemma CursorKeepsPrefixIff(cursor: Bytes, prefix: Bytes)
    ensures (forall key :: Matches(Some(cursor), Some(prefix), key) ==> HasPrefix(key, prefix)) <==>
            !Less(cursor + [0], prefix)
  {
    var next := cursor + [0];
    Successor(cursor, next);
    Irreflexive(next);
    if Less(next, prefix) {
      PrefixRange(prefix, prefix);
      BelowToo(next, prefix, Incremented(prefix));
      assert Matches(Some(cursor), Some(prefix), next);
      PrefixRange(next, prefix);
    } else {
      forall key | Matches(Some(cursor), Some(prefix), key) ensures HasPrefix(key, prefix) {
        Successor(cursor, key);
        if Less(key, prefix) {
          Total(next, key);
          if Less(next, key) {
            Transitive(next, key, prefix);
          }
        }
        PrefixRange(key, prefix);
      }
    }
  }

  lemma BelowToo(a: Bytes, b: Bytes, bound: Option<Bytes>)
    requires Less(a, b) && Below(b, bound)
    ensures Below(a, bound)
  {
    if bound.Some? {
      Transitive(a, b, bound.value);
    }
  }

  /** Continuing after the n-th selected row selects exactly the rows after it. */
  lemma NextPage(rows: seq<Entry>, after: Option<Bytes>, prefix: Option<Bytes>, n: nat)
    requires Sorted(rows) && 0 < n <= |Selected(rows, after, prefix)|
    ensures Selected(rows, Some(Selected(rows, after, prefix)[n - 1].key), prefix) == Selected(rows, after, prefix)[n..]
  {
    var all := Selected(rows, after, prefix);
    var last := all[n - 1];
    SelectedRows(rows, after, prefix);
    SelectedRows(rows, Some(last.key), prefix);
    assert last in all;
    forall e ensures e in Selected(rows, Some(last.key), prefix) <==> e in all[n..] {
      if e in rows && Less(last.key, e.key) {
        StillAbove(after, prefix, last.key, e.key);
      }
      PositionAfter(all, n, e);
    }
    AscendingEqual(Selected(rows, Some(last.key), prefix), all[n..], RowKey);
  }

  lemma StillAbove(after: Option<Bytes>, prefix: Option<Bytes>, key: Bytes, later: Bytes)
    requires Matches(after, prefix, key) && Less(key, later)
    ensures Matches(after, prefix, later) <==> Matches(Some(key), prefix, later)
  {
    if after.Some? {
      Transitive(after.value, key, later);
    } else if prefix.Some? && Less(later, prefix.value) {
      Transitive(key, later, prefix.value);
    }
  }

  lemma PositionAfter(all: seq<Entry>, n: nat, e: Entry)
    requires Sorted(all) && 0 < n <= |all|
    ensures e in all[n..] <==> e in all && Less(all[n - 1].key, e.key)
  {
    if e in all {
      var i :| 0 <= i < |all| && all[i] == e;
      if i < n - 1 {
        Asymmetric(all[i].key, all[n - 1].key);
      } else if i == n - 1 {
        Irreflexive(e.key);
      }
      if n <= i {
        assert all[n..][i - n] == e;
      }
    }
    if e in all[n..] {
      var i :| 0 <= i < |all[n..]| && all[n..][i] == e;
      assert all[n + i] == e;
    }
  }

  /** Paging to the end, each page continuing after the last key shown: every row under the prefix once,
      in order, and the paging ends. */
  method ListAll(rows: seq<Entry>, prefix: Option<Bytes>, pageSize: nat) returns (shown: seq<Entry>)
    requires Sorted(rows) && 0 < pageSize && !BadPrefix(prefix)
    ensures shown == Selected(rows, None, prefix)
  {
    shown := [];
    var cursor: Option<Bytes> := None;
    var more := true;
    while more
      invariant |shown| <= |Selected(rows, None, prefix)|
      invariant shown + (if more then Selected(rows, cursor, prefix) else []) == Selected(rows, None, prefix)
      decreases more, |Selected(rows, cursor, prefix)|
    {
      ghost var left := Selected(rows, cursor, prefix);
      var page := ListObjects(rows, cursor, prefix, pageSize);
      ghost var n := |page.rows|;
      assert left == page.rows + left[n..];
      shown := shown + page.rows;
      more := page.truncated;
      if more {
        NextPage(rows, cursor, prefix, n);
        cursor := Some(page.rows[|page.rows| - 1].key);
      }
    }
  }

  const GATHER_PAGE := 1000
  const SCAN_CAP := 100_000

  /** The scan behind a delimiter listing: pages of a thousand, up to a hundred pages. */
  method Gather(rows: seq<Entry>, after: Option<Bytes>, prefix: Option<Bytes>) returns (gathered: seq<Entry>)
    requires Sorted(rows) && !BadPrefix(prefix)
    ensures gathered == FirstOf(Selected(rows, after, prefix), SCAN_CAP)
  {
    gathered := [];
    var cursor := after;
    ghost var all := Selected(rows, after, prefix);
    var scanning := true;
    while scanning
      invariant |gathered| <= |all| && gathered == all[..|gathered|]
      invariant scanning ==> Selected(rows, cursor, prefix) == all[|gathered|..]
      invariant scanning ==> |gathered| % GATHER_PAGE == 0 && |gathered| < SCAN_CAP
      invariant !scanning ==> |gathered| == Min(SCAN_CAP, |all|)
      decreases scanning, |all| - |gathered|
    {
      var page := ListObjects(rows, cursor, prefix, GATHER_PAGE);
      ghost var before, n := |gathered|, |page.rows|;
      assert all[before..][..n] == all[before..before + n];
      gathered := gathered + page.rows;
      if page.rows != [] && page.truncated && |gathered| < SCAN_CAP {
        NextPage(rows, cursor, prefix, n);
        assert all[before..][n..] == all[before + n..];
        cursor := Some(page.rows[|page.rows| - 1].key);
      } else {
        scanning := false;
      }
    }
  }
}
