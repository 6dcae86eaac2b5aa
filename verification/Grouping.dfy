/** Listings with a delimiter: keys that go on past the next delimiter collapse into common prefixes. */
module Grouping {
  import opened Prelude
  import opened KeyOrder
  import opened Listing

  // ── common prefixes ───────────────────────────────────────────────────────

  predicate OccursAt(s: Bytes, d: Bytes, i: int) {
    0 <= i <= i + |d| <= |s| && s[i..i + |d|] == d
  }

  /** Position of the first occurrence of d in s. */
  function Find(s: Bytes, d: Bytes): (r: Option<nat>)
    ensures r.Some? ==> OccursAt(s, d, r.value) && forall i :: OccursAt(s, d, i) ==> r.value <= i
    ensures r.None? ==> forall i :: !OccursAt(s, d, i)
  {
    FindFrom(s, d, 0)
  }

  function FindFrom(s: Bytes, d: Bytes, at: nat): (r: Option<nat>)
    ensures r.Some? ==> OccursAt(s, d, r.value) && forall i :: at <= i && OccursAt(s, d, i) ==> r.value <= i
    ensures r.None? ==> forall i :: at <= i ==> !OccursAt(s, d, i)
    decreases |s| - at
  {
    if |s| < at + |d| then None
    else if OccursAt(s, d, at) then Some(at)
    else FindFrom(s, d, at + 1)
  }

  lemma SharedOccurrence(s: Bytes, t: Bytes, d: Bytes, n: nat, i: int)
    requires n <= |s| && n <= |t| && s[..n] == t[..n] && i + |d| <= n
    ensures OccursAt(s, d, i) <==> OccursAt(t, d, i)
  {
    if 0 <= i {
      assert s[i..i + |d|] == s[..n][i..i + |d|];
      assert t[i..i + |d|] == t[..n][i..i + |d|];
    }
  }

  /** The common prefix a key collapses into, if it does. */
  function CommonOf(key: Bytes, prefix: Bytes, d: Bytes): Option<Bytes> {
    if !HasPrefix(key, prefix) then None
    else var rest := key[|prefix|..];
         var at := Find(rest, d);
         if at.None? then None else Some(prefix + rest[..at.value] + d)
  }

  ghost predicate FirstAt(s: Bytes, d: Bytes, i: int) {
    OccursAt(s, d, i) && forall j :: OccursAt(s, d, j) ==> i <= j
  }

  /** The key starts with the prefix and the delimiter occurs after it, first at i. */
  ghost predicate GoesOn(key: Bytes, prefix: Bytes, d: Bytes, i: int) {
    HasPrefix(key, prefix) && FirstAt(key[|prefix|..], d, i)
  }

  /** The delimiter occurs somewhere after the prefix. */
  predicate Delimited(key: Bytes, prefix: Bytes, d: Bytes) {
    HasPrefix(key, prefix) && Find(key[|prefix|..], d).Some?
  }

  lemma DelimitedIff(key: Bytes, prefix: Bytes, d: Bytes)
    ensures Delimited(key, prefix, d) <==> HasPrefix(key, prefix) && exists i :: OccursAt(key[|prefix|..], d, i)
  {
  }

  /** A key collapses exactly when it starts with the prefix and the delimiter occurs after it, and then into itself
      up to the end of the first occurrence. */
  lemma CollapsesIff(key: Bytes, prefix: Bytes, d: Bytes, c: Bytes)
    ensures CommonOf(key, prefix, d) == Some(c) <==>
            exists i :: GoesOn(key, prefix, d, i) && c == key[..|prefix| + i + |d|]
    ensures CommonOf(key, prefix, d).None? <==> !Delimited(key, prefix, d)
  {
    if HasPrefix(key, prefix) {
      var rest := key[|prefix|..];
      var at := Find(rest, d);
      if at.Some? {
        assert FirstAt(rest, d, at.value) && GoesOn(key, prefix, d, at.value);
        assert key == prefix + rest && rest[..at.value + |d|] == rest[..at.value] + d;
        assert key[..|prefix| + at.value + |d|] == prefix + rest[..at.value] + d;
      }
    }
  }

  lemma CommonIsAPrefix(key: Bytes, prefix: Bytes, d: Bytes)
    requires CommonOf(key, prefix, d).Some?
    ensures HasPrefix(key, CommonOf(key, prefix, d).value)
    ensures HasPrefix(CommonOf(key, prefix, d).value, prefix)
  {
    var rest := key[|prefix|..];
    var at := Find(rest, d).value;
    assert key == prefix + rest;
    assert rest[..at + |d|] == rest[..at] + d;
    assert key[..|prefix| + at + |d|] == prefix + rest[..at + |d|];
  }

  lemma SharedFind(s: Bytes, t: Bytes, d: Bytes)
    requires Find(s, d).Some?
    requires var n := Find(s, d).value + |d|; n <= |t| && t[..n] == s[..n]
    ensures Find(t, d) == Find(s, d)
  {
    var n := Find(s, d).value + |d|;
    SharedOccurrence(s, t, d, n, Find(s, d).value);
    SharedOccurrence(s, t, d, n, Find(t, d).value);
  }

  /** Every key that starts with a common prefix of some key collapses into exactly that one. */
  lemma CommonCaptures(other: Bytes, key: Bytes, prefix: Bytes, d: Bytes)
    requires CommonOf(other, prefix, d).Some? && HasPrefix(key, CommonOf(other, prefix, d).value)
    ensures CommonOf(key, prefix, d) == CommonOf(other, prefix, d)
  {
    var c := CommonOf(other, prefix, d).value;
    var was, rest := other[|prefix|..], key[|prefix|..];
    var n := Find(was, d).value + |d|;
    CommonIsAPrefix(other, prefix, d);
    assert key[..|prefix|] == key[..|c|][..|prefix|] == prefix;
    assert rest[..n] == key[..|c|][|prefix|..];
    assert was[..n] == other[..|c|][|prefix|..];
    SharedFind(was, rest, d);
    assert rest[..n - |d|] == rest[..n][..n - |d|] && was[..n - |d|] == was[..n][..n - |d|];
  }

  /** Two different common prefixes are never nested. */
  lemma CommonNotNested(a: Bytes, b: Bytes, prefix: Bytes, d: Bytes)
    requires CommonOf(a, prefix, d).Some? && CommonOf(b, prefix, d).Some?
        && CommonOf(a, prefix, d) != CommonOf(b, prefix, d)
    ensures !Nested(CommonOf(a, prefix, d).value, CommonOf(b, prefix, d).value)
  {
    var x, y := CommonOf(a, prefix, d).value, CommonOf(b, prefix, d).value;
    CommonIsAPrefix(a, prefix, d);
    CommonIsAPrefix(b, prefix, d);
    if HasPrefix(x, y) {
      assert a[..|y|] == a[..|x|][..|y|] == y;
      CommonCaptures(b, a, prefix, d);
    }
    if HasPrefix(y, x) {
      assert b[..|x|] == b[..|y|][..|x|] == x;
      CommonCaptures(a, b, prefix, d);
    }
  }

  /** Common prefixes come in the order of the keys they stand for. */
  lemma CommonInOrder(a: Bytes, b: Bytes, prefix: Bytes, d: Bytes)
    requires CommonOf(a, prefix, d).Some? && CommonOf(b, prefix, d).Some? && Less(a, b)
    ensures CommonOf(a, prefix, d) == CommonOf(b, prefix, d)
        || Less(CommonOf(a, prefix, d).value, CommonOf(b, prefix, d).value)
  {
    if CommonOf(a, prefix, d) != CommonOf(b, prefix, d) {
      CommonNotNested(a, b, prefix, d);
      CommonIsAPrefix(a, prefix, d);
      CommonIsAPrefix(b, prefix, d);
      ExtensionsKeepOrder(CommonOf(a, prefix, d).value, CommonOf(b, prefix, d).value, a, b);
    }
  }

  // ── grouping a scan ───────────────────────────────────────────────────────

  /** The rows that do not collapse. */
  function Contents(rows: seq<Entry>, prefix: Bytes, d: Bytes): seq<Entry> {
    if rows == [] then []
    else Contents(rows[..|rows| - 1], prefix, d)
         + if CommonOf(rows[|rows| - 1].key, prefix, d).None? then [rows[|rows| - 1]] else []
  }

  /** The common prefixes, each where it first appears. */
  function Commons(rows: seq<Entry>, prefix: Bytes, d: Bytes): seq<Bytes> {
    if rows == [] then []
    else var init := Commons(rows[..|rows| - 1], prefix, d);
         var c := CommonOf(rows[|rows| - 1].key, prefix, d);
         if c.None? || c.value in init then init else init + [c.value]
  }

  /** group_by_delimiter, the membership scan being skipped when the last common prefix is the one found. */
  method GroupByDelimiter(rows: seq<Entry>, prefix: Bytes, d: Bytes) returns (contents: seq<Entry>, common: seq<Bytes>)
    ensures contents == Contents(rows, prefix, d) && common == Commons(rows, prefix, d)
    ensures forall e :: e in contents <==> e in rows && !Delimited(e.key, prefix, d)
    ensures forall c :: c in common <==> exists e, i :: StandsFor(e, i, rows, prefix, d, c)
  {
    contents, common := [], [];
    var i := 0;
    while i < |rows|
      invariant 0 <= i <= |rows|
      invariant contents == Contents(rows[..i], prefix, d) && common == Commons(rows[..i], prefix, d)
    {
      var key := rows[i].key;
      assert rows[..i + 1][..i] == rows[..i];
      if !HasPrefix(key, prefix) {
        contents := contents + [rows[i]];
      } else {
        var rest := key[|prefix|..];
        match Find(rest, d)
        case Some(at) =>
          var c := prefix + rest[..at] + d;
          if (common == [] || common[|common| - 1] != c) && c !in common {
            common := common + [c];
          }
        case None => contents := contents + [rows[i]];
      }
      i := i + 1;
    }
    assert rows[..i] == rows;
    Grouped(rows, prefix, d);
  }

  /** What is kept and what collapses, by occurrences of the delimiter alone. */
  lemma Grouped(rows: seq<Entry>, prefix: Bytes, d: Bytes)
    ensures forall e :: e in Contents(rows, prefix, d) <==> e in rows && !Delimited(e.key, prefix, d)
    ensures forall c :: c in Commons(rows, prefix, d) <==> exists e, i :: StandsFor(e, i, rows, prefix, d, c)
  {
    ContentsMembers(rows, prefix, d);
    CommonsStandForRows(rows, prefix, d);
    forall e: Entry ensures CommonOf(e.key, prefix, d).None? <==> !Delimited(e.key, prefix, d) {
      CollapsesIff(e.key, prefix, d, []);
    }
    forall c ensures c in Commons(rows, prefix, d) <==> exists e, i :: StandsFor(e, i, rows, prefix, d, c) {
      if c in Commons(rows, prefix, d) {
        var e :| e in rows && CommonOf(e.key, prefix, d) == Some(c);
        CollapsesIff(e.key, prefix, d, c);
        var i :| GoesOn(e.key, prefix, d, i) && c == e.key[..|prefix| + i + |d|];
        assert StandsFor(e, i, rows, prefix, d, c);
      }
      if e, i :| StandsFor(e, i, rows, prefix, d, c) {
        CollapsesIff(e.key, prefix, d, c);
      }
    }
  }

  lemma {:induction false} ContentsMembers(rows: seq<Entry>, prefix: Bytes, d: Bytes)
    ensures forall e :: e in Contents(rows, prefix, d) <==> e in rows && CommonOf(e.key, prefix, d).None?
  {
    if rows != [] {
      ContentsMembers(rows[..|rows| - 1], prefix, d);
      assert rows == rows[..|rows| - 1] + [rows[|rows| - 1]];
    }
  }

  function Itself(key: Bytes): Bytes {
    key
  }

  lemma {:induction false} ContentsRows(rows: seq<Entry>, prefix: Bytes, d: Bytes)
    requires Sorted(rows)
    ensures Sorted(Contents(rows, prefix, d))
    ensures forall e :: e in Contents(rows, prefix, d) <==> e in rows && CommonOf(e.key, prefix, d).None?
  {
    if rows != [] {
      var init, last := rows[..|rows| - 1], rows[|rows| - 1];
      ContentsRows(init, prefix, d);
      assert rows == init + [last];
      forall i | 0 <= i < |Contents(init, prefix, d)| ensures Less(Contents(init, prefix, d)[i].key, last.key) {
        assert Contents(init, prefix, d)[i] in init;
      }
    }
  }

  /** Every common prefix stands for some row, and every collapsing row has its common prefix listed. */
  lemma {:induction false} CommonsStandForRows(rows: seq<Entry>, prefix: Bytes, d: Bytes)
    ensures forall c ::
              c in Commons(rows, prefix, d) <==> exists e :: e in rows && CommonOf(e.key, prefix, d) == Some(c)
  {
    if rows != [] {
      var init, last := rows[..|rows| - 1], rows[|rows| - 1];
      CommonsStandForRows(init, prefix, d);
      assert rows == init + [last];
    }
  }

  /** For sorted rows the common prefixes come out strictly sorted, so comparing with the last one alone
      removes every duplicate. */
  lemma {:induction false} CommonsSorted(rows: seq<Entry>, prefix: Bytes, d: Bytes)
    requires Sorted(rows)
    ensures Ascending(Commons(rows, prefix, d), Itself)
    ensures rows != [] && CommonOf(rows[|rows| - 1].key, prefix, d).Some? ==>
              var last := CommonOf(rows[|rows| - 1].key, prefix, d).value;
              forall c :: c in Commons(rows, prefix, d) ==> c == last || Less(c, last)
  {
    if rows != [] {
      var init, last := rows[..|rows| - 1], rows[|rows| - 1];
      CommonsSorted(init, prefix, d);
      CommonsStandForRows(init, prefix, d);
      var found := CommonOf(last.key, prefix, d);
      if found.Some? {
        forall c | c in Commons(init, prefix, d) ensures c == found.value || Less(c, found.value) {
          var e :| e in init && CommonOf(e.key, prefix, d) == Some(c);
          CommonInOrder(e.key, last.key, prefix, d);
        }
      }
    }
  }

  /** The tail check alone deduplicates: in a sorted scan, a common prefix seen before is the last one. */
  lemma TailCheckSuffices(rows: seq<Entry>, prefix: Bytes, d: Bytes, next: Entry)
    requires Sorted(rows + [next]) && CommonOf(next.key, prefix, d).Some?
    requires CommonOf(next.key, prefix, d).value in Commons(rows, prefix, d)
    ensures var common := Commons(rows, prefix, d); common[|common| - 1] == CommonOf(next.key, prefix, d).value
  {
    var common, c := Commons(rows, prefix, d), CommonOf(next.key, prefix, d).value;
    var last := common[|common| - 1];
    assert (rows + [next])[..|rows|] == rows && Commons(rows + [next], prefix, d) == common;
    CommonsSorted(rows + [next], prefix, d);
    var i :| 0 <= i < |common| && common[i] == c;
    assert last in common;
    if i < |common| - 1 {
      Asymmetric(c, last);
    }
  }

  /** Each row is shown once: it is a content and under no listed common prefix, or it is no content and
      under exactly one. */
  lemma ShownOnce(rows: seq<Entry>, prefix: Bytes, d: Bytes, e: Entry)
    requires Sorted(rows) && e in rows
    ensures var c := CommonOf(e.key, prefix, d);
            && (c.None? <==> e in Contents(rows, prefix, d))
            && (forall p :: p in Commons(rows, prefix, d) && HasPrefix(e.key, p) <==> c == Some(p))
  {
    ContentsRows(rows, prefix, d);
    CommonsStandForRows(rows, prefix, d);
    var c := CommonOf(e.key, prefix, d);
    forall p ensures p in Commons(rows, prefix, d) && HasPrefix(e.key, p) <==> c == Some(p) {
      if p in Commons(rows, prefix, d) && HasPrefix(e.key, p) {
        var other :| other in rows && CommonOf(other.key, prefix, d) == Some(p);
        CommonCaptures(other.key, e.key, prefix, d);
      }
      if c == Some(p) {
        CommonIsAPrefix(e.key, prefix, d);
      }
    }
  }

  // ── one page of contents and common prefixes ──────────────────────────────

  datatype Item = Object(entry: Entry) | Collapsed(prefix: Bytes)

  function Name(item: Item): Bytes {
    match item
    case Object(entry) => entry.key
    case Collapsed(prefix) => prefix
  }

  function Items(contents: seq<Entry>, common: seq<Bytes>): seq<Item> {
    seq(|contents|, i requires 0 <= i < |contents| => Object(contents[i]))
    + seq(|common|, i requires 0 <= i < |common| => Collapsed(common[i]))
  }

  /** The stable sort by name, as insertion from the left. */
  function Inserted(items: seq<Item>, x: Item): seq<Item> {
    if items == [] then [x]
    else if Less(Name(x), Name(items[|items| - 1])) then Inserted(items[..|items| - 1], x) + [items[|items| - 1]]
    else items + [x]
  }

  function SortedItems(items: seq<Item>): seq<Item> {
    if items == [] then [] else Inserted(SortedItems(items[..|items| - 1]), items[|items| - 1])
  }

  lemma {:induction false} InsertedMembers(items: seq<Item>, x: Item)
    ensures |Inserted(items, x)| == |items| + 1
    ensures forall y :: y in Inserted(items, x) <==> y == x || y in items
  {
    if items != [] {
      assert items == items[..|items| - 1] + [items[|items| - 1]];
      InsertedMembers(items[..|items| - 1], x);
    }
  }

  lemma {:induction false} InsertedAscends(items: seq<Item>, x: Item)
    requires Ascending(items, Name) && forall y :: y in items ==> Name(y) != Name(x)
    ensures Ascending(Inserted(items, x), Name)
  {
    if items != [] {
      var init, last := items[..|items| - 1], items[|items| - 1];
      if Less(Name(x), Name(last)) {
        InsertedAscends(init, x);
        InsertedMembers(init, x);
        var rest := Inserted(init, x);
        forall i | 0 <= i < |rest| ensures Less(Name(rest[i]), Name(last)) {
          assert rest[i] in rest;
        }
      } else {
        Total(Name(x), Name(last));
        forall i | 0 <= i < |items| ensures Less(Name(items[i]), Name(x)) {
          if i < |items| - 1 {
            Transitive(Name(items[i]), Name(last), Name(x));
          }
        }
      }
    }
  }

  predicate DistinctNames(items: seq<Item>) {
    forall i, j :: 0 <= i < j < |items| ==> Name(items[i]) != Name(items[j])
  }

  lemma {:induction false} SortedItemsAre(items: seq<Item>)
    ensures |SortedItems(items)| == |items|
    ensures forall y :: y in SortedItems(items) <==> y in items
    ensures DistinctNames(items) ==> Ascending(SortedItems(items), Name)
  {
    if items != [] {
      var init, last := items[..|items| - 1], items[|items| - 1];
      assert items == init + [last];
      SortedItemsAre(init);
      InsertedMembers(SortedItems(init), last);
      if DistinctNames(items) {
        forall y | y in SortedItems(init) ensures Name(y) != Name(last) {
          var i :| 0 <= i < |init| && init[i] == y;
          assert items[i] == y;
        }
        InsertedAscends(SortedItems(init), last);
      }
    }
  }

  function ObjectsIn(items: seq<Item>): seq<Entry> {
    if items == [] then []
    else ObjectsIn(items[..|items| - 1]) + if items[|items| - 1].Object? then [items[|items| - 1].entry] else []
  }

  function CollapsedIn(items: seq<Item>): seq<Bytes> {
    if items == [] then []
    else CollapsedIn(items[..|items| - 1]) + if items[|items| - 1].Collapsed? then [items[|items| - 1].prefix] else []
  }

  method SplitItems(items: seq<Item>) returns (kept: seq<Entry>, keptCommon: seq<Bytes>)
    ensures kept == ObjectsIn(items) && keptCommon == CollapsedIn(items)
  {
    kept, keptCommon := [], [];
    var i := 0;
    while i < |items|
      invariant 0 <= i <= |items|
      invariant kept == ObjectsIn(items[..i]) && keptCommon == CollapsedIn(items[..i])
    {
      assert items[..i + 1][..i] == items[..i];
      if items[i].Object? {
        kept := kept + [items[i].entry];
      } else {
        keptCommon := keptCommon + [items[i].prefix];
      }
      i := i + 1;
    }
    assert items[..i] == items;
  }

  /** merge_and_truncate: the first maxKeys items of the sorted union, split again into objects and common
      prefixes. */
  method MergeAndTruncate(contents: seq<Entry>, common: seq<Bytes>, maxKeys: nat)
    returns (kept: seq<Entry>, keptCommon: seq<Bytes>, truncated: bool, next: Option<Bytes>)
    ensures var page := FirstOf(SortedItems(Items(contents, common)), maxKeys);
            && kept == ObjectsIn(page) && keptCommon == CollapsedIn(page)
            && (truncated <==> maxKeys < |contents| + |common|)
            && next == if truncated && page != [] then Some(Name(page[|page| - 1])) else None
  {
    var merged := SortedItems(Items(contents, common));
    SortedItemsAre(Items(contents, common));
    truncated := maxKeys < |merged|;
    merged := FirstOf(merged, maxKeys);
    next := if truncated && merged != [] then Some(Name(merged[|merged| - 1])) else None;
    kept, keptCommon := SplitItems(merged);
  }

  // ── the reference: one pass over the rows ─────────────────────────────────

  /** Contents and common prefixes in order of first appearance. */
  function Outline(rows: seq<Entry>, prefix: Bytes, d: Bytes): seq<Item> {
    if rows == [] then []
    else var init, last := rows[..|rows| - 1], rows[|rows| - 1];
         var c := CommonOf(last.key, prefix, d);
         Outline(init, prefix, d)
         + if c.None? then [Object(last)] else if Collapsed(c.value) in Outline(init, prefix, d) then []
             else [Collapsed(c.value)]
  }

  ghost predicate OutlineOf(items: seq<Item>, rows: seq<Entry>, prefix: Bytes, d: Bytes) {
    && (forall e :: Object(e) in items <==> e in rows && CommonOf(e.key, prefix, d).None?)
    && (forall c :: Collapsed(c) in items <==> exists e :: e in rows && CommonOf(e.key, prefix, d) == Some(c))
  }

  lemma {:induction false} OutlineObjects(rows: seq<Entry>, prefix: Bytes, d: Bytes, e: Entry)
    ensures Object(e) in Outline(rows, prefix, d) <==> e in rows && CommonOf(e.key, prefix, d).None?
  {
    if rows != [] {
      OutlineObjects(rows[..|rows| - 1], prefix, d, e);
      assert rows == rows[..|rows| - 1] + [rows[|rows| - 1]];
    }
  }

  lemma {:induction false} OutlineCollapsed(rows: seq<Entry>, prefix: Bytes, d: Bytes, c: Bytes)
    ensures Collapsed(c) in Outline(rows, prefix, d) <==> exists e :: e in rows && CommonOf(e.key, prefix, d) == Some(c)
  {
    if rows != [] {
      OutlineCollapsed(rows[..|rows| - 1], prefix, d, c);
      assert rows == rows[..|rows| - 1] + [rows[|rows| - 1]];
    }
  }

  lemma OutlineMembers(rows: seq<Entry>, prefix: Bytes, d: Bytes)
    ensures OutlineOf(Outline(rows, prefix, d), rows, prefix, d)
  {
    forall e ensures Object(e) in Outline(rows, prefix, d) <==> e in rows && CommonOf(e.key, prefix, d).None? {
      OutlineObjects(rows, prefix, d, e);
    }
    forall c ensures Collapsed(c) in Outline(rows, prefix, d) <==>
                     exists e :: e in rows && CommonOf(e.key, prefix, d) == Some(c)
    {
      OutlineCollapsed(rows, prefix, d, c);
    }
  }

  /** What a later row adds sorts after everything before it. */
  lemma LaterItemIsGreater(row: Entry, item: Item, later: Entry, next: Item, prefix: Bytes, d: Bytes)
    requires Less(row.key, later.key) && ItemOf(row, prefix, d) == item && ItemOf(later, prefix, d) == next
    ensures item == next || Less(Name(item), Name(next))
  {
    var a, b := CommonOf(row.key, prefix, d), CommonOf(later.key, prefix, d);
    if a.Some? {
      CommonIsAPrefix(row.key, prefix, d);
    }
    if b.Some? {
      CommonIsAPrefix(later.key, prefix, d);
    }
    if a.Some? && b.Some? {
      CommonInOrder(row.key, later.key, prefix, d);
    } else if a.Some? {
      PrefixIsNotAbove(row.key, a.value);
      Total(a.value, row.key);
      if Less(a.value, row.key) {
        Transitive(a.value, row.key, later.key);
      }
    } else if b.Some? {
      ContentBeforeCommon(row.key, later.key, b.value, prefix, d);
    }
  }

  function ItemOf(row: Entry, prefix: Bytes, d: Bytes): Item {
    match CommonOf(row.key, prefix, d)
    case None => Object(row)
    case Some(c) => Collapsed(c)
  }

  lemma ContentBeforeCommon(key: Bytes, later: Bytes, c: Bytes, prefix: Bytes, d: Bytes)
    requires Less(key, later) && CommonOf(key, prefix, d).None? && CommonOf(later, prefix, d) == Some(c)
    ensures Less(key, c)
  {
    CommonIsAPrefix(later, prefix, d);
    if !Less(key, c) {
      PrefixRange(key, c);
      PrefixRange(later, c);
      if HasPrefix(key, c) {
        CommonCaptures(later, key, prefix, d);
      } else {
        BelowToo(key, later, Incremented(c));
      }
    }
  }

  lemma {:induction false} OutlineInOrder(rows: seq<Entry>, prefix: Bytes, d: Bytes)
    requires Sorted(rows)
    ensures Ascending(Outline(rows, prefix, d), Name)
  {
    if rows != [] {
      var init, last := rows[..|rows| - 1], rows[|rows| - 1];
      OutlineInOrder(init, prefix, d);
      OutlineMembers(init, prefix, d);
      var before := Outline(init, prefix, d);
      forall i | 0 <= i < |before| && ItemOf(last, prefix, d) !in before
        ensures Less(Name(before[i]), Name(ItemOf(last, prefix, d)))
      {
        assert before[i] in before;
        var row := SourceOf(init, before[i], prefix, d);
        LaterItemIsGreater(row, before[i], last, ItemOf(last, prefix, d), prefix, d);
      }
      if CommonOf(last.key, prefix, d).None? && Object(last) in before {
        Irreflexive(last.key);
      }
    }
  }

  lemma SourceOf(rows: seq<Entry>, item: Item, prefix: Bytes, d: Bytes) returns (row: Entry)
    requires item in Outline(rows, prefix, d)
    ensures row in rows && ItemOf(row, prefix, d) == item
  {
    OutlineMembers(rows, prefix, d);
    match item
    case Object(e) => row := e;
    case Collapsed(c) => row :| row in rows && CommonOf(row.key, prefix, d) == Some(c);
  }

  // ── the page against the reference ────────────────────────────────────────

  lemma ItemsDistinct(rows: seq<Entry>, prefix: Bytes, d: Bytes)
    requires Sorted(rows)
    ensures DistinctNames(Items(Contents(rows, prefix, d), Commons(rows, prefix, d)))
  {
    var contents, common := Contents(rows, prefix, d), Commons(rows, prefix, d);
    var items := Items(contents, common);
    ContentsRows(rows, prefix, d);
    CommonsSorted(rows, prefix, d);
    forall i, j | 0 <= i < j < |items| ensures Name(items[i]) != Name(items[j]) {
      Irreflexive(Name(items[i]));
      if j < |contents| {
        assert items[i] == Object(contents[i]) && items[j] == Object(contents[j]);
      } else if i < |contents| {
        var c := common[j - |contents|];
        assert items[i] == Object(contents[i]) && items[j] == Collapsed(c) && contents[i] in contents && c in common;
        ShownOnce(rows, prefix, d, contents[i]);
        assert !HasPrefix(contents[i].key, c);
      } else {
        assert items[i] == Collapsed(common[i - |contents|]) && items[j] == Collapsed(common[j - |contents|]);
      }
    }
  }

  lemma ItemsMembers(contents: seq<Entry>, common: seq<Bytes>)
    ensures forall e :: Object(e) in Items(contents, common) <==> e in contents
    ensures forall c :: Collapsed(c) in Items(contents, common) <==> c in common
  {
    var items := Items(contents, common);
    forall e | e in contents ensures Object(e) in items {
      var i :| 0 <= i < |contents| && contents[i] == e;
      assert items[i] == Object(e);
    }
    forall c | c in common ensures Collapsed(c) in items {
      var i :| 0 <= i < |common| && common[i] == c;
      assert items[|contents| + i] == Collapsed(c);
    }
  }

  /** Grouping a sorted scan, joining the two lists and sorting them is the one-pass outline of it. */
  lemma SortedUnionIsOutline(rows: seq<Entry>, prefix: Bytes, d: Bytes)
    requires Sorted(rows)
    ensures SortedItems(Items(Contents(rows, prefix, d), Commons(rows, prefix, d))) == Outline(rows, prefix, d)
  {
    var items := Items(Contents(rows, prefix, d), Commons(rows, prefix, d));
    ItemsDistinct(rows, prefix, d);
    SortedItemsAre(items);
    OutlineInOrder(rows, prefix, d);
    ContentsRows(rows, prefix, d);
    CommonsStandForRows(rows, prefix, d);
    ItemsMembers(Contents(rows, prefix, d), Commons(rows, prefix, d));
    OutlineMembers(rows, prefix, d);
    SameMembers(SortedItems(items), Outline(rows, prefix, d), rows, prefix, d);
    AscendingEqual(SortedItems(items), Outline(rows, prefix, d), Name);
  }

  lemma SameMembers(a: seq<Item>, b: seq<Item>, rows: seq<Entry>, prefix: Bytes, d: Bytes)
    requires OutlineOf(a, rows, prefix, d) && OutlineOf(b, rows, prefix, d)
    ensures forall x :: x in a <==> x in b
  {
    forall x ensures x in a <==> x in b {
      match x
      case Object(e) =>
      case Collapsed(c) =>
    }
  }

  datatype Listed = ListPanics | Listed(contents: seq<Entry>, common: seq<Bytes>, truncated: bool, next: Option<Bytes>)

  /** The answer that shows the first maxKeys of `items`. */
  function Shown(items: seq<Item>, maxKeys: nat): Listed {
    var page := FirstOf(items, maxKeys);
    Listed(ObjectsIn(page), CollapsedIn(page), maxKeys < |items|,
           if maxKeys < |items| && page != [] then Some(Name(page[|page| - 1])) else None)
  }

  lemma {:induction false} SplitMembers(items: seq<Item>)
    ensures forall e :: e in ObjectsIn(items) <==> Object(e) in items
    ensures forall c :: c in CollapsedIn(items) <==> Collapsed(c) in items
    ensures |ObjectsIn(items)| + |CollapsedIn(items)| == |items|
  {
    if items != [] {
      SplitMembers(items[..|items| - 1]);
      assert items == items[..|items| - 1] + [items[|items| - 1]];
    }
  }

  /** What an answer may show of the scanned rows: contents are rows that do not go on past a delimiter, common
      prefixes are what rows that do have up to the end of it, and a page that is not cut off shows every row. */
  ghost predicate Lists(r: Listed, rows: seq<Entry>, prefix: Bytes, d: Bytes, maxKeys: nat)
    requires r.Listed?
  {
    && (forall e :: e in r.contents ==> e in rows && !Delimited(e.key, prefix, d))
    && (forall c :: c in r.common ==> exists e, i :: StandsFor(e, i, rows, prefix, d, c))
    && |r.contents| + |r.common| <= maxKeys
    && (r.truncated ==> |r.contents| + |r.common| == maxKeys)
    && (!r.truncated ==> forall e :: e in rows && !Delimited(e.key, prefix, d) ==> e in r.contents)
    && (!r.truncated ==>
        forall e :: e in rows && Delimited(e.key, prefix, d) ==> exists c :: c in r.common && HasPrefix(e.key, c))
  }

  ghost predicate StandsFor(e: Entry, i: int, rows: seq<Entry>, prefix: Bytes, d: Bytes, c: Bytes) {
    e in rows && GoesOn(e.key, prefix, d, i) && c == e.key[..|prefix| + i + |d|]
  }

  /** The answer shows the row: itself, or the common prefix it goes on past. */
  ghost predicate Accounts(r: Listed, e: Entry, prefix: Bytes, d: Bytes)
    requires r.Listed?
  {
    if Delimited(e.key, prefix, d)
    then exists i :: GoesOn(e.key, prefix, d, i) && e.key[..|prefix| + i + |d|] in r.common
    else e in r.contents
  }

  ghost predicate Names(r: Listed, name: Bytes)
    requires r.Listed?
  {
    name in r.common || exists e :: e in r.contents && e.key == name
  }

  /** Where the next page resumes: the answer is truncated exactly when it leaves a row out, and then it names the
      greatest thing it shows, which every row left out sorts after. A page of no keys names nothing. */
  ghost predicate Resumes(r: Listed, rows: seq<Entry>, prefix: Bytes, d: Bytes, maxKeys: nat)
    requires r.Listed?
  {
    && (r.truncated <==> exists e :: e in rows && !Accounts(r, e, prefix, d))
    && (r.next.Some? <==> r.truncated && maxKeys != 0)
    && (r.next.Some? ==>
        && Names(r, r.next.value)
        && (forall name :: Names(r, name) ==> !Less(r.next.value, name))
        && (forall e :: e in rows && !Accounts(r, e, prefix, d) ==> Less(r.next.value, e.key)))
  }

  lemma GoesOnOnce(key: Bytes, prefix: Bytes, d: Bytes, i: int)
    requires GoesOn(key, prefix, d, i)
    ensures CommonOf(key, prefix, d) == Some(key[..|prefix| + i + |d|])
  {
    CollapsesIff(key, prefix, d, key[..|prefix| + i + |d|]);
  }

  lemma AccountedBy(r: Listed, page: seq<Item>, e: Entry, prefix: Bytes, d: Bytes)
    requires r.Listed? && r.contents == ObjectsIn(page) && r.common == CollapsedIn(page)
    ensures Accounts(r, e, prefix, d) <==> ItemOf(e, prefix, d) in page
  {
    SplitMembers(page);
    CollapsesIff(e.key, prefix, d, []);
    if Delimited(e.key, prefix, d) {
      var c := CommonOf(e.key, prefix, d).value;
      CollapsesIff(e.key, prefix, d, c);
      var at :| GoesOn(e.key, prefix, d, at) && c == e.key[..|prefix| + at + |d|];
      if i :| GoesOn(e.key, prefix, d, i) && e.key[..|prefix| + i + |d|] in r.common {
        GoesOnOnce(e.key, prefix, d, i);
      }
    }
  }

  lemma AccountedIff(rows: seq<Entry>, prefix: Bytes, d: Bytes, maxKeys: nat, e: Entry)
    requires e in rows
    ensures var items := Outline(rows, prefix, d);
            && ItemOf(e, prefix, d) in items
            && (Accounts(Shown(items, maxKeys), e, prefix, d) <==> ItemOf(e, prefix, d) in FirstOf(items, maxKeys))
  {
    var items := Outline(rows, prefix, d);
    AccountedBy(Shown(items, maxKeys), FirstOf(items, maxKeys), e, prefix, d);
    match ItemOf(e, prefix, d)
    case Object(_) => OutlineObjects(rows, prefix, d, e);
    case Collapsed(c) => OutlineCollapsed(rows, prefix, d, c);
  }

  lemma ShownSize(items: seq<Item>, maxKeys: nat)
    ensures var r := Shown(items, maxKeys); |r.contents| + |r.common| == Min(maxKeys, |items|)
  {
    SplitMembers(FirstOf(items, maxKeys));
  }

  lemma ShownCommons(rows: seq<Entry>, prefix: Bytes, d: Bytes, maxKeys: nat, c: Bytes)
    requires c in Shown(Outline(rows, prefix, d), maxKeys).common
    ensures exists e, i :: StandsFor(e, i, rows, prefix, d, c)
  {
    SplitMembers(FirstOf(Outline(rows, prefix, d), maxKeys));
    OutlineCollapsed(rows, prefix, d, c);
    var e :| e in rows && CommonOf(e.key, prefix, d) == Some(c);
    CollapsesIff(e.key, prefix, d, c);
    var i :| GoesOn(e.key, prefix, d, i) && c == e.key[..|prefix| + i + |d|];
    assert StandsFor(e, i, rows, prefix, d, c);
  }

  lemma ShownContents(rows: seq<Entry>, prefix: Bytes, d: Bytes, maxKeys: nat, e: Entry)
    requires e in Shown(Outline(rows, prefix, d), maxKeys).contents
    ensures e in rows && !Delimited(e.key, prefix, d)
  {
    SplitMembers(FirstOf(Outline(rows, prefix, d), maxKeys));
    OutlineObjects(rows, prefix, d, e);
    CollapsesIff(e.key, prefix, d, []);
  }

  lemma AccountedPrefix(r: Listed, e: Entry, prefix: Bytes, d: Bytes)
    requires r.Listed? && Delimited(e.key, prefix, d) && Accounts(r, e, prefix, d)
    ensures exists c :: c in r.common && HasPrefix(e.key, c)
  {
    var i :| GoesOn(e.key, prefix, d, i) && e.key[..|prefix| + i + |d|] in r.common;
    assert HasPrefix(e.key, e.key[..|prefix| + i + |d|]);
  }

  lemma ShownLists(rows: seq<Entry>, prefix: Bytes, d: Bytes, maxKeys: nat)
    ensures Lists(Shown(Outline(rows, prefix, d), maxKeys), rows, prefix, d, maxKeys)
  {
    var r := Shown(Outline(rows, prefix, d), maxKeys);
    ShownSize(Outline(rows, prefix, d), maxKeys);
    forall e | e in r.contents ensures e in rows && !Delimited(e.key, prefix, d) {
      ShownContents(rows, prefix, d, maxKeys, e);
    }
    forall c | c in r.common ensures exists e, i :: StandsFor(e, i, rows, prefix, d, c) {
      ShownCommons(rows, prefix, d, maxKeys, c);
    }
    if !r.truncated {
      forall e | e in rows ensures Accounts(r, e, prefix, d) {
        AccountedIff(rows, prefix, d, maxKeys, e);
      }
      forall e | e in rows && Delimited(e.key, prefix, d) ensures exists c :: c in r.common && HasPrefix(e.key, c) {
        AccountedPrefix(r, e, prefix, d);
      }
    }
  }

  lemma ShownNames(items: seq<Item>, maxKeys: nat, name: Bytes)
    ensures Names(Shown(items, maxKeys), name) <==> exists x :: x in FirstOf(items, maxKeys) && Name(x) == name
  {
    var page, r := FirstOf(items, maxKeys), Shown(items, maxKeys);
    SplitMembers(page);
    if Names(r, name) {
      if name in r.common {
        assert Collapsed(name) in page && Name(Collapsed(name)) == name;
      } else {
        var e :| e in r.contents && e.key == name;
        assert Object(e) in page && Name(Object(e)) == name;
      }
    }
    if x :| x in page && Name(x) == name {
      match x
      case Object(e) => assert e in r.contents;
      case Collapsed(c) => assert c in r.common;
    }
  }

  lemma PageEnd(items: seq<Item>, n: nat, x: Item)
    requires Ascending(items, Name) && 0 < n <= |items| && x in items
    ensures x in items[..n] ==> !Less(Name(items[n - 1]), Name(x))
    ensures x !in items[..n] ==> Less(Name(items[n - 1]), Name(x))
  {
    var i :| 0 <= i < |items| && items[i] == x;
    Irreflexive(Name(x));
    if i < n {
      assert items[..n][i] == x;
      if i < n - 1 && Less(Name(items[n - 1]), Name(x)) {
        Transitive(Name(x), Name(items[n - 1]), Name(x));
      }
    }
  }

  /** A row's key is not before the name it is shown under. */
  lemma NameNotAbove(e: Entry, prefix: Bytes, d: Bytes, at: Bytes)
    requires Less(at, Name(ItemOf(e, prefix, d)))
    ensures Less(at, e.key)
  {
    var c := CommonOf(e.key, prefix, d);
    if c.Some? {
      CommonIsAPrefix(e.key, prefix, d);
      PrefixIsNotAbove(e.key, c.value);
      Total(c.value, e.key);
      if Less(c.value, e.key) {
        Transitive(at, c.value, e.key);
      }
    }
  }

  lemma LeftOut(rows: seq<Entry>, prefix: Bytes, d: Bytes, maxKeys: nat) returns (e: Entry)
    requires Sorted(rows) && maxKeys < |Outline(rows, prefix, d)|
    ensures e in rows && !Accounts(Shown(Outline(rows, prefix, d), maxKeys), e, prefix, d)
  {
    var items := Outline(rows, prefix, d);
    OutlineInOrder(rows, prefix, d);
    assert items[maxKeys] in items;
    e := SourceOf(rows, items[maxKeys], prefix, d);
    AccountedIff(rows, prefix, d, maxKeys, e);
    Irreflexive(Name(items[maxKeys]));
  }

  lemma ShownResumes(rows: seq<Entry>, prefix: Bytes, d: Bytes, maxKeys: nat)
    requires Sorted(rows)
    ensures Resumes(Shown(Outline(rows, prefix, d), maxKeys), rows, prefix, d, maxKeys)
  {
    var items := Outline(rows, prefix, d);
    var r := Shown(items, maxKeys);
    OutlineInOrder(rows, prefix, d);
    if r.truncated {
      var e := LeftOut(rows, prefix, d, maxKeys);
    } else {
      forall e | e in rows ensures Accounts(r, e, prefix, d) {
        AccountedIff(rows, prefix, d, maxKeys, e);
      }
    }
    if r.next.Some? {
      assert items[maxKeys - 1] in items[..maxKeys];
      ShownNames(items, maxKeys, r.next.value);
      forall name | Names(r, name) ensures !Less(r.next.value, name) {
        ShownNames(items, maxKeys, name);
        var x :| x in items[..maxKeys] && Name(x) == name;
        PageEnd(items, maxKeys, x);
      }
      forall e | e in rows && !Accounts(r, e, prefix, d) ensures Less(r.next.value, e.key) {
        AccountedIff(rows, prefix, d, maxKeys, e);
        PageEnd(items, maxKeys, ItemOf(e, prefix, d));
        NameNotAbove(e, prefix, d, r.next.value);
      }
    }
  }

  /** Groups a scan and cuts it to the page. */
  method GroupPage(gathered: seq<Entry>, prefix: Bytes, d: Bytes, maxKeys: nat) returns (r: Listed)
    requires Sorted(gathered)
    ensures r == Shown(Outline(gathered, prefix, d), maxKeys) && Lists(r, gathered, prefix, d, maxKeys)
    ensures Resumes(r, gathered, prefix, d, maxKeys)
  {
    SortedUnionIsOutline(gathered, prefix, d);
    SortedItemsAre(Items(Contents(gathered, prefix, d), Commons(gathered, prefix, d)));
    ShownLists(gathered, prefix, d, maxKeys);
    ShownResumes(gathered, prefix, d, maxKeys);
    var contents, common := GroupByDelimiter(gathered, prefix, d);
    var kept, keptCommon, truncated, next := MergeAndTruncate(contents, common, maxKeys);
    r := Listed(kept, keptCommon, truncated, next);
  }

  /** list_page with a delimiter: the first maxKeys of the outline of the scan. */
  method ListGrouped(rows: seq<Entry>, after: Option<Bytes>, prefix: Option<Bytes>, d: Bytes, maxKeys: nat)
    returns (r: Listed)
    requires Sorted(rows)
    ensures r == ListPanics <==> BadPrefix(prefix)
    ensures var p, scan := if prefix.Some? then prefix.value else [], FirstOf(Selected(rows, after, prefix), SCAN_CAP);
            r != ListPanics ==>
              && r == Shown(Outline(scan, p, d), maxKeys)
              && Lists(r, scan, p, d, maxKeys) && Resumes(r, scan, p, d, maxKeys)
  {
    var p := if prefix.Some? then prefix.value else [];
    if prefix.Some? {
      var upper := IncrementPrefix(p);
      if upper.Panics? {
        return ListPanics;
      }
    }
    var gathered := Gather(rows, after, prefix);
    SelectedRows(rows, after, prefix);
    r := GroupPage(gathered, p, d, maxKeys);
  }

  /** The row adds nothing to what is listed. */
  predicate Absorbed(e: Entry, items: seq<Item>, prefix: Bytes, d: Bytes) {
    ItemOf(e, prefix, d).Collapsed? && ItemOf(e, prefix, d) in items
  }

  lemma OutlineSnoc(rows: seq<Entry>, last: Entry, prefix: Bytes, d: Bytes)
    ensures var items := Outline(rows, prefix, d);
            Outline(rows + [last], prefix, d)
            == items + if Absorbed(last, items, prefix, d) then [] else [ItemOf(last, prefix, d)]
  {
    assert (rows + [last])[..|rows|] == rows;
  }

  lemma {:induction false} OutlineGrows(rows: seq<Entry>, more: seq<Entry>, prefix: Bytes, d: Bytes)
    ensures Outline(rows, prefix, d) <= Outline(rows + more, prefix, d)
    ensures Outline(rows, prefix, d) == Outline(rows + more, prefix, d) <==>
            forall e :: e in more ==> Absorbed(e, Outline(rows, prefix, d), prefix, d)
  {
    if more == [] {
      assert rows + more == rows;
    } else {
      var init, last := more[..|more| - 1], more[|more| - 1];
      OutlineGrows(rows, init, prefix, d);
      assert more == init + [last];
      assert rows + more == (rows + init) + [last];
      OutlineSnoc(rows + init, last, prefix, d);
    }
  }

  /** The scan stops after a hundred thousand rows. The answer is still the one for all the rows if and
      only if the scan alone fills more than the page, or every row past it collapses into a common prefix
      the scan already has. */
  lemma ScanCapHarmlessIff(rows: seq<Entry>, prefix: Bytes, d: Bytes, maxKeys: nat)
    ensures var scan := FirstOf(rows, SCAN_CAP);
            Shown(Outline(scan, prefix, d), maxKeys) == Shown(Outline(rows, prefix, d), maxKeys) <==>
            || maxKeys < |Outline(scan, prefix, d)|
            || forall e :: e in rows[|scan|..] ==> Absorbed(e, Outline(scan, prefix, d), prefix, d)
  {
    var scan := FirstOf(rows, SCAN_CAP);
    var some, all := Outline(scan, prefix, d), Outline(rows, prefix, d);
    assert rows == scan + rows[|scan|..];
    OutlineGrows(scan, rows[|scan|..], prefix, d);
    if maxKeys < |some| {
      assert FirstOf(some, maxKeys) == FirstOf(all, maxKeys);
    } else if some != all {
      ShownSize(some, maxKeys);
      ShownSize(all, maxKeys);
    }
  }
}
