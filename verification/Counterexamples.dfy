/** Where promises fail: runs that show why two hypotheses are there (no ties for convergence, and sweeps that leave
    unfinished uploads alone), and one failing input for each condition on a single operation. */
module Counterexamples {
  import opened Prelude
  import opened Lww
  import opened SiteModel
  import opened Gc
  import opened Cluster
  import opened Convergence
  import opened Requests
  import opened KeyOrder
  import opened Listing
  import opened Grouping

  function Zero(h: Hash): int {
    0
  }

  // ── two writes with one timestamp ─────────────────────────────────────────

  /** One site's part in the run: it makes its own user, merges the peer's and saves its cursor. */
  function Pulled(me: SiteId, n: Node, peer: SiteId, r: Record): Node {
    StoreCursor(PullOne(me, n, peer, r, 0), peer)
  }

  lemma FirstWriterWins(me: SiteId, peer: SiteId, mine: Credential, theirs: Credential)
    ensures var n := Pulled(me, WriteUser(EMPTY_NODE, "k", mine, 0), peer, Record(0, UserPut("k", theirs)));
            && n.site.catalog.users == map["k" := Versioned(mine, 0)]
            && n.site.journal == Journal([Record(0, UserPut("k", mine))], map[peer := 1])
  {
  }

  /** The state with a in state x and b in state y. */
  function Both(a: SiteId, x: Node, b: SiteId, y: Node): Mesh {
    map[a := x, b := y]
  }

  lemma MakesUser(cfg: Config, a: SiteId, b: SiteId, y: Node, credential: Credential)
    requires a != b
    ensures var a1 := WriteUser(EMPTY_NODE, "k", credential, 0);
            && Next(cfg, Both(a, EMPTY_NODE, b, y), Step(a, AddUser("k", credential, 0)), Both(a, a1, b, y))
            && Next(cfg, Both(b, y, a, EMPTY_NODE), Step(a, AddUser("k", credential, 0)), Both(b, y, a, a1))
  {
  }

  lemma PullsAndSaves(cfg: Config, a: SiteId, x: Node, b: SiteId, y: Node, r: Record)
    requires a != b && At(x.sync.reading, b) == 0 && y.site.journal.log == [r]
    ensures var x1 := PullOne(a, x, b, r, 0);
            && Next(cfg, Both(a, x, b, y), Step(a, Pull(b, 0)), Both(a, x1, b, y))
            && Next(cfg, Both(a, x1, b, y), Step(a, SaveCursor(b)), Both(a, StoreCursor(x1, b), b, y))
  {
  }

  lemma BothSynced(a: SiteId, x: Node, b: SiteId, y: Node)
    requires a != b
    requires At(x.site.journal.cursors, b) == |y.site.journal.log|
    requires At(y.site.journal.cursors, a) == |x.site.journal.log|
    ensures FullySynced(Both(a, x, b, y))
  {
  }

  lemma TieRun(cfg: Config, a: SiteId, b: SiteId, x: Credential, y: Credential,
               a1: Node, a2: Node, a3: Node, b1: Node, b2: Node, b3: Node)
    returns (states: seq<Mesh>, steps: seq<Step>)
    requires a != b
    requires Next(cfg, Both(a, EMPTY_NODE, b, EMPTY_NODE), Step(a, AddUser("k", x, 0)), Both(a, a1, b, EMPTY_NODE))
    requires Next(cfg, Both(a, a1, b, EMPTY_NODE), Step(b, AddUser("k", y, 0)), Both(a, a1, b, b1))
    requires Next(cfg, Both(a, a1, b, b1), Step(a, Pull(b, 0)), Both(a, a2, b, b1))
    requires Next(cfg, Both(a, a2, b, b1), Step(a, SaveCursor(b)), Both(a, a3, b, b1))
    requires Next(cfg, Both(b, b1, a, a3), Step(b, Pull(a, 0)), Both(b, b2, a, a3))
    requires Next(cfg, Both(b, b2, a, a3), Step(b, SaveCursor(a)), Both(b, b3, a, a3))
    ensures IsRun(cfg, states, steps) && states[|states| - 1] == Both(a, a3, b, b3)
  {
    assert Both(b, b1, a, a3) == Both(a, a3, b, b1) && Both(b, b2, a, a3) == Both(a, a3, b, b2);
    assert Both(b, b3, a, a3) == Both(a, a3, b, b3);
    steps := [Step(a, AddUser("k", x, 0)), Step(b, AddUser("k", y, 0)), Step(a, Pull(b, 0)), Step(a, SaveCursor(b)),
              Step(b, Pull(a, 0)), Step(b, SaveCursor(a))];
    states := [Both(a, EMPTY_NODE, b, EMPTY_NODE), Both(a, a1, b, EMPTY_NODE), Both(a, a1, b, b1), Both(a, a2, b, b1),
               Both(a, a3, b, b1), Both(a, a3, b, b2), Both(a, a3, b, b3)];
  }

  /** Two sites that create the same user at the same instant end fully synced and never agree. */
  lemma TiesDiverge(cfg: Config, a: SiteId, b: SiteId, x: Credential, y: Credential)
    returns (states: seq<Mesh>, steps: seq<Step>)
    requires a != b && x != y
    ensures IsRun(cfg, states, steps)
    ensures var last := states[|states| - 1];
            && FullySynced(last) && a in last && b in last
            && last[a].site.catalog.users != last[b].site.catalog.users
  {
    var a1, b1 := WriteUser(EMPTY_NODE, "k", x, 0), WriteUser(EMPTY_NODE, "k", y, 0);
    var rx, ry := Record(0, UserPut("k", x)), Record(0, UserPut("k", y));
    var a2, b2 := PullOne(a, a1, b, ry, 0), PullOne(b, b1, a, rx, 0);
    var a3, b3 := Pulled(a, a1, b, ry), Pulled(b, b1, a, rx);
    FirstWriterWins(a, b, x, y);
    FirstWriterWins(b, a, y, x);
    MakesUser(cfg, a, b, EMPTY_NODE, x);
    MakesUser(cfg, b, a, a1, y);
    PullsAndSaves(cfg, a, a1, b, b1, ry);
    PullsAndSaves(cfg, b, b1, a, a3, rx);
    BothSynced(a, a3, b, b3);
    states, steps := TieRun(cfg, a, b, x, y, a1, a2, a3, b1, b2, b3);
  }

  // ── grace and deduplicated blocks ─────────────────────────────────────────

  /** The site that stored a block for an upload that was then given up. */
  function GivenUp(cfg: Config, me: SiteId, data: Bytes): Node {
    StoreNew(me, EMPTY_NODE, cfg.digest(data), data, [], 0)
  }

  lemma FirstSweepRecords(cfg: Config, me: SiteId, data: Bytes)
    requires 0 < cfg.grace
    ensures var n := SweepNode(cfg, me, GivenUp(cfg, me, data), false, 0, Zero);
            && Reaped(GivenUp(cfg, me, data).site, me, cfg.grace, false, 0) == {}
            && n.writers == map[] && n.site.catalog.objects == map[]
            && n.site.index.locations == map[cfg.digest(data) := map[me := Versioned([], 0)]]
            && Held(n.site.index.locations, me) == {cfg.digest(data)}
            && n.site.backlog.pending == map[cfg.digest(data) := cfg.grace]
            && LiveBlocks(n.site) == {}
  {
    var n := GivenUp(cfg, me, data);
    assert Held(n.site.index.locations, me) == {cfg.digest(data)};
    assert LiveBlocks(n.site) == {};
    assert Reaped(n.site, me, cfg.grace, false, 0) == {};
    assert DropHolders(n.site.index.locations, me, {}) == n.site.index.locations;
  }

  function Begun(n: Node, w: nat): Node {
    n.(writers := map[w := Uploading([], 0)])
  }

  function HasStored(cfg: Config, n: Node, w: nat, data: Bytes): Node {
    n.(writers := map[w := Uploading([cfg.digest(data)], |data|)])
  }

  lemma Begins(cfg: Config, me: SiteId, n: Node, w: nat)
    requires n.writers == map[]
    ensures Next(cfg, map[me := n], Step(me, BeginUpload(w)), map[me := Begun(n, w)])
  {
  }

  /** Storing a new block, and storing one already held, which changes nothing but the upload. */
  lemma Stores(cfg: Config, me: SiteId, n: Node, w: nat, data: Bytes, ts: int)
    ensures var kept := KeepBlock(me, n, cfg.digest(data), data, [], ts);
            Next(cfg, map[me := Begun(n, w)], Step(me, StoreBlock(w, data, [], ts)),
                 map[me := HasStored(cfg, kept, w, data)])
  {
    var begun := Begun(n, w);
    assert Extended(cfg, begun.writers, w, data) == map[w := Uploading([cfg.digest(data)], |data|)] by {
      assert [] + [cfg.digest(data)] == [cfg.digest(data)];
    }
  }

  lemma GivesUp(cfg: Config, me: SiteId, n: Node, w: nat, data: Bytes)
    requires n.writers == map[]
    ensures Next(cfg, map[me := HasStored(cfg, n, w, data)], Step(me, Abandon(w)), map[me := n])
  {
    assert map[w := Uploading([cfg.digest(data)], |data|)] - {w} == map[];
  }

  lemma Sweeps(cfg: Config, me: SiteId, n: Node, now: int)
    ensures Next(cfg, map[me := n], Step(me, Sweep(false, now, Zero)),
                 map[me := SweepNode(cfg, me, n, false, now, Zero)])
  {
  }

  lemma Finishes(cfg: Config, me: SiteId, n: Node, w: nat, key: ObjectKey, ts: int)
    requires w in n.writers && n.writers[w].Uploading?
    ensures Next(cfg, map[me := n], Step(me, FinishObject(w, key, "", ts)), map[me := WriteObject(n, w, key, "", ts)])
  {
  }

  /** The upload's only block is reaped by an unforced sweep, and its manifest is written all the same. */
  lemma LosesItsBlock(cfg: Config, me: SiteId, n: Node, data: Bytes, key: ObjectKey, ts: int)
    requires Held(n.site.index.locations, me) == {cfg.digest(data)} && LiveBlocks(n.site) == {}
    requires n.site.index.locations == map[cfg.digest(data) := map[me := Versioned([], 0)]]
    requires n.site.backlog.pending == map[cfg.digest(data) := cfg.grace] && n.site.catalog.objects == map[]
    ensures var named := WriteObject(SweepNode(cfg, me, HasStored(cfg, n, 1, data), false, cfg.grace, Zero), 1, key,
                                     "", ts);
            && IsLive(named.site.catalog, key) && named.site.catalog.objects[key].value.blocks == [cfg.digest(data)]
            && cfg.digest(data) !in named.site.index.blobs && cfg.digest(data) !in named.site.index.locations
  {
    var busy := HasStored(cfg, n, 1, data);
    assert cfg.digest(data) in Reaped(busy.site, me, cfg.grace, false, cfg.grace);
    assert busy.site.index.locations[cfg.digest(data)] - {me} == map[];
  }

  /** An orphan recorded long ago keeps its old reap time when a new upload deduplicates against it. An unforced
      sweep, right after the upload stored the block, takes it, and the upload ends with a live manifest whose block
      is nowhere. */
  lemma GraceDoesNotCoverDedup(cfg: Config, me: SiteId, data: Bytes, key: ObjectKey)
    returns (states: seq<Mesh>, steps: seq<Step>)
    requires 0 < cfg.grace
    ensures IsRun(cfg, states, steps) && |steps| == 8
    ensures steps[5..] == [Step(me, StoreBlock(1, data, [], cfg.grace)), Step(me, Sweep(false, cfg.grace, Zero)),
                           Step(me, FinishObject(1, key, "", cfg.grace))]
    ensures var last := states[8];
            && me in last && IsLive(last[me].site.catalog, key)
            && last[me].site.catalog.objects[key].value.blocks == [cfg.digest(data)]
            && cfg.digest(data) !in last[me].site.index.blobs && cfg.digest(data) !in last[me].site.index.locations
  {
    var orphaned := GivenUp(cfg, me, data);
    var swept := SweepNode(cfg, me, orphaned, false, 0, Zero);
    var busy := HasStored(cfg, swept, 1, data);
    var robbed := SweepNode(cfg, me, busy, false, cfg.grace, Zero);
    FirstSweepRecords(cfg, me, data);
    Begins(cfg, me, EMPTY_NODE, 0);
    Stores(cfg, me, EMPTY_NODE, 0, data, 0);
    GivesUp(cfg, me, orphaned, 0, data);
    Sweeps(cfg, me, orphaned, 0);
    Begins(cfg, me, swept, 1);
    Stores(cfg, me, swept, 1, data, cfg.grace);
    Sweeps(cfg, me, busy, cfg.grace);
    Finishes(cfg, me, robbed, 1, key, cfg.grace);
    LosesItsBlock(cfg, me, swept, data, key, cfg.grace);
    states, steps := EightSteps(cfg, me, data, key, orphaned, swept, busy, robbed,
                                WriteObject(robbed, 1, key, "", cfg.grace));
  }

  lemma EightSteps(cfg: Config, me: SiteId, data: Bytes, key: ObjectKey, orphaned: Node, swept: Node, busy: Node,
                   robbed: Node, named: Node)
    returns (states: seq<Mesh>, steps: seq<Step>)
    requires Next(cfg, map[me := EMPTY_NODE], Step(me, BeginUpload(0)), map[me := Begun(EMPTY_NODE, 0)])
    requires Next(cfg, map[me := Begun(EMPTY_NODE, 0)], Step(me, StoreBlock(0, data, [], 0)),
                  map[me := HasStored(cfg, orphaned, 0, data)])
    requires Next(cfg, map[me := HasStored(cfg, orphaned, 0, data)], Step(me, Abandon(0)), map[me := orphaned])
    requires Next(cfg, map[me := orphaned], Step(me, Sweep(false, 0, Zero)), map[me := swept])
    requires Next(cfg, map[me := swept], Step(me, BeginUpload(1)), map[me := Begun(swept, 1)])
    requires Next(cfg, map[me := Begun(swept, 1)], Step(me, StoreBlock(1, data, [], cfg.grace)), map[me := busy])
    requires Next(cfg, map[me := busy], Step(me, Sweep(false, cfg.grace, Zero)), map[me := robbed])
    requires Next(cfg, map[me := robbed], Step(me, FinishObject(1, key, "", cfg.grace)), map[me := named])
    ensures IsRun(cfg, states, steps) && |steps| == 8 && states[8] == map[me := named]
    ensures steps[5..] == [Step(me, StoreBlock(1, data, [], cfg.grace)), Step(me, Sweep(false, cfg.grace, Zero)),
                           Step(me, FinishObject(1, key, "", cfg.grace))]
  {
    steps := [Step(me, BeginUpload(0)), Step(me, StoreBlock(0, data, [], 0)), Step(me, Abandon(0)),
              Step(me, Sweep(false, 0, Zero)), Step(me, BeginUpload(1)), Step(me, StoreBlock(1, data, [], cfg.grace)),
              Step(me, Sweep(false, cfg.grace, Zero)), Step(me, FinishObject(1, key, "", cfg.grace))];
    states := [map[me := EMPTY_NODE], map[me := Begun(EMPTY_NODE, 0)], map[me := HasStored(cfg, orphaned, 0, data)],
               map[me := orphaned], map[me := swept], map[me := Begun(swept, 1)], map[me := busy], map[me := robbed],
               map[me := named]];
  }

  // ── single operations ─────────────────────────────────────────────────────

  /** A clock that falls back between reading `now` and stamping a new orphan: the sweep's repetition at the same time
      reaps what the first one kept. */
  lemma RepeatedSweepReaps(me: SiteId, h: Hash, data: Bytes)
    ensures var s := StoreLocal(EMPTY_SITE, me, h, data, [], 0);
            var once := Swept(s, me, 1000, false, 2000, Zero);
            Swept(once, me, 1000, false, 2000, Zero) != once
  {
    var s := StoreLocal(EMPTY_SITE, me, h, data, [], 0);
    assert h in Orphans(s, me) && h !in s.backlog.pending;
    SweepIdempotentIff(s, me, 1000, false, 2000, Zero, Zero);
  }

  /** The prefix 0x7F, which is well-formed UTF-8. */
  lemma DelPrefixPanics()
    ensures Utf8([0x7F]) && BadPrefix(Some([0x7F]))
  {
    assert [0x7F][1..] == [];
    IncrementPanicsIff([0x7F]);
  }

  /** With cursor "a" and prefix "c", the key "b" is shown. */
  lemma CursorBelowPrefixShowsForeignKey()
    ensures Matches(Some([97]), Some([99]), [98]) && !HasPrefix([98], [99])
  {
    var upper := Incremented([99]);
    assert [99][..0] + [100] == [100];
    assert upper == Some([100]);
  }

  function Five(k: nat): int {
    5
  }

  /** An upload whose clock reads what the row already carries changes no row. */
  lemma StaleUploadIsLost(cfg: Config, me: SiteId, chunks: seq<Bytes>, key: ObjectKey)
    ensures var s := InsertObject(EMPTY_SITE, key, [], 0, "", 5);
            Uploaded(cfg, s, me, chunks, key, "new", Five).catalog == s.catalog
  {
    var s := InsertObject(EMPTY_SITE, key, [], 0, "", 5);
    ChunksKeepRows(cfg, s, me, chunks, Five);
  }

  // ── one row more than the scan takes ──────────────────────────────────────

  /** A key of three ASCII characters, in the order of i. */
  function KeyAt(i: nat): Bytes
    requires i < 0x20_0000
  {
    [(i / 0x4000) as Byte, (i / 0x80 % 0x80) as Byte, (i % 0x80) as Byte]
  }

  lemma AsciiIsText(a: Byte, b: Byte, c: Byte)
    requires a < 0x80 && b < 0x80 && c < 0x80
    ensures Utf8([a, b, c])
  {
    assert [a, b, c][1..] == [b, c] && [b, c][1..] == [c] && [c][1..] == [];
    assert Utf8([c]);
    assert Utf8([b, c]);
  }

  lemma ThreeLess(a: Byte, b: Byte, c: Byte, x: Byte, y: Byte, z: Byte)
    requires a < x || (a == x && (b < y || (b == y && c < z)))
    ensures Less([a, b, c], [x, y, z])
  {
    assert [a, b, c][1..] == [b, c] && [x, y, z][1..] == [y, z] && [b, c][1..] == [c] && [y, z][1..] == [z];
    assert a == x && b == y ==> Less([c], [z]);
    assert a == x ==> Less([b, c], [y, z]);
  }

  lemma KeysAscend(i: nat, j: nat)
    requires i < j < 0x20_0000
    ensures Less(KeyAt(i), KeyAt(j))
  {
    var a, b, c := i / 0x4000, i / 0x80 % 0x80, i % 0x80;
    var x, y, z := j / 0x4000, j / 0x80 % 0x80, j % 0x80;
    assert i == 0x4000 * a + 0x80 * b + c;
    assert j == 0x4000 * x + 0x80 * y + z;
    ThreeLess(a as Byte, b as Byte, c as Byte, x as Byte, y as Byte, z as Byte);
  }

  function TooManyRows(): seq<Entry> {
    seq(SCAN_CAP + 1, i requires 0 <= i < SCAN_CAP + 1 => Entry(KeyAt(i), 0, ""))
  }

  const LONG_DELIMITER: Bytes := [47, 47, 47, 47]

  lemma {:induction false} OutlineIsNoLonger(rows: seq<Entry>, prefix: Bytes, d: Bytes)
    ensures |Outline(rows, prefix, d)| <= |rows|
  {
    if rows != [] {
      OutlineIsNoLonger(rows[..|rows| - 1], prefix, d);
    }
  }

  lemma {:induction false} SelectsAll(rows: seq<Entry>)
    ensures Selected(rows, None, None) == rows
  {
    if rows != [] {
      SelectsAll(rows[..|rows| - 1]);
    }
  }

  /** The rows are such as a bucket can hold: keys that are text, in order. */
  lemma RowsOfABucket()
    ensures Sorted(TooManyRows()) && forall e :: e in TooManyRows() ==> Utf8(e.key)
  {
    var rows := TooManyRows();
    forall i, j | 0 <= i < j < |rows| ensures Less(rows[i].key, rows[j].key) {
      KeysAscend(i, j);
    }
    forall e | e in rows ensures Utf8(e.key) {
      var i :| 0 <= i < |rows| && rows[i] == e;
      AsciiIsText((i / 0x4000) as Byte, (i / 0x80 % 0x80) as Byte, (i % 0x80) as Byte);
    }
  }

  /** The answer of a delimiter listing, from the start of the bucket and without a prefix. */
  function GroupedAnswer(rows: seq<Entry>, d: Bytes, maxKeys: nat): Listed {
    Shown(Outline(FirstOf(Selected(rows, None, None), SCAN_CAP), [], d), maxKeys)
  }

  /** A bucket of one row more than the scan takes, none of which collapses: a page with room for all of them
      leaves the last one out and says it is complete. */
  lemma ScanCapHidesARow()
    ensures Sorted(TooManyRows()) && (forall e :: e in TooManyRows() ==> Utf8(e.key)) && Utf8(LONG_DELIMITER)
    ensures var answer := GroupedAnswer(TooManyRows(), LONG_DELIMITER, 2 * SCAN_CAP);
            && answer != Shown(Outline(TooManyRows(), [], LONG_DELIMITER), 2 * SCAN_CAP)
            && answer.next.None? && !answer.truncated
  {
    var rows := TooManyRows();
    RowsOfABucket();
    SelectsAll(rows);
    assert LONG_DELIMITER[1..] == [47, 47, 47];
    AsciiIsText(47, 47, 47);
    var scan := FirstOf(rows, SCAN_CAP);
    OutlineIsNoLonger(scan, [], LONG_DELIMITER);
    var last := rows[SCAN_CAP];
    assert rows[|scan|..][0] == last && last in rows[|scan|..];
    assert CommonOf(last.key, [], LONG_DELIMITER).None? by {
      assert last.key[0..] == last.key && |last.key| < |LONG_DELIMITER|;
      assert Find(last.key, LONG_DELIMITER).None?;
    }
    ScanCapHarmlessIff(rows, [], LONG_DELIMITER, 2 * SCAN_CAP);
  }

  /** The listing method gives that answer. */
  method ListTooManyRows() returns (r: Listed)
    ensures !r.ListPanics? && !r.truncated && r.next.None?
    ensures r != Shown(Outline(TooManyRows(), [], LONG_DELIMITER), 2 * SCAN_CAP)
  {
    ScanCapHidesARow();
    r := ListGrouped(TooManyRows(), None, None, LONG_DELIMITER, 2 * SCAN_CAP);
  }
}
