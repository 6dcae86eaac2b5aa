/** Last-write-wins tables: the conditional upsert every replicated table of the
    store uses, replayed over an arbitrary arrival order. */
module Lww {

  datatype Versioned<V> = Versioned(value: V, updatedAt: int)

  datatype Write<K, V> = Write(key: K, value: V, ts: int)

  type Table<K, V> = map<K, Versioned<V>>

  /** A row advances only on a strictly newer timestamp; ties keep the first arrival. */
  function Upsert<K, V>(t: Table<K, V>, w: Write<K, V>): Table<K, V> {
    if w.key in t && w.ts <= t[w.key].updatedAt then t
    else t[w.key := Versioned(w.value, w.ts)]
  }

  function Replay<K, V>(ws: seq<Write<K, V>>): Table<K, V> {
    if ws == [] then map[]
    else Upsert(Replay(ws[..|ws| - 1]), ws[|ws| - 1])
  }

  ghost predicate Newest<K, V>(ws: seq<Write<K, V>>, w: Write<K, V>) {
    w in ws && forall v :: v in ws && v.key == w.key ==> v.ts <= w.ts
  }

  /** No two writes tie for newest on a key with different values. */
  ghost predicate Settled<K(!new), V(!new)>(ws: seq<Write<K, V>>) {
    forall a, b :: Newest(ws, a) && Newest(ws, b) && a.key == b.key ==> a.value == b.value
  }

  ghost predicate SameWrites<K(!new), V(!new)>(a: seq<Write<K, V>>, b: seq<Write<K, V>>) {
    forall w :: w in a <==> w in b
  }

  lemma ReplaySnoc<K, V>(ws: seq<Write<K, V>>, w: Write<K, V>)
    ensures Replay(ws + [w]) == Upsert(Replay(ws), w)
  {
    assert (ws + [w])[..|ws|] == ws;
  }

  /** The effect of a record that carries at most one write to this table. */
  function UpsertAny<K, V>(t: Table<K, V>, ws: seq<Write<K, V>>): Table<K, V> {
    if ws == [] then t else Upsert(t, ws[0])
  }

  lemma ReplayAny<K, V>(ws: seq<Write<K, V>>, us: seq<Write<K, V>>)
    requires |us| <= 1
    ensures Replay(ws + us) == UpsertAny(Replay(ws), us)
  {
    if us == [] {
      assert ws + us == ws;
    } else {
      assert us == [us[0]];
      ReplaySnoc(ws, us[0]);
    }
  }

  /** The replayed row of a key is a newest write of that key, and every written key has a row. */
  lemma {:induction false} ReplayIsNewest<K, V>(ws: seq<Write<K, V>>)
    ensures forall k :: k in Replay(ws) ==> Newest(ws, Write(k, Replay(ws)[k].value, Replay(ws)[k].updatedAt))
    ensures forall w :: w in ws ==> w.key in Replay(ws) && w.ts <= Replay(ws)[w.key].updatedAt
  {
    if ws != [] {
      var init, last := ws[..|ws| - 1], ws[|ws| - 1];
      ReplayIsNewest(init);
      assert ws == init + [last];
      forall k | k in Replay(ws)
        ensures Newest(ws, Write(k, Replay(ws)[k].value, Replay(ws)[k].updatedAt))
      {
        if k in Replay(init) {
          assert Newest(init, Write(k, Replay(init)[k].value, Replay(init)[k].updatedAt));
        }
      }
    }
  }

  /** A write that was replayed before changes nothing. */
  lemma UpsertSeen<K, V>(ws: seq<Write<K, V>>, us: seq<Write<K, V>>)
    requires |us| <= 1 && forall u :: u in us ==> u in ws
    ensures UpsertAny(Replay(ws), us) == Replay(ws)
  {
    ReplayIsNewest(ws);
    assert us != [] ==> us[0] in us;
  }

  /** No two writes tie for newest on this key with different values. */
  ghost predicate SettledOn<K(!new), V(!new)>(ws: seq<Write<K, V>>, k: K) {
    forall a, b :: Newest(ws, a) && Newest(ws, b) && a.key == b.key == k ==> a.value == b.value
  }

  /** Two sites that received the same writes, in any orders and with any repeats, have a row for the same keys,
      of the same age, and the same row where no two writes tie for newest. */
  lemma SameWritesSameRow<K(!new), V(!new)>(a: seq<Write<K, V>>, b: seq<Write<K, V>>, k: K)
    requires SameWrites(a, b)
    ensures k in Replay(a) <==> k in Replay(b)
    ensures k in Replay(a) ==> Replay(a)[k].updatedAt == Replay(b)[k].updatedAt
    ensures k in Replay(a) && SettledOn(a, k) ==> Replay(a)[k] == Replay(b)[k]
  {
    ReplayIsNewest(a);
    ReplayIsNewest(b);
    if k in Replay(a) {
      var x := Write(k, Replay(a)[k].value, Replay(a)[k].updatedAt);
      assert Newest(a, x);
      var y := Write(k, Replay(b)[k].value, Replay(b)[k].updatedAt);
      assert Newest(b, y);
      assert Newest(a, y);
    }
    if k in Replay(b) {
      assert Newest(b, Write(k, Replay(b)[k].value, Replay(b)[k].updatedAt));
    }
  }

  lemma SameWritesSameTable<K(!new), V(!new)>(a: seq<Write<K, V>>, b: seq<Write<K, V>>)
    requires SameWrites(a, b) && Settled(a)
    ensures Replay(a) == Replay(b)
  {
    forall k ensures k in Replay(a) <==> k in Replay(b)
             ensures k in Replay(a) ==> Replay(a)[k] == Replay(b)[k]
    {
      SameWritesSameRow(a, b, k);
    }
  }

  /** A newest write that arrives first keeps its row whatever arrives afterwards. */
  lemma {:induction false} FirstNewestWins<K, V>(w: Write<K, V>, ws: seq<Write<K, V>>)
    requires forall v :: v in ws && v.key == w.key ==> v.ts <= w.ts
    ensures w.key in Replay([w] + ws) && Replay([w] + ws)[w.key] == Versioned(w.value, w.ts)
  {
    if ws == [] {
      assert [w] + ws == [w];
      ReplaySnoc([], w);
      assert [] + [w] == [w];
    } else {
      var init, last := ws[..|ws| - 1], ws[|ws| - 1];
      FirstNewestWins(w, init);
      assert [w] + ws == ([w] + init) + [last];
      ReplaySnoc([w] + init, last);
    }
  }

  /** Arrival order is irrelevant exactly when the writes are settled. */
  lemma OrderIrrelevantIffSettled<K(!new), V(!new)>(ws: seq<Write<K, V>>)
    ensures (forall vs :: SameWrites(ws, vs) ==> Replay(vs) == Replay(ws)) <==> Settled(ws)
  {
    if Settled(ws) {
      forall vs | SameWrites(ws, vs) ensures Replay(vs) == Replay(ws) {
        SameWritesSameTable(ws, vs);
      }
    } else {
      var a, b :| Newest(ws, a) && Newest(ws, b) && a.key == b.key && a.value != b.value;
      FirstNewestWins(a, ws);
      FirstNewestWins(b, ws);
      assert SameWrites(ws, [a] + ws) && SameWrites(ws, [b] + ws);
      assert Replay([a] + ws)[a.key] != Replay([b] + ws)[a.key];
    }
  }

  /** A row that a write no longer holds is never handed back to that write. */
  lemma NoComeback<K, V>(ws: seq<Write<K, V>>, us: seq<Write<K, V>>, w: Write<K, V>)
    requires w in ws && |us| <= 1
    requires w.key in Replay(ws + us) && Replay(ws + us)[w.key] == Versioned(w.value, w.ts)
    ensures w.key in Replay(ws) && Replay(ws)[w.key] == Versioned(w.value, w.ts)
  {
    ReplayAny(ws, us);
    ReplayIsNewest(ws);
  }
}
