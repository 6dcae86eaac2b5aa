/** Keys as byte strings in the order of the object index, and the key range of a prefix. */
module KeyOrder {
  import opened Prelude

  predicate Less(a: Bytes, b: Bytes) {
    b != [] && (a == [] || a[0] < b[0] || (a[0] == b[0] && Less(a[1..], b[1..])))
  }

  predicate HasPrefix(key: Bytes, prefix: Bytes) {
    |prefix| <= |key| && key[..|prefix|] == prefix
  }

  lemma {:induction false} Irreflexive(a: Bytes)
    ensures !Less(a, a)
  {
    if a != [] {
      Irreflexive(a[1..]);
    }
  }

  lemma {:induction false} Transitive(a: Bytes, b: Bytes, c: Bytes)
    requires Less(a, b) && Less(b, c)
    ensures Less(a, c)
  {
    if a != [] && a[0] == b[0] == c[0] {
      Transitive(a[1..], b[1..], c[1..]);
    }
  }

  lemma {:induction false} Total(a: Bytes, b: Bytes)
    ensures Less(a, b) || a == b || Less(b, a)
  {
    if a != [] && b != [] && a[0] == b[0] {
      Total(a[1..], b[1..]);
      assert a == [a[0]] + a[1..] && b == [b[0]] + b[1..];
    }
  }

  lemma Asymmetric(a: Bytes, b: Bytes)
    requires Less(a, b)
    ensures !Less(b, a) && a != b
  {
    Irreflexive(a);
    if Less(b, a) {
      Transitive(a, b, a);
    }
  }

  /** Nothing lies between a key and the key followed by a zero byte. */
  lemma {:induction false} Successor(a: Bytes, key: Bytes)
    ensures Less(a, key) <==> !Less(key, a + [0])
  {
    if a != [] && key != [] {
      assert (a + [0])[1..] == a[1..] + [0];
      Successor(a[1..], key[1..]);
    }
  }

  lemma {:induction false} PrefixIsNotAbove(key: Bytes, prefix: Bytes)
    requires HasPrefix(key, prefix)
    ensures !Less(key, prefix)
  {
    if prefix != [] {
      PrefixIsNotAbove(key[1..], prefix[1..]);
    }
  }

  predicate Nested(a: Bytes, b: Bytes) {
    HasPrefix(a, b) || HasPrefix(b, a)
  }

  /** Two strings of which neither starts with the other are ordered as all their extensions are. */
  lemma {:induction false} ExtensionsKeepOrder(a: Bytes, b: Bytes, x: Bytes, y: Bytes)
    requires !Nested(a, b) && HasPrefix(x, a) && HasPrefix(y, b)
    ensures Less(x, y) <==> Less(a, b)
  {
    assert a != [] && b != [];
    assert x[0] == a[0] && y[0] == b[0];
    if a[0] == b[0] {
      assert a == [a[0]] + a[1..] && b == [b[0]] + b[1..];
      ExtensionsKeepOrder(a[1..], b[1..], x[1..], y[1..]);
    }
  }

  // ── sequences in the order of their names ─────────────────────────────────

  ghost predicate Ascending<T(!new)>(s: seq<T>, name: T -> Bytes) {
    forall i, j :: 0 <= i < j < |s| ==> Less(name(s[i]), name(s[j]))
  }

  lemma LastIsGreatest<T(!new)>(s: seq<T>, name: T -> Bytes, x: T)
    requires Ascending(s, name) && s != []
    ensures x in s ==> x == s[|s| - 1] || Less(name(x), name(s[|s| - 1]))
    ensures x in s[..|s| - 1] <==> x in s && x != s[|s| - 1]
  {
    Irreflexive(name(s[|s| - 1]));
    if x in s {
      var i :| 0 <= i < |s| && s[i] == x;
      if i < |s| - 1 {
        assert s[..|s| - 1][i] == x;
      }
    }
  }

  /** An ascending sequence is determined by its elements. */
  lemma {:induction false} AscendingEqual<T(!new)>(a: seq<T>, b: seq<T>, name: T -> Bytes)
    requires Ascending(a, name) && Ascending(b, name) && forall x :: x in a <==> x in b
    ensures a == b
  {
    assert a != [] ==> a[|a| - 1] in a;
    assert b != [] ==> b[|b| - 1] in b;
    if a != [] {
      var a', b' := a[..|a| - 1], b[..|b| - 1];
      var x, y := a[|a| - 1], b[|b| - 1];
      LastIsGreatest(a, name, y);
      LastIsGreatest(b, name, x);
      assert x == y by {
        if Less(name(x), name(y)) {
          Asymmetric(name(x), name(y));
        }
      }
      forall z ensures z in a' <==> z in b' {
        LastIsGreatest(a, name, z);
        LastIsGreatest(b, name, z);
      }
      AscendingEqual(a', b', name);
      assert a == a' + [x] && b == b' + [y];
    }
  }

  // ── the range of a prefix ─────────────────────────────────────────────────

  /** The least string above everything that starts with p, if there is one. */
  function Incremented(p: Bytes): Option<Bytes> {
    if p == [] then None
    else if p[|p| - 1] < 255 then Some(p[..|p| - 1] + [p[|p| - 1] + 1])
    else Incremented(p[..|p| - 1])
  }

  predicate Below(key: Bytes, bound: Option<Bytes>) {
    bound.Some? ==> Less(key, bound.value)
  }

  lemma {:induction false} IncrementedFromTheFront(x: Byte, t: Bytes)
    ensures Incremented([x] + t) ==
            if Incremented(t).Some? then Some([x] + Incremented(t).value)
            else if x < 255 then Some([x + 1]) else None
  {
    var p := [x] + t;
    if t == [] {
      assert p[..|p| - 1] == [] && p[|p| - 1] == x;
      assert x < 255 ==> [] + [x + 1] == [x + 1];
    } else {
      assert p[..|p| - 1] == [x] + t[..|t| - 1] && p[|p| - 1] == t[|t| - 1];
      if t[|t| - 1] == 255 {
        IncrementedFromTheFront(x, t[..|t| - 1]);
      } else {
        assert [x] + (t[..|t| - 1] + [t[|t| - 1] + 1]) == ([x] + t[..|t| - 1]) + [t[|t| - 1] + 1];
      }
    }
  }

  /** The computed range holds exactly the keys with the prefix. */
  lemma {:induction false} PrefixRange(key: Bytes, prefix: Bytes)
    ensures HasPrefix(key, prefix) <==> !Less(key, prefix) && Below(key, Incremented(prefix))
  {
    if prefix != [] && key != [] {
      assert prefix == [prefix[0]] + prefix[1..] && key == [key[0]] + key[1..];
      IncrementedFromTheFront(prefix[0], prefix[1..]);
      PrefixRange(key[1..], prefix[1..]);
      var rest := Incremented(prefix[1..]);
      assert rest.Some? ==> ([prefix[0]] + rest.value)[1..] == rest.value;
      var bound := Incremented(prefix);
      if rest.Some? {
        assert bound == Some([prefix[0]] + rest.value);
        assert Below(key, bound) <==> key[0] < prefix[0] || (key[0] == prefix[0] && Below(key[1..], rest));
      } else if prefix[0] < 255 {
        assert bound.value == [prefix[0] + 1] && !Less(key[1..], bound.value[1..]);
        assert Below(key, bound) <==> key[0] <= prefix[0];
      } else {
        assert Below(key, bound);
      }
      assert HasPrefix(key, prefix) <==> key[0] == prefix[0] && HasPrefix(key[1..], prefix[1..]);
    }
  }

  datatype Upper = Panics | NoUpper | Upper(bound: Bytes)

  /** increment_prefix: the last byte that is not 0xFF goes up by one, and the bytes after it go. The
      result is made a string, which panics on malformed UTF-8. */
  method IncrementPrefix(prefix: Bytes) returns (r: Upper)
    ensures r == match Incremented(prefix)
                 case None => NoUpper
                 case Some(b) => if Utf8(b) then Upper(b) else Panics
  {
    var bytes := prefix;
    while bytes != [] && bytes[|bytes| - 1] == 255
      invariant Incremented(bytes) == Incremented(prefix)
      decreases |bytes|
    {
      bytes := bytes[..|bytes| - 1];
    }
    if bytes == [] {
      return NoUpper;
    }
    bytes := bytes[..|bytes| - 1] + [bytes[|bytes| - 1] + 1];
    r := if Utf8(bytes) then Upper(bytes) else Panics;
  }

  // ── UTF-8 (section 4 of RFC 3629) ─────────────────────────────────────────

  predicate Tail(b: Byte) {
    0x80 <= b <= 0xBF
  }

  /** Length of the well-formed character at the front, 0 if there is none. */
  function CharLength(b: Bytes): (n: nat)
    ensures n <= |b|
  {
    if b == [] then 0
    else if b[0] <= 0x7F then 1
    else if |b| >= 2 && 0xC2 <= b[0] <= 0xDF && Tail(b[1]) then 2
    else if |b| >= 3 && ThreeLead(b[0], b[1]) && Tail(b[2]) then 3
    else if |b| >= 4 && FourLead(b[0], b[1]) && Tail(b[2]) && Tail(b[3]) then 4
    else 0
  }

  predicate ThreeLead(a: Byte, b: Byte) {
    || (a == 0xE0 && 0xA0 <= b <= 0xBF)
    || (0xE1 <= a <= 0xEC && Tail(b))
    || (a == 0xED && 0x80 <= b <= 0x9F)
    || (0xEE <= a <= 0xEF && Tail(b))
  }

  predicate FourLead(a: Byte, b: Byte) {
    || (a == 0xF0 && 0x90 <= b <= 0xBF)
    || (0xF1 <= a <= 0xF3 && Tail(b))
    || (a == 0xF4 && 0x80 <= b <= 0x8F)
  }

  predicate Utf8(b: Bytes)
    decreases |b|
  {
    b == [] || (CharLength(b) != 0 && Utf8(b[CharLength(b)..]))
  }

  function Bumped(b: Bytes): Bytes
    requires b != [] && b[|b| - 1] < 255
  {
    b[..|b| - 1] + [b[|b| - 1] + 1]
  }

  /** A well-formed string never ends in 0xFF, and bumping its last byte keeps it well formed exactly
      when that byte is not the last of its kind. */
  lemma {:induction false} BumpedUtf8(b: Bytes)
    requires Utf8(b) && b != []
    ensures b[|b| - 1] < 255
    ensures Utf8(Bumped(b)) <==> b[|b| - 1] != 0x7F && b[|b| - 1] != 0xBF
    decreases |b|
  {
    var n := CharLength(b);
    if n < |b| {
      BumpedUtf8(b[n..]);
      assert b[n..][|b[n..]| - 1] == b[|b| - 1];
      assert Bumped(b)[..n] == b[..n] && Bumped(b)[n..] == Bumped(b[n..]);
      FrontCharacter(b, Bumped(b), n);
    } else {
      BumpedCharacter(b);
    }
  }

  lemma FrontCharacter(b: Bytes, b': Bytes, n: nat)
    requires n == CharLength(b) && n != 0 && n <= |b'| && b'[..n] == b[..n]
    ensures CharLength(b') == n
  {
    assert forall i :: 0 <= i < n ==> b'[i] == b'[..n][i] == b[..n][i] == b[i];
  }

  lemma BumpedCharacter(b: Bytes)
    requires b != [] && CharLength(b) == |b|
    ensures b[|b| - 1] <= 0xBF
    ensures Utf8(Bumped(b)) <==> b[|b| - 1] != 0x7F && b[|b| - 1] != 0xBF
  {
    var c := Bumped(b);
    assert c[CharLength(c)..] == [] || CharLength(c) != |c|;
  }

  /** The listing of a well-formed prefix panics exactly when its last byte is 0x7F or 0xBF. */
  lemma IncrementPanicsIff(prefix: Bytes)
    requires Utf8(prefix)
    ensures Incremented(prefix).Some? && !Utf8(Incremented(prefix).value) <==>
            prefix != [] && prefix[|prefix| - 1] in {0x7F, 0xBF}
  {
    if prefix != [] {
      BumpedUtf8(prefix);
    }
  }
}
