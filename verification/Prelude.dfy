/** Vocabulary shared by every component: bytes, options and list flattening. */
module Prelude {

  datatype Option<+T> = None | Some(value: T)

  newtype Byte = b: int | 0 <= b < 256

  type Bytes = seq<Byte>

  function Min(a: int, b: int): int {
    if a <= b then a else b
  }

  function Max(a: int, b: int): int {
    if a <= b then b else a
  }

  function Flatten<T>(parts: seq<seq<T>>): seq<T> {
    if parts == [] then [] else parts[0] + Flatten(parts[1..])
  }

  lemma {:induction false} FlattenAppend<T>(a: seq<seq<T>>, b: seq<seq<T>>)
    ensures Flatten(a + b) == Flatten(a) + Flatten(b)
  {
    if a == [] {
      assert a + b == b;
    } else {
      assert (a + b)[1..] == a[1..] + b;
      FlattenAppend(a[1..], b);
      assert a[0] + Flatten(a[1..] + b) == (a[0] + Flatten(a[1..])) + Flatten(b);
    }
  }

  lemma FlattenSnoc<T>(a: seq<seq<T>>, x: seq<T>)
    ensures Flatten(a + [x]) == Flatten(a) + x
  {
    FlattenAppend(a, [x]);
    assert [x][1..] == [];
  }

  lemma FlattenUpTo<T>(a: seq<seq<T>>, i: nat)
    requires i < |a|
    ensures Flatten(a[..i + 1]) == Flatten(a[..i]) + a[i]
  {
    assert a[..i + 1] == a[..i] + [a[i]];
    FlattenSnoc(a[..i], a[i]);
  }

  lemma Assoc<T>(a: seq<T>, b: seq<T>, c: seq<T>)
    ensures a + (b + c) == (a + b) + c
  {
  }

  lemma SliceOfTail<T>(s: seq<T>, k: nat, lo: nat, hi: nat)
    requires k <= |s| && lo <= hi <= |s| - k
    ensures s[k..][lo..hi] == s[k + lo..k + hi]
  {
  }

  lemma TailOfTail<T>(s: seq<T>, k: nat, at: nat)
    requires k + at <= |s|
    ensures s[k..][at..] == s[k + at..]
  {
  }
}
