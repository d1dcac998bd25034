/** Bytes, and the searches in byte sequences that Go's `bytes`, `strings` and `bufio` packages provide. */
module Bytes {
  type Byte = b: int | 0 <= b < 256

  const NEWLINE: Byte := 10
  const RETURN: Byte := 13
  const SPACE: Byte := 32
  const COLON: Byte := 58

  /** What a sequence of reads delivers. */
  function Flatten(chunks: seq<seq<Byte>>): seq<Byte> {
    if chunks == [] then [] else chunks[0] + Flatten(chunks[1..])
  }

  lemma {:induction false} FlattenAppend(a: seq<seq<Byte>>, b: seq<seq<Byte>>)
    ensures Flatten(a + b) == Flatten(a) + Flatten(b)
  {
    if a == [] {
      assert a + b == b;
    } else {
      FlattenAppend(a[1..], b);
      assert (a + b)[0] == a[0] && (a + b)[1..] == a[1..] + b;
      Associative(a[0], Flatten(a[1..]), Flatten(b));
    }
  }

  lemma Associative<T>(a: seq<T>, b: seq<T>, c: seq<T>)
    ensures (a + b) + c == a + (b + c)
  {
  }

  /** The first index of `b`, or the length when there is none. */
  function IndexOf(s: seq<Byte>, b: Byte): (i: nat)
    ensures i <= |s| && b !in s[..i] && (i < |s| ==> s[i] == b)
  {
    if s == [] || s[0] == b then 0
    else
      var i := 1 + IndexOf(s[1..], b);
      assert s[..i] == [s[0]] + s[1..][..i - 1];
      i
  }

  lemma IndexOfUnique(s: seq<Byte>, b: Byte, i: nat)
    requires i <= |s| && b !in s[..i] && (i < |s| ==> s[i] == b)
    ensures IndexOf(s, b) == i
  {
    var j := IndexOf(s, b);
    assert forall k :: 0 <= k < i ==> s[k] == s[..i][k];
    assert forall k :: 0 <= k < j ==> s[k] == s[..j][k];
  }

  lemma IndexOfAfter(s: seq<Byte>, b: Byte, n: nat)
    requires n <= |s| && b !in s[..n]
    ensures n <= IndexOf(s, b)
  {
    assert forall k :: 0 <= k < n ==> s[k] == s[..n][k];
  }
}
