/** Bytes, sums modulo 256 and checksum bytes. */
module Bytes {

  type byte = b: int | 0 <= b < 256

  datatype Option<T> = None | Some(value: T)

  function Sum(s: seq<byte>): (n: nat)
  {
    if s == [] then 0 else s[0] + Sum(s[1..])
  }

  lemma Multiple(n: nat, q: nat)
    requires n == 256 * q
    ensures n % 256 == 0
  {
  }

  lemma NegateCompletes(sum: nat, q: nat, r: nat)
    requires sum == 256 * q + r && r < 256
    ensures (sum + (256 - r) % 256) % 256 == 0
  {
    Multiple(sum + (256 - r) % 256, if r == 0 then q else q + 1);
  }

  /** The byte that brings a running sum to a multiple of 256. */
  function Negate(sum: nat): (b: byte)
    ensures (sum + b) % 256 == 0
  {
    NegateCompletes(sum, sum / 256, sum % 256);
    (256 - sum % 256) % 256
  }

  function Zeros(n: nat): (s: seq<byte>)
    ensures |s| == n && forall i :: 0 <= i < n ==> s[i] == 0
  {
    seq(n, _ => 0)
  }

  /** A block followed by its checksum byte. */
  function Sealed(body: seq<byte>): (s: seq<byte>)
    ensures |s| == |body| + 1 && s[..|body|] == body
  {
    body + [Negate(Sum(body))]
  }

  lemma {:induction false} SumConcat(s: seq<byte>, t: seq<byte>)
    ensures Sum(s + t) == Sum(s) + Sum(t)
  {
    if s == [] {
      assert s + t == t;
    } else {
      assert (s + t)[1..] == s[1..] + t;
      SumConcat(s[1..], t);
    }
  }

  lemma SumSealed(body: seq<byte>)
    ensures Sum(Sealed(body)) % 256 == 0
  {
    SumConcat(body, [Negate(Sum(body))]);
    assert Sum([Negate(Sum(body))]) == Negate(Sum(body));
  }

  lemma SumStep(s: seq<byte>, i: nat)
    requires i < |s|
    ensures Sum(s[..i + 1]) == Sum(s[..i]) + s[i]
  {
    assert s[..i + 1] == s[..i] + [s[i]];
    SumConcat(s[..i], [s[i]]);
    assert Sum([s[i]]) == s[i];
  }

  lemma SubSlice(s: seq<byte>, a: nat, b: nat, i: nat, j: nat)
    requires a <= b <= |s| && i <= j <= b - a
    ensures s[a..b][i..j] == s[a + i..a + j]
  {
    var t := s[a..b];
    assert |t[i..j]| == |s[a + i..a + j]|;
    assert forall k :: 0 <= k < j - i ==> t[i..j][k] == t[i + k] == s[a + i + k];
  }

  /** Behind a prefix, everything is shifted by its length. */
  lemma Behind(head: seq<byte>, tail: seq<byte>, i: nat, j: nat)
    requires i < j <= |tail|
    ensures (head + tail)[|head| + i..|head| + j] == tail[i..j]
    ensures (head + tail)[|head| + i] == tail[i]
  {
  }

  /** The running sum of a stretch of a buffer. */
  method SumOf(a: array<byte>, from: nat, to: nat) returns (sum: nat)
    requires from <= to <= a.Length
    ensures sum == Sum(a[from..to])
  {
    sum := 0;
    var i := from;
    while i < to
      invariant from <= i <= to && sum == Sum(a[from..i])
    {
      SumStep(a[from..i + 1], i - from);
      assert a[from..i + 1][..i - from] == a[from..i];
      assert a[from..i + 1][..i + 1 - from] == a[from..i + 1];
      sum := sum + a[i];
      i := i + 1;
    }
  }
}
