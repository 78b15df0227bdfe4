/** Bytes, big-endian 16-bit fields and optional values shared by every module. */
module Prelude {
  datatype Option<+T> = None | Some(value: T)

  datatype Result<+T, +E> = Ok(value: T) | Err(error: E)

  type byte = b: int | 0 <= b < 0x100

  type bytes = seq<byte>

  type u16 = n: int | 0 <= n < 0x1_0000

  type u64 = n: int | 0 <= n < 0x1_0000_0000_0000_0000

  const U16_MAX := 0xFFFF

  const U32_MAX := 0xFFFF_FFFF

  const U64_MAX := 0xFFFF_FFFF_FFFF_FFFF

  /** Two big-endian bytes. */
  function ToBe16(n: u16): (r: bytes)
    ensures |r| == 2
  {
    [n / 0x100, n % 0x100]
  }

  function FromBe16(hi: byte, lo: byte): u16 {
    hi * 0x100 + lo
  }

  lemma Be16RoundTrip(n: u16, hi: byte, lo: byte)
    ensures FromBe16(ToBe16(n)[0], ToBe16(n)[1]) == n
    ensures ToBe16(FromBe16(hi, lo)) == [hi, lo]
  {
  }

  function Min(a: int, b: int): int {
    if a <= b then a else b
  }

  function Max(a: int, b: int): int {
    if a >= b then a else b
  }

  function Pow2(n: nat): (r: nat)
    ensures r >= 1
  {
    if n == 0 then 1 else 2 * Pow2(n - 1)
  }

  lemma {:induction false} Pow2Grows(a: nat, b: nat)
    requires a <= b
    ensures 1 <= Pow2(a) <= Pow2(b)
  {
    if a < b {
      Pow2Grows(a, b - 1);
    } else if a > 0 {
      Pow2Grows(a - 1, a - 1);
    }
  }

  lemma EightDoublings(k: nat)
    ensures Pow2(k + 8) == 0x100 * Pow2(k)
  {
    assert Pow2(k + 4) == 2 * Pow2(k + 3) == 4 * Pow2(k + 2) == 8 * Pow2(k + 1) == 16 * Pow2(k);
    assert Pow2(k + 8) == 2 * Pow2(k + 7) == 4 * Pow2(k + 6) == 8 * Pow2(k + 5) == 16 * Pow2(k + 4);
  }

  lemma {:induction false} ScaledGrows(base: nat, a: nat, b: nat)
    requires a <= b
    ensures base * Pow2(a) <= base * Pow2(b)
  {
    Pow2Grows(a, b);
    assert 0 <= base * (Pow2(b) - Pow2(a)) == base * Pow2(b) - base * Pow2(a);
  }

  /** The concatenation of all chunks, in order. */
  function Concat<T>(chunks: seq<seq<T>>): seq<T> {
    if chunks == [] then [] else chunks[0] + Concat(chunks[1..])
  }

  lemma ConcatCons<T>(x: seq<T>, a: seq<seq<T>>)
    ensures Concat([x] + a) == x + Concat(a)
  {
    assert ([x] + a)[1..] == a;
  }

  lemma Assoc<T>(a: seq<T>, b: seq<T>, c: seq<T>)
    ensures (a + b) + c == a + (b + c)
  {
  }

  lemma {:induction false} ConcatAppend<T>(a: seq<seq<T>>, b: seq<seq<T>>)
    ensures Concat(a + b) == Concat(a) + Concat(b)
  {
    if a == [] {
      assert a + b == b;
    } else {
      var tail := a[1..];
      assert a + b == [a[0]] + (tail + b);
      ConcatCons(a[0], tail + b);
      ConcatAppend(tail, b);
      Assoc(a[0], Concat(tail), Concat(b));
    }
  }

  lemma ConcatSnoc<T>(a: seq<seq<T>>, x: seq<T>)
    ensures Concat(a + [x]) == Concat(a) + x
  {
    ConcatAppend(a, [x]);
    assert Concat([x]) == x;
  }

  // ---- Splitting on a separator ----

  /** The pieces between separators, always at least one. */
  function SplitOn<T(==)>(s: seq<T>, sep: T): (r: seq<seq<T>>)
    ensures r != []
  {
    if s == [] then [[]]
    else
      var tail := SplitOn(s[1..], sep);
      if s[0] == sep then [[]] + tail else [[s[0]] + tail[0]] + tail[1..]
  }

  function JoinOn<T>(pieces: seq<seq<T>>, sep: T): seq<T>
    requires pieces != []
  {
    if |pieces| == 1 then pieces[0] else pieces[0] + [sep] + JoinOn(pieces[1..], sep)
  }

  ghost predicate NoneHolds<T>(pieces: seq<seq<T>>, sep: T) {
    forall i :: 0 <= i < |pieces| ==> sep !in pieces[i]
  }

  lemma {:induction false} SplitIsTheSplit<T>(s: seq<T>, sep: T)
    ensures JoinOn(SplitOn(s, sep), sep) == s && NoneHolds(SplitOn(s, sep), sep)
  {
    if s != [] {
      var tail := SplitOn(s[1..], sep);
      SplitIsTheSplit(s[1..], sep);
      assert s == [s[0]] + s[1..];
      if s[0] == sep {
        assert ([[]] + tail)[1..] == tail;
      } else {
        var r := [[s[0]] + tail[0]] + tail[1..];
        assert r[1..] == tail[1..];
        assert JoinOn(r, sep) == [s[0]] + JoinOn(tail, sep);
      }
    }
  }

  lemma {:induction false} SplitLast<T>(last: seq<T>, sep: T)
    requires sep !in last
    ensures SplitOn(last, sep) == [last]
  {
    if last != [] {
      SplitLast(last[1..], sep);
      assert [last[0]] + last[1..] == last;
    }
  }

  lemma {:induction false} SplitFirst<T>(first: seq<T>, sep: T, rest: seq<T>)
    requires sep !in first
    ensures SplitOn(first + ([sep] + rest), sep) == [first] + SplitOn(rest, sep)
  {
    var s := first + ([sep] + rest);
    if first == [] {
      assert s == [sep] + rest && s[1..] == rest;
    } else {
      SplitFirst(first[1..], sep, rest);
      assert s[1..] == first[1..] + ([sep] + rest);
      var tail := SplitOn(rest, sep);
      assert ([first[1..]] + tail)[0] == first[1..] && ([first[1..]] + tail)[1..] == tail;
      assert [first[0]] + first[1..] == first;
    }
  }

  /** Pieces without the separator are what their join splits into. */
  lemma {:induction false} SplitInvertsJoin<T>(pieces: seq<seq<T>>, sep: T)
    requires pieces != [] && NoneHolds(pieces, sep)
    ensures SplitOn(JoinOn(pieces, sep), sep) == pieces
  {
    if |pieces| == 1 {
      SplitLast(pieces[0], sep);
      assert [pieces[0]] == pieces;
    } else {
      var rest := JoinOn(pieces[1..], sep);
      assert NoneHolds(pieces[1..], sep);
      SplitInvertsJoin(pieces[1..], sep);
      SplitFirst(pieces[0], sep, rest);
      Assoc(pieces[0], [sep], rest);
      assert [pieces[0]] + pieces[1..] == pieces;
    }
  }
}
