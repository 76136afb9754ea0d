/** UTF-8 over bytes, where a byte is a `char` below 256: the check, and what it is a check for. */
module Unicode {

  predicate Between(c: char, lo: int, hi: int) { lo <= c as int <= hi }

  /** Length of the UTF-8 sequence at the head of `s`, 0 if there is none: the table in section 4 of RFC 3629. */
  function Utf8Head(s: string): (n: nat)
    requires s != []
    ensures n <= |s|
  {
    var b := s[0] as int;
    if b < 0x80 then 1
    else if 0xC2 <= b <= 0xDF && |s| >= 2 && Between(s[1], 0x80, 0xBF) then 2
    else if 0xE0 <= b <= 0xEF && |s| >= 3 && Between(s[2], 0x80, 0xBF)
            && Between(s[1], if b == 0xE0 then 0xA0 else 0x80, if b == 0xED then 0x9F else 0xBF) then 3
    else if 0xF0 <= b <= 0xF4 && |s| >= 4 && Between(s[2], 0x80, 0xBF) && Between(s[3], 0x80, 0xBF)
            && Between(s[1], if b == 0xF0 then 0x90 else 0x80, if b == 0xF4 then 0x8F else 0xBF) then 4
    else 0
  }

  predicate Utf8(s: string)
  {
    s == [] || (Utf8Head(s) > 0 && Utf8(s[Utf8Head(s)..]))
  }

  // ------------------------------------------------------ what it is a check for

  /** Section 3 of RFC 3629: up to U+10FFFF, without the surrogates. */
  predicate Scalar(c: nat) { c < 0xD800 || 0xE000 <= c < 0x110000 }

  function Tail(c: nat): char { (0x80 + c % 64) as char }

  function EncodeScalar(c: nat): string
    requires Scalar(c)
  {
    if c < 0x80 then [c as char]
    else if c < 0x800 then [(0xC0 + c / 64) as char, Tail(c)]
    else if c < 0x10000 then [(0xE0 + c / 4096) as char, Tail(c / 64), Tail(c)]
    else [(0xF0 + c / 262144) as char, Tail(c / 4096), Tail(c / 64), Tail(c)]
  }

  ghost predicate Scalars(cs: seq<nat>) { forall i :: 0 <= i < |cs| ==> Scalar(cs[i]) }

  function EncodeScalars(cs: seq<nat>): string
    requires Scalars(cs)
  {
    if cs == [] then [] else EncodeScalar(cs[0]) + EncodeScalars(cs[1..])
  }

  /** A scalar in its digits to the base 64. */
  lemma Digits(c: nat) returns (a: nat, x: nat, y: nat, z: nat)
    ensures x < 64 && y < 64 && z < 64 && c == 64 * (64 * (64 * a + x) + y) + z
    ensures c / 64 == 64 * (64 * a + x) + y && c / 4096 == 64 * a + x && c / 262144 == a
    ensures Tail(c) as int == 0x80 + z && Tail(c / 64) as int == 0x80 + y && Tail(c / 4096) as int == 0x80 + x
  {
    z, y, x, a := c % 64, c / 64 % 64, c / 4096 % 64, c / 262144;
    assert c / 4096 == c / 64 / 64 && c / 262144 == c / 4096 / 64;
  }

  /** Digits determine the scalar. */
  lemma DigitsAre(c: nat, a: nat, x: nat, y: nat, z: nat)
    requires x < 64 && y < 64 && z < 64 && c == 64 * (64 * (64 * a + x) + y) + z
    ensures c / 64 == 64 * (64 * a + x) + y && c / 4096 == 64 * a + x && c / 262144 == a
    ensures Tail(c) as int == 0x80 + z && Tail(c / 64) as int == 0x80 + y && Tail(c / 4096) as int == 0x80 + x
  {
    var a', x', y', z' := Digits(c);
    assert z' == z && y' == y && x' == x;
  }

  lemma HeadOfScalar(c: nat, rest: string)
    requires Scalar(c)
    ensures Utf8Head(EncodeScalar(c) + rest) == |EncodeScalar(c)|
  {
    var a, x, y, z := Digits(c);
    hide Tail;
    var head := EncodeScalar(c);
    var s := head + rest;
    assert s[0] == head[0];
    if c >= 0x80 {
      assert s[1] == head[1];
    }
    if c >= 0x800 {
      assert s[2] == head[2];
    }
    if c >= 0x10000 {
      assert s[3] == head[3];
    }
  }

  lemma ScalarOfTwo(s: string) returns (c: nat)
    requires |s| == 2 && Utf8Head(s) == 2
    ensures Scalar(c) && EncodeScalar(c) == s
  {
    var y, z := s[0] as nat - 0xC0, s[1] as nat - 0x80;
    c := 64 * y + z;
    DigitsAre(c, 0, 0, y, z);
    hide Tail;
  }

  lemma ScalarOfThree(s: string) returns (c: nat)
    requires |s| == 3 && Utf8Head(s) == 3
    ensures Scalar(c) && EncodeScalar(c) == s
  {
    var x, y, z := s[0] as nat - 0xE0, s[1] as nat - 0x80, s[2] as nat - 0x80;
    c := 64 * (64 * x + y) + z;
    DigitsAre(c, 0, x, y, z);
    hide Tail;
  }

  lemma ScalarOfFour(s: string) returns (c: nat)
    requires |s| == 4 && Utf8Head(s) == 4
    ensures Scalar(c) && EncodeScalar(c) == s
  {
    var a, x, y, z := s[0] as nat - 0xF0, s[1] as nat - 0x80, s[2] as nat - 0x80, s[3] as nat - 0x80;
    c := 64 * (64 * (64 * a + x) + y) + z;
    DigitsAre(c, a, x, y, z);
    hide Tail;
  }

  lemma HeadAlone(s: string)
    requires s != [] && Utf8Head(s) > 0
    ensures Utf8Head(s[..Utf8Head(s)]) == Utf8Head(s)
  {}

  /** What a well-formed head encodes. */
  lemma ScalarOfHead(s: string) returns (c: nat)
    requires s != [] && Utf8Head(s) > 0
    ensures Scalar(c) && EncodeScalar(c) == s[..Utf8Head(s)]
  {
    var n := Utf8Head(s);
    HeadAlone(s);
    if n == 1 {
      c := s[0] as nat;
    } else {
      assert n == 2 || n == 3 || n == 4;
      hide Utf8Head, EncodeScalar;
      if n == 2 {
        c := ScalarOfTwo(s[..2]);
      } else if n == 3 {
        c := ScalarOfThree(s[..3]);
      } else {
        c := ScalarOfFour(s[..4]);
      }
    }
  }

  lemma {:induction false} EncodedScalarsAreUtf8(cs: seq<nat>)
    requires Scalars(cs)
    ensures Utf8(EncodeScalars(cs))
  {
    if cs != [] {
      EncodedScalarsAreUtf8(cs[1..]);
      HeadOfScalar(cs[0], EncodeScalars(cs[1..]));
      var head, rest := EncodeScalar(cs[0]), EncodeScalars(cs[1..]);
      assert (head + rest)[|head|..] == rest;
      assert head != [];
      hide EncodeScalar, Utf8Head;
    }
  }

  lemma {:induction false} Utf8IsEncoded(s: string) returns (cs: seq<nat>)
    requires Utf8(s)
    ensures Scalars(cs) && EncodeScalars(cs) == s
    decreases |s|
  {
    cs := [];
    if s != [] {
      var n := Utf8Head(s);
      var head, tail := s[..n], s[n..];
      assert n > 0 && Utf8(tail) && s == head + tail && |tail| < |s|;
      hide *;
      var c := ScalarOfHead(s);
      var rest := Utf8IsEncoded(tail);
      cs := [c] + rest;
      ScalarInFront(c, rest);
    }
  }

  lemma ScalarInFront(c: nat, rest: seq<nat>)
    requires Scalar(c) && Scalars(rest)
    ensures Scalars([c] + rest) && EncodeScalars([c] + rest) == EncodeScalar(c) + EncodeScalars(rest)
  {
    hide EncodeScalar;
    assert ([c] + rest)[1..] == rest;
  }

  /** The check accepts exactly the encodings of sequences of scalar values. */
  lemma Utf8Iff(s: string)
    ensures Utf8(s) <==> exists cs :: Scalars(cs) && EncodeScalars(cs) == s
  {
    hide Utf8, EncodeScalars;
    if Utf8(s) {
      var cs := Utf8IsEncoded(s);
    }
    if cs :| Scalars(cs) && EncodeScalars(cs) == s {
      EncodedScalarsAreUtf8(cs);
    }
  }
}
