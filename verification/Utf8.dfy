/** UTF-8 (section 3 of RFC 3629): what `str::as_bytes` writes and `str::from_utf8` accepts. */
module Utf8 {
  import opened Wrappers
  import opened SpoolNames

  type Byte = n: nat | n < 0x100

  predicate IsScalar(v: int) {
    0 <= v < 0xD800 || 0xE000 <= v < 0x11_0000
  }

  /** The six-bit groups of a value, most significant first, under the marks of each length. */
  function EncodeChar(c: char): (b: seq<Byte>)
    ensures 1 <= |b| <= 4
  {
    var v := c as int;
    var w := v / 0x40;
    var x := w / 0x40;
    if v < 0x80 then [v]
    else if v < 0x800 then [0xC0 + w, 0x80 + v % 0x40]
    else if v < 0x1_0000 then [0xE0 + x, 0x80 + w % 0x40, 0x80 + v % 0x40]
    else [0xF0 + x / 0x40, 0x80 + x % 0x40, 0x80 + w % 0x40, 0x80 + v % 0x40]
  }

  predicate IsTail(b: Byte) {
    0x80 <= b < 0xC0
  }

  /** How many bytes a leading byte announces; 0 for one that cannot lead. */
  function Announced(b: Byte): nat {
    if b < 0x80 then 1
    else if b < 0xC0 then 0
    else if b < 0xE0 then 2
    else if b < 0xF0 then 3
    else if b < 0xF8 then 4
    else 0
  }

  /** What a leading byte contributes once its mark is taken off. */
  function Lead(b: Byte, n: nat): int {
    b as int - (if n <= 1 then 0 else if n == 2 then 0xC0 else if n == 3 then 0xE0 else 0xF0)
  }

  /** The value the first `n` bytes spell. */
  function Spelled(b: seq<Byte>, n: nat): int
    requires 1 <= n <= |b|
  {
    if n == 1 then Lead(b[0], 1)
    else if n == 2 then Append(Lead(b[0], 2), b[1])
    else if n == 3 then Append(Append(Lead(b[0], 3), b[1]), b[2])
    else if n <= |b| && n == 4 then Append(Append(Append(Lead(b[0], 4), b[1]), b[2]), b[3])
    else -1
  }

  function Append(v: int, b: Byte): int {
    v * 0x40 + (b as int - 0x80)
  }

  /** The least value that needs `n` bytes: anything below is an overlong form. */
  function Least(n: nat): int {
    if n <= 1 then 0 else if n == 2 then 0x80 else if n == 3 then 0x800 else 0x1_0000
  }

  /** One character off the front of a byte string, with its length, or nothing if it is not UTF-8. */
  function DecodeChar(b: seq<Byte>): (r: Option<(char, nat)>)
    ensures r.Some? ==> 1 <= r.value.1 <= |b|
  {
    if b == [] then None
    else
      var n := Announced(b[0]);
      if n == 0 || n > |b| || exists i :: 1 <= i < n && !IsTail(b[i]) then None
      else
        var v := Spelled(b, n);
        if Least(n) <= v && IsScalar(v) then Some((v as char, n)) else None
  }

  function Encode(s: string): seq<Byte> {
    if s == "" then [] else EncodeChar(s[0]) + Encode(s[1..])
  }

  function Decode(b: seq<Byte>): Option<string> {
    if b == [] then Some("")
    else
      match DecodeChar(b)
      case None => None
      case Some((c, n)) =>
        match Decode(b[n..])
        case None => None
        case Some(rest) => Some([c] + rest)
  }

  lemma CharRoundTrip(c: char, rest: seq<Byte>)
    ensures DecodeChar(EncodeChar(c) + rest) == Some((c, |EncodeChar(c)|))
  {
    var e := EncodeChar(c);
    var b := e + rest;
    var n := |e|;
    assert forall i :: 0 <= i < n ==> b[i] == e[i];
    assert Announced(b[0]) == n && forall i :: 1 <= i < n ==> IsTail(b[i]);
    assert Spelled(b, n) == c as int;
  }

  lemma AppendSplits(v: int, b: Byte)
    requires IsTail(b) && 0 <= v
    ensures Append(v, b) / 0x40 == v && 0x80 + Append(v, b) % 0x40 == b as int
  {
  }

  /** The only bytes one character can be spelled with. */
  lemma CharSpelling(b: seq<Byte>)
    requires DecodeChar(b).Some?
    ensures EncodeChar(DecodeChar(b).value.0) == b[..DecodeChar(b).value.1]
  {
    var n := Announced(b[0]);
    assert forall i :: 1 <= i < n ==> IsTail(b[i]);
    if n == 2 {
      AppendSplits(Lead(b[0], 2), b[1]);
    } else if n == 3 {
      AppendSplits(Lead(b[0], 3), b[1]);
      AppendSplits(Append(Lead(b[0], 3), b[1]), b[2]);
    } else if n == 4 {
      AppendSplits(Lead(b[0], 4), b[1]);
      AppendSplits(Append(Lead(b[0], 4), b[1]), b[2]);
      AppendSplits(Append(Append(Lead(b[0], 4), b[1]), b[2]), b[3]);
    }
  }

  /** Every string survives being written as bytes and read back. */
  lemma {:induction false} StringRoundTrip(s: string)
    ensures Decode(Encode(s)) == Some(s)
    decreases |s|
  {
    if s != "" {
      CharRoundTrip(s[0], Encode(s[1..]));
      StringRoundTrip(s[1..]);
      assert Encode(s)[|EncodeChar(s[0])|..] == Encode(s[1..]);
      assert [s[0]] + s[1..] == s;
    }
  }

  lemma DecodeSplits(b: seq<Byte>)
    requires b != [] && Decode(b).Some?
    ensures DecodeChar(b).Some?
    ensures var (c, n) := DecodeChar(b).value; Decode(b[n..]).Some? && Decode(b).value == [c] + Decode(b[n..]).value
  {
  }

  lemma EncodeSplits(c: char, rest: string)
    ensures Encode([c] + rest) == EncodeChar(c) + Encode(rest)
  {
    assert ([c] + rest)[1..] == rest;
  }

  lemma SpellingsJoin(b: seq<Byte>, c: char, n: nat, rest: string)
    requires n <= |b| && EncodeChar(c) == b[..n] && Encode(rest) == b[n..]
    ensures Encode([c] + rest) == b
  {
    EncodeSplits(c, rest);
    assert b == b[..n] + b[n..];
  }

  /** Bytes that are read as a string are the bytes that string is written as. */
  lemma {:induction false} BytesRoundTrip(b: seq<Byte>)
    requires Decode(b).Some?
    ensures Encode(Decode(b).value) == b
    decreases |b|
  {
    if b != [] {
      DecodeSplits(b);
      var (c, n) := DecodeChar(b).value;
      BytesRoundTrip(b[n..]);
      CharSpelling(b);
      SpellingsJoin(b, c, n, Decode(b[n..]).value);
    }
  }

  /** A byte string is read exactly when it is some string's encoding. */
  lemma OnlyEncodingsAreRead(b: seq<Byte>)
    ensures Decode(b).Some? <==> exists s :: Encode(s) == b
  {
    if Decode(b).Some? {
      BytesRoundTrip(b);
    } else if exists s :: Encode(s) == b {
      var s :| Encode(s) == b;
      StringRoundTrip(s);
    }
  }

  /** An ASCII byte occurs in an encoding exactly where its character occurs in the string. */
  lemma {:induction false} AsciiStaysItself(s: string, a: char)
    requires (a as int) < 0x80
    ensures (a as int) in Encode(s) <==> a in s
    decreases |s|
  {
    if s != "" {
      AsciiStaysItself(s[1..], a);
      var e := EncodeChar(s[0]);
      assert (a as int) in e <==> a == s[0] by {
        if s[0] as int < 0x80 { assert e == [s[0] as int]; } else { assert forall x :: x in e ==> x >= 0x80; }
      }
      assert s == [s[0]] + s[1..];
    }
  }
}
