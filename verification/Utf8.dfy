/** UTF-8 (section 3 of RFC 3629) over Unicode scalar values, and Python's `errors="ignore"` decoding. */
module Utf8 {
  import opened Wrappers

  type Byte = b: int | 0 <= b < 256

  /** The octets of one scalar value: one to four of them. */
  function EncodeChar(c: char): seq<Byte> {
    var p := c as int;
    if p < 0x80 then [p]
    else if p < 0x800 then [0xC0 + p / 64, 0x80 + p % 64]
    else if p < 0x1_0000 then [0xE0 + p / 4096, 0x80 + p / 64 % 64, 0x80 + p % 64]
    else [0xF0 + p / 262144, 0x80 + p / 4096 % 64, 0x80 + p / 64 % 64, 0x80 + p % 64]
  }

  function Encode(s: string): seq<Byte> {
    if s == [] then [] else EncodeChar(s[0]) + Encode(s[1..])
  }

  predicate IsContinuation(b: Byte) { 0x80 <= b < 0xC0 }

  /** The number of octets a leading octet announces; zero for an octet that leads nothing. */
  function Announced(b: Byte): nat {
    if b < 0x80 then 1
    else if 0xC0 <= b < 0xE0 then 2
    else if 0xE0 <= b < 0xF0 then 3
    else if 0xF0 <= b < 0xF8 then 4
    else 0
  }

  /** The code point spelled by an announced group, however long it need have been. */
  function Spelled(b: seq<int>): int
    requires 0 < |b| <= 4
  {
    if |b| == 1 then b[0]
    else if |b| == 2 then (b[0] - 0xC0) * 64 + (b[1] - 0x80)
    else if |b| == 3 then (b[0] - 0xE0) * 4096 + (b[1] - 0x80) * 64 + (b[2] - 0x80)
    else (b[0] - 0xF0) * 262144 + (b[1] - 0x80) * 4096 + (b[2] - 0x80) * 64 + (b[3] - 0x80)
  }

  predicate IsScalar(p: int) { 0 <= p < 0xD800 || 0xE000 <= p < 0x11_0000 }

  /** The scalar value the octets begin with, when they begin with a complete, shortest-form encoding. */
  function DecodeHead(b: seq<Byte>): (r: Option<char>)
    requires b != []
    ensures r.Some? ==> EncodeChar(r.value) <= b
  {
    var n := Announced(b[0]);
    if n == 0 || n > |b| || !(forall i :: 1 <= i < n ==> IsContinuation(b[i])) then None
    else
      var p := Spelled(b[..n]);
      if !IsScalar(p) || EncodeChar(p as char) != b[..n] then None else Some(p as char)
  }

  /** `b.decode("utf-8", errors="ignore")`: octets that belong to no valid encoding are dropped. */
  function DecodeIgnore(b: seq<Byte>): string {
    if b == [] then []
    else match DecodeHead(b)
      case Some(c) => [c] + DecodeIgnore(b[|EncodeChar(c)|..])
      case None => DecodeIgnore(b[1..])
  }

  lemma Base64Digits(p: nat)
    ensures p == p / 64 * 64 + p % 64
    ensures p / 64 == p / 4096 * 64 + p / 64 % 64
    ensures p / 4096 == p / 262144 * 64 + p / 4096 % 64
  {}

  lemma EncodedShape(c: char)
    ensures var e := EncodeChar(c); 1 <= |e| <= 4 && Announced(e[0]) == |e| && Spelled(e) == c as int
    ensures forall i :: 1 <= i < |EncodeChar(c)| ==> IsContinuation(EncodeChar(c)[i])
  {
    Base64Digits(c as int);
    var e := EncodeChar(c);
    if |e| == 4 {
      assert IsContinuation(e[1]) && IsContinuation(e[2]) && IsContinuation(e[3]);
    }
  }

  /** The shortest form that has room for the scalar value. */
  lemma EncodedLength(c: char)
    ensures |EncodeChar(c)| == if c as int < 0x80 then 1 else if c as int < 0x800 then 2
                               else if c as int < 0x1_0000 then 3 else 4
  {}

  lemma NewlineIsAlone(c: char, i: nat)
    requires i < |EncodeChar(c)| && EncodeChar(c)[i] == 10
    ensures c == '\n' && i == 0
  {
    EncodedShape(c);
  }

  lemma DecodeHeadOfEncoded(c: char, rest: seq<Byte>)
    ensures DecodeHead(EncodeChar(c) + rest) == Some(c)
  {
    EncodedShape(c);
    var e := EncodeChar(c);
    assert (e + rest)[..|e|] == e;
  }

  lemma {:induction false} ContinuationsVanish(b: seq<Byte>)
    requires forall i :: 0 <= i < |b| ==> IsContinuation(b[i])
    ensures DecodeIgnore(b) == []
  {
    if b != [] {
      ContinuationsVanish(b[1..]);
    }
  }

  /** A code point cut in the middle leaves nothing behind. */
  lemma CutCharVanishes(c: char, n: nat)
    requires n < |EncodeChar(c)|
    ensures DecodeIgnore(EncodeChar(c)[..n]) == []
  {
    EncodedShape(c);
    var b := EncodeChar(c)[..n];
    if n > 0 {
      assert DecodeHead(b) == None;
      ContinuationsVanish(b[1..]);
    }
  }

  /**
   Cutting an encoded text after any number of octets and decoding what is left gives the longest
   prefix of the text whose encoding fits: at most the one cut code point is lost, and none is broken.
   */
  lemma {:induction false} CutThenDecode(s: string, n: nat) returns (k: nat)
    requires n <= |Encode(s)|
    ensures k <= |s| && DecodeIgnore(Encode(s)[..n]) == s[..k]
    ensures |Encode(s[..k])| <= n && (k < |s| ==> n < |Encode(s[..k + 1])|)
  {
    if s == [] {
      k := 0;
    } else {
      var c, e, tail := s[0], EncodeChar(s[0]), s[1..];
      var cut := Encode(s)[..n];
      if n < |e| {
        k := 0;
        assert cut == e[..n];
        CutCharVanishes(c, n);
        EncodePrefixCons(s, 0);
      } else {
        EncodedShape(c);
        var more := CutThenDecode(tail, n - |e|);
        k := more + 1;
        DecodeCons(c, cut, Encode(tail)[..n - |e|]);
        EncodePrefixCons(s, more);
        if k < |s| {
          EncodePrefixCons(s, k);
        }
      }
    }
  }

  lemma DecodeCons(c: char, b: seq<Byte>, rest: seq<Byte>)
    requires b == EncodeChar(c) + rest
    ensures DecodeIgnore(b) == [c] + DecodeIgnore(rest)
  {
    EncodedShape(c);
    DecodeHeadOfEncoded(c, rest);
    assert b[|EncodeChar(c)|..] == rest;
  }

  lemma EncodePrefixCons(s: string, k: nat)
    requires k < |s|
    ensures s[..k + 1] == [s[0]] + s[1..][..k]
    ensures Encode(s[..k + 1]) == EncodeChar(s[0]) + Encode(s[1..][..k])
  {
    assert s[..k + 1] == [s[0]] + s[1..][..k];
    EncodeCons(s[0], s[1..][..k]);
  }

  lemma EncodeCons(c: char, s: string)
    ensures Encode([c] + s) == EncodeChar(c) + Encode(s)
  {
    assert ([c] + s)[1..] == s;
  }

  lemma {:induction false} EncodeConcat(s: string, t: string)
    ensures Encode(s + t) == Encode(s) + Encode(t)
  {
    if s == [] {
      assert s + t == t;
    } else {
      assert s + t == [s[0]] + (s[1..] + t);
      EncodeCons(s[0], s[1..] + t);
      EncodeConcat(s[1..], t);
    }
  }

  /** Decoding undoes encoding. */
  lemma {:induction false} RoundTrip(s: string)
    ensures DecodeIgnore(Encode(s)) == s
  {
    if s != [] {
      EncodedShape(s[0]);
      DecodeHeadOfEncoded(s[0], Encode(s[1..]));
      RoundTrip(s[1..]);
    }
  }

  /** A newline octet in an encoded text is a newline of the text: it never lies inside a code point. */
  lemma {:induction false} NewlineOctet(s: string, at: nat) returns (k: nat)
    requires at < |Encode(s)| && Encode(s)[at] == 10
    ensures k < |s| && s[k] == '\n' && Encode(s)[..at] == Encode(s[..k]) && |Encode(s[..k])| == at
  {
    var e := EncodeChar(s[0]);
    EncodedShape(s[0]);
    if at < |e| {
      NewlineIsAlone(s[0], at);
      k := 0;
    } else {
      var more := NewlineOctet(s[1..], at - |e|);
      k := more + 1;
      assert s[..k] == [s[0]] + s[1..][..more];
      EncodeCons(s[0], s[1..][..more]);
      assert Encode(s)[..at] == e + Encode(s[1..])[..at - |e|];
    }
  }

  lemma NewlineOctetOf(s: string, k: nat)
    requires k < |s| && s[k] == '\n'
    ensures |Encode(s[..k])| < |Encode(s)| && Encode(s)[|Encode(s[..k])|] == 10
  {
    assert s == s[..k] + ([s[k]] + s[k + 1..]);
    EncodeConcat(s[..k], [s[k]] + s[k + 1..]);
    EncodeCons(s[k], s[k + 1..]);
  }
}
