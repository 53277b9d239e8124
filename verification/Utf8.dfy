/** UTF-8 as RFC 3629 has it: what `String::from_utf8` accepts (src-tauri/src/browser_proxy.rs, line 220). */
module Utf8 {
  import opened Basics

  predicate Continues(s: seq<byte>, i: nat, low: byte, high: byte) { i < |s| && low <= s[i] <= high }

  /** The length of the UTF-8 sequence at `i`, or 0 when there is none (section 4 of RFC 3629). */
  function SequenceAt(s: seq<byte>, i: nat): (r: nat)
    requires i < |s|
    ensures i + r <= |s|
  {
    var c := s[i];
    if c <= 0x7F then 1
    else if 0xC2 <= c <= 0xDF then if Continues(s, i + 1, 0x80, 0xBF) then 2 else 0
    else if 0xE0 <= c <= 0xEF then
      var low: byte := if c == 0xE0 then 0xA0 else 0x80;
      var high: byte := if c == 0xED then 0x9F else 0xBF;
      if Continues(s, i + 1, low, high) && Continues(s, i + 2, 0x80, 0xBF) then 3 else 0
    else if 0xF0 <= c <= 0xF4 then
      var low: byte := if c == 0xF0 then 0x90 else 0x80;
      var high: byte := if c == 0xF4 then 0x8F else 0xBF;
      if Continues(s, i + 1, low, high) && Continues(s, i + 2, 0x80, 0xBF) && Continues(s, i + 3, 0x80, 0xBF)
      then 4 else 0
    else 0
  }

  predicate Utf8From(s: seq<byte>, i: nat)
    requires i <= |s|
    decreases |s| - i
  {
    i == |s| || (SequenceAt(s, i) > 0 && Utf8From(s, i + SequenceAt(s, i)))
  }

  /** `String::from_utf8` succeeds. */
  predicate ValidUtf8(s: seq<byte>) { Utf8From(s, 0) }

  // ---------------------------------------------------------------------------------------
  // Valid means encoded
  // ---------------------------------------------------------------------------------------

  /** A Unicode scalar value: any code point but the surrogates. */
  predicate IsScalar(c: int) { 0 <= c <= 0x10FFFF && !(0xD800 <= c <= 0xDFFF) }

  /** The bytes of a scalar value (section 3 of RFC 3629). */
  function Encode(c: int): (r: seq<byte>)
    requires IsScalar(c)
    ensures |r| > 0
  {
    if c < 0x80 then [c as byte]
    else if c < 0x800 then [(0xC0 + c / 64) as byte, Tail(c)]
    else if c < 0x10000 then [(0xE0 + c / 4096) as byte, Tail(c / 64), Tail(c)]
    else [(0xF0 + c / 262144) as byte, Tail(c / 4096), Tail(c / 64), Tail(c)]
  }

  /** A continuation byte with the last six bits of a number. */
  function Tail(c: nat): byte { (0x80 + c % 64) as byte }

  function EncodeAll(text: seq<int>): seq<byte>
    requires forall k :: 0 <= k < |text| ==> IsScalar(text[k])
  {
    if text == [] then [] else Encode(text[0]) + EncodeAll(text[1..])
  }

  /** What stands before does not matter. */
  lemma SequenceShift(a: seq<byte>, b: seq<byte>, i: nat)
    requires i < |b|
    ensures SequenceAt(a + b, |a| + i) == SequenceAt(b, i)
  {
    assert forall k :: 0 <= k < |b| ==> (a + b)[|a| + k] == b[k];
  }

  lemma {:induction false} ValidShift(a: seq<byte>, b: seq<byte>, i: nat)
    requires i <= |b|
    ensures Utf8From(a + b, |a| + i) == Utf8From(b, i)
    decreases |b| - i
  {
    if i < |b| {
      SequenceShift(a, b, i);
      if SequenceAt(b, i) > 0 { ValidShift(a, b, i + SequenceAt(b, i)); }
    }
  }

  /** An encoded scalar value is one sequence. */
  lemma EncodedIsSequence(c: int, rest: seq<byte>)
    requires IsScalar(c)
    ensures SequenceAt(Encode(c) + rest, 0) == |Encode(c)|
  {
    var e := Encode(c);
    var s := e + rest;
    assert forall k :: 0 <= k < |e| ==> s[k] == e[k];
    if 0x800 <= c < 0x10000 {
      ThreeBytes(c);
    } else if c >= 0x10000 {
      FourBytes(c);
    }
  }

  lemma ThreeBytes(c: int)
    requires IsScalar(c) && 0x800 <= c < 0x10000
    ensures 0 <= c / 4096 <= 15
    ensures c / 4096 == 0 ==> c / 64 % 64 >= 32
    ensures c / 4096 == 13 ==> c / 64 % 64 <= 31
  {
    assert c / 4096 == c / 64 / 64;
  }

  lemma FourBytes(c: int)
    requires IsScalar(c) && c >= 0x10000
    ensures 0 <= c / 262144 <= 4
    ensures c / 262144 == 0 ==> c / 4096 % 64 >= 16
    ensures c / 262144 == 4 ==> c / 4096 % 64 <= 15
  {
    assert c / 262144 == c / 4096 / 64;
  }

  lemma {:induction false} EncodedIsValid(text: seq<int>)
    requires forall k :: 0 <= k < |text| ==> IsScalar(text[k])
    ensures ValidUtf8(EncodeAll(text))
  {
    hide SequenceAt, Encode;
    if text != [] {
      var e, rest := Encode(text[0]), EncodeAll(text[1..]);
      EncodedIsValid(text[1..]);
      EncodedIsSequence(text[0], rest);
      ValidShift(e, rest, 0);
    }
  }

  lemma Six(q: int, r: int)
    requires 0 <= r < 64
    ensures (q * 64 + r) / 64 == q && (q * 64 + r) % 64 == r
  {
  }

  /** A sequence is the encoding of a scalar value. */
  lemma SequenceIsEncoded(s: seq<byte>, i: nat) returns (c: int)
    requires i < |s| && SequenceAt(s, i) > 0
    ensures IsScalar(c) && Encode(c) == s[i..i + SequenceAt(s, i)]
  {
    var n := SequenceAt(s, i);
    var first := s[i] as int;
    if n == 1 {
      c := first;
      assert [s[i]] == s[i..i + 1];
    } else if n == 2 {
      c := TwoDecode(first, s[i + 1] as int);
      assert [s[i], s[i + 1]] == s[i..i + 2];
    } else if n == 3 {
      c := ThreeDecode(first, s[i + 1] as int, s[i + 2] as int);
      assert [s[i], s[i + 1], s[i + 2]] == s[i..i + 3];
    } else {
      c := FourDecode(first, s[i + 1] as int, s[i + 2] as int, s[i + 3] as int);
      assert [s[i], s[i + 1], s[i + 2], s[i + 3]] == s[i..i + 4];
    }
  }

  lemma TwoDecode(a: int, b: int) returns (c: int)
    requires 0xC2 <= a <= 0xDF && 0x80 <= b <= 0xBF
    ensures IsScalar(c) && Encode(c) == [a as byte, b as byte]
  {
    c := (a - 0xC0) * 64 + (b - 0x80);
    Six(a - 0xC0, b - 0x80);
  }

  lemma ThreeDecode(a: int, b: int, d: int) returns (c: int)
    requires 0xE0 <= a <= 0xEF && 0x80 <= b <= 0xBF && 0x80 <= d <= 0xBF
    requires (a == 0xE0 ==> b >= 0xA0) && (a == 0xED ==> b <= 0x9F)
    ensures IsScalar(c) && Encode(c) == [a as byte, b as byte, d as byte]
  {
    var q := (a - 0xE0) * 64 + (b - 0x80);
    c := q * 64 + (d - 0x80);
    Six(a - 0xE0, b - 0x80);
    Six(q, d - 0x80);
    assert c / 4096 == c / 64 / 64;
  }

  lemma FourDecode(a: int, b: int, d: int, e: int) returns (c: int)
    requires 0xF0 <= a <= 0xF4 && 0x80 <= b <= 0xBF && 0x80 <= d <= 0xBF && 0x80 <= e <= 0xBF
    requires (a == 0xF0 ==> b >= 0x90) && (a == 0xF4 ==> b <= 0x8F)
    ensures IsScalar(c) && Encode(c) == [a as byte, b as byte, d as byte, e as byte]
  {
    var p := (a - 0xF0) * 64 + (b - 0x80);
    var q := p * 64 + (d - 0x80);
    c := q * 64 + (e - 0x80);
    Six(a - 0xF0, b - 0x80);
    Six(p, d - 0x80);
    Six(q, e - 0x80);
    assert c / 4096 == c / 64 / 64 && c / 262144 == c / 4096 / 64;
  }

  lemma {:induction false} ValidIsEncoded(s: seq<byte>, i: nat) returns (text: seq<int>)
    requires i <= |s| && Utf8From(s, i)
    ensures forall k :: 0 <= k < |text| ==> IsScalar(text[k])
    ensures EncodeAll(text) == s[i..]
    decreases |s| - i
  {
    hide SequenceAt, Encode, IsScalar;
    if i == |s| {
      text := [];
    } else {
      var n := SequenceAt(s, i);
      var c := SequenceIsEncoded(s, i);
      var rest := ValidIsEncoded(s, i + n);
      text := [c] + rest;
      assert text[1..] == rest;
      assert s[i..] == s[i..i + n] + s[i + n..];
    }
  }

  /** Bytes are accepted exactly when they encode some text. */
  lemma ValidIff(s: seq<byte>)
    ensures ValidUtf8(s) <==>
      exists text: seq<int> :: (forall k :: 0 <= k < |text| ==> IsScalar(text[k])) && EncodeAll(text) == s
  {
    hide SequenceAt, Encode, IsScalar;
    if ValidUtf8(s) {
      var text := ValidIsEncoded(s, 0);
      assert s[0..] == s;
    }
    if text: seq<int> :| (forall k :: 0 <= k < |text| ==> IsScalar(text[k])) && EncodeAll(text) == s {
      EncodedIsValid(text);
    }
  }
}
