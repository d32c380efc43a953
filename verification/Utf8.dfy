/**
 UTF-8 validity against the encoding itself: the byte strings accepted are exactly the encodings of
 sequences of Unicode scalar values (RFC 3629, section 3).
 */
module Utf8 {
  import opened ByteStrings

  predicate IsScalar(n: nat) {
    n < 0xD800 || 0xE000 <= n < 0x11_0000
  }

  predicate AllScalars(ns: seq<nat>) {
    forall i :: 0 <= i < |ns| ==> IsScalar(ns[i])
  }

  /** The continuation byte with the six bits of `n` that `unit` stands at. */
  function Tail(n: nat, unit: nat): Byte
    requires unit > 0
  {
    0x80 + n / unit % 64
  }

  function EncodeScalar(n: nat): (s: Bytes)
    requires IsScalar(n)
    ensures s != []
  {
    if n < 0x80 then [n]
    else if n < 0x800 then [0xC0 + n / 64, Tail(n, 1)]
    else if n < 0x1_0000 then [0xE0 + n / 4096, Tail(n, 64), Tail(n, 1)]
    else [0xF0 + n / 262144, Tail(n, 4096), Tail(n, 64), Tail(n, 1)]
  }

  function Encoded(ns: seq<nat>): Bytes
    requires AllScalars(ns)
  {
    if ns == [] then [] else EncodeScalar(ns[0]) + Encoded(ns[1..])
  }

  lemma EncodedHead(n: nat, rest: Bytes)
    requires IsScalar(n)
    ensures ScalarLength(EncodeScalar(n) + rest) == |EncodeScalar(n)|
  {
  }

  lemma TwoByteHead(b0: Byte, b1: Byte) returns (n: nat)
    requires 0xC2 <= b0 <= 0xDF && Continuation(b1)
    ensures IsScalar(n) && EncodeScalar(n) == [b0, b1]
  {
    n := (b0 - 0xC0) * 64 + (b1 - 0x80);
    assert n / 64 == b0 - 0xC0 && n % 64 == b1 - 0x80;
  }

  lemma ThreeBytes(b0: Byte, b1: Byte, b2: Byte) returns (n: nat)
    requires ThreeByteHead(b0, b1) && Continuation(b2)
    ensures IsScalar(n) && EncodeScalar(n) == [b0, b1, b2]
  {
    var high := (b0 - 0xE0) * 64 + (b1 - 0x80);
    n := high * 64 + (b2 - 0x80);
    assert n / 64 == high && n % 64 == b2 - 0x80;
    assert n / 4096 == b0 - 0xE0 && high % 64 == b1 - 0x80;
  }

  lemma FourBytes(b0: Byte, b1: Byte, b2: Byte, b3: Byte) returns (n: nat)
    requires FourByteHead(b0, b1) && Continuation(b2) && Continuation(b3)
    ensures IsScalar(n) && EncodeScalar(n) == [b0, b1, b2, b3]
  {
    var top := (b0 - 0xF0) * 64 + (b1 - 0x80);
    var high := top * 64 + (b2 - 0x80);
    n := high * 64 + (b3 - 0x80);
    assert n / 64 == high && n % 64 == b3 - 0x80;
    assert n / 4096 == top && high % 64 == b2 - 0x80;
    assert n / 262144 == b0 - 0xF0 && top % 64 == b1 - 0x80;
  }

  lemma DecodedHead(s: Bytes) returns (n: nat)
    requires ScalarLength(s) > 0
    ensures IsScalar(n) && s[..ScalarLength(s)] == EncodeScalar(n)
  {
    match ScalarLength(s)
    case 1 => n := s[0];
    case 2 => n := TwoByteHead(s[0], s[1]);
    case 3 => n := ThreeBytes(s[0], s[1], s[2]);
    case _ => n := FourBytes(s[0], s[1], s[2], s[3]);
  }

  lemma {:induction false} EncodedIsValid(ns: seq<nat>)
    requires AllScalars(ns)
    ensures ValidUtf8(Encoded(ns))
    decreases |ns|
  {
    if ns != [] {
      var rest := Encoded(ns[1..]);
      EncodedIsValid(ns[1..]);
      EncodedHead(ns[0], rest);
      assert (EncodeScalar(ns[0]) + rest)[|EncodeScalar(ns[0])|..] == rest;
    }
  }

  lemma {:induction false} ValidIsEncoded(s: Bytes) returns (ns: seq<nat>)
    requires ValidUtf8(s)
    ensures AllScalars(ns) && Encoded(ns) == s
    decreases |s|
  {
    if s == [] {
      ns := [];
    } else {
      var k := ScalarLength(s);
      var n := DecodedHead(s);
      var rest := ValidIsEncoded(s[k..]);
      ns := [n] + rest;
      assert ns[1..] == rest && s == s[..k] + s[k..];
    }
  }

  /** A byte string is accepted exactly when it encodes some sequence of scalar values. */
  lemma ValidIffEncoded(s: Bytes)
    ensures ValidUtf8(s) <==> exists ns: seq<nat> :: AllScalars(ns) && Encoded(ns) == s
  {
    if ns: seq<nat> :| AllScalars(ns) && Encoded(ns) == s {
      EncodedIsValid(ns);
    }
    if ValidUtf8(s) {
      var ns := ValidIsEncoded(s);
    }
  }
}
