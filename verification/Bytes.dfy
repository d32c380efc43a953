/** Byte strings: concatenation of parts, UTF-8 validity and line splitting. */
module ByteStrings {

  type Byte = b: int | 0 <= b < 256
  type Bytes = seq<Byte>

  const LF: Byte := 10
  const CR: Byte := 13
  const SPACE: Byte := 32
  const COLON: Byte := 58

  datatype Option<+T> = None | Some(value: T) {
    function UnwrapOr(default: T): T {
      if this.Some? then this.value else default
    }
  }

  /** Concatenation, peeled from the right because histories grow at the end. */
  function Flatten<T>(parts: seq<seq<T>>): seq<T> {
    if parts == [] then [] else Flatten(parts[..|parts| - 1]) + parts[|parts| - 1]
  }

  lemma {:induction false} FlattenSnoc<T>(parts: seq<seq<T>>, last: seq<T>)
    ensures Flatten(parts + [last]) == Flatten(parts) + last
  {
    assert (parts + [last])[..|parts|] == parts;
  }

  lemma ConcatAssoc<T>(a: seq<T>, b: seq<T>, c: seq<T>)
    ensures a + b + c == a + (b + c)
  {
  }

  predicate EndsWith(s: Bytes, suffix: Bytes) {
    |suffix| <= |s| && s[|s| - |suffix|..] == suffix
  }

  predicate EndsInLf(s: Bytes) {
    |s| > 0 && s[|s| - 1] == LF
  }

  /** No line terminator at all: what the text of a single line looks like. */
  predicate OneLine(s: Bytes) {
    LF !in s && CR !in s
  }

  // ---- UTF-8 (RFC 3629, section 4) ----

  predicate Continuation(b: Byte) {
    0x80 <= b <= 0xBF
  }

  predicate ThreeByteHead(b0: Byte, b1: Byte) {
    || (b0 == 0xE0 && 0xA0 <= b1 <= 0xBF)
    || (b0 == 0xED && 0x80 <= b1 <= 0x9F)
    || ((0xE1 <= b0 <= 0xEC || 0xEE <= b0 <= 0xEF) && Continuation(b1))
  }

  predicate FourByteHead(b0: Byte, b1: Byte) {
    || (b0 == 0xF0 && 0x90 <= b1 <= 0xBF)
    || (b0 == 0xF4 && 0x80 <= b1 <= 0x8F)
    || (0xF1 <= b0 <= 0xF3 && Continuation(b1))
  }

  /** Length of the well-formed scalar value at the head of `s`; 0 when there is none. */
  function ScalarLength(s: Bytes): (n: nat)
    ensures n <= |s|
  {
    if |s| >= 1 && s[0] < 0x80 then 1
    else if |s| >= 2 && 0xC2 <= s[0] <= 0xDF && Continuation(s[1]) then 2
    else if |s| >= 3 && ThreeByteHead(s[0], s[1]) && Continuation(s[2]) then 3
    else if |s| >= 4 && FourByteHead(s[0], s[1]) && Continuation(s[2]) && Continuation(s[3]) then 4
    else 0
  }

  predicate ValidUtf8(s: Bytes) {
    s == [] || (ScalarLength(s) > 0 && ValidUtf8(s[ScalarLength(s)..]))
  }

  /** Cutting after a line feed never cuts a character in two. */
  lemma {:induction false} Utf8CutAfterLf(a: Bytes, b: Bytes)
    requires EndsInLf(a) && ValidUtf8(a + b)
    ensures ValidUtf8(a) && ValidUtf8(b)
    decreases |a|
  {
    var s := a + b;
    var n := ScalarLength(s);
    assert s[|a| - 1] == LF;
    assert n <= |a|;
    assert ScalarLength(a) == n by {
      assert forall i :: 0 <= i < n ==> s[i] == a[i];
    }
    assert s[n..] == a[n..] + b;
    if n == |a| {
      assert s[n..] == b;
      assert a[n..] == [];
    } else {
      Utf8CutAfterLf(a[n..], b);
    }
  }

  // ---- Lines ----

  /** Index of the first `b` in `s`, or |s|. */
  function IndexOf(s: Bytes, b: Byte): (i: nat)
    ensures i <= |s|
    ensures forall k :: 0 <= k < i ==> s[k] != b
    ensures i < |s| ==> s[i] == b
  {
    if s == [] || s[0] == b then 0 else 1 + IndexOf(s[1..], b)
  }

  function StripCr(line: Bytes): Bytes {
    if |line| > 0 && line[|line| - 1] == CR then line[..|line| - 1] else line
  }

  /** Rust's `str::lines`: split at LF, drop one CR before it, keep an unterminated last line. */
  function RustLines(s: Bytes): seq<Bytes> {
    if s == [] then []
    else
      var e := IndexOf(s, LF);
      if e == |s| then [s] else [StripCr(s[..e])] + RustLines(s[e + 1..])
  }

  /** Every carriage return is half of a CRLF: the stream uses LF and CRLF line ends only. */
  predicate NoBareCr(s: Bytes) {
    forall i :: 0 <= i < |s| && s[i] == CR ==> i + 1 < |s| && s[i + 1] == LF
  }

  lemma NoBareCrCut(a: Bytes, b: Bytes)
    requires EndsInLf(a) && NoBareCr(a + b)
    ensures NoBareCr(a) && NoBareCr(b)
  {
    var s := a + b;
    forall i | 0 <= i < |a| && a[i] == CR
      ensures i + 1 < |a| && a[i + 1] == LF
    {
      assert s[i] == CR;
      assert s[i + 1] == LF;
    }
    forall i | 0 <= i < |b| && b[i] == CR
      ensures i + 1 < |b| && b[i + 1] == LF
    {
      assert s[|a| + i] == CR;
      assert s[|a| + i + 1] == LF;
    }
  }
}
