/**
 Interpretation of an event stream: sections 9.2.5 and 9.2.6 of the WHATWG HTML Living Standard,
 read on UTF-8 bytes. Every delimiter of the format is ASCII, so on valid UTF-8 the byte reading
 and the character reading agree.

 The interpreter takes a function `f` that it applies to the value of each `data` field, so that
 "the input with every data line rewritten" can be stated without building that input.
 */
module EventStream {
  import opened ByteStrings

  /** The first terminated line of a stream and what follows it. */
  datatype FirstLine = NoLine | FirstLine(text: Bytes, rest: Bytes)

  function SplitLine(s: Bytes): (r: FirstLine)
    ensures r.FirstLine? ==> |r.rest| < |s|
  {
    var e := LineEnd(s);
    if e == |s| then NoLine else FirstLine(s[..e], s[e + TerminatorLength(s, e)..])
  }

  /** The lines of section 9.2.5, each ended by CRLF, LF or CR; an unterminated rest is not a line. */
  function Lines(s: Bytes): seq<Bytes>
    decreases |s|
  {
    match SplitLine(s)
    case NoLine => []
    case FirstLine(text, rest) => [text] + Lines(rest)
  }

  function LineEnd(s: Bytes): (e: nat)
    ensures e <= |s|
    ensures forall k :: 0 <= k < e ==> s[k] != LF && s[k] != CR
    ensures e < |s| ==> s[e] == LF || s[e] == CR
  {
    if s == [] || s[0] == LF || s[0] == CR then 0 else 1 + LineEnd(s[1..])
  }

  function TerminatorLength(s: Bytes, e: nat): (n: nat)
    requires e < |s|
    ensures 1 <= n && e + n <= |s|
  {
    if s[e] == CR && e + 1 < |s| && s[e + 1] == LF then 2 else 1
  }

  datatype Message = Message(kind: Bytes, data: Bytes, lastEventId: Bytes)

  datatype Parser = Parser(
    data: Bytes,
    eventType: Bytes,
    idBuffer: Bytes,
    lastEventId: Bytes,
    retry: Option<Bytes>,
    dispatched: seq<Message>)

  const FRESH := Parser([], [], [], [], None, [])

  const DATA: Bytes := [100, 97, 116, 97]
  const EVENT: Bytes := [101, 118, 101, 110, 116]
  const ID: Bytes := [105, 100]
  const RETRY: Bytes := [114, 101, 116, 114, 121]
  const MESSAGE: Bytes := [109, 101, 115, 115, 97, 103, 101]

  function Identity(v: Bytes): Bytes { v }

  predicate IsDigits(v: Bytes) {
    |v| > 0 && forall i :: 0 <= i < |v| ==> 48 <= v[i] <= 57
  }

  function DropOneSpace(v: Bytes): Bytes {
    if |v| > 0 && v[0] == SPACE then v[1..] else v
  }

  function Dispatch(p: Parser): Parser {
    var p1 := p.(lastEventId := p.idBuffer);
    if p.data == [] then p1.(data := [], eventType := [])
    else
      var data := if p.data[|p.data| - 1] == LF then p.data[..|p.data| - 1] else p.data;
      var kind := if p.eventType == [] then MESSAGE else p.eventType;
      p1.(data := [], eventType := [],
          dispatched := p.dispatched + [Message(kind, data, p1.lastEventId)])
  }

  function ProcessField(p: Parser, name: Bytes, value: Bytes, f: Bytes -> Bytes): Parser {
    if name == EVENT then p.(eventType := value)
    else if name == DATA then p.(data := p.data + f(value) + [LF])
    else if name == ID then (if 0 in value then p else p.(idBuffer := value))
    else if name == RETRY then (if IsDigits(value) then p.(retry := Some(value)) else p)
    else p
  }

  function ProcessLine(p: Parser, line: Bytes, f: Bytes -> Bytes): Parser {
    if line == [] then Dispatch(p)
    else
      var c := IndexOf(line, COLON);
      if c == 0 then p
      else if c == |line| then ProcessField(p, line, [], f)
      else ProcessField(p, line[..c], DropOneSpace(line[c + 1..]), f)
  }

  function Process(p: Parser, lines: seq<Bytes>, f: Bytes -> Bytes): Parser {
    if lines == [] then p
    else ProcessLine(Process(p, lines[..|lines| - 1], f), lines[|lines| - 1], f)
  }

  predicate StartsWithBom(s: Bytes) {
    |s| >= 3 && s[0] == 0xEF && s[1] == 0xBB && s[2] == 0xBF
  }

  function StripBom(s: Bytes): Bytes {
    if StartsWithBom(s) then s[3..] else s
  }

  /** What a client makes of `s`: its dispatched messages, retry time, event id and pending fields. */
  function Interpret(s: Bytes, f: Bytes -> Bytes): Parser {
    Process(FRESH, Lines(StripBom(s)), f)
  }

  lemma {:induction false} ProcessAppend(p: Parser, a: seq<Bytes>, b: seq<Bytes>, f: Bytes -> Bytes)
    ensures Process(p, a + b, f) == Process(Process(p, a, f), b, f)
    decreases |b|
  {
    if b == [] {
      assert a + b == a;
    } else {
      var b' := b[..|b| - 1];
      assert (a + b)[..|a + b| - 1] == a + b';
      ProcessAppend(p, a, b', f);
    }
  }

  lemma ProcessSnoc(p: Parser, a: seq<Bytes>, line: Bytes, f: Bytes -> Bytes)
    ensures Process(p, a + [line], f) == ProcessLine(Process(p, a, f), line, f)
  {
    assert (a + [line])[..|a|] == a;
  }

  lemma {:induction false} LineEndAppend(a: Bytes, b: Bytes)
    requires LineEnd(a) < |a|
    ensures LineEnd(a + b) == LineEnd(a)
    decreases |a|
  {
    if a[0] != LF && a[0] != CR {
      assert (a + b)[1..] == a[1..] + b;
      LineEndAppend(a[1..], b);
    }
  }

  lemma {:induction false} LineEndOfLine(line: Bytes, rest: Bytes)
    requires OneLine(line)
    ensures LineEnd(line + [LF] + rest) == |line|
    decreases |line|
  {
    if line != [] {
      assert line[0] in line;
      assert (line + [LF] + rest)[1..] == line[1..] + [LF] + rest;
      LineEndOfLine(line[1..], rest);
    }
  }

  lemma LinesOfLine(line: Bytes)
    requires OneLine(line)
    ensures Lines(line + [LF]) == [line]
  {
    var s := line + [LF];
    assert s + [] == s;
    LineEndOfLine(line, []);
    assert SplitLine(s) == FirstLine(line, []);
  }

  /** Appending to a stream cut after a line feed leaves its first line alone. */
  lemma SplitLineAppend(a: Bytes, b: Bytes)
    requires EndsInLf(a)
    ensures SplitLine(a).FirstLine?
    ensures SplitLine(a + b) == SplitLine(a).(rest := SplitLine(a).rest + b)
    ensures SplitLine(a).rest == [] || EndsInLf(SplitLine(a).rest)
  {
    var e := LineEnd(a);
    assert a[|a| - 1] == LF;
    LineEndAppend(a, b);
    var n := TerminatorLength(a, e);
    assert TerminatorLength(a + b, e) == n;
    assert (a + b)[..e] == a[..e];
    assert (a + b)[e + n..] == a[e + n..] + b;
  }

  /** A stream cut after a line feed has the lines of its two halves. */
  lemma {:induction false} LinesCutAfterLf(a: Bytes, b: Bytes)
    requires a == [] || EndsInLf(a)
    ensures Lines(a + b) == Lines(a) + Lines(b)
    decreases |a|
  {
    if a == [] {
      assert a + b == b;
    } else {
      SplitLineAppend(a, b);
      var FirstLine(text, rest) := SplitLine(a);
      LinesCutAfterLf(rest, b);
      ConcatAssoc([text], Lines(rest), Lines(b));
    }
  }

  /** Rust's line splitting and the standard's agree wherever CR only occurs in CRLF. */
  lemma {:induction false} RustLinesAreLines(s: Bytes)
    requires NoBareCr(s)
    requires s == [] || EndsInLf(s)
    ensures RustLines(s) == Lines(s)
    decreases |s|
  {
    if s != [] {
      FirstRustLine(s);
      RestOfText(s, IndexOf(s, LF) + 1);
      var FirstLine(line, rest) := SplitLine(s);
      RustLinesAreLines(rest);
      assert RustLines(s) == [line] + RustLines(rest);
    }
  }

  predicate EachOneLine(lines: seq<Bytes>) {
    forall i :: 0 <= i < |lines| ==> OneLine(lines[i])
  }

  lemma {:induction false} LinesAreOneLine(s: Bytes)
    ensures EachOneLine(Lines(s))
    decreases |s|
  {
    if SplitLine(s).FirstLine? {
      LinesAreOneLine(SplitLine(s).rest);
      assert OneLine(SplitLine(s).text);
    }
  }

  lemma FirstRustLine(s: Bytes)
    requires NoBareCr(s) && EndsInLf(s)
    ensures var lf := IndexOf(s, LF);
            lf < |s| && SplitLine(s) == FirstLine(StripCr(s[..lf]), s[lf + 1..])
  {
    assert s[|s| - 1] == LF;
    FirstLineEnd(s);
  }

  lemma RestOfText(s: Bytes, k: nat)
    requires NoBareCr(s) && EndsInLf(s) && 0 < k <= |s| && s[k - 1] == LF
    ensures NoBareCr(s[k..]) && (s[k..] == [] || EndsInLf(s[k..]))
  {
    assert s == s[..k] + s[k..];
    NoBareCrCut(s[..k], s[k..]);
  }

  lemma FirstLineEnd(s: Bytes)
    requires NoBareCr(s)
    requires IndexOf(s, LF) < |s|
    ensures var e, lf := LineEnd(s), IndexOf(s, LF);
            e < |s| && e + TerminatorLength(s, e) == lf + 1 && StripCr(s[..lf]) == s[..e]
  {
    var e, lf := LineEnd(s), IndexOf(s, LF);
    assert e <= lf;
    if e < lf {
      assert s[e] == CR && s[e + 1] == LF;
      assert lf == e + 1;
      assert s[..lf][..e] == s[..e];
    }
  }
}
