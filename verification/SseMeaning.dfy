/**
 Meaning preservation: what the client reads is what the upstream wrote, with each data line
 rewritten and every other field unchanged, whatever the chunking.
 */
module SseMeaning {
  import opened ByteStrings
  import opened EventStream
  import opened SseSpec

  /** What the stream needs of the upstream's rewriting: one line in, one line out, and no JSON, no change. */
  ghost predicate RewritesLines(c: Config) {
    && c.transform([]) == []
    && forall p: Bytes :: OneLine(p) ==> OneLine(c.transform(p))
  }

  /** The state right after a blank line: a further blank line changes nothing. */
  predicate AfterBlank(p: Parser) {
    p.data == [] && p.eventType == [] && p.lastEventId == p.idBuffer
  }

  lemma DataLineField(p: Parser, line: Bytes, f: Bytes -> Bytes)
    requires DataPayload(line).Some?
    ensures ProcessLine(p, line, f) == ProcessField(p, DATA, DataPayload(line).value, f)
  {
    assert line[0] == 100 && line[1] == 97 && line[2] == 116 && line[3] == 97 && line[4] == COLON;
    assert IndexOf(line, COLON) == 4;
    assert line[..4] == DATA;
  }

  lemma OtherLineField(c: Config, p: Parser, line: Bytes)
    requires RewritesLines(c) && DataPayload(line).None?
    ensures ProcessLine(p, line, Identity) == ProcessLine(p, line, c.transform)
  {
    var i := IndexOf(line, COLON);
    assert |line| >= 5 ==> (line[..5] == DATA_PREFIX <==> line[..4] == DATA && line[4] == COLON);
  }

  lemma AppendedLine(p: Parser, out: Bytes, line: Bytes)
    requires OneLine(line) && (out == [] || EndsInLf(out))
    ensures Process(p, Lines(out + line + [LF]), Identity) == ProcessLine(Process(p, Lines(out), Identity), line, Identity)
  {
    ConcatAssoc(out, line, [LF]);
    LinesCutAfterLf(out, line + [LF]);
    LinesOfLine(line);
    ProcessSnoc(p, Lines(out), line, Identity);
  }

  lemma AppendedLineEnd(out: Bytes, line: Bytes)
    requires OneLine(line)
    ensures EndsInLf(out + line + [LF])
    ensures line != [] ==> !EndsWith(out + line + [LF], LF_LF)
  {
    if line != [] {
      var s := out + line + [LF];
      assert s[|s| - 2] == line[|line| - 1];
      assert line[|line| - 1] in line;
      assert s[|s| - 2..][0] != LF_LF[0];
    }
  }

  /** `data: ` in front of a rewritten payload reads back as that payload. */
  lemma WrittenDataLine(t: Bytes)
    requires OneLine(t)
    ensures OneLine(DATA_SPACE + t) && DataPayload(DATA_SPACE + t) == Some(t)
  {
    var written := DATA_SPACE + t;
    assert written[..5] == DATA_PREFIX;
    assert written[5..] == [SPACE] + t;
  }

  lemma DataLineKeepsMeaning(c: Config, p: Parser, q: Parser, out: Bytes, line: Bytes)
    requires RewritesLines(c) && OneLine(line) && DataPayload(line).Some?
    requires out == [] || EndsInLf(out)
    requires Process(p, Lines(out), Identity) == q
    ensures var out' := AppendLine(c, out, line);
            && EndsInLf(out') && !EndsWith(out', LF_LF)
            && Process(p, Lines(out'), Identity) == ProcessLine(q, line, c.transform)
  {
    var payload := DataPayload(line).value;
    assert OneLine(payload);
    var t := c.transform(payload);
    var written := DATA_SPACE + t;
    ConcatAssoc(out, DATA_SPACE, t);
    WrittenDataLine(t);
    AppendedLine(p, out, written);
    AppendedLineEnd(out, written);
    DataLineField(q, line, c.transform);
    DataLineField(q, written, Identity);
  }

  lemma OtherLineKeepsMeaning(c: Config, p: Parser, q: Parser, out: Bytes, line: Bytes)
    requires RewritesLines(c) && OneLine(line) && DataPayload(line).None?
    requires out == [] || EndsInLf(out)
    requires Process(p, Lines(out), Identity) == q
    requires EndsWith(out, LF_LF) ==> AfterBlank(q)
    ensures var out' := AppendLine(c, out, line);
            && EndsInLf(out')
            && Process(p, Lines(out'), Identity) == ProcessLine(q, line, c.transform)
            && (EndsWith(out', LF_LF) ==> AfterBlank(ProcessLine(q, line, c.transform)))
  {
    if line != [] || !EndsWith(out, LF_LF) {
      AppendedLine(p, out, line);
      AppendedLineEnd(out, line);
      OtherLineField(c, q, line);
    }
  }

  /** Rewriting the lines of an event, blank-line collapsing included, keeps its meaning in every context. */
  lemma {:induction false} RewriteKeepsMeaning(c: Config, p: Parser, lines: seq<Bytes>)
    requires RewritesLines(c)
    requires EachOneLine(lines)
    ensures var out := RewriteLines(c, lines);
            && (out == [] || EndsInLf(out))
            && Process(p, Lines(out), Identity) == Process(p, lines, c.transform)
            && (EndsWith(out, LF_LF) ==> AfterBlank(Process(p, lines, c.transform)))
    decreases |lines|
  {
    if lines != [] {
      var front, line := lines[..|lines| - 1], lines[|lines| - 1];
      var out := RewriteLines(c, front);
      RewriteKeepsMeaning(c, p, front);
      if DataPayload(line).Some? {
        DataLineKeepsMeaning(c, p, Process(p, front, c.transform), out, line);
      } else {
        OtherLineKeepsMeaning(c, p, Process(p, front, c.transform), out, line);
      }
    }
  }

  lemma SegmentKeepsMeaning(c: Config, p: Parser, segment: Bytes)
    requires RewritesLines(c)
    requires EndsInLf(segment) && ValidUtf8(segment) && NoBareCr(segment)
    ensures Process(p, Lines(TransformEvent(c, segment)), Identity) == Process(p, Lines(segment), c.transform)
    ensures var out := TransformEvent(c, segment); out == [] || EndsInLf(out)
  {
    RustLinesAreLines(segment);
    LinesAreOneLine(segment);
    RewriteKeepsMeaning(c, p, RustLines(segment));
  }

  /** Outputs of segments, in order. */
  function Rewritten(c: Config, segments: seq<Bytes>): Bytes {
    if segments == [] then []
    else Rewritten(c, segments[..|segments| - 1]) + TransformEvent(c, segments[|segments| - 1])
  }

  lemma {:induction false} FlattenEndsInLf(segments: seq<Bytes>)
    requires forall i :: 0 <= i < |segments| ==> EndsInLf(segments[i])
    ensures Flatten(segments) == [] || EndsInLf(Flatten(segments))
  {
  }

  /** However the text was cut into line-ended segments, forced cuts included, its meaning is kept. */
  lemma {:induction false} SegmentsKeepMeaning(c: Config, p: Parser, segments: seq<Bytes>)
    requires RewritesLines(c)
    requires forall i :: 0 <= i < |segments| ==> EndsInLf(segments[i])
    requires ValidUtf8(Flatten(segments)) && NoBareCr(Flatten(segments))
    ensures Process(p, Lines(Rewritten(c, segments)), Identity) == Process(p, Lines(Flatten(segments)), c.transform)
    ensures var out := Rewritten(c, segments); out == [] || EndsInLf(out)
    decreases |segments|
  {
    if segments != [] {
      var front, last := segments[..|segments| - 1], segments[|segments| - 1];
      FlattenEndsInLf(front);
      if Flatten(front) == [] {
        assert Flatten(segments) == last;
      } else {
        Utf8CutAfterLf(Flatten(front), last);
        NoBareCrCut(Flatten(front), last);
      }
      SegmentsKeepMeaning(c, p, front);
      LinesCutAfterLf(Flatten(front), last);
      ProcessAppend(p, Lines(Flatten(front)), Lines(last), c.transform);
      SegmentKeepsMeaning(c, Process(p, Lines(Flatten(front)), c.transform), last);
      LinesCutAfterLf(Rewritten(c, front), TransformEvent(c, last));
      ProcessAppend(p, Lines(Rewritten(c, front)), Lines(TransformEvent(c, last)), Identity);
    }
  }

  // ---- Data values ----

  /** The value of a line `data:...`, as the standard reads it. */
  function DataValue(line: Bytes): seq<Bytes> {
    var i := IndexOf(line, COLON);
    if i < |line| && line[..i] == DATA then [DropOneSpace(line[i + 1..])] else []
  }

  function DataValues(lines: seq<Bytes>): seq<Bytes> {
    if lines == [] then [] else DataValues(lines[..|lines| - 1]) + DataValue(lines[|lines| - 1])
  }

  /** The data values of segments, each read on its own; one that is not UTF-8 has none. */
  function Values(segments: seq<Bytes>): seq<Bytes> {
    if segments == [] then []
    else
      var last := segments[|segments| - 1];
      Values(segments[..|segments| - 1]) + if ValidUtf8(last) then DataValues(RustLines(last)) else []
  }

  lemma PayloadIsValue(line: Bytes)
    ensures DataValue(line) == match DataPayload(line)
                               case Some(payload) => [payload]
                               case None => []
  {
    var i := IndexOf(line, COLON);
    assert |line| >= 5 ==> (line[..5] == DATA_PREFIX <==> line[..4] == DATA && line[4] == COLON);
    assert DataPayload(line).Some? ==> i == 4;
    assert i < |line| && line[..i] == DATA ==> |line[..i]| == 4;
  }

  lemma {:induction false} LinePayloadsAreValues(lines: seq<Bytes>)
    ensures LinePayloads(lines) == DataValues(lines)
    decreases |lines|
  {
    if lines != [] {
      LinePayloadsAreValues(lines[..|lines| - 1]);
      PayloadIsValue(lines[|lines| - 1]);
    }
  }

  lemma {:induction false} DataValuesAppend(a: seq<Bytes>, b: seq<Bytes>)
    ensures DataValues(a + b) == DataValues(a) + DataValues(b)
    decreases |b|
  {
    if b == [] {
      assert a + b == a;
    } else {
      var n := |b| - 1;
      assert (a + b)[..|a + b| - 1] == a + b[..n];
      DataValuesAppend(a, b[..n]);
      ConcatAssoc(DataValues(a), DataValues(b[..n]), DataValue(b[n]));
    }
  }

  /** The values of a text's segments are those of its lines, forced cuts included. */
  lemma {:induction false} ValuesOfText(segments: seq<Bytes>)
    requires forall i :: 0 <= i < |segments| ==> EndsInLf(segments[i])
    requires ValidUtf8(Flatten(segments)) && NoBareCr(Flatten(segments))
    ensures Values(segments) == DataValues(Lines(Flatten(segments)))
    decreases |segments|
  {
    if segments != [] {
      var front, last := segments[..|segments| - 1], segments[|segments| - 1];
      FlattenEndsInLf(front);
      if Flatten(front) == [] {
        assert Flatten(segments) == last;
      } else {
        Utf8CutAfterLf(Flatten(front), last);
        NoBareCrCut(Flatten(front), last);
      }
      ValuesOfText(front);
      LinesCutAfterLf(Flatten(front), last);
      RustLinesAreLines(last);
      DataValuesAppend(Lines(Flatten(front)), Lines(last));
    }
  }

  // ---- No byte order mark appears ----

  lemma {:induction false} RewriteStarts(c: Config, lines: seq<Bytes>)
    requires lines != []
    ensures AppendLine(c, [], lines[0]) <= RewriteLines(c, lines)
    decreases |lines|
  {
    var front := lines[..|lines| - 1];
    if front == [] {
      assert RewriteLines(c, front) == [];
    } else {
      RewriteStarts(c, front);
      assert RewriteLines(c, front) <= RewriteLines(c, lines);
    }
  }

  lemma {:induction false} RewriteEndsInLf(c: Config, lines: seq<Bytes>)
    ensures RewriteLines(c, lines) == [] || EndsInLf(RewriteLines(c, lines))
    decreases |lines|
  {
    if lines != [] {
      RewriteEndsInLf(c, lines[..|lines| - 1]);
    }
  }

  lemma BomInFront(a: Bytes, b: Bytes)
    requires EndsInLf(a)
    ensures StartsWithBom(a + b) <==> StartsWithBom(a)
  {
    assert (a + b)[|a| - 1] == LF;
  }

  lemma FirstLineHasNoBom(c: Config, line: Bytes)
    requires !StartsWithBom(line)
    ensures EndsInLf(AppendLine(c, [], line)) && !StartsWithBom(AppendLine(c, [], line))
  {
    var first := AppendLine(c, [], line);
    if DataPayload(line).None? {
      assert first == line + [LF];
    } else {
      assert first[0] == 100;
    }
  }

  lemma NoBomInEvent(c: Config, segment: Bytes)
    requires EndsInLf(segment) && ValidUtf8(segment) && !StartsWithBom(segment)
    ensures EndsInLf(TransformEvent(c, segment)) && !StartsWithBom(TransformEvent(c, segment))
  {
    var lines := RustLines(segment);
    assert segment[|segment| - 1] == LF;
    assert lines[0] <= segment;
    FirstLineHasNoBom(c, lines[0]);
    RewriteStarts(c, lines);
    RewriteEndsInLf(c, lines);
    var first, out := AppendLine(c, [], lines[0]), RewriteLines(c, lines);
    assert out == first + out[|first|..];
    BomInFront(first, out[|first|..]);
  }

  lemma {:induction false} NoBomInOutput(c: Config, segments: seq<Bytes>)
    requires forall i :: 0 <= i < |segments| ==> EndsInLf(segments[i])
    requires ValidUtf8(Flatten(segments)) && !StartsWithBom(Flatten(segments))
    ensures !StartsWithBom(Rewritten(c, segments))
    ensures segments != [] ==> EndsInLf(Rewritten(c, segments))
    decreases |segments|
  {
    if segments != [] {
      var front, last := segments[..|segments| - 1], segments[|segments| - 1];
      if front == [] {
        assert Flatten(segments) == last;
        NoBomInEvent(c, last);
        assert Rewritten(c, segments) == TransformEvent(c, last);
      } else {
        FlattenEndsInLf(front);
        assert Flatten(front) == Flatten(front[..|front| - 1]) + front[|front| - 1];
        Utf8CutAfterLf(Flatten(front), last);
        NoBomInOutput(c, front);
        BomInFront(Flatten(front), last);
        BomInFront(Rewritten(c, front), TransformEvent(c, last));
        TransformEndsInLf(c, last);
      }
    }
  }

  lemma TransformEndsInLf(c: Config, segment: Bytes)
    requires EndsInLf(segment)
    ensures TransformEvent(c, segment) == [] || EndsInLf(TransformEvent(c, segment))
  {
    RewriteEndsInLf(c, RustLines(segment));
  }
}
