/** The browser's event-stream parser (apps/web/lib/events/sse.ts), whose text arrives in arbitrary chunks. */
module Sse {
  import opened Common

  datatype Frame = Frame(data: string, event: Option<string>, id: Option<string>)

  datatype FrameBuilder = FrameBuilder(data: seq<string>, event: Option<string>, id: Option<string>)

  const EMPTY_BUILDER := FrameBuilder([], None, None)

  // --------------------------------------------------------- string library

  function ReplaceCrLf(s: string): string {
    if |s| < 2 then s
    else if s[0] == '\r' && s[1] == '\n' then "\n" + ReplaceCrLf(s[2..])
    else [s[0]] + ReplaceCrLf(s[1..])
  }

  function ReplaceCr(s: string): string {
    if s == "" then "" else [if s[0] == '\r' then '\n' else s[0]] + ReplaceCr(s[1..])
  }

  /** `chunk.replace(/\r\n/g, "\n").replace(/\r/g, "\n")` */
  function Normalize(chunk: string): string {
    ReplaceCr(ReplaceCrLf(chunk))
  }

  /** `s.split("\n")` */
  function Split(s: string): (parts: seq<string>)
    ensures parts != []
  {
    if s == "" then [""]
    else if s[0] == '\n' then [""] + Split(s[1..])
    else [[s[0]] + Split(s[1..])[0]] + Split(s[1..])[1..]
  }

  function Join(parts: seq<string>): string {
    if parts == [] then ""
    else if |parts| == 1 then parts[0]
    else parts[0] + "\n" + Join(parts[1..])
  }

  function ColonAt(s: string): (i: nat)
    ensures i <= |s|
  {
    if s == "" || s[0] == ':' then 0 else 1 + ColonAt(s[1..])
  }

  function Concat(chunks: seq<string>): string {
    if chunks == [] then "" else chunks[0] + Concat(chunks[1..])
  }

  // ------------------------------------------------------- reference parser

  /** What has been collected for the next frame, and the frames dispatched so far. */
  datatype ParserState = ParserState(frame: FrameBuilder, frames: seq<Frame>)

  const START := ParserState(EMPTY_BUILDER, [])

  function Emitted(p: ParserState): ParserState {
    ParserState(EMPTY_BUILDER,
             if p.frame.data != [] then p.frames + [Frame(Join(p.frame.data), p.frame.event, p.frame.id)] else p.frames)
  }

  function WithField(frame: FrameBuilder, field: string, value: string): FrameBuilder {
    if field == "data" then frame.(data := frame.data + [value])
    else if field == "event" then frame.(event := Some(value))
    else if field == "id" then frame.(id := Some(value))
    else frame
  }

  function FieldOf(line: string): string {
    line[..ColonAt(line)]
  }

  /** The text after the colon, less one leading space; empty when there is no colon. */
  function ValueOf(line: string): string {
    var colon := ColonAt(line);
    if colon == |line| then ""
    else if colon + 1 < |line| && line[colon + 1] == ' ' then line[colon + 2..]
    else line[colon + 1..]
  }

  function Consumed(p: ParserState, line: string): ParserState {
    if line == "" then Emitted(p)
    else if line[0] == ':' then p
    else p.(frame := WithField(p.frame, FieldOf(line), ValueOf(line)))
  }

  function ConsumedAll(p: ParserState, lines: seq<string>): ParserState
    decreases |lines|
  {
    if lines == [] then p else ConsumedAll(Consumed(p, lines[0]), lines[1..])
  }

  function CompleteLines(text: string): seq<string> {
    Split(text)[..|Split(text)| - 1]
  }

  function Rest(text: string): string {
    Split(text)[|Split(text)| - 1]
  }

  /** What a text with bare line feeds has produced before the stream ends. */
  function ParsedText(text: string): ParserState {
    ConsumedAll(START, CompleteLines(text))
  }

  /** The frames of a finished text: the last line and the last frame need no terminator. */
  function Frames(text: string): seq<Frame> {
    var p := ParsedText(text);
    Emitted(if Rest(text) != "" then Consumed(p, Rest(text)) else p).frames
  }

  lemma SplitAppend(a: string, b: string)
    ensures CompleteLines(a + b) == CompleteLines(a) + CompleteLines(Rest(a) + b)
    ensures Rest(a + b) == Rest(Rest(a) + b)
  {
    SplitResumes(a, b);
  }

  /** Splitting can be resumed from the unfinished last line. */
  lemma {:induction false} SplitResumes(a: string, b: string)
    ensures Split(a + b) == CompleteLines(a) + Split(Rest(a) + b)
  {
    if a == "" {
      assert a + b == b;
    } else {
      var tail := a[1..];
      SplitResumes(tail, b);
      FirstOfConcat(a, b);
      var parts, more := Split(tail), Split(Rest(tail) + b);
      if a[0] == '\n' {
        ConcatAssociates([""], CompleteLines(tail), more);
        assert CompleteLines(a) == [""] + CompleteLines(tail);
      } else if |parts| == 1 {
        RestWithoutNewline(tail);
        assert Rest(a) == a;
        assert CompleteLines(a) == [];
      } else {
        SplitResumesInside([a[0]], parts, more);
        assert Split(a) == [[a[0]] + parts[0]] + parts[1..];
        assert Rest(a) == Rest(tail);
      }
    }
  }

  lemma SplitResumesInside(c: string, parts: seq<string>, more: seq<string>)
    requires |parts| > 1
    ensures var resumed := parts[..|parts| - 1] + more;
            [c + resumed[0]] + resumed[1..] == ([c + parts[0]] + parts[1..])[..|parts| - 1] + more
  {
  }

  lemma {:induction false} RestWithoutNewline(s: string)
    ensures |Split(s)| == 1 ==> Rest(s) == s
  {
    if s != "" {
      RestWithoutNewline(s[1..]);
    }
  }

  lemma {:induction false} ConsumedAllAppend(p: ParserState, a: seq<string>, b: seq<string>)
    ensures ConsumedAll(p, a + b) == ConsumedAll(ConsumedAll(p, a), b)
    decreases |a|
  {
    if a == [] {
      assert a + b == b;
    } else {
      FirstOfConcat(a, b);
      ConsumedAllAppend(Consumed(p, a[0]), a[1..], b);
    }
  }

  // --------------------------------------------------------------- the class

  class SseParser {
    var buffer: string
    var frame: FrameBuilder
    /** The frames handed to `onFrame`, in order. */
    var frames: seq<Frame>
    /** Everything fed so far, normalised chunk by chunk. */
    ghost var text: string

    ghost predicate Valid()
      reads this
    {
      buffer == Rest(text) && ParserState(frame, frames) == ParsedText(text)
    }

    constructor ()
      ensures Valid() && text == "" && frames == []
    {
      buffer, frame, frames, text := "", EMPTY_BUILDER, [], "";
    }

    method Feed(chunk: string)
      requires Valid()
      modifies this
      ensures Valid() && text == old(text) + Normalize(chunk)
    {
      SplitAppend(text, Normalize(chunk));
      ghost var whole := Rest(text) + Normalize(chunk);
      ConsumedAllAppend(START, CompleteLines(text), CompleteLines(whole));
      buffer := buffer + Normalize(chunk);
      var lines := Split(buffer);
      buffer := lines[|lines| - 1];
      lines := lines[..|lines| - 1];
      ghost var before := ParserState(frame, frames);
      for i := 0 to |lines|
        invariant buffer == Rest(whole) && text == old(text)
        invariant ParserState(frame, frames) == ConsumedAll(before, lines[..i])
      {
        ConsumedAllAppend(before, lines[..i], [lines[i]]);
        assert lines[..i + 1] == lines[..i] + [lines[i]];
        ConsumeLine(lines[i]);
      }
      assert lines[..|lines|] == lines;
      text := text + Normalize(chunk);
    }

    /** Ends the stream; it leaves the parser as if the missing line ends had arrived. */
    method Finish()
      requires Valid()
      modifies this
      ensures frames == Frames(old(text))
      ensures buffer == "" && frame == EMPTY_BUILDER
    {
      if buffer != "" {
        ConsumeLine(buffer);
      }
      Emit();
      buffer := "";
    }

    method ConsumeLine(line: string)
      modifies `frame, `frames
      ensures ParserState(frame, frames) == Consumed(old(ParserState(frame, frames)), line)
    {
      if line == "" {
        Emit();
        return;
      }
      if line[0] == ':' {
        return;
      }
      var colon := ColonAt(line);
      var field := if colon == |line| then line else line[..colon];
      var value := if colon == |line| then "" else line[colon + 1..];
      if value != "" && value[0] == ' ' {
        value := value[1..];
      }
      assert field == FieldOf(line);
      assert value == ValueOf(line);
      if field == "data" {
        frame := frame.(data := frame.data + [value]);
      } else if field == "event" {
        frame := frame.(event := Some(value));
      } else if field == "id" {
        frame := frame.(id := Some(value));
      }
    }

    method Emit()
      modifies `frame, `frames
      ensures ParserState(frame, frames) == Emitted(old(ParserState(frame, frames)))
    {
      if |frame.data| > 0 {
        frames := frames + [Frame(Join(frame.data), frame.event, frame.id)];
      }
      frame := EMPTY_BUILDER;
    }
  }

  // -------------------------------------------------------- chunk invariance

  function NormalizeChunks(chunks: seq<string>): string {
    if chunks == [] then "" else Normalize(chunks[0]) + NormalizeChunks(chunks[1..])
  }

  /** Some chunk boundary falls between a carriage return and its line feed. */
  predicate SplitsCrLf(chunks: seq<string>) {
    chunks != [] &&
    var later := Concat(chunks[1..]);
    || (chunks[0] != "" && chunks[0][|chunks[0]| - 1] == '\r' && later != "" && later[0] == '\n')
    || SplitsCrLf(chunks[1..])
  }

  lemma NormalizeCons(c: char, s: string)
    ensures !(c == '\r' && s != "" && s[0] == '\n') ==>
            Normalize([c] + s) == [if c == '\r' then '\n' else c] + Normalize(s)
    ensures c == '\r' && s != "" && s[0] == '\n' ==> Normalize([c] + s) == "\n" + Normalize(s[1..])
  {
    var t := [c] + s;
    assert t[1..] == s;
    if c == '\r' && s != "" && s[0] == '\n' {
      assert t[2..] == s[1..];
      assert ReplaceCrLf(t) == "\n" + ReplaceCrLf(s[1..]);
    } else {
      assert ReplaceCrLf(t) == [c] + ReplaceCrLf(s);
    }
  }

  /** Normalising at a boundary is the same as normalising across it unless the boundary splits a pair. */
  lemma {:induction false} NormalizeAppend(a: string, b: string)
    ensures var split := a != "" && a[|a| - 1] == '\r' && b != "" && b[0] == '\n';
            && (Normalize(a + b) == Normalize(a) + Normalize(b) <==> !split)
            && (split ==> |Normalize(a + b)| < |Normalize(a) + Normalize(b)|)
    decreases |a|
  {
    if a == "" {
      assert a + b == b;
    } else if |a| == 1 {
      NormalizeAfterOne(a[0], b);
      assert a == [a[0]];
    } else {
      var tail := a[1..];
      assert a == [a[0]] + tail;
      ConcatAssociates([a[0]], tail, b);
      FirstOfConcat(tail, b);
      NormalizeCons(a[0], tail);
      NormalizeCons(a[0], tail + b);
      if a[0] == '\r' && tail[0] == '\n' {
        NormalizeAppend(tail[1..], b);
        NormalizeStep("\n", Normalize(tail[1..] + b), Normalize(tail[1..]), Normalize(b));
      } else {
        NormalizeAppend(tail, b);
        NormalizeStep([if a[0] == '\r' then '\n' else a[0]], Normalize(tail + b), Normalize(tail), Normalize(b));
      }
    }
  }

  lemma NormalizeAfterOne(c: char, b: string)
    ensures var split := c == '\r' && b != "" && b[0] == '\n';
            && (Normalize([c] + b) == Normalize([c]) + Normalize(b) <==> !split)
            && (split ==> |Normalize([c] + b)| < |Normalize([c]) + Normalize(b)|)
  {
    NormalizeCons(c, b);
    NormalizeCons(c, "");
    assert [c] + "" == [c];
    if b != "" {
      assert b == [b[0]] + b[1..];
      NormalizeCons(b[0], b[1..]);
    }
  }

  lemma NormalizeStep(c: string, whole: string, left: string, right: string)
    ensures c + whole == (c + left) + right <==> whole == left + right
  {
    assert (c + left) + right == c + (left + right);
    if c + whole == c + (left + right) {
      assert (c + whole)[|c|..] == whole;
      assert (c + (left + right))[|c|..] == left + right;
    }
  }

  /**
   The text the parser sees is that of the unchunked stream exactly when no chunk boundary splits a CR-LF pair, and
   longer otherwise. Which split pairs change what is dispatched is `SseRoundTrip.WireRoundTrip`.
   */
  lemma {:induction false} ChunkInvariance(chunks: seq<string>)
    ensures NormalizeChunks(chunks) == Normalize(Concat(chunks)) <==> !SplitsCrLf(chunks)
    ensures |NormalizeChunks(chunks)| >= |Normalize(Concat(chunks))|
    ensures SplitsCrLf(chunks) ==> |NormalizeChunks(chunks)| > |Normalize(Concat(chunks))|
    ensures !SplitsCrLf(chunks) ==> Frames(NormalizeChunks(chunks)) == Frames(Normalize(Concat(chunks)))
  {
    if chunks != [] {
      ChunkInvariance(chunks[1..]);
      NormalizeAppend(chunks[0], Concat(chunks[1..]));
    }
  }
}
