/**
 What the server prints. An event is a block of lines, its id and event first and then one line for each line of its
 data, and a keep-alive is a block of comments; a blank line ends each. Beside the printing itself there is how the
 parser reads single lines of it, whole or cut short.
 */
module SseWire {
  import opened Common
  import opened Sse

  /** One block of the wire text: an event, or a keep-alive made of comment lines. */
  datatype Block = Data(frame: Frame) | Comment(texts: seq<string>)

  predicate OneLine(s: string) {
    NoReturn(s) && forall i :: 0 <= i < |s| ==> s[i] != '\n'
  }

  predicate NoReturn(s: string) {
    forall i :: 0 <= i < |s| ==> s[i] != '\r'
  }

  predicate AllOneLine(lines: seq<string>) {
    forall k :: 0 <= k < |lines| ==> OneLine(lines[k])
  }

  /** Data may span lines; no field may hold a carriage return, and the others no line feed either. */
  predicate Printable(b: Block) {
    match b
    case Data(f) =>
      && NoReturn(f.data)
      && (f.id.Some? ==> OneLine(f.id.value)) && (f.event.Some? ==> OneLine(f.event.value))
    case Comment(texts) => AllOneLine(texts)
  }

  predicate AllPrintable(blocks: seq<Block>) {
    blocks == [] || (Printable(blocks[0]) && AllPrintable(blocks[1..]))
  }

  function Field(name: string, value: string): string {
    name + ": " + value
  }

  function Header(f: Frame): seq<string> {
    (if f.id.Some? then [Field("id", f.id.value)] else []) +
        (if f.event.Some? then [Field("event", f.event.value)] else [])
  }

  function DataLines(parts: seq<string>): (lines: seq<string>)
    ensures |lines| == |parts|
  {
    seq(|parts|, i requires 0 <= i < |parts| => Field("data", parts[i]))
  }

  function CommentLines(texts: seq<string>): (lines: seq<string>)
    ensures |lines| == |texts|
  {
    seq(|texts|, i requires 0 <= i < |texts| => ":" + texts[i])
  }

  function Lines(b: Block): seq<string> {
    match b
    case Data(f) => Header(f) + DataLines(Split(f.data)) + [""]
    case Comment(texts) => CommentLines(texts) + [""]
  }

  function AllLines(blocks: seq<Block>): seq<string> {
    if blocks == [] then [] else Lines(blocks[0]) + AllLines(blocks[1..])
  }

  function Text(lines: seq<string>, eol: string): string {
    if lines == [] then "" else lines[0] + eol + Text(lines[1..], eol)
  }

  function FramesOf(blocks: seq<Block>): seq<Frame> {
    if blocks == [] then []
    else FrameOf(blocks[0]) + FramesOf(blocks[1..])
  }

  // ------------------------------------------------------------------- lines

  lemma {:induction false} SplitAtLine(line: string, rest: string)
    requires OneLine(line)
    ensures Split(line + "\n" + rest) == [line] + Split(rest)
  {
    if line == "" {
      assert (line + "\n" + rest)[1..] == rest;
    } else {
      SplitAtLine(line[1..], rest);
      assert (line + "\n" + rest)[1..] == line[1..] + "\n" + rest;
      assert [line[0]] + line[1..] == line;
    }
  }

  lemma {:induction false} SplitOneLine(line: string)
    requires OneLine(line)
    ensures Split(line) == [line]
  {
    if line != "" {
      SplitOneLine(line[1..]);
      assert [line[0]] + line[1..] == line;
    }
  }

  lemma {:induction false} JoinSplit(s: string)
    ensures Join(Split(s)) == s
  {
    if s != "" {
      JoinSplit(s[1..]);
    }
  }

  lemma {:induction false} SplitPartsAreLines(s: string)
    requires NoReturn(s)
    ensures AllOneLine(Split(s))
  {
    if s != "" {
      SplitPartsAreLines(s[1..]);
    }
  }

  lemma {:induction false} LinesAreOneLine(blocks: seq<Block>)
    requires AllPrintable(blocks)
    ensures AllOneLine(AllLines(blocks))
  {
    if blocks != [] {
      LinesAreOneLine(blocks[1..]);
      BlockLinesAreOneLine(blocks[0]);
    }
  }

  lemma BlockLinesAreOneLine(b: Block)
    requires Printable(b)
    ensures AllOneLine(Lines(b))
  {
    match b {
      case Data(f) =>
        SplitPartsAreLines(f.data);
        assert AllOneLine(Header(f)) by {
          if f.id.Some? { FieldIsOneLine("id", f.id.value); }
          if f.event.Some? { FieldIsOneLine("event", f.event.value); }
        }
        DataLinesAreOneLine(Split(f.data));
      case Comment(texts) =>
    }
  }

  lemma FieldIsOneLine(name: string, value: string)
    requires OneLine(name) && OneLine(value)
    ensures OneLine(Field(name, value))
  {
  }

  lemma DataLinesAreOneLine(parts: seq<string>)
    requires AllOneLine(parts)
    ensures AllOneLine(DataLines(parts))
  {
    forall i | 0 <= i < |parts| ensures OneLine(DataLines(parts)[i]) {
      FieldIsOneLine("data", parts[i]);
    }
  }

  // ------------------------------------------------------------- line endings

  /** All three line endings normalise to a line feed. */
  lemma {:induction false} NormalizedText(lines: seq<string>, eol: string)
    requires AllOneLine(lines)
    requires eol in ["\n", "\r\n", "\r"]
    ensures Normalize(Text(lines, eol)) == Text(lines, "\n")
  {
    if lines != [] {
      var line, rest := lines[0], Text(lines[1..], eol);
      NormalizedText(lines[1..], eol);
      NormalizeOneLine(line);
      ConcatAssociates(line, eol, rest);
      NormalizeAppend(line, eol + rest);
      if eol == "\r" {
        TextStartsNoLine(lines[1..]);
      }
      NormalizeEol(eol, rest);
      ConcatAssociates(line, "\n", Normalize(rest));
    }
  }

  lemma NormalizeEol(eol: string, rest: string)
    requires eol in ["\n", "\r\n", "\r"]
    requires eol == "\r" && rest != "" ==> rest[0] != '\n'
    ensures Normalize(eol + rest) == "\n" + Normalize(rest)
  {
    if eol == "\r\n" {
      assert eol + rest == ['\r'] + ("\n" + rest);
      NormalizeCons('\r', "\n" + rest);
      assert ("\n" + rest)[1..] == rest;
    } else {
      assert eol + rest == [eol[0]] + rest;
      NormalizeCons(eol[0], rest);
    }
  }

  lemma TextStartsNoLine(lines: seq<string>)
    requires AllOneLine(lines)
    ensures Text(lines, "\r") != "" ==> Text(lines, "\r")[0] != '\n'
  {
    if lines != [] && lines[0] != "" {
      assert Text(lines, "\r")[0] == lines[0][0];
    }
  }

  lemma {:induction false} NormalizeOneLine(line: string)
    requires OneLine(line)
    ensures Normalize(line) == line
  {
    if line != "" {
      NormalizeOneLine(line[1..]);
      assert line == [line[0]] + line[1..];
      NormalizeCons(line[0], line[1..]);
    }
  }

  // --------------------------------------------------------------- one field

  lemma {:induction false} ColonAfter(name: string, rest: string)
    requires ':' !in name
    ensures ColonAt(name + ":" + rest) == |name|
  {
    if name != "" {
      ColonAfter(name[1..], rest);
      assert (name + ":" + rest)[1..] == name[1..] + ":" + rest;
    }
  }

  lemma {:induction false} NoColon(name: string)
    requires ':' !in name
    ensures ColonAt(name) == |name|
  {
    if name != "" {
      NoColon(name[1..]);
    }
  }

  /** A field line cut anywhere still names no other field, and its value is a prefix. */
  lemma CutField(name: string, value: string, cut: string)
    requires ':' !in name && cut <= Field(name, value)
    ensures FieldOf(cut) <= name
    ensures FieldOf(cut) == name ==> ValueOf(cut) <= value
    ensures cut == Field(name, value) ==> FieldOf(cut) == name && ValueOf(cut) == value
  {
    if |cut| <= |name| {
      assert cut == name[..|cut|];
      NoColon(cut);
    } else {
      var rest := cut[|name| + 1..];
      assert Field(name, value) == name + ":" + (" " + value);
      assert cut == name + ":" + rest;
      ColonAfter(name, rest);
      assert rest <= " " + value;
      if rest != "" {
        assert ValueOf(cut) == rest[1..];
      }
    }
  }

  // -------------------------------------------------------------- one block

  lemma DataLinesRest(parts: seq<string>)
    requires parts != []
    ensures DataLines(parts)[0] == Field("data", parts[0]) && DataLines(parts)[1..] == DataLines(parts[1..])
  {
  }

  lemma {:induction false} DataCollects(p: ParserState, parts: seq<string>)
    ensures ConsumedAll(p, DataLines(parts)) == p.(frame := p.frame.(data := p.frame.data + parts))
    decreases |parts|
  {
    if parts != [] {
      var line := Field("data", parts[0]);
      CutField("data", parts[0], line);
      DataLinesRest(parts);
      var q := p.(frame := p.frame.(data := p.frame.data + [parts[0]]));
      assert Consumed(p, line) == q;
      DataCollects(q, parts[1..]);
      AppendFirstThenRest(p.frame.data, parts);
    }
  }

  function FrameOf(b: Block): seq<Frame> {
    match b case Data(f) => [f] case Comment(_) => []
  }

  lemma EndOfBlock(p: ParserState)
    ensures ConsumedAll(p, [""]) == Emitted(p)
  {
    assert ConsumedAll(p, [""]) == ConsumedAll(Consumed(p, ""), []);
  }

  lemma {:induction false} SplitAfterLines(lines: seq<string>, later: string)
    requires AllOneLine(lines)
    ensures Split(Text(lines, "\n") + later) == lines + Split(later)
  {
    if lines == [] {
      assert Text(lines, "\n") + later == later;
    } else {
      var first, others := lines[0], lines[1..];
      SplitAfterLines(others, later);
      ConcatAssociates(first + "\n", Text(others, "\n"), later);
      SplitAtLine(first, Text(others, "\n") + later);
      ConcatAssociates([first], others, Split(later));
      assert [first] + others == lines;
    }
  }

  // ------------------------------------------------------- lines of a block

  lemma {:induction false} JoinPrefix(parts: seq<string>, m: nat, v: string)
    requires m < |parts| && v <= parts[m]
    ensures Join(parts[..m] + [v]) <= Join(parts) && Join(parts[..m]) <= Join(parts)
  {
    if m == 0 {
      assert parts[..0] + [v] == [v];
    } else {
      JoinPrefix(parts[1..], m - 1, v);
      assert parts[1..][..m - 1] == parts[..m][1..];
      assert (parts[..m] + [v])[1..] == parts[..m][1..] + [v];
      assert parts[..m][0] == parts[0];
    }
  }

  lemma LinesInComment(texts: seq<string>, j: nat)
    requires j <= |texts|
    ensures Lines(Comment(texts))[..j] == CommentLines(texts[..j])
    ensures Lines(Comment(texts))[j] == if j < |texts| then ":" + texts[j] else ""
  {
  }

  lemma LinesInHeader(f: Frame, j: nat)
    requires j < |Header(f)|
    ensures Lines(Data(f))[..j] == Header(f)[..j] && Lines(Data(f))[j] == Header(f)[j]
  {
  }

  lemma LinesInData(f: Frame, m: nat)
    requires m <= |Split(f.data)|
    ensures Lines(Data(f))[..|Header(f)| + m] == Header(f) + DataLines(Split(f.data)[..m])
    ensures Lines(Data(f))[|Header(f)| + m] == if m < |Split(f.data)| then Field("data", Split(f.data)[m]) else ""
  {
  }

  // ------------------------------------------------------------- split pairs

  lemma FramesOfLines(lines: seq<string>)
    requires AllOneLine(lines)
    ensures Frames(Text(lines, "\n")) == Emitted(ConsumedAll(START, lines)).frames
  {
    SplitAfterLines(lines, "");
    assert Text(lines, "\n") + "" == Text(lines, "\n");
  }

  lemma NormalizeUpToReturn(a: string)
    requires OneLine(a)
    ensures Normalize(a + "\r") == a + "\n"
  {
    NormalizeOneLine(a);
    NormalizeAppend(a, "\r");
    NormalizeCons('\r', "");
    assert ['\r'] + "" == "\r";
  }

  lemma NormalizeWholePair(a: string, rest: string)
    requires OneLine(a)
    ensures Normalize(a + "\r" + ("\n" + rest)) == a + ("\n" + Normalize(rest))
  {
    NormalizeOneLine(a);
    NormalizeAppend(a, "\r\n" + rest);
    NormalizeEol("\r\n", rest);
    assert a + "\r" + ("\n" + rest) == a + ("\r\n" + rest);
  }

  lemma NormalizeTwoChunks(first: string, second: string)
    ensures NormalizeChunks([first, second]) == Normalize(first) + Normalize(second)
  {
    assert [first, second][1..] == [second];
    assert NormalizeChunks([second]) == Normalize(second) + NormalizeChunks([]);
  }

  lemma TextOfFirst(a: string, lines: seq<string>)
    ensures Text([a] + lines, "\n") == a + ("\n" + Text(lines, "\n"))
  {
    assert ([a] + lines)[1..] == lines;
    ConcatAssociates(a, "\n", Text(lines, "\n"));
  }

  lemma NormalizeSplitPair(a: string, lines: seq<string>)
    requires OneLine(a) && AllOneLine(lines)
    ensures NormalizeChunks([a + "\r", "\n" + Text(lines, "\n")]) == Text([a] + ([""] + lines), "\n")
    ensures Normalize(a + "\r" + ("\n" + Text(lines, "\n"))) == Text([a] + lines, "\n")
  {
    var rest := Text(lines, "\n");
    NormalizedText(lines, "\n");
    NormalizeEol("\n", rest);
    NormalizeUpToReturn(a);
    NormalizeTwoChunks(a + "\r", "\n" + rest);
    NormalizeWholePair(a, rest);
    TextOfFirst(a, lines);
    TextOfFirst("", lines);
    TextOfFirst(a, [""] + lines);
    ConcatAssociates(a, "\n", "\n" + rest);
    assert "" + ("\n" + rest) == "\n" + rest;
  }

  /** A CR-LF pair split over two chunks after a data line does change what is dispatched: one frame becomes two. */
  lemma SplitPairCutsFrameInTwo(a: string, b: string)
    requires OneLine(a) && OneLine(b)
    ensures var first, second := Field("data", a) + "\r", "\n" + Text([Field("data", b), ""], "\n");
            && Frames(NormalizeChunks([first, second])) == [Frame(a, None, None), Frame(b, None, None)]
            && Frames(Normalize(first + second)) == [Frame(a + "\n" + b, None, None)]
  {
    var lines := [Field("data", b), ""];
    FieldIsOneLine("data", a);
    FieldIsOneLine("data", b);
    NormalizeSplitPair(Field("data", a), lines);
    CutField("data", a, Field("data", a));
    CutField("data", b, Field("data", b));
    assert [Field("data", a)] + ([""] + lines) == [Field("data", a), ""] + lines;
    FramesOfLines([Field("data", a), ""] + lines);
    FramesOfLines([Field("data", a)] + lines);
    TwoFramesFromLines(a, b);
    OneFrameFromLines(a, b);
  }

  lemma TwoFramesFromLines(a: string, b: string)
    ensures ConsumedAll(START, [Field("data", a), ""] + [Field("data", b), ""]) ==
            ParserState(EMPTY_BUILDER, [Frame(a, None, None), Frame(b, None, None)])
  {
    var p := START;
    ConsumedAllAppend(p, [Field("data", a), ""], [Field("data", b), ""]);
    OneDataLine(p, a);
    assert [] + [Frame(a, None, None)] == [Frame(a, None, None)];
    OneDataLine(ParserState(EMPTY_BUILDER, [Frame(a, None, None)]), b);
  }

  lemma OneDataLine(p: ParserState, a: string)
    requires p.frame == EMPTY_BUILDER
    ensures ConsumedAll(p, [Field("data", a), ""]) == ParserState(EMPTY_BUILDER, p.frames + [Frame(a, None, None)])
  {
    CutField("data", a, Field("data", a));
    var q := Consumed(p, Field("data", a));
    assert q.frame.data == [a];
    assert [Field("data", a), ""][1..] == [""];
    EndOfBlock(q);
  }

  lemma OneFrameFromLines(a: string, b: string)
    ensures ConsumedAll(START, [Field("data", a)] + [Field("data", b), ""]) ==
            ParserState(EMPTY_BUILDER, [Frame(a + "\n" + b, None, None)])
  {
    var parts := [a, b];
    assert [Field("data", a)] + [Field("data", b), ""] == DataLines(parts) + [""];
    ConsumedAllAppend(START, DataLines(parts), [""]);
    DataCollects(START, parts);
    assert [] + parts == parts && parts[1..] == [b];
    assert Join(parts) == a + "\n" + Join([b]);
    EndOfBlock(ParserState(FrameBuilder(parts, None, None), []));
  }
}
