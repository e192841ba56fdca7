/** How the parser reads any line at all, not only those the server prints, and what consumers skip. */
module SseLines {
  import opened Common
  import opened Sse
  import opened SseWire
  import opened DomainEventStream

  /** A field is what stands before the first colon; its value what stands behind, less one leading space. */
  lemma LineReads(name: string, value: string)
    requires ':' !in name
    ensures FieldOf(name + ":" + value) == name && FieldOf(name) == name
    ensures ValueOf(name + ":" + value) == if value != "" && value[0] == ' ' then value[1..] else value
    ensures ValueOf(name) == ""
  {
    var line := name + ":" + value;
    ColonAfter(name, value);
    NoColon(name);
    assert line[..|name|] == name;
    assert line[|name| + 1..] == value;
    if value != "" {
      assert line[|name| + 1] == value[0];
      assert line[|name| + 2..] == value[1..];
    }
  }

  /** A comment, or a field the format does not know. */
  ghost predicate Noise(line: string) {
    exists name, value ::
      && ':' !in name && name !in {"data", "event", "id"}
      && (line == name + ":" + value || (line == name && name != ""))
  }

  lemma NoiseChangesNothing(p: ParserState, line: string)
    requires Noise(line)
    ensures Consumed(p, line) == p
  {
    var name, value :| && ':' !in name && name !in {"data", "event", "id"}
                       && (line == name + ":" + value || (line == name && name != ""));
    LineReads(name, value);
    if name == "" {
      assert line == ":" + value;
    } else {
      assert line[0] == name[0];
    }
  }

  /** Comments and unknown fields can be taken out of a stream, wherever they stand, and nothing changes. */
  lemma NoiseIsIgnored(before: seq<string>, noise: string, after: seq<string>)
    requires AllOneLine(before) && AllOneLine(after) && OneLine(noise) && Noise(noise)
    ensures Frames(Text(before + [noise] + after, "\n")) == Frames(Text(before + after, "\n"))
  {
    var p := ConsumedAll(START, before);
    NoiseChangesNothing(p, noise);
    ConcatAssociates(before, [noise], after);
    ConsumedAllAppend(START, before, [noise] + after);
    ConsumedAllAppend(START, before, after);
    assert ([noise] + after)[0] == noise && ([noise] + after)[1..] == after;
    FramesOfLines(before + [noise] + after);
    FramesOfLines(before + after);
  }

  // ------------------------------------------------------- one block of fields

  datatype FieldLine = DataLine(value: string) | EventLine(value: string) | IdLine(value: string)

  function LineOf(f: FieldLine): string {
    match f
    case DataLine(value) => Field("data", value)
    case EventLine(value) => Field("event", value)
    case IdLine(value) => Field("id", value)
  }

  function LinesOf(fields: seq<FieldLine>): (lines: seq<string>)
    ensures |lines| == |fields|
  {
    seq(|fields|, i requires 0 <= i < |fields| => LineOf(fields[i]))
  }

  /** The block's data lines, and the last event and id it gives. */
  function Collected(fields: seq<FieldLine>): FrameBuilder {
    if fields == [] then EMPTY_BUILDER
    else
      var earlier := Collected(fields[..|fields| - 1]);
      match fields[|fields| - 1]
      case DataLine(value) => earlier.(data := earlier.data + [value])
      case EventLine(value) => earlier.(event := Some(value))
      case IdLine(value) => earlier.(id := Some(value))
  }

  lemma {:induction false} FieldsCollect(frames: seq<Frame>, fields: seq<FieldLine>)
    ensures ConsumedAll(ParserState(EMPTY_BUILDER, frames), LinesOf(fields)) ==
            ParserState(Collected(fields), frames)
  {
    if fields != [] {
      var earlier, last := fields[..|fields| - 1], fields[|fields| - 1];
      FieldsCollect(frames, earlier);
      ConsumedAllAppend(ParserState(EMPTY_BUILDER, frames), LinesOf(earlier), [LineOf(last)]);
      assert LinesOf(fields) == LinesOf(earlier) + [LineOf(last)];
      FieldReads(ParserState(Collected(earlier), frames), last);
    }
  }

  lemma FieldReads(p: ParserState, f: FieldLine)
    ensures ConsumedAll(p, [LineOf(f)]) ==
            p.(frame := match f
                        case DataLine(value) => p.frame.(data := p.frame.data + [value])
                        case EventLine(value) => p.frame.(event := Some(value))
                        case IdLine(value) => p.frame.(id := Some(value)))
  {
    var name := match f case DataLine(_) => "data" case EventLine(_) => "event" case IdLine(_) => "id";
    LineReads(name, " " + f.value);
    assert LineOf(f) == name + ":" + (" " + f.value);
    assert (" " + f.value)[1..] == f.value;
  }

  /**
   Fields in any order and number, ended by a blank line or by the end of the stream, give one frame with the data lines
   joined and the last event and id; without data they give none.
   */
  lemma BlockGivesItsFrame(fields: seq<FieldLine>)
    requires AllOneLine(LinesOf(fields))
    ensures var c := Collected(fields);
            var frames := if c.data == [] then [] else [Frame(Join(c.data), c.event, c.id)];
            && Frames(Text(LinesOf(fields) + [""], "\n")) == frames
            && Frames(Text(LinesOf(fields), "\n")) == frames
  {
    var lines := LinesOf(fields);
    FieldsCollect([], fields);
    FramesOfLines(lines);
    FramesOfLines(lines + [""]);
    ConsumedAllAppend(START, lines, [""]);
    EndOfBlock(ParserState(Collected(fields), []));
  }

  // --------------------------------------------------------------- consumers

  lemma {:induction false} DeliveryContinues(a: seq<Frame>, b: seq<Frame>, decode: string -> Decoded)
    requires !Delivery(a, decode).1
    ensures Delivery(a + b, decode) == (Delivery(a, decode).0 + Delivery(b, decode).0, Delivery(b, decode).1)
  {
    if b == [] {
      assert a + b == a && Delivery(a, decode).0 + [] == Delivery(a, decode).0;
    } else {
      LastOfConcat(a, b);
      DeliveryContinues(a, b[..|b| - 1], decode);
      match decode(b[|b| - 1].data) {
        case Parsed(e) =>
          ConcatAssociates(Delivery(a, decode).0, Delivery(b[..|b| - 1], decode).0, [e]);
        case _ =>
      }
    }
  }

  /** A frame that is JSON but no event is skipped, wherever it stands, and the stream goes on. */
  lemma IgnoredIsSkipped(a: seq<Frame>, f: Frame, b: seq<Frame>, decode: string -> Decoded)
    requires decode(f.data).Ignored?
    ensures Delivery(a + [f] + b, decode) == Delivery(a + b, decode)
  {
    assert [f][..0] == [];
    assert Delivery([f], decode) == ([], false);
    if Delivery(a, decode).1 {
      FailureIsFinalOn(a, a + b, decode);
      assert a <= a + [f] + b;
      FailureIsFinalOn(a, a + [f] + b, decode);
    } else {
      DeliveryContinues(a, b, decode);
      DeliveryContinues(a, [f], decode);
      DeliveryContinues(a + [f], b, decode);
    }
  }

  /** A frame that is not JSON ends the stream: what was delivered stays, and nothing behind it follows. */
  lemma MalformedEndsTheStream(a: seq<Frame>, f: Frame, b: seq<Frame>, decode: string -> Decoded)
    requires decode(f.data).Malformed? && !Delivery(a, decode).1
    ensures Delivery(a + [f] + b, decode) == (Delivery(a, decode).0, true)
  {
    assert [f][..0] == [];
    DeliveryContinues(a, [f], decode);
    FailureIsFinalOn(a + [f], a + [f] + b, decode);
  }
}
