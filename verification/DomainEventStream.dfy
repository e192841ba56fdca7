/** `consumeDomainEventStream`: chunks of wire text in, domain events out. */
module DomainEventStream {
  import opened Sse
  import opened SseWire
  import opened SseRoundTrip
  import opened SseCuts
  import Presentation

  type DomainEvent = Presentation.DomainEvent

  /** `normalizeEvent(JSON.parse(data))`: an event, something else, or text that is not JSON and throws. */
  datatype Decoded = Parsed(event: DomainEvent) | Ignored | Malformed

  /** The events handed on before the first malformed frame, and whether there was one. */
  function Delivery(frames: seq<Frame>, decode: string -> Decoded): (seq<DomainEvent>, bool) {
    if frames == [] then ([], false)
    else
      var (earlier, failed) := Delivery(frames[..|frames| - 1], decode);
      if failed then (earlier, true)
      else match decode(frames[|frames| - 1].data)
        case Parsed(e) => (earlier + [e], false)
        case Ignored => (earlier, false)
        case Malformed => (earlier, true)
  }

  lemma {:induction false} DeliveryIsMonotone(frames: seq<Frame>, n: nat, decode: string -> Decoded)
    requires n <= |frames|
    ensures Delivery(frames[..n], decode).0 <= Delivery(frames, decode).0
    ensures Delivery(frames[..n], decode).1 ==> Delivery(frames, decode) == Delivery(frames[..n], decode)
    decreases |frames|
  {
    if n < |frames| {
      DeliveryIsMonotone(frames[..|frames| - 1], n, decode);
      assert frames[..|frames| - 1][..n] == frames[..n];
    } else {
      assert frames[..n] == frames;
    }
  }

  method HandOn(frames: seq<Frame>, seen: nat, decode: string -> Decoded, already: seq<DomainEvent>)
    returns (delivered: seq<DomainEvent>, failed: bool)
    requires seen <= |frames| && Delivery(frames[..seen], decode) == (already, false)
    ensures (delivered, failed) == Delivery(frames, decode)
  {
    delivered, failed := already, false;
    for k := seen to |frames|
      invariant Delivery(frames[..k], decode) == (delivered, false)
    {
      assert frames[..k + 1][..k] == frames[..k];
      match decode(frames[k].data) {
        case Parsed(e) => delivered := delivered + [e];
        case Ignored =>
        case Malformed =>
          assert Delivery(frames[..k + 1], decode) == (delivered, true);
          DeliveryIsMonotone(frames, k + 1, decode);
          return delivered, true;
      }
    }
    assert frames[..|frames|] == frames;
  }

  lemma OneMoreChunk(chunks: seq<string>, k: nat)
    requires k < |chunks|
    ensures NormalizeChunks(chunks[..k + 1]) == NormalizeChunks(chunks[..k]) + Normalize(chunks[k])
    ensures ParsedText(NormalizeChunks(chunks[..k])).frames <= ParsedText(NormalizeChunks(chunks[..k + 1])).frames
  {
    NormalizeChunksAppend(chunks[..k], chunks[k]);
    assert chunks[..k + 1] == chunks[..k] + [chunks[k]];
    ParsedOnlyGrows(NormalizeChunks(chunks[..k]), Normalize(chunks[k]));
  }

  lemma FramesOfParts(a: seq<string>, b: seq<string>, chunks: seq<string>)
    requires chunks == a + b
    ensures ParsedText(NormalizeChunks(a)).frames <= Frames(NormalizeChunks(chunks))
  {
    NormalizeChunksConcat(a, b);
    FramesExtendParsed(NormalizeChunks(a), NormalizeChunks(b));
  }

  lemma FailureIsFinalOn(some: seq<Frame>, all: seq<Frame>, decode: string -> Decoded)
    requires some <= all && Delivery(some, decode).1
    ensures Delivery(all, decode) == Delivery(some, decode)
  {
    assert all[..|some|] == some;
    DeliveryIsMonotone(all, |some|, decode);
  }

  /** What fails on the frames of the first chunks fails, with the same events, on the whole stream. */
  lemma FailureIsFinal(chunks: seq<string>, k: nat, decode: string -> Decoded)
    requires k <= |chunks| && Delivery(ParsedText(NormalizeChunks(chunks[..k])).frames, decode).1
    ensures Delivery(Frames(NormalizeChunks(chunks)), decode) ==
            Delivery(ParsedText(NormalizeChunks(chunks[..k])).frames, decode)
  {
    TwoParts(chunks, k);
    FramesOfParts(chunks[..k], chunks[k..], chunks);
    FailureIsFinalOn(ParsedText(NormalizeChunks(chunks[..k])).frames, Frames(NormalizeChunks(chunks)), decode);
  }

  lemma TwoParts(chunks: seq<string>, k: nat)
    requires k <= |chunks|
    ensures chunks == chunks[..k] + chunks[k..]
  {
  }

  /** Reads to the end of the stream; a malformed frame aborts it, keeping what was delivered. */
  method ConsumeDomainEventStream(chunks: seq<string>, decode: string -> Decoded)
    returns (delivered: seq<DomainEvent>, failed: bool)
    ensures (delivered, failed) == Delivery(Frames(NormalizeChunks(chunks)), decode)
  {
    delivered, failed := [], false;
    var parser := new SseParser();
    var seen := 0;
    for k := 0 to |chunks|
      invariant fresh(parser) && parser.Valid() && parser.text == NormalizeChunks(chunks[..k])
      invariant seen == |parser.frames| && Delivery(parser.frames, decode) == (delivered, false)
    {
      ghost var before := parser.frames;
      parser.Feed(chunks[k]);
      OneMoreChunk(chunks, k);
      assert parser.frames[..seen] == before;
      delivered, failed := HandOn(parser.frames, seen, decode, delivered);
      if failed {
        FailureIsFinal(chunks, k + 1, decode);
        return;
      }
      seen := |parser.frames|;
    }
    assert chunks[..|chunks|] == chunks;
    FramesExtendParsed(parser.text, "");
    assert parser.text + "" == parser.text;
    ghost var before := parser.frames;
    parser.Finish();
    assert parser.frames[..seen] == before;
    delivered, failed := HandOn(parser.frames, seen, decode, delivered);
  }

  lemma ParsedOnlyGrows(text: string, more: string)
    ensures ParsedText(text).frames <= ParsedText(text + more).frames
  {
    SplitAppend(text, more);
    ConsumedAllAppend(START, CompleteLines(text), CompleteLines(Rest(text) + more));
    FramesOnlyGrow(ParsedText(text), CompleteLines(Rest(text) + more));
  }

  lemma FramesExtendParsed(text: string, more: string)
    ensures ParsedText(text).frames <= Frames(text + more)
  {
    ParsedOnlyGrows(text, more);
  }

  lemma {:induction false} NormalizeChunksConcat(a: seq<string>, b: seq<string>)
    ensures NormalizeChunks(a + b) == NormalizeChunks(a) + NormalizeChunks(b)
  {
    if a == [] {
      assert a + b == b;
    } else {
      assert (a + b)[1..] == a[1..] + b;
      NormalizeChunksConcat(a[1..], b);
    }
  }

  lemma NormalizeChunksAppend(a: seq<string>, chunk: string)
    ensures NormalizeChunks(a + [chunk]) == NormalizeChunks(a) + Normalize(chunk)
  {
    NormalizeChunksConcat(a, [chunk]);
    assert NormalizeChunks([chunk]) == Normalize(chunk) + NormalizeChunks([]);
  }

  // ---------------------------------------------------------------- end to end

  type Encoder = DomainEvent -> string

  /** The wire's event blocks hold the encodings of `events`, in order; keep-alives may sit anywhere. */
  ghost predicate Carries(blocks: seq<Block>, events: seq<DomainEvent>, encode: Encoder) {
    && AllPrintable(blocks)
    && |FramesOf(blocks)| == |events|
    && (forall i :: 0 <= i < |events| ==> FramesOf(blocks)[i].data == encode(events[i]))
  }

  /** Every encoded event reads back. */
  ghost predicate ReadsBack(events: seq<DomainEvent>, encode: Encoder, decode: string -> Decoded) {
    forall i :: 0 <= i < |events| ==> decode(encode(events[i])) == Parsed(events[i])
  }

  /** A part of an encoded event, short of the whole, is not JSON. */
  ghost predicate PartsFail(events: seq<DomainEvent>, encode: Encoder, decode: string -> Decoded) {
    forall i, n :: 0 <= i < |events| && 0 <= n < |encode(events[i])| ==> decode(encode(events[i])[..n]) == Malformed
  }

  lemma {:induction false} DeliversEach(frames: seq<Frame>, events: seq<DomainEvent>, encode: Encoder,
                                        decode: string -> Decoded)
    requires |frames| == |events| && ReadsBack(events, encode, decode)
    requires forall i :: 0 <= i < |events| ==> frames[i].data == encode(events[i])
    ensures Delivery(frames, decode) == (events, false)
  {
    if events != [] {
      DeliversEach(frames[..|frames| - 1], events[..|events| - 1], encode, decode);
      assert events[..|events| - 1] + [events[|events| - 1]] == events;
    }
  }

  /** True frames deliver their events; a frame cut short after them fails and delivers nothing more. */
  lemma DeliversUpTo(got: seq<Frame>, whole: seq<Frame>, n: nat, events: seq<DomainEvent>, encode: Encoder,
                     decode: string -> Decoded)
    requires TrueUpTo(got, whole, n) && |whole| == |events|
    requires forall i :: 0 <= i < |events| ==> whole[i].data == encode(events[i])
    requires ReadsBack(events, encode, decode) && PartsFail(events, encode, decode)
    ensures Delivery(got, decode) == (events[..n], n < |got|)
  {
    DeliversEach(got[..n], events[..n], encode, decode);
    if n < |got| {
      assert got[n].data == encode(events[n])[..|got[n].data|];
      assert got[..n + 1][..n] == got[..n];
      assert Delivery(got[..n + 1], decode) == (events[..n], true);
      DeliveryIsMonotone(got, n + 1, decode);
    } else {
      assert got[..n] == got;
    }
  }

  /**
   An intact wire in whatever chunks: every printed event is delivered unless a pair is split between two data lines of
   a frame; and then, when parts of events fail to parse, not every event is.
   */
  lemma IntactWireDeliversAll(blocks: seq<Block>, eol: string, chunks: seq<string>, events: seq<DomainEvent>,
                              encode: Encoder, decode: string -> Decoded)
    requires Carries(blocks, events, encode) && eol in ["\n", "\r\n", "\r"]
    requires ReadsBack(events, encode, decode)
    requires Concat(chunks) == Text(AllLines(blocks), eol)
    ensures !TearsData(AllLines(blocks), PairsSplit(blocks, eol, chunks)) ==>
              Delivery(Frames(NormalizeChunks(chunks)), decode) == (events, false)
    ensures PartsFail(events, encode, decode) ==>
              (Delivery(Frames(NormalizeChunks(chunks)), decode) == (events, false) <==>
               !TearsData(AllLines(blocks), PairsSplit(blocks, eol, chunks)))
  {
    var got, whole := Frames(NormalizeChunks(chunks)), FramesOf(blocks);
    WireRoundTrip(blocks, eol, chunks);
    if SameData(got, whole) {
      DeliversEach(got, events, encode, decode);
    }
    if PartsFail(events, encode, decode) {
      var n := CutWireIsTrueUpToLast(blocks, eol, chunks);
      DeliversUpTo(got, whole, n, events, encode, decode);
      assert |events[..n]| == n;
    }
  }

  /** What the server prints is JSON on one line, which no chunking tears: every event is delivered. */
  lemma OneLineWireDeliversAll(blocks: seq<Block>, eol: string, chunks: seq<string>, events: seq<DomainEvent>,
                               encode: Encoder, decode: string -> Decoded)
    requires Carries(blocks, events, encode) && eol in ["\n", "\r\n", "\r"]
    requires ReadsBack(events, encode, decode) && forall i :: 0 <= i < |events| ==> OneLine(encode(events[i]))
    requires Concat(chunks) == Text(AllLines(blocks), eol)
    ensures Delivery(Frames(NormalizeChunks(chunks)), decode) == (events, false)
  {
    OneLineDataIsNeverTorn(blocks, PairsSplit(blocks, eol, chunks));
    IntactWireDeliversAll(blocks, eol, chunks, events, encode, decode);
  }

  /**
   A connection cut at any character, in whatever chunks, delivers a prefix of the events and nothing else. The parser
   does dispatch the unterminated last frame, and a torn frame in pieces, but a piece of an event fails to parse.
   */
  lemma CutWireDeliversPrefix(blocks: seq<Block>, eol: string, chunks: seq<string>, events: seq<DomainEvent>,
                              encode: Encoder, decode: string -> Decoded)
    requires Carries(blocks, events, encode) && eol in ["\n", "\r\n", "\r"]
    requires ReadsBack(events, encode, decode) && PartsFail(events, encode, decode)
    requires Concat(chunks) <= Text(AllLines(blocks), eol)
    ensures Delivery(Frames(NormalizeChunks(chunks)), decode).0 <= events
  {
    var n := CutWireIsTrueUpToLast(blocks, eol, chunks);
    DeliversUpTo(Frames(NormalizeChunks(chunks)), FramesOf(blocks), n, events, encode, decode);
  }
}
