/**
 What a connection cut at any character leaves of a printed wire, in any chunking at all. The parser dispatches the
 unterminated frame it ends in, so the last frame may carry less data than was printed, and a frame torn by a split pair
 is dispatched in pieces; but up to the first such frame everything is as it was printed.
 */
module SseCuts {
  import opened Common
  import opened Sse
  import opened SseWire
  import opened SseChunks
  import opened SseRoundTrip

  /** The first `n` frames carry the true data; one more, if there is one, carries less than its own. */
  predicate TrueUpTo(got: seq<Frame>, whole: seq<Frame>, n: nat) {
    && n <= |got| && n <= |whole|
    && (forall i :: 0 <= i < n ==> got[i].data == whole[i].data)
    && (n < |got| ==> n < |whole| && got[n].data < whole[n].data)
  }

  predicate KeepsNames(got: seq<Frame>, whole: seq<Frame>) {
    |got| <= |whole| && forall i :: 0 <= i < |got| ==> got[i].event == whole[i].event && got[i].id == whole[i].id
  }

  /** What `finish` dispatches when the text ends in an unterminated line. */
  function Ended(p: ParserState, rest: string): seq<Frame> {
    Emitted(if rest != "" then Consumed(p, rest) else p).frames
  }

  /** What is read of lines that were cut, given the frames that the whole of them prints and what was torn. */
  ghost predicate CutGives(torn: bool, tornFrame: bool, got: seq<Frame>, whole: seq<Frame>, n: nat) {
    && TrueUpTo(got, whole, n)
    && (!torn ==> |got| <= n + 1)
    && (!tornFrame ==> KeepsNames(got, whole))
  }

  // -------------------------------------------------------------- one block

  /** A piece of a header line names no data. */
  lemma HeaderPiece(f: Frame, j: nat, rest: string)
    requires j < |Header(f)| && rest <= Header(f)[j]
    ensures FieldOf(rest) != "data"
  {
    if j == 0 && f.id.Some? {
      CutField("id", f.id.value, rest);
    } else {
      CutField("event", f.event.value, rest);
    }
  }

  lemma CutInHeader(f: Frame, out: seq<Frame>, splits: seq<bool>, j: nat, rest: string)
    requires |splits| == |Lines(Data(f))| && j < |Header(f)| && rest <= Header(f)[j]
    ensures Ended(Arriving(ParserState(EMPTY_BUILDER, out), Lines(Data(f))[..j], splits[..j]), rest) == out
  {
    var h := |Header(f)|;
    assert Lines(Data(f))[..j] == Header(f)[..j] && splits[..h][..j] == splits[..j];
    HeaderArrives(f, out, splits[..h], j);
    HeaderPiece(f, j, rest);
  }

  /** A piece of a data line adds a piece of that line to what was collected. */
  lemma DataPiece(parts: seq<string>, m: nat, p: ParserState, rest: string)
    requires m < |parts| && p.frame.data == parts[..m] && rest <= Field("data", parts[m])
    ensures var end := if rest != "" then Consumed(p, rest) else p;
            && end.frames == p.frames && end.frame.event == p.frame.event && end.frame.id == p.frame.id
            && Join(end.frame.data) <= Join(parts)
  {
    CutField("data", parts[m], rest);
    JoinPrefix(parts, m, "");
    if FieldOf(rest) == "data" {
      JoinPrefix(parts, m, ValueOf(rest));
    }
  }

  lemma CutInData(f: Frame, q: ParserState, splits: seq<bool>, m: nat, end: ParserState, rest: string)
    returns (got: seq<Frame>, n: nat)
    requires m <= |Split(f.data)| == |splits| && DataLeaves(q, Split(f.data), splits, m, end)
    requires rest <= if m < |Split(f.data)| then Field("data", Split(f.data)[m]) else ""
    ensures Ended(end, rest) == q.frames + got && TrueUpTo(got, [f], n)
    ensures !SplitWithin(splits, |splits|) ==> |got| <= 1
    ensures !SplitWithin(splits, |splits|) && q.frame.event == f.event && q.frame.id == f.id ==> KeepsNames(got, [f])
  {
    var parts := Split(f.data);
    JoinSplit(f.data);
    got := Ended(end, rest)[|q.frames|..];
    n := if got != [] && got[0].data == f.data then 1 else 0;
    if SplitWithin(splits, m) {
      assert SplitWithin(splits, |splits|);
      n := 0;
    } else if m < |parts| {
      DataPiece(parts, m, end, rest);
    } else {
      assert parts[..m] == parts;
    }
  }

  lemma TakePast<T>(a: seq<T>, b: seq<T>, j: nat)
    requires |a| <= j <= |a + b|
    ensures (a + b)[..j] == a + b[..j - |a|]
  {
  }

  lemma ArrivingPast(p: ParserState, first: seq<string>, others: seq<string>, splits: seq<bool>, j: nat)
    requires |splits| == |first + others| && |first| <= j <= |splits|
    ensures Arriving(p, (first + others)[..j], splits[..j]) ==
            Arriving(Arriving(p, first, splits[..|first|]), others[..j - |first|], splits[|first|..][..j - |first|])
  {
    TakePast(first, others, j);
    TakePast(splits[..|first|], splits[|first|..], j);
    assert splits == splits[..|first|] + splits[|first|..];
    ArrivingAppend(p, first, splits[..|first|], others[..j - |first|], splits[|first|..][..j - |first|]);
  }

  /** The header of an event and its first `m` data lines. */
  function Front(f: Frame, m: nat): seq<string>
    requires m <= |Split(f.data)|
  {
    Header(f) + DataLines(Split(f.data)[..m])
  }

  lemma DataLinesTake(parts: seq<string>, m: nat)
    requires m <= |parts|
    ensures DataLines(parts)[..m] == DataLines(parts[..m])
  {
  }

  lemma TwoSlices<T>(s: seq<T>, h: nat, n: nat, m: nat)
    requires m <= n && h + n <= |s|
    ensures s[..h + m] == s[..h] + s[h..h + n][..m]
  {
  }

  lemma FrontArrives(f: Frame, p: ParserState, splits: seq<bool>, m: nat)
    requires m <= |Split(f.data)| && |Header(f)| + |Split(f.data)| < |splits|
    ensures var h, n := |Header(f)|, |Split(f.data)|;
            Arriving(p, Front(f, m), splits[..h + m]) ==
            Arriving(Arriving(p, Header(f), splits[..h]), DataLines(Split(f.data))[..m], splits[h..h + n][..m])
  {
    var h, n := |Header(f)|, |Split(f.data)|;
    TwoSlices(splits, h, n, m);
    DataLinesTake(Split(f.data), m);
    ArrivingAppend(p, Header(f), splits[..h], DataLines(Split(f.data))[..m], splits[h..h + n][..m]);
  }

  /** What an event's front leaves. */
  lemma FrontState(f: Frame, out: seq<Frame>, splits: seq<bool>, m: nat)
    returns (q: ParserState, end: ParserState)
    requires m <= |Split(f.data)| && |splits| == |Header(f)| + |Split(f.data)| + 1
    ensures |Front(f, m)| < |splits|
            && end == Arriving(ParserState(EMPTY_BUILDER, out), Front(f, m), splits[..|Front(f, m)|])
    ensures q.frames == out
    ensures q.frame.event == f.event && q.frame.id == f.id <==> !AnySplit(splits[..|Header(f)|])
    ensures DataLeaves(q, Split(f.data), splits[|Header(f)|..|Header(f)| + |Split(f.data)|], m, end)
  {
    var h, n := |Header(f)|, |Split(f.data)|;
    FrontArrives(f, ParserState(EMPTY_BUILDER, out), splits, m);
    q := HeaderWhole(f, out, splits[..h]);
    DataArrives(q, Split(f.data), splits[h..h + n], m);
    end := Arriving(q, DataLines(Split(f.data))[..m], splits[h..h + n][..m]);
  }

  /** What an event's front leaves, and how that shows whether the event is torn. */
  lemma FrontLeaves(f: Frame, out: seq<Frame>, splits: seq<bool>, m: nat)
    returns (q: ParserState, end: ParserState, dataSplits: seq<bool>)
    requires m <= |Split(f.data)| && |splits| == |Header(f)| + |Split(f.data)| + 1
    ensures |Front(f, m)| < |splits|
            && end == Arriving(ParserState(EMPTY_BUILDER, out), Front(f, m), splits[..|Front(f, m)|])
    ensures q.frames == out && |dataSplits| == |Split(f.data)| && DataLeaves(q, Split(f.data), dataSplits, m, end)
    ensures SplitWithin(dataSplits, |dataSplits|) <==> DataTorn(f, splits)
    ensures !FrameTorn(f, splits) ==>
            !SplitWithin(dataSplits, |dataSplits|) && q.frame.event == f.event && q.frame.id == f.id
  {
    var h, k := |Header(f)|, |Split(f.data)|;
    q, end := FrontState(f, out, splits, m);
    dataSplits := splits[h..h + k];
    SplitsOfParts(splits, h, k);
  }

  lemma CutAfterFront(f: Frame, out: seq<Frame>, splits: seq<bool>, m: nat, rest: string)
    returns (got: seq<Frame>, n: nat)
    requires m <= |Split(f.data)| && |splits| == |Header(f)| + |Split(f.data)| + 1
    requires rest <= if m < |Split(f.data)| then Field("data", Split(f.data)[m]) else ""
    ensures |Front(f, m)| < |splits|
    ensures Ended(Arriving(ParserState(EMPTY_BUILDER, out), Front(f, m), splits[..|Front(f, m)|]), rest) == out + got
    ensures CutGives(DataTorn(f, splits), FrameTorn(f, splits), got, [f], n)
  {
    var q, end, dataSplits := FrontLeaves(f, out, splits, m);
    got, n := CutInData(f, q, dataSplits, m, end, rest);
  }

  lemma CutBeforeData(f: Frame, out: seq<Frame>, splits: seq<bool>, j: nat, rest: string)
    requires |splits| == |Lines(Data(f))| && j < |Header(f)| && rest <= Lines(Data(f))[j]
    ensures Ended(Arriving(ParserState(EMPTY_BUILDER, out), Lines(Data(f))[..j], splits[..j]), rest) == out
  {
    LinesInHeader(f, j);
    CutInHeader(f, out, splits, j, rest);
  }

  lemma CutPastHeader(f: Frame, lines: seq<string>, out: seq<Frame>, splits: seq<bool>, m: nat, rest: string)
    returns (got: seq<Frame>, n: nat)
    requires m <= |Split(f.data)| && |splits| == |lines| == |Header(f)| + |Split(f.data)| + 1
    requires lines[..|Header(f)| + m] == Front(f, m)
    requires rest <= if m < |Split(f.data)| then Field("data", Split(f.data)[m]) else ""
    ensures var j := |Header(f)| + m;
            Ended(Arriving(ParserState(EMPTY_BUILDER, out), lines[..j], splits[..j]), rest) == out + got
    ensures CutGives(DataTorn(f, splits), FrameTorn(f, splits), got, [f], n)
  {
    got, n := CutAfterFront(f, out, splits, m, rest);
  }

  lemma CutEvent(f: Frame, out: seq<Frame>, splits: seq<bool>, j: nat, rest: string) returns (got: seq<Frame>, n: nat)
    requires |splits| == |Lines(Data(f))| == |Header(f)| + |Split(f.data)| + 1
    requires j < |splits| && rest <= Lines(Data(f))[j]
    ensures Ended(Arriving(ParserState(EMPTY_BUILDER, out), Lines(Data(f))[..j], splits[..j]), rest) == out + got
    ensures CutGives(DataTorn(f, splits), FrameTorn(f, splits), got, [f], n)
  {
    if j < |Header(f)| {
      CutBeforeData(f, out, splits, j, rest);
      got, n := [], 0;
    } else {
      var m := j - |Header(f)|;
      LinesInData(f, m);
      got, n := CutPastHeader(f, Lines(Data(f)), out, splits, m, rest);
    }
  }

  lemma CutKeepAlive(texts: seq<string>, out: seq<Frame>, splits: seq<bool>, j: nat, rest: string)
    requires |splits| == |Lines(Comment(texts))| && j < |splits| && rest <= Lines(Comment(texts))[j]
    ensures Ended(Arriving(ParserState(EMPTY_BUILDER, out), Lines(Comment(texts))[..j], splits[..j]), rest) == out
  {
    LinesInComment(texts, j);
    CommentsGiveNothing(ParserState(EMPTY_BUILDER, out), texts[..j], splits[..j]);
  }

  lemma CutBlock(b: Block, out: seq<Frame>, splits: seq<bool>, j: nat, rest: string) returns (got: seq<Frame>, n: nat)
    requires |splits| == |Lines(b)| && j < |Lines(b)| && rest <= Lines(b)[j]
    ensures Ended(Arriving(ParserState(EMPTY_BUILDER, out), Lines(b)[..j], splits[..j]), rest) == out + got
    ensures CutGives(TearsData(Lines(b), splits), TearsFrame(Lines(b), splits), got, FrameOf(b), n)
  {
    match b {
      case Data(f) =>
        EventTears(f, splits);
        got, n := CutEvent(f, out, splits, j, rest);
      case Comment(texts) =>
        CutKeepAlive(texts, out, splits, j, rest);
        got, n := [], 0;
    }
  }

  // ------------------------------------------------------------- many blocks

  lemma TrueAfter(first: seq<Frame>, one: seq<Frame>, later: seq<Frame>, more: seq<Frame>, k: nat)
    requires SameData(first, one) && TrueUpTo(later, more, k)
    ensures TrueUpTo(first + later, one + more, |first| + k)
  {
  }

  lemma NamesAfter(first: seq<Frame>, later: seq<Frame>, more: seq<Frame>)
    requires KeepsNames(later, more)
    ensures KeepsNames(first + later, first + more)
  {
  }

  lemma CutAfterFirst(torn: bool, tornFrame: bool, first: seq<Frame>, one: seq<Frame>,
                      tornLater: bool, tornFrameLater: bool, later: seq<Frame>, more: seq<Frame>, k: nat)
    returns (n: nat)
    requires Gives(torn, tornFrame, first, one) && CutGives(tornLater, tornFrameLater, later, more, k)
    ensures CutGives(torn || tornLater, tornFrame || tornFrameLater, first + later, one + more, n)
  {
    if torn {
      n := 0;
    } else {
      n := |first| + k;
      TrueAfter(first, one, later, more, k);
    }
    if !tornFrame && !tornFrameLater {
      NamesAfter(first, later, more);
    }
  }

  lemma CutInFirst(torn: bool, tornFrame: bool, tornLater: bool, tornFrameLater: bool,
                   got: seq<Frame>, one: seq<Frame>, more: seq<Frame>, n: nat)
    requires CutGives(torn, tornFrame, got, one, n)
    ensures CutGives(torn || tornLater, tornFrame || tornFrameLater, got, one + more, n)
  {
  }

  lemma {:induction false} CutBlocks(blocks: seq<Block>, out: seq<Frame>, splits: seq<bool>, j: nat, rest: string)
    returns (got: seq<Frame>, n: nat)
    requires |splits| == |AllLines(blocks)| && j <= |splits|
    requires if j < |splits| then rest <= AllLines(blocks)[j] else rest == ""
    ensures Ended(Arriving(ParserState(EMPTY_BUILDER, out), AllLines(blocks)[..j], splits[..j]), rest) == out + got
    ensures CutGives(TearsData(AllLines(blocks), splits), TearsFrame(AllLines(blocks), splits), got, FramesOf(blocks),
                     n)
    decreases |blocks|
  {
    if blocks == [] {
      assert Widened(AllLines(blocks)[..0], splits[..0]) == [];
      got, n := [], 0;
    } else {
      var b, others, size := blocks[0], AllLines(blocks[1..]), |Lines(blocks[0])|;
      TearsInParts(Lines(b), others, splits);
      var torn, tornFrame := TearsData(Lines(b), splits[..size]), TearsFrame(Lines(b), splits[..size]);
      var tornLater, tornFrameLater := TearsData(others, splits[size..]), TearsFrame(others, splits[size..]);
      if j < size {
        CutWithin(Lines(b), others, splits, j);
        got, n := CutBlock(b, out, splits[..size], j, rest);
        CutInFirst(torn, tornFrame, tornLater, tornFrameLater, got, FrameOf(b), FramesOf(blocks[1..]), n);
      } else {
        ArrivingPast(ParserState(EMPTY_BUILDER, out), Lines(b), others, splits, j);
        var first := BlockGives(b, out, splits[..size]);
        var later, k := CutBlocks(blocks[1..], out + first, splits[size..], j - size, rest);
        n := CutAfterFirst(torn, tornFrame, first, FrameOf(b), tornLater, tornFrameLater, later, FramesOf(blocks[1..]),
                           k);
        got := first + later;
        ConcatAssociates(out, first, later);
      }
    }
  }

  lemma CutWithin(first: seq<string>, others: seq<string>, splits: seq<bool>, j: nat)
    requires j < |first| && |splits| == |first + others|
    ensures (first + others)[..j] == first[..j] && splits[..|first|][..j] == splits[..j]
  {
  }

  /** The frames of whole lines and a piece of a line. */
  lemma FramesOfCut(lines: seq<string>, rest: string)
    requires AllOneLine(lines) && OneLine(rest)
    ensures Frames(Text(lines, "\n") + rest) == Ended(ConsumedAll(START, lines), rest)
  {
    SplitAfterLines(lines, rest);
    SplitOneLine(rest);
    assert lines + [rest] == lines + [rest];
  }

  /**
   A connection cut at any character invents nothing: true frames in order, then perhaps one whose data is cut short.
   Only a pair split between two data lines of a frame lets anything follow that one, and without a pair split inside
   a frame every frame keeps its event and id.
   */
  lemma CutWireIsTrueUpToLast(blocks: seq<Block>, eol: string, chunks: seq<string>) returns (n: nat)
    requires AllPrintable(blocks) && eol in ["\n", "\r\n", "\r"]
    requires Concat(chunks) <= Text(AllLines(blocks), eol)
    ensures TrueUpTo(Frames(NormalizeChunks(chunks)), FramesOf(blocks), n)
    ensures !TearsData(AllLines(blocks), PairsSplit(blocks, eol, chunks)) ==> |Frames(NormalizeChunks(chunks))| <= n + 1
    ensures !TearsFrame(AllLines(blocks), PairsSplit(blocks, eol, chunks)) ==>
              KeepsNames(Frames(NormalizeChunks(chunks)), FramesOf(blocks))
  {
    var lines, splits := AllLines(blocks), PairsSplit(blocks, eol, chunks);
    LinesAreOneLine(blocks);
    ChunksArrive(chunks);
    var j, rest := WireArrives(lines, eol, Concat(chunks), ChunkStarts(chunks));
    WidenedIsOneLine(lines[..j], splits[..j]);
    FramesOfCut(Widened(lines[..j], splits[..j]), rest);
    var got;
    got, n := CutBlocks(blocks, [], splits, j, rest);
    assert [] + got == got;
  }
}
