/**
 Which frames a whole wire gives, in any chunking at all. A pair split over two chunks adds a blank line behind its
 line, which ends a frame early when more of that frame follows. So the frames that were printed come back, except
 where a pair was split inside one, and their data comes back in order, except where a pair was split between two data
 lines.
 */
module SseRoundTrip {
  import opened Common
  import opened Sse
  import opened SseWire
  import opened SseChunks

  // ------------------------------------------------------------------- tears

  predicate IsField(line: string) {
    line != "" && line[0] != ':'
  }

  predicate IsData(line: string) {
    IsField(line) && FieldOf(line) == "data"
  }

  /** The pair behind line `k` was split, which is a data line and has another of its frame behind it. */
  predicate DataTornAt(lines: seq<string>, splits: seq<bool>, k: int)
    requires |splits| == |lines|
  {
    0 <= k < |lines| - 1 && splits[k] && IsData(lines[k]) && IsData(lines[k + 1])
  }

  /** The pair behind line `k` was split, which is a field and has another line of its frame behind it. */
  predicate FrameTornAt(lines: seq<string>, splits: seq<bool>, k: int)
    requires |splits| == |lines|
  {
    0 <= k < |lines| - 1 && splits[k] && IsField(lines[k]) && lines[k + 1] != ""
  }

  predicate TearsData(lines: seq<string>, splits: seq<bool>)
    requires |splits| == |lines|
  {
    exists k :: 0 <= k < |lines| && DataTornAt(lines, splits, k)
  }

  predicate TearsFrame(lines: seq<string>, splits: seq<bool>)
    requires |splits| == |lines|
  {
    exists k :: 0 <= k < |lines| && FrameTornAt(lines, splits, k)
  }

  lemma TornInPart(first: seq<string>, others: seq<string>, splits: seq<bool>, k: nat)
    requires |splits| == |first + others| && first != [] && first[|first| - 1] == ""
    ensures DataTornAt(first + others, splits, k) <==>
            if k < |first| then DataTornAt(first, splits[..|first|], k)
                else DataTornAt(others, splits[|first|..], k - |first|)
    ensures FrameTornAt(first + others, splits, k) <==>
            if k < |first| then FrameTornAt(first, splits[..|first|], k)
                else FrameTornAt(others, splits[|first|..], k - |first|)
  {
  }

  /** No frame is torn across the blank line that ends a block. */
  lemma TearsInParts(first: seq<string>, others: seq<string>, splits: seq<bool>)
    requires |splits| == |first + others| && first != [] && first[|first| - 1] == ""
    ensures TearsData(first + others, splits) <==>
            TearsData(first, splits[..|first|]) || TearsData(others, splits[|first|..])
    ensures TearsFrame(first + others, splits) <==>
            TearsFrame(first, splits[..|first|]) || TearsFrame(others, splits[|first|..])
  {
    forall k: nat
      ensures DataTornAt(first + others, splits, k) <==>
              if k < |first| then DataTornAt(first, splits[..|first|], k)
              else DataTornAt(others, splits[|first|..], k - |first|)
      ensures FrameTornAt(first + others, splits, k) <==>
              if k < |first| then FrameTornAt(first, splits[..|first|], k)
              else FrameTornAt(others, splits[|first|..], k - |first|)
    {
      TornInPart(first, others, splits, k);
    }
    if k :| 0 <= k < |others| && DataTornAt(others, splits[|first|..], k) {
      assert DataTornAt(first + others, splits, |first| + k);
    }
    if k :| 0 <= k < |others| && FrameTornAt(others, splits[|first|..], k) {
      assert FrameTornAt(first + others, splits, |first| + k);
    }
  }

  lemma TornDataIsTornFrame(lines: seq<string>, splits: seq<bool>)
    requires |splits| == |lines|
    ensures TearsData(lines, splits) ==> TearsFrame(lines, splits)
  {
    if k :| 0 <= k < |lines| && DataTornAt(lines, splits, k) {
      assert FrameTornAt(lines, splits, k);
    }
  }

  // ------------------------------------------------------------ widened lines

  lemma {:induction false} WidenedAppend(a: seq<string>, aSplits: seq<bool>, b: seq<string>, bSplits: seq<bool>)
    requires |aSplits| == |a| && |bSplits| == |b|
    ensures Widened(a + b, aSplits + bSplits) == Widened(a, aSplits) + Widened(b, bSplits)
  {
    if a == [] {
      assert a + b == b && aSplits + bSplits == bSplits;
    } else {
      FirstOfConcat(a, b);
      FirstOfConcat(aSplits, bSplits);
      WidenedAppend(a[1..], aSplits[1..], b, bSplits);
      ConcatAssociates([a[0]] + (if aSplits[0] then [""] else []), Widened(a[1..], aSplits[1..]), Widened(b, bSplits));
    }
  }

  /** The parser after `lines`, with the blank lines that split pairs make. */
  function Arriving(p: ParserState, lines: seq<string>, splits: seq<bool>): ParserState
    requires |splits| == |lines|
  {
    ConsumedAll(p, Widened(lines, splits))
  }

  lemma ArrivingAppend(p: ParserState, a: seq<string>, aSplits: seq<bool>, b: seq<string>, bSplits: seq<bool>)
    requires |aSplits| == |a| && |bSplits| == |b|
    ensures Arriving(p, a + b, aSplits + bSplits) == Arriving(Arriving(p, a, aSplits), b, bSplits)
  {
    WidenedAppend(a, aSplits, b, bSplits);
    ConsumedAllAppend(p, Widened(a, aSplits), Widened(b, bSplits));
  }

  lemma ArrivingOne(p: ParserState, line: string, split: bool)
    ensures Arriving(p, [line], [split]) == if split then Emitted(Consumed(p, line)) else Consumed(p, line)
  {
    var q := Consumed(p, line);
    assert Widened([line], [split]) == [line] + if split then [""] else [];
    assert ([line] + [""])[1..] == [""];
    EndOfBlock(q);
    assert ConsumedAll(p, [line]) == ConsumedAll(q, []);
    assert ConsumedAll(p, [line, ""]) == ConsumedAll(q, [""]);
  }

  /** Frames already dispatched stay dispatched. */
  lemma {:induction false} FramesOnlyGrow(p: ParserState, lines: seq<string>)
    ensures p.frames <= ConsumedAll(p, lines).frames
    decreases |lines|
  {
    if lines != [] {
      FramesOnlyGrow(Consumed(p, lines[0]), lines[1..]);
    }
  }

  // --------------------------------------------------------------- data lines

  lemma {:induction false} JoinOfFewer(parts: seq<string>, m: nat)
    requires 0 < m < |parts|
    ensures Join(parts[..m]) + "\n" <= Join(parts)
  {
    if m == 1 {
      assert parts[..1] == [parts[0]];
    } else {
      JoinOfFewer(parts[1..], m - 1);
      assert parts[1..][..m - 1] == parts[..m][1..];
      ConcatAssociates(parts[0] + "\n", Join(parts[..m][1..]), "\n");
    }
  }

  predicate SplitWithin(splits: seq<bool>, m: nat)
    requires m <= |splits|
  {
    exists k :: 0 <= k < m && k < |splits| - 1 && splits[k]
  }

  /** The next frame dispatched carries less than the data. */
  predicate TornOff(before: seq<Frame>, after: seq<Frame>, data: string) {
    |before| < |after| && before <= after && after[|before|].data < data
  }

  function Filled(p: ParserState, parts: seq<string>): ParserState {
    p.(frame := p.frame.(data := parts))
  }

  lemma DataLineArrives(p: ParserState, parts: seq<string>, m: nat, split: bool)
    requires m < |parts|
    ensures Arriving(Filled(p, parts[..m]), [Field("data", parts[m])], [split]) ==
            if split then Emitted(Filled(p, parts[..m + 1])) else Filled(p, parts[..m + 1])
  {
    ArrivingOne(Filled(p, parts[..m]), Field("data", parts[m]), split);
    CutField("data", parts[m], Field("data", parts[m]));
    assert parts[..m] + [parts[m]] == parts[..m + 1];
  }

  /** What the first `m` data lines leave: the lines collected, or a frame torn off. */
  ghost predicate DataLeaves(p: ParserState, parts: seq<string>, splits: seq<bool>, m: nat, q: ParserState)
    requires m <= |parts| == |splits|
  {
    if SplitWithin(splits, m) then TornOff(p.frames, q.frames, Join(parts))
    else q == if 0 < m == |parts| && splits[m - 1] then Emitted(Filled(p, parts)) else Filled(p, parts[..m])
  }

  lemma OneMoreDataLine(p: ParserState, parts: seq<string>, splits: seq<bool>, m: nat, q: ParserState)
    requires m < |parts| == |splits| && DataLeaves(p, parts, splits, m, q)
    ensures DataLeaves(p, parts, splits, m + 1, Arriving(q, [Field("data", parts[m])], [splits[m]]))
  {
    if SplitWithin(splits, m) {
      FramesOnlyGrow(q, Widened([Field("data", parts[m])], [splits[m]]));
      assert SplitWithin(splits, m + 1);
    } else {
      DataLineArrives(p, parts, m, splits[m]);
      assert parts[..|parts|] == parts;
      if splits[m] && m + 1 < |parts| {
        JoinOfFewer(parts, m + 1);
        assert SplitWithin(splits, m + 1);
      }
    }
  }

  lemma LastDataLine(parts: seq<string>, splits: seq<bool>, m: nat)
    requires 0 < m <= |parts| == |splits|
    ensures DataLines(parts)[..m] == DataLines(parts)[..m - 1] + [Field("data", parts[m - 1])]
    ensures splits[..m] == splits[..m - 1] + [splits[m - 1]]
  {
  }

  /** The first `m` data lines are collected, or torn off at the first split pair behind one that is not the last. */
  lemma {:induction false} DataArrives(p: ParserState, parts: seq<string>, splits: seq<bool>, m: nat)
    requires p.frame.data == [] && m <= |parts| == |splits|
    ensures DataLeaves(p, parts, splits, m, Arriving(p, DataLines(parts)[..m], splits[..m]))
    decreases m
  {
    if m == 0 {
      assert Widened(DataLines(parts)[..0], splits[..0]) == [];
    } else {
      DataArrives(p, parts, splits, m - 1);
      var q := Arriving(p, DataLines(parts)[..m - 1], splits[..m - 1]);
      OneMoreDataLine(p, parts, splits, m - 1, q);
      LastDataLine(parts, splits, m);
      ArrivingAppend(p, DataLines(parts)[..m - 1], splits[..m - 1], [Field("data", parts[m - 1])], [splits[m - 1]]);
    }
  }

  // ------------------------------------------------------------------ header

  /** The first `j` header lines leave no data; a split pair behind one of them loses it. */
  lemma HeaderArrives(f: Frame, out: seq<Frame>, splits: seq<bool>, j: nat)
    requires j <= |Header(f)| == |splits|
    ensures var q := Arriving(ParserState(EMPTY_BUILDER, out), Header(f)[..j], splits[..j]);
            && q.frames == out && q.frame.data == []
            && (j == |Header(f)| ==>
                  (q.frame == FrameBuilder([], f.event, f.id) <==> forall k :: 0 <= k < |splits| ==> !splits[k]))
  {
    var h, p := Header(f), ParserState(EMPTY_BUILDER, out);
    if f.id.Some? {
      CutField("id", f.id.value, Field("id", f.id.value));
    }
    if f.event.Some? {
      CutField("event", f.event.value, Field("event", f.event.value));
    }
    if j == 0 {
      assert Widened(h[..0], splits[..0]) == [];
    } else {
      ArrivingOne(p, h[0], splits[0]);
      assert h[..1] == [h[0]] && splits[..1] == [splits[0]];
      if j == 2 {
        assert h[..2] == [h[0]] + [h[1]] && splits[..2] == [splits[0]] + [splits[1]];
        ArrivingAppend(p, [h[0]], [splits[0]], [h[1]], [splits[1]]);
        ArrivingOne(Arriving(p, [h[0]], [splits[0]]), h[1], splits[1]);
      }
    }
  }

  // ------------------------------------------------------------- whole blocks

  predicate SameData(got: seq<Frame>, whole: seq<Frame>) {
    |got| == |whole| && forall i :: 0 <= i < |got| ==> got[i].data == whole[i].data
  }

  predicate ShortOfFirst(got: seq<Frame>, whole: seq<Frame>) {
    got != [] && whole != [] && got[0].data < whole[0].data
  }

  /** What is read of some lines, given the frames they print and whether the data, or a frame, of theirs was torn. */
  ghost predicate Gives(torn: bool, tornFrame: bool, got: seq<Frame>, whole: seq<Frame>) {
    && (if torn then ShortOfFirst(got, whole) else SameData(got, whole))
    && (got == whole <==> !tornFrame)
  }

  predicate AnySplit(splits: seq<bool>) {
    exists k :: 0 <= k < |splits| && splits[k]
  }

  lemma FieldShape(name: string, value: string)
    requires name != "" && ':' !in name
    ensures IsField(Field(name, value)) && FieldOf(Field(name, value)) == name
  {
    CutField(name, value, Field(name, value));
  }

  /** Which lines of an event block are fields, and which of those are data. */
  lemma EventLines(f: Frame, k: nat)
    requires k < |Lines(Data(f))|
    ensures var h, n := |Header(f)|, |Header(f)| + |Split(f.data)|;
            && |Lines(Data(f))| == n + 1 && (IsField(Lines(Data(f))[k]) <==> k < n)
            && (Lines(Data(f))[k] == "" <==> k == n) && (IsData(Lines(Data(f))[k]) <==> h <= k < n)
  {
    var lines, h, parts := Lines(Data(f)), |Header(f)|, Split(f.data);
    if k < h {
      assert lines[k] == Header(f)[k];
      if f.id.Some? { FieldShape("id", f.id.value); }
      if f.event.Some? { FieldShape("event", f.event.value); }
    } else if k < h + |parts| {
      assert lines[k] == Field("data", parts[k - h]);
      FieldShape("data", parts[k - h]);
    }
  }

  lemma EventTornAt(f: Frame, splits: seq<bool>, k: nat)
    requires |splits| == |Lines(Data(f))| && k < |splits|
    ensures var h, last := |Header(f)|, |Header(f)| + |Split(f.data)| - 1;
            && (DataTornAt(Lines(Data(f)), splits, k) <==> h <= k < last && splits[k])
            && (FrameTornAt(Lines(Data(f)), splits, k) <==> k < last && splits[k])
  {
    EventLines(f, k);
    if k + 1 < |splits| {
      EventLines(f, k + 1);
    }
  }

  predicate SplitBetween(splits: seq<bool>, from: nat, to: nat)
    requires to <= |splits|
  {
    exists k :: from <= k < to && splits[k]
  }

  lemma TearsWhere(lines: seq<string>, splits: seq<bool>, h: nat, last: nat)
    requires h <= last < |lines| == |splits|
    requires forall k :: 0 <= k < |lines| ==> (DataTornAt(lines, splits, k) <==> h <= k < last && splits[k])
    requires forall k :: 0 <= k < |lines| ==> (FrameTornAt(lines, splits, k) <==> k < last && splits[k])
    ensures TearsData(lines, splits) <==> SplitBetween(splits, h, last)
    ensures TearsFrame(lines, splits) <==> SplitBetween(splits, 0, last)
  {
    if k :| h <= k < last && splits[k] {
      assert DataTornAt(lines, splits, k);
    }
    if k :| 0 <= k < last && splits[k] {
      assert FrameTornAt(lines, splits, k);
    }
  }

  /** A pair is split behind a data line of the event that is not the last. */
  predicate DataTorn(f: Frame, splits: seq<bool>)
    requires |splits| == |Header(f)| + |Split(f.data)| + 1
  {
    SplitBetween(splits, |Header(f)|, |Header(f)| + |Split(f.data)| - 1)
  }

  /** A pair is split behind a line of the event before its last data line. */
  predicate FrameTorn(f: Frame, splits: seq<bool>)
    requires |splits| == |Header(f)| + |Split(f.data)| + 1
  {
    SplitBetween(splits, 0, |Header(f)| + |Split(f.data)| - 1)
  }

  lemma EventTears(f: Frame, splits: seq<bool>)
    requires |splits| == |Lines(Data(f))|
    ensures |splits| == |Header(f)| + |Split(f.data)| + 1
    ensures TearsData(Lines(Data(f)), splits) <==> DataTorn(f, splits)
    ensures TearsFrame(Lines(Data(f)), splits) <==> FrameTorn(f, splits)
  {
    var lines, h, last := Lines(Data(f)), |Header(f)|, |Header(f)| + |Split(f.data)| - 1;
    forall k | 0 <= k < |lines| ensures DataTornAt(lines, splits, k) <==> h <= k < last && splits[k] {
      EventTornAt(f, splits, k);
    }
    forall k | 0 <= k < |lines| ensures FrameTornAt(lines, splits, k) <==> k < last && splits[k] {
      EventTornAt(f, splits, k);
    }
    TearsWhere(lines, splits, h, last);
  }

  lemma SplitsOfParts(splits: seq<bool>, h: nat, n: nat)
    requires 0 < n && h + n <= |splits|
    ensures SplitWithin(splits[h..h + n], n) <==> SplitBetween(splits, h, h + n - 1)
    ensures AnySplit(splits[..h]) <==> SplitBetween(splits, 0, h)
    ensures SplitBetween(splits, 0, h + n - 1) <==> SplitBetween(splits, 0, h) || SplitBetween(splits, h, h + n - 1)
  {
    if k :| h <= k < h + n - 1 && splits[k] {
      assert splits[h..h + n][k - h];
    }
    if k :| 0 <= k < h && splits[k] {
      assert splits[..h][k];
    }
  }

  /** The three parts of an event block, one after another. */
  lemma EventArrives(f: Frame, p: ParserState, splits: seq<bool>)
    requires |splits| == |Lines(Data(f))|
    ensures var h, n := |Header(f)|, |Split(f.data)|;
            && h + n + 1 == |splits|
            && Arriving(p, Lines(Data(f)), splits) ==
               Emitted(Arriving(Arriving(p, Header(f), splits[..h]), DataLines(Split(f.data)), splits[h..h + n]))
  {
    var h, n := |Header(f)|, |Split(f.data)|;
    var front := Header(f) + DataLines(Split(f.data));
    assert splits == splits[..h + n] + [splits[h + n]];
    assert splits[..h + n] == splits[..h] + splits[h..h + n];
    ArrivingAppend(p, front, splits[..h + n], [""], [splits[h + n]]);
    ArrivingAppend(p, Header(f), splits[..h], DataLines(Split(f.data)), splits[h..h + n]);
    ArrivingOne(Arriving(p, front, splits[..h + n]), "", splits[h + n]);
  }

  /** What an event gives once its header and its data lines have arrived. */
  lemma EventEnds(f: Frame, q: ParserState, dataSplits: seq<bool>, end: ParserState) returns (got: seq<Frame>)
    requires |dataSplits| == |Split(f.data)| && DataLeaves(q, Split(f.data), dataSplits, |dataSplits|, end)
    ensures Emitted(end) == ParserState(EMPTY_BUILDER, q.frames + got)
    ensures if SplitWithin(dataSplits, |dataSplits|) then ShortOfFirst(got, [f])
            else got == [Frame(f.data, q.frame.event, q.frame.id)]
  {
    var parts := Split(f.data);
    JoinSplit(f.data);
    assert parts[..|parts|] == parts;
    got := Emitted(end).frames[|q.frames|..];
  }

  lemma EventGives(f: Frame, out: seq<Frame>, splits: seq<bool>) returns (got: seq<Frame>)
    requires |splits| == |Lines(Data(f))|
    ensures Arriving(ParserState(EMPTY_BUILDER, out), Lines(Data(f)), splits) == ParserState(EMPTY_BUILDER, out + got)
    ensures |splits| == |Header(f)| + |Split(f.data)| + 1
    ensures Gives(DataTorn(f, splits), FrameTorn(f, splits), got, [f])
  {
    var h, n, p := |Header(f)|, |Split(f.data)|, ParserState(EMPTY_BUILDER, out);
    EventArrives(f, p, splits);
    SplitsOfParts(splits, h, n);
    var q := HeaderWhole(f, out, splits[..h]);
    var end := DataWhole(f, q, splits[h..h + n]);
    got := EventEnds(f, q, splits[h..h + n], end);
  }

  lemma HeaderWhole(f: Frame, out: seq<Frame>, splits: seq<bool>) returns (q: ParserState)
    requires |splits| == |Header(f)|
    ensures q == Arriving(ParserState(EMPTY_BUILDER, out), Header(f), splits)
    ensures q.frames == out && q.frame.data == []
    ensures q.frame.event == f.event && q.frame.id == f.id <==> !AnySplit(splits)
  {
    HeaderArrives(f, out, splits, |splits|);
    assert Header(f)[..|splits|] == Header(f) && splits[..|splits|] == splits;
    q := Arriving(ParserState(EMPTY_BUILDER, out), Header(f), splits);
  }

  lemma DataWhole(f: Frame, q: ParserState, splits: seq<bool>) returns (end: ParserState)
    requires q.frame.data == [] && |splits| == |Split(f.data)|
    ensures end == Arriving(q, DataLines(Split(f.data)), splits) && DataLeaves(q, Split(f.data), splits, |splits|, end)
  {
    DataArrives(q, Split(f.data), splits, |splits|);
    assert DataLines(Split(f.data))[..|splits|] == DataLines(Split(f.data)) && splits[..|splits|] == splits;
    end := Arriving(q, DataLines(Split(f.data)), splits);
  }

  lemma {:induction false} CommentsGiveNothing(p: ParserState, texts: seq<string>, splits: seq<bool>)
    requires |splits| == |texts| && p.frame.data == []
    ensures var q := Arriving(p, CommentLines(texts), splits); q.frame.data == [] && q.frames == p.frames
    decreases |texts|
  {
    if texts != [] {
      assert CommentLines(texts) == [":" + texts[0]] + CommentLines(texts[1..]) && splits == [splits[0]] + splits[1..];
      ArrivingAppend(p, [":" + texts[0]], [splits[0]], CommentLines(texts[1..]), splits[1..]);
      ArrivingOne(p, ":" + texts[0], splits[0]);
      CommentsGiveNothing(Arriving(p, [":" + texts[0]], [splits[0]]), texts[1..], splits[1..]);
    }
  }

  lemma KeepAliveGives(texts: seq<string>, out: seq<Frame>, splits: seq<bool>)
    requires |splits| == |Lines(Comment(texts))|
    ensures Arriving(ParserState(EMPTY_BUILDER, out), Lines(Comment(texts)), splits) == ParserState(EMPTY_BUILDER, out)
    ensures !TearsFrame(Lines(Comment(texts)), splits) && !TearsData(Lines(Comment(texts)), splits)
  {
    var n, p := |texts|, ParserState(EMPTY_BUILDER, out);
    assert splits == splits[..n] + [splits[n]];
    ArrivingAppend(p, CommentLines(texts), splits[..n], [""], [splits[n]]);
    CommentsGiveNothing(p, texts, splits[..n]);
    ArrivingOne(Arriving(p, CommentLines(texts), splits[..n]), "", splits[n]);
  }

  lemma BlockGives(b: Block, out: seq<Frame>, splits: seq<bool>) returns (got: seq<Frame>)
    requires |splits| == |Lines(b)|
    ensures Arriving(ParserState(EMPTY_BUILDER, out), Lines(b), splits) == ParserState(EMPTY_BUILDER, out + got)
    ensures Gives(TearsData(Lines(b), splits), TearsFrame(Lines(b), splits), got, FrameOf(b))
  {
    match b {
      case Data(f) =>
        got := EventGives(f, out, splits);
        EventTears(f, splits);
      case Comment(texts) =>
        KeepAliveGives(texts, out, splits);
        got := [];
    }
  }

  lemma PartsGive(torn: bool, tornFrame: bool, first: seq<Frame>, one: seq<Frame>, later: seq<Frame>, more: seq<Frame>)
    requires Gives(torn, tornFrame, first, one) && (torn ==> tornFrame)
    ensures SameData(first + later, one + more) <==> !torn && SameData(later, more)
    ensures first + later == one + more <==> !tornFrame && later == more
  {
    var got, all := first + later, one + more;
    if torn {
      assert got[0] == first[0] && all[0] == one[0];
    } else {
      SameDataParts(first, later, one, more);
      assert got == all ==> got[..|first|] == first && got[|first|..] == later;
      assert got == all ==> all[..|first|] == one && all[|first|..] == more;
    }
  }

  lemma SameDataParts(first: seq<Frame>, later: seq<Frame>, one: seq<Frame>, whole: seq<Frame>)
    requires SameData(first, one)
    ensures SameData(first + later, one + whole) <==> SameData(later, whole)
  {
    if SameData(first + later, one + whole) {
      forall i | 0 <= i < |later| ensures later[i].data == whole[i].data {
        assert (first + later)[|first| + i] == later[i] && (one + whole)[|first| + i] == whole[i];
      }
    }
  }

  lemma ArrivingParts(p: ParserState, first: seq<string>, others: seq<string>, splits: seq<bool>)
    requires |splits| == |first + others|
    ensures Arriving(p, first + others, splits) ==
            Arriving(Arriving(p, first, splits[..|first|]), others, splits[|first|..])
  {
    assert splits == splits[..|first|] + splits[|first|..];
    ArrivingAppend(p, first, splits[..|first|], others, splits[|first|..]);
  }

  lemma {:induction false} BlocksGive(blocks: seq<Block>, out: seq<Frame>, splits: seq<bool>) returns (got: seq<Frame>)
    requires |splits| == |AllLines(blocks)|
    ensures Arriving(ParserState(EMPTY_BUILDER, out), AllLines(blocks), splits) == ParserState(EMPTY_BUILDER, out + got)
    ensures SameData(got, FramesOf(blocks)) <==> !TearsData(AllLines(blocks), splits)
    ensures got == FramesOf(blocks) <==> !TearsFrame(AllLines(blocks), splits)
    decreases |blocks|
  {
    if blocks == [] {
      got := [];
    } else {
      var b, others, n := blocks[0], AllLines(blocks[1..]), |Lines(blocks[0])|;
      ArrivingParts(ParserState(EMPTY_BUILDER, out), Lines(b), others, splits);
      var first := BlockGives(b, out, splits[..n]);
      var later := BlocksGive(blocks[1..], out + first, splits[n..]);
      TearsInParts(Lines(b), others, splits);
      TornDataIsTornFrame(Lines(b), splits[..n]);
      PartsGive(TearsData(Lines(b), splits[..n]), TearsFrame(Lines(b), splits[..n]), first, FrameOf(b),
                later, FramesOf(blocks[1..]));
      got := first + later;
      ConcatAssociates(out, first, later);
    }
  }

  lemma OneLineEventIsNeverTorn(b: Block, splits: seq<bool>)
    requires |splits| == |Lines(b)| && (b.Data? ==> OneLine(b.frame.data))
    ensures !TearsData(Lines(b), splits)
  {
    match b {
      case Data(f) =>
        SplitOneLine(f.data);
        EventTears(f, splits);
      case Comment(texts) => KeepAliveGives(texts, [], splits);
    }
  }

  predicate OneLineData(frames: seq<Frame>) {
    forall i :: 0 <= i < |frames| ==> OneLine(frames[i].data)
  }

  lemma OneLineDataOfParts(first: seq<Frame>, others: seq<Frame>)
    requires OneLineData(first + others)
    ensures OneLineData(first) && OneLineData(others)
  {
    assert (first + others)[..|first|] == first && (first + others)[|first|..] == others;
  }

  /** Data without line feeds takes one line, so no pair behind it is inside its frame's data. */
  lemma {:induction false} OneLineDataIsNeverTorn(blocks: seq<Block>, splits: seq<bool>)
    requires |splits| == |AllLines(blocks)| && OneLineData(FramesOf(blocks))
    ensures !TearsData(AllLines(blocks), splits)
    decreases |blocks|
  {
    if blocks != [] {
      var b, n := blocks[0], |Lines(blocks[0])|;
      OneLineDataOfParts(FrameOf(b), FramesOf(blocks[1..]));
      OneLineEventIsNeverTorn(b, splits[..n]);
      OneLineDataIsNeverTorn(blocks[1..], splits[n..]);
      TearsInParts(Lines(b), AllLines(blocks[1..]), splits);
    }
  }

  /** For every line of a printed wire, whether the pair behind it arrived in two chunks. */
  function PairsSplit(blocks: seq<Block>, eol: string, chunks: seq<string>): (splits: seq<bool>)
    ensures |splits| == |AllLines(blocks)|
  {
    SplitPairs(AllLines(blocks), eol, ChunkStarts(chunks))
  }

  lemma {:induction false} WidenedIsOneLine(lines: seq<string>, splits: seq<bool>)
    requires |splits| == |lines| && AllOneLine(lines)
    ensures AllOneLine(Widened(lines, splits))
  {
    if lines != [] {
      WidenedIsOneLine(lines[1..], splits[1..]);
    }
  }

  /**
   Printed frames, with keep-alives anywhere between them, in whatever chunks they arrive: they parse back to the same
   data in the same order exactly when no pair is split between two data lines of a frame, and to the very same frames
   exactly when none is split inside a frame.
   */
  lemma WireRoundTrip(blocks: seq<Block>, eol: string, chunks: seq<string>)
    requires AllPrintable(blocks) && eol in ["\n", "\r\n", "\r"]
    requires Concat(chunks) == Text(AllLines(blocks), eol)
    ensures SameData(Frames(NormalizeChunks(chunks)), FramesOf(blocks)) <==>
            !TearsData(AllLines(blocks), PairsSplit(blocks, eol, chunks))
    ensures Frames(NormalizeChunks(chunks)) == FramesOf(blocks) <==>
            !TearsFrame(AllLines(blocks), PairsSplit(blocks, eol, chunks))
  {
    var lines, splits := AllLines(blocks), PairsSplit(blocks, eol, chunks);
    LinesAreOneLine(blocks);
    ChunksArrive(chunks);
    var j, rest := WireArrives(lines, eol, Concat(chunks), ChunkStarts(chunks));
    assert lines[..j] == lines && splits[..j] == splits;
    var seen := Widened(lines, splits);
    WidenedIsOneLine(lines, splits);
    assert Text(seen, "\n") + rest == Text(seen, "\n");
    FramesOfLines(seen);
    var got := BlocksGive(blocks, [], splits);
    assert [] + got == got;
  }
}
