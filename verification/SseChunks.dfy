/**
 What chunking does to a printed wire. A CR-LF pair split over two chunks is read as two line ends, so the parser sees
 one blank line too many; this says exactly when that changes what is dispatched.
 */
module SseChunks {
  import opened Common
  import opened Sse
  import opened SseWire

  // --------------------------------------------------- normalising on arrival

  function StartsOf(chunk: string): (starts: seq<bool>)
    ensures |starts| == |chunk|
  {
    seq(|chunk|, i => i == 0)
  }

  /** For every character of the whole text, whether it is the first of its chunk. */
  function ChunkStarts(chunks: seq<string>): (starts: seq<bool>)
    ensures |starts| == |Concat(chunks)|
  {
    if chunks == [] then [] else StartsOf(chunks[0]) + ChunkStarts(chunks[1..])
  }

  /** Text normalised as it arrives: a pair is one line end unless its line feed starts a chunk. */
  function Arrived(text: string, starts: seq<bool>): string
    requires |starts| == |text|
  {
    if text == "" then ""
    else if text[0] == '\r' && |text| > 1 && text[1] == '\n' && !starts[1] then "\n" + Arrived(text[2..], starts[2..])
    else [if text[0] == '\r' then '\n' else text[0]] + Arrived(text[1..], starts[1..])
  }

  lemma {:induction false} ArrivedInOneChunk(text: string, starts: seq<bool>)
    requires |starts| == |text| && forall i :: 0 < i < |starts| ==> !starts[i]
    ensures Arrived(text, starts) == Normalize(text)
    decreases |text|
  {
    if text != "" {
      NormalizeCons(text[0], text[1..]);
      assert text == [text[0]] + text[1..];
      if text[0] == '\r' && |text| > 1 && text[1] == '\n' {
        assert text[1..][1..] == text[2..];
        ArrivedInOneChunk(text[2..], starts[2..]);
      } else {
        ArrivedInOneChunk(text[1..], starts[1..]);
      }
    }
  }

  /** The text starts with a pair that arrived in one chunk. */
  predicate PairAhead(text: string, starts: seq<bool>)
    requires |starts| == |text|
  {
    |text| > 1 && text[0] == '\r' && text[1] == '\n' && !starts[1]
  }

  lemma PairGoes(text: string, starts: seq<bool>)
    requires |starts| == |text| && PairAhead(text, starts)
    ensures Arrived(text, starts) == "\n" + Arrived(text[2..], starts[2..])
  {
  }

  lemma DropTwo<T>(a: seq<T>, b: seq<T>)
    requires |a| > 1
    ensures (a + b)[2..] == a[2..] + b && (a + b)[0] == a[0] && (a + b)[1] == a[1]
  {
  }

  lemma PairArrives(a: string, aStarts: seq<bool>, b: string, bStarts: seq<bool>)
    requires |aStarts| == |a| && |bStarts| == |b| && PairAhead(a, aStarts)
    ensures Arrived(a + b, aStarts + bStarts) == "\n" + Arrived(a[2..] + b, aStarts[2..] + bStarts)
  {
    DropTwo(a, b);
    DropTwo(aStarts, bStarts);
    PairGoes(a + b, aStarts + bStarts);
  }

  lemma CharArrives(a: string, aStarts: seq<bool>, b: string, bStarts: seq<bool>)
    requires |aStarts| == |a| && |bStarts| == |b| && (b != "" ==> bStarts[0])
    requires a != "" && !PairAhead(a, aStarts)
    ensures Arrived(a + b, aStarts + bStarts) ==
            [if a[0] == '\r' then '\n' else a[0]] + Arrived(a[1..] + b, aStarts[1..] + bStarts)
  {
    FirstOfConcat(a, b);
    FirstOfConcat(aStarts, bStarts);
    assert |a| == 1 && b != "" ==> (a + b)[1] == b[0] && (aStarts + bStarts)[1];
    assert |a| > 1 ==> (a + b)[1] == a[1] && (aStarts + bStarts)[1] == aStarts[1];
  }

  lemma {:induction false} ArrivedAppend(a: string, aStarts: seq<bool>, b: string, bStarts: seq<bool>)
    requires |aStarts| == |a| && |bStarts| == |b| && (b != "" ==> bStarts[0])
    ensures Arrived(a + b, aStarts + bStarts) == Arrived(a, aStarts) + Arrived(b, bStarts)
    decreases |a|
  {
    if a == "" {
      assert a + b == b && aStarts + bStarts == bStarts;
    } else if PairAhead(a, aStarts) {
      PairArrives(a, aStarts, b, bStarts);
      ArrivedAppend(a[2..], aStarts[2..], b, bStarts);
      ConcatAssociates("\n", Arrived(a[2..], aStarts[2..]), Arrived(b, bStarts));
    } else {
      CharArrives(a, aStarts, b, bStarts);
      ArrivedAppend(a[1..], aStarts[1..], b, bStarts);
      ConcatAssociates([if a[0] == '\r' then '\n' else a[0]], Arrived(a[1..], aStarts[1..]), Arrived(b, bStarts));
    }
  }

  lemma {:induction false} TextStartsAChunk(chunks: seq<string>)
    ensures Concat(chunks) != "" ==> ChunkStarts(chunks)[0]
  {
    if chunks != [] {
      TextStartsAChunk(chunks[1..]);
    }
  }

  /** Normalising chunk by chunk is normalising on arrival. */
  lemma {:induction false} ChunksArrive(chunks: seq<string>)
    ensures NormalizeChunks(chunks) == Arrived(Concat(chunks), ChunkStarts(chunks))
  {
    if chunks != [] {
      var later := chunks[1..];
      ChunksArrive(later);
      TextStartsAChunk(later);
      ArrivedInOneChunk(chunks[0], StartsOf(chunks[0]));
      ArrivedAppend(chunks[0], StartsOf(chunks[0]), Concat(later), ChunkStarts(later));
    }
  }

  // --------------------------------------------------------------- split pairs

  /** For every line of a wire, whether the CR-LF pair behind it arrived in two chunks. */
  function SplitPairs(lines: seq<string>, eol: string, starts: seq<bool>): (splits: seq<bool>)
    ensures |splits| == |lines|
  {
    seq(|lines|, k requires 0 <= k < |lines| =>
      var feed := |Text(lines[..k + 1], eol)| - 1;
      eol == "\r\n" && 0 <= feed < |starts| && starts[feed])
  }

  /** The lines as the parser sees them: a blank one more behind each split pair. */
  function Widened(lines: seq<string>, splits: seq<bool>): seq<string>
    requires |splits| == |lines|
  {
    if lines == [] then []
    else [lines[0]] + (if splits[0] then [""] else []) + Widened(lines[1..], splits[1..])
  }

  lemma SplitPairsRest(lines: seq<string>, eol: string, starts: seq<bool>)
    requires lines != [] && |lines[0] + eol| <= |starts|
    ensures SplitPairs(lines, eol, starts)[1..] == SplitPairs(lines[1..], eol, starts[|lines[0] + eol|..])
    ensures SplitPairs(lines, eol, starts)[0] <==>
            eol == "\r\n" && |lines[0]| + 1 < |starts| && starts[|lines[0]| + 1]
  {
    var n := |lines[0] + eol|;
    assert lines[..1] == [lines[0]];
    assert Text(lines[..1], eol) == lines[0] + eol + Text([], eol);
    forall k | 0 <= k < |lines| - 1
      ensures SplitPairs(lines, eol, starts)[1..][k] == SplitPairs(lines[1..], eol, starts[n..])[k]
    {
      assert lines[..k + 2][1..] == lines[1..][..k + 1];
      assert |Text(lines[..k + 2], eol)| == n + |Text(lines[1..][..k + 1], eol)|;
      assert eol == "\r\n" ==> |Text(lines[1..][..k + 1], eol)| >= 2;
    }
  }

  lemma {:induction false} ArrivedOneLine(line: string, starts: seq<bool>)
    requires OneLine(line) && |starts| == |line|
    ensures Arrived(line, starts) == line
  {
    if line != "" {
      ArrivedOneLine(line[1..], starts[1..]);
    }
  }

  lemma ArrivedEol(eol: string, rest: string, starts: seq<bool>)
    requires eol in ["\n", "\r\n", "\r"] && |starts| == |eol + rest|
    requires eol == "\r" && rest != "" ==> rest[0] != '\n'
    ensures Arrived(eol + rest, starts) ==
            (if eol == "\r\n" && starts[1] then "\n\n" else "\n") + Arrived(rest, starts[|eol|..])
  {
    var text := eol + rest;
    if eol == "\r\n" {
      assert text[1..] == "\n" + rest && text[2..] == rest;
      assert text[1..][1..] == rest && starts[1..][1..] == starts[2..];
      assert Arrived(text[1..], starts[1..]) == "\n" + Arrived(rest, starts[2..]);
    } else {
      assert text[1..] == rest;
    }
  }

  lemma {:induction false} ArrivedLine(line: string, rest: string, starts: seq<bool>)
    requires OneLine(line) && |starts| == |line + rest|
    ensures Arrived(line + rest, starts) == line + Arrived(rest, starts[|line|..])
    decreases |line|
  {
    if line == "" {
      assert line + rest == rest;
    } else {
      FirstOfConcat(line, rest);
      ArrivedLine(line[1..], rest, starts[1..]);
      assert starts[1..][|line[1..]|..] == starts[|line|..];
      assert line == [line[0]] + line[1..];
    }
  }

  lemma WholeLineArrives(lines: seq<string>, eol: string, later: string, starts: seq<bool>)
    requires lines != [] && AllOneLine(lines) && eol in ["\n", "\r\n", "\r"]
    requires later <= Text(lines[1..], eol) && |starts| == |lines[0] + (eol + later)|
    ensures Arrived(lines[0] + (eol + later), starts) ==
            lines[0] + ((if SplitPairs(lines, eol, starts)[0] then "\n\n" else "\n")
                        + Arrived(later, starts[|lines[0] + eol|..]))
  {
    if eol == "\r" {
      TextStartsNoLine(lines[1..]);
    }
    ArrivedLine(lines[0], eol + later, starts);
    ArrivedEol(eol, later, starts[|lines[0]|..]);
    assert starts[|lines[0]|..][|eol|..] == starts[|lines[0] + eol|..];
    SplitPairsRest(lines, eol, starts);
  }

  lemma CutAfterLine(line: string, eol: string, more: string, text: string) returns (later: string)
    requires text <= line + eol + more && |text| >= |line + eol|
    ensures later <= more && text == line + (eol + later)
    ensures text == line + eol + more ==> later == more
  {
    later := text[|line + eol|..];
  }

  /** How the part of a wire that has arrived reads: whole lines, widened at split pairs, and a piece of the next. */
  lemma {:induction false} WireArrives(lines: seq<string>, eol: string, text: string, starts: seq<bool>)
    returns (j: nat, rest: string)
    requires AllOneLine(lines) && eol in ["\n", "\r\n", "\r"]
    requires text <= Text(lines, eol) && |starts| == |text|
    ensures j <= |lines| && if j < |lines| then rest <= lines[j] else rest == ""
    ensures text == Text(lines, eol) ==> j == |lines|
    ensures Arrived(text, starts) == Text(Widened(lines[..j], SplitPairs(lines, eol, starts)[..j]), "\n") + rest
    decreases |lines|
  {
    if lines == [] {
      return 0, "";
    } else if |text| <= |lines[0]| {
      assert text == lines[0][..|text|];
      ArrivedOneLine(text, starts);
      return 0, text;
    } else if |text| < |lines[0] + eol| {
      assert text == lines[0] + "\r";
      PairHalfArrived(lines, text, starts);
      return 1, "";
    } else {
      var later := CutAfterLine(lines[0], eol, Text(lines[1..], eol), text);
      WholeLineArrives(lines, eol, later, starts);
      SplitPairsRest(lines, eol, starts);
      j, rest := WireArrives(lines[1..], eol, later, starts[|lines[0] + eol|..]);
      FirstLineArrived(lines, SplitPairs(lines, eol, starts), j, rest);
      j := j + 1;
    }
  }

  /** The connection was cut inside the first pair. */
  lemma PairHalfArrived(lines: seq<string>, text: string, starts: seq<bool>)
    requires lines != [] && OneLine(lines[0]) && text == lines[0] + "\r" && |starts| == |text|
    ensures Arrived(text, starts) == Text(Widened(lines[..1], SplitPairs(lines, "\r\n", starts)[..1]), "\n") + ""
  {
    assert lines[..1] == [lines[0]];
    assert |Text(lines[..1], "\r\n")| == |lines[0]| + 2;
    assert !SplitPairs(lines, "\r\n", starts)[0];
    ArrivedLine(lines[0], "\r", starts);
    assert Widened([lines[0]], [false]) == [lines[0]];
    assert SplitPairs(lines, "\r\n", starts)[..1] == [false];
    assert Text([lines[0]], "\n") == lines[0] + "\n" + "";
  }

  lemma FirstLineArrived(lines: seq<string>, splits: seq<bool>, j: nat, rest: string)
    requires |splits| == |lines| && j < |lines|
    ensures Text(Widened(lines[..j + 1], splits[..j + 1]), "\n") + rest ==
            lines[0] + ((if splits[0] then "\n\n" else "\n") +
                        (Text(Widened(lines[1..][..j], splits[1..][..j]), "\n") + rest))
  {
    assert lines[..j + 1][1..] == lines[1..][..j] && splits[..j + 1][1..] == splits[1..][..j];
    var tail := Widened(lines[1..][..j], splits[1..][..j]);
    var all := Widened(lines[..j + 1], splits[..j + 1]);
    if splits[0] {
      assert all == [lines[0]] + ([""] + tail);
      TextOfFirst(lines[0], [""] + tail);
      TextOfFirst("", tail);
    } else {
      assert all == [lines[0]] + tail;
      TextOfFirst(lines[0], tail);
    }
  }
}
