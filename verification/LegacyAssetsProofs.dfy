/** What the link rewriter does to a whole body. */
module LegacyAssetsProofs {
  // It inserts the prefix at links of the original text and changes nothing else, which deleting the insertions undoes;
  // and rewriting a rewritten body changes nothing at all.

  import opened Common
  import opened LegacyAssets
  import opened LinkPass

  function All(): (heads: set<string>)
    ensures Heads(heads)
  {
    AllHeads(|HEADS|)
  }

  // ------------------------------------------- a rewriting is an expansion

  /** The closed tag, at or after `cursor`, that position `p` lies in. */
  function TagOf(body: string, cursor: nat, p: nat): (t: Option<Span>)
    requires cursor <= |body|
    ensures t.Some? ==> cursor <= t.value.opening <= p <= t.value.closing < |body|
    decreases |body| - cursor
  {
    match NextTag(body, cursor)
    case None => None
    case Some(t) => if p < t.opening then None else if p <= t.closing then Some(t) else TagOf(body, t.closing + 1, p)
  }

  /** Within `body[o..j]`, a link starts at `p`. */
  predicate LinkIn(body: string, o: nat, j: nat, p: nat)
    requires o <= p <= j <= |body|
  {
    Point(All(), body[o..p], body[p..j])
  }

  predicate InTag(body: string, cursor: nat, p: nat)
    requires cursor <= |body| && p < |body|
  {
    match TagOf(body, cursor, p)
    case None => false
    case Some(t) => LinkIn(body, t.opening, t.closing + 1, p)
  }

  function LinksFrom(body: string, cursor: nat): set<nat>
    requires cursor <= |body|
  {
    set p: nat | cursor <= p < |body| && InTag(body, cursor, p)
  }

  /** The places where the original body has a link to rewrite; the prefix has no say in it. */
  function Links(body: string): set<nat> {
    LinksFrom(body, 0)
  }

  function From(marks: set<nat>, cursor: nat): set<nat> {
    set p | p in marks && cursor <= p
  }

  /** `body[i..j]` with the prefix put in at the marked places. */
  function Expand(body: string, i: nat, j: nat, marks: set<nat>, prefix: string): string
    requires i <= j <= |body|
    decreases j - i
  {
    if i == j then "" else (if i in marks then prefix else "") + [body[i]] + Expand(body, i + 1, j, marks, prefix)
  }

  /** Leaves out `n` characters before each marked place. */
  function Contract(text: string, i: nat, j: nat, marks: set<nat>, n: nat): string
    requires i <= j
    decreases j - i
  {
    var skip := if i in marks then n else 0;
    if i == j || |text| <= skip then "" else [text[skip]] + Contract(text[skip + 1..], i + 1, j, marks, n)
  }

  lemma {:induction false} ContractUndoesExpand(body: string, i: nat, j: nat, marks: set<nat>, prefix: string)
    requires i <= j <= |body|
    ensures Contract(Expand(body, i, j, marks, prefix), i, j, marks, |prefix|) == body[i..j]
    decreases j - i
  {
    if i < j {
      var rest := Expand(body, i + 1, j, marks, prefix);
      var skip := if i in marks then prefix else "";
      assert (skip + [body[i]] + rest)[|skip| + 1..] == rest;
      ContractUndoesExpand(body, i + 1, j, marks, prefix);
      assert [body[i]] + body[i + 1..j] == body[i..j];
    }
  }

  lemma {:induction false} ExpandSplits(body: string, i: nat, k: nat, j: nat, marks: set<nat>, prefix: string)
    requires i <= k <= j <= |body|
    ensures Expand(body, i, j, marks, prefix) == Expand(body, i, k, marks, prefix) + Expand(body, k, j, marks, prefix)
    decreases k - i
  {
    if i < k {
      ExpandSplits(body, i + 1, k, j, marks, prefix);
      ConcatAssociates((if i in marks then prefix else "") + [body[i]],
                       Expand(body, i + 1, k, marks, prefix), Expand(body, k, j, marks, prefix));
    }
  }

  lemma {:induction false} ExpandWithoutMarks(body: string, i: nat, j: nat, marks: set<nat>, prefix: string)
    requires i <= j <= |body|
    requires forall p :: i <= p < j ==> p !in marks
    ensures Expand(body, i, j, marks, prefix) == body[i..j]
    decreases j - i
  {
    if i < j {
      ExpandWithoutMarks(body, i + 1, j, marks, prefix);
    }
  }

  /** The marks between `o` and `j` are the points of a pass over `body[o..j]`. */
  ghost predicate MarksArePoints(body: string, o: nat, j: nat, marks: set<nat>)
    requires o <= j <= |body|
  {
    forall p: nat :: o <= p < j ==> (p in marks <==> LinkIn(body, o, j, p))
  }

  lemma {:induction false} ExpandIsPass(body: string, o: nat, i: nat, j: nat, marks: set<nat>, prefix: string,
                                        before: string, rest: string)
    requires o <= i <= j <= |body| && MarksArePoints(body, o, j, marks)
    requires before == body[o..i] && rest == body[i..j]
    ensures Expand(body, i, j, marks, prefix) == Pass(All(), prefix, before, rest)
    decreases j - i
  {
    if i < j {
      OneAlong(body, o, i, j);
      ExpandIsPass(body, o, i + 1, j, marks, prefix, before + [rest[0]], rest[1..]);
    }
  }

  lemma OneAlong(body: string, o: nat, i: nat, j: nat)
    requires o <= i < j <= |body|
    ensures body[o..i] + [body[i]] == body[o..i + 1] && body[i..j][0] == body[i] && body[i..j][1..] == body[i + 1..j]
  {
  }

  /** From `cursor` on, the marks are the links. */
  ghost predicate Marks(body: string, cursor: nat, marks: set<nat>)
    requires cursor <= |body|
  {
    From(marks, cursor) == LinksFrom(body, cursor)
  }

  lemma MarkIsLink(body: string, cursor: nat, marks: set<nat>, p: nat)
    requires cursor <= p < |body| && Marks(body, cursor, marks)
    ensures p in marks <==> InTag(body, cursor, p)
  {
    assert p in From(marks, cursor) <==> p in LinksFrom(body, cursor);
  }

  /** Up to the next closed tag nothing is marked, so nothing is put in. */
  lemma TextExpands(body: string, cursor: nat, j: nat, marks: set<nat>, prefix: string)
    requires cursor <= j <= |body| && Marks(body, cursor, marks)
    requires match NextTag(body, cursor) case None => true case Some(t) => j <= t.opening
    ensures Expand(body, cursor, j, marks, prefix) == body[cursor..j]
  {
    forall p | cursor <= p < j ensures p !in marks {
      MarkIsLink(body, cursor, marks, p);
    }
    ExpandWithoutMarks(body, cursor, j, marks, prefix);
  }

  lemma TagOfHere(body: string, cursor: nat, t: Span, p: nat)
    requires cursor <= |body| && NextTag(body, cursor) == Some(t) && t.opening <= p <= t.closing
    ensures TagOf(body, cursor, p) == Some(t)
  {
  }

  /** In a closed tag the links are the points of the pass. */
  lemma LinkIsPoint(body: string, cursor: nat, t: Span, p: nat)
    requires cursor <= |body| && p < |body| && TagOf(body, cursor, p) == Some(t)
    ensures InTag(body, cursor, p) <==> LinkIn(body, t.opening, t.closing + 1, p)
  {
  }

  lemma MarksInTag(body: string, cursor: nat, t: Span, marks: set<nat>)
    requires cursor <= |body| && Marks(body, cursor, marks) && NextTag(body, cursor) == Some(t)
    ensures MarksArePoints(body, t.opening, t.closing + 1, marks)
  {
    forall p: nat | t.opening <= p < t.closing + 1
      ensures p in marks <==> LinkIn(body, t.opening, t.closing + 1, p) {
      MarkIsLink(body, cursor, marks, p);
      TagOfHere(body, cursor, t, p);
      LinkIsPoint(body, cursor, t, p);
    }
  }

  lemma TagExpands(body: string, cursor: nat, t: Span, marks: set<nat>, prefix: string)
    requires ValidPrefix(prefix) && cursor <= |body| && Marks(body, cursor, marks) && NextTag(body, cursor) == Some(t)
    ensures Expand(body, t.opening, t.closing + 1, marks, prefix) == RewriteTag(body[t.opening..t.closing + 1], prefix)
  {
    MarksInTag(body, cursor, t, marks);
    PointsExpand(body, t.opening, t.closing + 1, marks, prefix, body[t.opening..t.closing + 1]);
  }

  lemma PointsExpand(body: string, o: nat, j: nat, marks: set<nat>, prefix: string, tag: string)
    requires ValidPrefix(prefix) && o <= j <= |body| && MarksArePoints(body, o, j, marks) && tag == body[o..j]
    ensures Expand(body, o, j, marks, prefix) == RewriteTag(tag, prefix)
  {
    ExpandIsPass(body, o, o, j, marks, prefix, "", tag);
    RewriteTagIsPass(tag, prefix);
  }

  lemma TagOfLater(body: string, cursor: nat, t: Span, p: nat)
    requires cursor <= |body| && NextTag(body, cursor) == Some(t) && t.closing < p
    ensures TagOf(body, cursor, p) == TagOf(body, t.closing + 1, p)
  {
  }

  lemma LinkLater(body: string, cursor: nat, t: Span, p: nat)
    requires cursor <= |body| && NextTag(body, cursor) == Some(t) && t.closing < p < |body|
    ensures InTag(body, t.closing + 1, p) <==> InTag(body, cursor, p)
  {
    TagOfLater(body, cursor, t, p);
  }

  lemma MarksLater(body: string, cursor: nat, t: Span, marks: set<nat>)
    requires cursor <= |body| && Marks(body, cursor, marks) && NextTag(body, cursor) == Some(t)
    ensures Marks(body, t.closing + 1, marks)
  {
    var j := t.closing + 1;
    forall p: nat ensures p in From(marks, j) <==> p in LinksFrom(body, j) {
      if j <= p < |body| {
        MarkIsLink(body, cursor, marks, p);
        LinkLater(body, cursor, t, p);
      } else if j <= p {
        assert p in From(marks, cursor) <==> p in LinksFrom(body, cursor);
      }
    }
  }

  lemma ExpandInThree(body: string, a: nat, b: nat, c: nat, d: nat, marks: set<nat>, prefix: string)
    requires a <= b <= c <= d <= |body|
    ensures Expand(body, a, d, marks, prefix) ==
            Expand(body, a, b, marks, prefix) + Expand(body, b, c, marks, prefix) + Expand(body, c, d, marks, prefix)
  {
    ExpandSplits(body, a, b, c, marks, prefix);
    ExpandSplits(body, a, c, d, marks, prefix);
  }

  lemma {:induction false} RewriteTagsExpands(body: string, cursor: nat, marks: set<nat>, prefix: string)
    requires ValidPrefix(prefix) && cursor <= |body| && Marks(body, cursor, marks)
    ensures Expand(body, cursor, |body|, marks, prefix) == RewriteTags(body, cursor, prefix)
    decreases |body| - cursor
  {
    match NextTag(body, cursor)
    case None =>
      TextExpands(body, cursor, |body|, marks, prefix);
      ToTheEnd(body, cursor);
    case Some(t) =>
      TextExpands(body, cursor, t.opening, marks, prefix);
      TagExpands(body, cursor, t, marks, prefix);
      MarksLater(body, cursor, t, marks);
      RewriteTagsExpands(body, t.closing + 1, marks, prefix);
      ExpandInThree(body, cursor, t.opening, t.closing + 1, |body|, marks, prefix);
      TagLeft(body, cursor, t, prefix);
  }

  lemma ToTheEnd(body: string, cursor: nat)
    requires cursor <= |body|
    ensures body[cursor..|body|] == body[cursor..]
  {
  }

  lemma TagLeft(body: string, cursor: nat, t: Span, prefix: string)
    requires cursor <= |body| && NextTag(body, cursor) == Some(t)
    ensures RewriteTags(body, cursor, prefix) ==
            body[cursor..t.opening] + RewriteTag(body[t.opening..t.closing + 1], prefix) +
                RewriteTags(body, t.closing + 1, prefix)
  {
  }

  /** The rewriting puts the prefix in at the original links, and changes nothing else. */
  lemma RewriteIsExpansion(body: string, prefix: string)
    requires ValidPrefix(prefix)
    ensures Rewritten(body, prefix) == Expand(body, 0, |body|, Links(body), prefix)
  {
    RewrittenMapsTags(body, prefix);
    assert From(Links(body), 0) == LinksFrom(body, 0);
    RewriteTagsExpands(body, 0, Links(body), prefix);
  }

  /** Deleting what was inserted gives the original body back. */
  lemma RewriteIsUndone(body: string, prefix: string)
    requires ValidPrefix(prefix)
    ensures Contract(Rewritten(body, prefix), 0, |body|, Links(body), |prefix|) == body
  {
    RewriteIsExpansion(body, prefix);
    ContractUndoesExpand(body, 0, |body|, Links(body), prefix);
    assert body[0..|body|] == body;
  }

  // --------------------------------------------------- where the links are

  lemma NoEndInLink(s: string, k: nat)
    requires NEXT <= s && k < |s| && s[k] == '>'
    ensures |NEXT| <= k
  {
    assert forall i :: 0 <= i < |NEXT| ==> s[i] == NEXT[i] != '>';
  }

  lemma NoStartInHead(s: string, head: string, k: nat)
    requires IsHead(head) && EndsWith(s, head) && k < |s| && s[k] == '<'
    ensures k < |s| - |head|
  {
    HeadShape(head);
    if |s| - |head| <= k {
      NotInSuffix(s, head, k);
    }
  }

  lemma LinkStaysInTag(body: string, t: Span, p: nat)
    requires t.opening <= p <= t.closing < |body| && body[t.closing] == '>'
    ensures NEXT <= body[p..t.closing + 1] <==> NEXT <= body[p..]
  {
    var inside, all := body[p..t.closing + 1], body[p..];
    assert inside == all[..|inside|];
    if NEXT <= all {
      NoEndInLink(all, t.closing - p);
    }
  }

  lemma HeadStaysInTag(body: string, t: Span, p: nat, head: string)
    requires IsHead(head) && t.opening < p <= t.closing < |body| && body[t.opening] == '<'
    ensures EndsWith(body[t.opening..p], head) <==> EndsWith(body[..p], head)
  {
    var inside, all := body[t.opening..p], body[..p];
    assert all == body[..t.opening] + inside;
    if EndsWith(all, head) {
      NoStartInHead(all, head, t.opening);
    }
    if |head| <= |inside| {
      EndsAfter(body[..t.opening], inside, head);
    }
  }

  lemma {:induction false} TagOfIsClosed(body: string, cursor: nat, p: nat)
    requires cursor <= |body| && TagOf(body, cursor, p).Some?
    ensures var t := TagOf(body, cursor, p).value;
            body[t.opening] == '<' && t.closing == CloseAt(body, t.opening + 1, None) && body[t.closing] == '>'
    decreases |body| - cursor
  {
    match NextTag(body, cursor)
    case None =>
    case Some(t) =>
      if p > t.closing {
        TagOfIsClosed(body, t.closing + 1, p);
      }
  }

  const ATTRIBUTES := {"src", "href"}
  const QUOTES := {"\"", "'"}

  /** The text before a link ends with the attribute and the quote that introduce it. */
  ghost predicate IntroducesLink(before: string) {
    exists attribute, quote :: attribute in ATTRIBUTES && quote in QUOTES && EndsWith(before, attribute + "=" + quote)
  }

  lemma HeadsAre(before: string)
    ensures (exists h :: h in HEADS && EndsWith(before, h)) <==> IntroducesLink(before)
  {
    assert "src" + "=" + "\"" == HEADS[0] && "src" + "=" + "'" == HEADS[1];
    assert "href" + "=" + "\"" == HEADS[2] && "href" + "=" + "'" == HEADS[3];
    if IntroducesLink(before) {
      var attribute, quote :| attribute in ATTRIBUTES && quote in QUOTES && EndsWith(before, attribute + "=" + quote);
      assert attribute + "=" + quote in HEADS;
    }
    if h :| h in HEADS && EndsWith(before, h) {
      assert exists attribute, quote :: attribute in ATTRIBUTES && quote in QUOTES && h == attribute + "=" + quote;
    }
  }

  /** A link is rewritten exactly when it lies in a closed tag, right behind an attribute and a quote. */
  lemma LinksAre(body: string, p: nat)
    requires p < |body|
    ensures p in Links(body) <==>
            TagOf(body, 0, p).Some? && "/_next/" <= body[p..] && IntroducesLink(body[..p])
  {
    HeadsAre(body[..p]);
    match TagOf(body, 0, p)
    case None =>
    case Some(t) =>
      TagOfIsClosed(body, 0, p);
      LinkStaysInTag(body, t, p);
      if NEXT <= body[p..] {
        assert body[p] == body[p..][0] == '/' && t.opening < p;
        forall h | h in HEADS ensures h in All() && (EndsWith(body[t.opening..p], h) <==> EndsWith(body[..p], h)) {
          assert HEADS[..|HEADS|] == HEADS;
          HeadStaysInTag(body, t, p, h);
        }
      }
  }

  /** From an opening that never closes on, a body has no links. */
  lemma {:induction false} NothingAfterAnOpenTag(body: string, cursor: nat, opening: nat, p: nat)
    requires cursor <= opening <= p < |body| && TagOf(body, cursor, opening) == None
    requires body[opening] == '<' && CloseAt(body, opening + 1, None) == |body|
    ensures TagOf(body, cursor, p) == None
    decreases |body| - cursor
  {
    var o := FindLess(body, cursor);
    FirstLess(body, cursor, opening);
    match NextTag(body, cursor)
    case None =>
    case Some(t) =>
      if t.closing < opening {
        NothingAfterAnOpenTag(body, t.closing + 1, opening, p);
      }
  }

  lemma {:induction false} FirstLess(body: string, cursor: nat, p: nat)
    requires cursor <= p < |body| && body[p] == '<'
    ensures FindLess(body, cursor) <= p
    decreases p - cursor
  {
    if cursor < p && body[cursor] != '<' {
      FirstLess(body, cursor + 1, p);
    }
  }

  // ------------------------------------------ rewriting a rewritten body

  lemma {:induction false} NoLessBefore(body: string, cursor: nat, p: nat)
    requires cursor <= |body| && cursor <= p < FindLess(body, cursor)
    ensures body[p] != '<'
    decreases p - cursor
  {
    if cursor < p {
      NoLessBefore(body, cursor + 1, p);
    }
  }

  lemma {:induction false} FindLessAt(body: string, cursor: nat, o: nat)
    requires cursor <= o < |body| && body[o] == '<'
    requires forall p :: cursor <= p < o ==> body[p] != '<'
    ensures FindLess(body, cursor) == o
    decreases o - cursor
  {
    if cursor < o {
      FindLessAt(body, cursor + 1, o);
    }
  }

  /** From `i` on, `b` is what `w` has `n` places further on. */
  ghost predicate Same(w: string, n: nat, b: string, i: nat)
    requires i <= |b|
    decreases |b| - i
  {
    |w| == n + |b| && (i == |b| || (w[n + i] == b[i] && Same(w, n, b, i + 1)))
  }

  lemma {:induction false} SameAt(w: string, n: nat, b: string, i: nat, k: nat)
    requires i <= k <= |b| && Same(w, n, b, i)
    ensures Same(w, n, b, k)
    decreases k - i
  {
    if i < k {
      SameAt(w, n, b, i + 1, k);
    }
  }

  lemma {:induction false} AppendIsSame(a: string, b: string, w: string, i: nat)
    requires w == a + b && i <= |b|
    ensures Same(w, |a|, b, i)
    decreases |b| - i
  {
    if i < |b| {
      AppendIsSame(a, b, w, i + 1);
    }
  }

  lemma SameSlice(w: string, n: nat, b: string, i: nat, j: nat)
    requires i <= j <= |b| && Same(w, n, b, i)
    ensures w[n + i..n + j] == b[i..j]
  {
    forall k | i <= k < j ensures w[n + k] == b[k] {
      SameAt(w, n, b, i, k);
    }
    SliceByIndex(w, n, b, i, j);
  }

  lemma SliceByIndex(w: string, n: nat, b: string, i: nat, j: nat)
    requires i <= j <= |b| && |w| == n + |b| && forall k :: i <= k < j ==> b[k] == w[n + k]
    ensures w[n + i..n + j] == b[i..j]
  {
  }

  lemma {:induction false} FindLessShifts(w: string, n: nat, b: string, i: nat)
    requires i <= |b| && Same(w, n, b, i)
    ensures FindLess(w, n + i) == n + FindLess(b, i)
    decreases |b| - i
  {
    if i < |b| && b[i] != '<' {
      FindLessShifts(w, n, b, i + 1);
    }
  }

  lemma {:induction false} CloseAtShifts(w: string, n: nat, b: string, i: nat, quote: Option<char>)
    requires i <= |b| && Same(w, n, b, i)
    ensures CloseAt(w, n + i, quote) == n + CloseAt(b, i, quote)
    decreases |b| - i
  {
    if i < |b| && !(quote == None && b[i] == '>') {
      CloseAtShifts(w, n, b, i + 1, NextQuote(quote, b[i]));
    }
  }

  /** What follows a closing `>` has no say in finding it. */
  lemma {:induction false} CloseAtWithin(body: string, rest: string, i: nat, quote: Option<char>)
    requires i <= |body| && (CloseAt(body, i, quote) < |body| || CloseAt(body + rest, i, quote) < |body|)
    ensures CloseAt(body + rest, i, quote) == CloseAt(body, i, quote)
    decreases |body| - i
  {
    if i < |body| && !(quote == None && body[i] == '>') {
      CloseAtWithin(body, rest, i + 1, NextQuote(quote, body[i]));
    }
  }

  lemma {:induction false} NeutralText(text: string, s: string, i: nat, quote: Option<char>)
    requires i <= |text| && forall k :: 0 <= k < |text| ==> !IsQuote(text[k]) && text[k] != '>'
    requires quote == None || IsQuote(quote.value)
    ensures CloseAt(text + s, i, quote) == |text| + CloseAt(s, 0, quote)
    decreases |text| - i
  {
    if i == |text| {
      AppendIsSame(text, s, text + s, 0);
      CloseAtShifts(text + s, |text|, s, 0, quote);
    } else {
      assert (text + s)[i] == text[i];
      NeutralText(text, s, i + 1, quote);
    }
  }

  /** The text is non-empty and its last character closes the tag it is the inside of. */
  predicate ClosesAtEnd(s: string, quote: Option<char>) {
    CloseAt(s, 0, quote) == |s| - 1
  }

  lemma ClosesAtEndStep(c: char, rest: string, quote: Option<char>)
    ensures ClosesAtEnd([c] + rest, quote) <==>
            if quote == None && c == '>' then rest == "" else ClosesAtEnd(rest, NextQuote(quote, c))
  {
    AppendIsSame([c], rest, [c] + rest, 0);
    CloseAtShifts([c] + rest, 1, rest, 0, NextQuote(quote, c));
  }

  /** The insertions hold no quote and no `>`, so the end of the tag stays its end. */
  lemma {:induction false} PassKeepsEnd(heads: set<string>, prefix: string, before: string, rest: string,
                                        quote: Option<char>)
    requires ValidPrefix(prefix) && ClosesAtEnd(rest, quote) && (quote == None || IsQuote(quote.value))
    ensures ClosesAtEnd(Pass(heads, prefix, before, rest), quote)
    decreases |rest|
  {
    assert rest != "";
    var c, later := rest[0], Pass(heads, prefix, before + [rest[0]], rest[1..]);
    assert rest == [c] + rest[1..];
    ClosesAtEndStep(c, rest[1..], quote);
    ClosesAtEndStep(c, later, quote);
    if quote == None && c == '>' {
      assert later == "";
    } else {
      PassKeepsEnd(heads, prefix, before + [c], rest[1..], NextQuote(quote, c));
    }
    if Point(heads, before, rest) {
      NeutralText(prefix, [c] + later, 0, quote);
      ConcatAssociates(prefix, [c], later);
    } else {
      assert "" + [c] + later == [c] + later;
    }
  }

  /** An opening `<` and, behind it, text whose last character closes the tag. */
  predicate ClosedTag(tag: string) {
    tag != "" && tag[0] == '<' && ClosesAtEnd(tag[1..], None)
  }

  lemma FoundTagIsClosed(body: string, cursor: nat, t: Span)
    requires cursor <= |body| && NextTag(body, cursor) == Some(t)
    ensures ClosedTag(body[t.opening..t.closing + 1])
  {
    var inside, rest := body[t.opening + 1..t.closing + 1], body[t.closing + 1..];
    assert body == body[..t.opening + 1] + (inside + rest);
    AppendIsSame(body[..t.opening + 1], inside + rest, body, 0);
    CloseAtShifts(body, t.opening + 1, inside + rest, 0, None);
    CloseAtWithin(inside, rest, 0, None);
    assert body[t.opening..t.closing + 1][1..] == inside;
  }

  lemma RewrittenTagIsClosed(tag: string, prefix: string)
    requires ValidPrefix(prefix) && ClosedTag(tag)
    ensures ClosedTag(RewriteTag(tag, prefix))
  {
    RewriteTagIsPass(tag, prefix);
    PassKeepsEnd(All(), prefix, "" + ['<'], tag[1..], None);
    assert !(NEXT <= tag) by {
      assert NEXT[0] == '/' && tag[0] == '<';
    }
    assert Pass(All(), prefix, "", tag) == ['<'] + Pass(All(), prefix, "" + ['<'], tag[1..]);
  }

  /** Behind text without `<`, a closed tag is the next one the scan finds. */
  lemma TagInFront(text: string, tag: string, rest: string)
    requires ClosedTag(tag) && forall i :: 0 <= i < |text| ==> text[i] != '<'
    ensures NextTag(text + tag + rest, 0) == Some(Span(|text|, |text| + |tag| - 1))
  {
    var w, inside := text + tag + rest, tag[1..];
    FindLessAt(w, 0, |text|);
    assert w == (text + ['<']) + (inside + rest);
    AppendIsSame(text + ['<'], inside + rest, w, 0);
    CloseAtShifts(w, |text| + 1, inside + rest, 0, None);
    CloseAtWithin(inside, rest, 0, None);
  }

  lemma NextTagShifts(w: string, n: nat, b: string, i: nat)
    requires i <= |b| && Same(w, n, b, i)
    ensures NextTag(w, n + i) ==
            match NextTag(b, i) case None => None case Some(t) => Some(Span(n + t.opening, n + t.closing))
  {
    FindLessShifts(w, n, b, i);
    var o := FindLess(b, i);
    if o < |b| {
      SameAt(w, n, b, i, o + 1);
      CloseAtShifts(w, n, b, o + 1, None);
    }
  }

  lemma NoTagLeft(body: string, cursor: nat, prefix: string)
    requires cursor <= |body| && NextTag(body, cursor) == None
    ensures RewriteTags(body, cursor, prefix) == body[cursor..]
  {
  }

  /** Two bodies with the same text, the same tag and the same rewritten rest. */
  lemma SameStep(x: string, i: nat, xo: nat, xc: nat, y: string, j: nat, yo: nat, yc: nat, prefix: string)
    requires i <= |x| && j <= |y| && NextTag(x, i) == Some(Span(xo, xc)) && NextTag(y, j) == Some(Span(yo, yc))
    requires x[i..xo] == y[j..yo] && x[xo..xc + 1] == y[yo..yc + 1]
    requires RewriteTags(x, xc + 1, prefix) == RewriteTags(y, yc + 1, prefix)
    ensures RewriteTags(x, i, prefix) == RewriteTags(y, j, prefix)
  {
    TagLeft(x, i, Span(xo, xc), prefix);
    TagLeft(y, j, Span(yo, yc), prefix);
  }

  lemma ToTheEnds(w: string, n: nat, b: string, i: nat)
    requires i <= |b| && Same(w, n, b, i)
    ensures w[n + i..] == b[i..]
  {
    SameSlice(w, n, b, i, |b|);
    ToTheEnd(w, n + i);
    ToTheEnd(b, i);
  }

  lemma SamePieces(w: string, n: nat, b: string, i: nat, o: nat, c: nat)
    requires i <= o <= c < |b| && Same(w, n, b, i)
    ensures w[n + i..n + o] == b[i..o] && w[n + o..n + c + 1] == b[o..c + 1]
  {
    SameAt(w, n, b, i, o);
    SameSlice(w, n, b, i, o);
    SameSlice(w, n, b, o, c + 1);
  }

  lemma {:induction false} RewriteTagsShifts(w: string, n: nat, b: string, i: nat, prefix: string)
    requires i <= |b| && Same(w, n, b, i)
    ensures RewriteTags(w, n + i, prefix) == RewriteTags(b, i, prefix)
    decreases |b| - i
  {
    NextTagShifts(w, n, b, i);
    match NextTag(b, i)
    case None =>
      NoTagLeft(b, i, prefix);
      NoTagLeft(w, n + i, prefix);
      ToTheEnds(w, n, b, i);
    case Some(t) =>
      SameAt(w, n, b, i, t.closing + 1);
      RewriteTagsShifts(w, n, b, t.closing + 1, prefix);
      SamePieces(w, n, b, i, t.opening, t.closing);
      SameStep(w, n + i, n + t.opening, n + t.closing, b, i, t.opening, t.closing, prefix);
  }

  lemma RestInFront(front: string, rest: string, w: string, prefix: string)
    requires w == front + rest
    ensures RewriteTags(w, |front|, prefix) == RewriteTags(rest, 0, prefix)
  {
    AppendIsSame(front, rest, w, 0);
    RewriteTagsShifts(w, |front|, rest, 0, prefix);
  }

  lemma FrontSlices(text: string, tag: string, rest: string, w: string)
    requires w == text + tag + rest
    ensures w[0..|text|] == text && w[|text|..|text| + |tag|] == tag
  {
  }

  lemma RewriteTagsInFront(text: string, tag: string, rest: string, w: string, prefix: string)
    requires w == text + tag + rest
    requires ClosedTag(tag) && forall i :: 0 <= i < |text| ==> text[i] != '<'
    ensures RewriteTags(w, 0, prefix) == text + RewriteTag(tag, prefix) + RewriteTags(rest, 0, prefix)
  {
    TagInFront(text, tag, rest);
    TagLeft(w, 0, Span(|text|, |text| + |tag| - 1), prefix);
    RestInFront(text + tag, rest, w, prefix);
    FrontSlices(text, tag, rest, w);
  }

  lemma {:induction false} RewriteTagsIsIdempotent(body: string, cursor: nat, prefix: string)
    requires ValidPrefix(prefix) && cursor <= |body|
    ensures RewriteTags(RewriteTags(body, cursor, prefix), 0, prefix) == RewriteTags(body, cursor, prefix)
    decreases |body| - cursor
  {
    match NextTag(body, cursor)
    case None =>
      NoTagLeft(body, cursor, prefix);
      RestAlone(body, cursor, prefix);
    case Some(t) =>
      RewrittenPieces(body, cursor, t, prefix);
      RewriteTagsIsIdempotent(body, t.closing + 1, prefix);
      TagLeft(body, cursor, t, prefix);
      StepIsIdempotent(body[cursor..t.opening], RewriteTag(body[t.opening..t.closing + 1], prefix),
                       RewriteTags(body, t.closing + 1, prefix), prefix, RewriteTags(body, cursor, prefix));
  }

  lemma RewrittenPieces(body: string, cursor: nat, t: Span, prefix: string)
    requires ValidPrefix(prefix) && cursor <= |body| && NextTag(body, cursor) == Some(t)
    ensures var tag := RewriteTag(body[t.opening..t.closing + 1], prefix);
            ClosedTag(tag) && RewriteTag(tag, prefix) == tag
    ensures forall i :: 0 <= i < t.opening - cursor ==> body[cursor..t.opening][i] != '<'
  {
    var tag := body[t.opening..t.closing + 1];
    FoundTagIsClosed(body, cursor, t);
    RewrittenTagIsClosed(tag, prefix);
    RewriteTagIsIdempotent(tag, prefix);
    TextHasNoLess(body, cursor, t);
  }

  lemma StepIsIdempotent(text: string, tag: string, rest: string, prefix: string, whole: string)
    requires whole == text + tag + rest
    requires ClosedTag(tag) && RewriteTag(tag, prefix) == tag && RewriteTags(rest, 0, prefix) == rest
    requires forall i :: 0 <= i < |text| ==> text[i] != '<'
    ensures RewriteTags(whole, 0, prefix) == whole
  {
    RewriteTagsInFront(text, tag, rest, whole, prefix);
  }

  lemma RestAlone(body: string, cursor: nat, prefix: string)
    requires cursor <= |body|
    ensures RewriteTags(body[cursor..], 0, prefix) == RewriteTags(body, cursor, prefix)
  {
    assert body == body[..cursor] + body[cursor..];
    RestInFront(body[..cursor], body[cursor..], body, prefix);
  }

  lemma TextHasNoLess(body: string, cursor: nat, t: Span)
    requires cursor <= |body| && NextTag(body, cursor) == Some(t)
    ensures forall i :: 0 <= i < t.opening - cursor ==> body[cursor..t.opening][i] != '<'
  {
    forall i | 0 <= i < t.opening - cursor ensures body[cursor..t.opening][i] != '<' {
      NoLessBefore(body, cursor, cursor + i);
    }
  }

  /** Rewriting what was rewritten changes nothing. */
  lemma RewriteIsIdempotent(body: string, prefix: string)
    requires ValidPrefix(prefix)
    ensures Rewritten(Rewritten(body, prefix), prefix) == Rewritten(body, prefix)
  {
    RewrittenMapsTags(body, prefix);
    RewrittenMapsTags(Rewritten(body, prefix), prefix);
    RewriteTagsIsIdempotent(body, 0, prefix);
  }
}
