/** The preview gateway's rewriter of old asset links. */
module LegacyAssets {
  // preview_gateway.py: inside closed HTML tags it puts the public path in front of `/_next/` links. A body is a
  // sequence of bytes, written as one character a byte.

  import opened Common

  const NEXT := "/_next/"

  /** `attribute=delimiter` for each attribute and delimiter, in the order the source tries them. */
  const HEADS: seq<string> := ["src=\"", "src='", "href=\"", "href='"]

  predicate IsQuote(c: char) {
    c == '"' || c == '\''
  }

  /** The path of an accepted public preview URL. */
  predicate ValidPrefix(prefix: string) {
    && |prefix| >= 2 && prefix[0] == '/' && prefix[1] != '_'
    && forall i :: 0 <= i < |prefix| ==> !IsQuote(prefix[i]) && prefix[i] != '=' && prefix[i] != '<' && prefix[i] != '>'
  }

  // ------------------------------------------------------------ specification

  /** `s.replace(needle, replacement)`: leftmost, non-overlapping. */
  function Replace(s: string, needle: string, replacement: string): string
    requires needle != ""
    decreases |s|
  {
    if |s| < |needle| then s
    else if needle <= s then replacement + Replace(s[|needle|..], needle, replacement)
    else [s[0]] + Replace(s[1..], needle, replacement)
  }

  function ReplaceHead(tag: string, head: string, prefix: string): string {
    Replace(tag, head + NEXT, head + prefix + NEXT)
  }

  /** The replacements for the first `k` heads, one after another. */
  function ReplaceHeads(tag: string, k: nat, prefix: string): string
    requires k <= |HEADS|
  {
    if k == 0 then tag else ReplaceHead(ReplaceHeads(tag, k - 1, prefix), HEADS[k - 1], prefix)
  }

  function RewriteTag(tag: string, prefix: string): string {
    ReplaceHeads(tag, |HEADS|, prefix)
  }

  /** `body.find(b"<", cursor)`, with `|body|` for the source's negative answer. */
  function FindLess(body: string, cursor: nat): (o: nat)
    requires cursor <= |body|
    ensures cursor <= o <= |body|
    ensures o < |body| ==> body[o] == '<'
    decreases |body| - cursor
  {
    if cursor == |body| || body[cursor] == '<' then cursor else FindLess(body, cursor + 1)
  }

  function NextQuote(quote: Option<char>, c: char): Option<char> {
    if quote == None && IsQuote(c) then Some(c) else if quote == Some(c) then None else quote
  }

  /** The first `>` from `i` on that no quote hides; `|body|` when there is none. */
  function CloseAt(body: string, i: nat, quote: Option<char>): (c: nat)
    requires i <= |body|
    ensures i <= c <= |body|
    ensures c < |body| ==> body[c] == '>'
    decreases |body| - i
  {
    if i == |body| || (quote == None && body[i] == '>') then i else CloseAt(body, i + 1, NextQuote(quote, body[i]))
  }

  datatype Span = Span(opening: nat, closing: nat)

  /** The first closed tag at or after `cursor`; an opening that never closes ends the search. */
  function NextTag(body: string, cursor: nat): (t: Option<Span>)
    requires cursor <= |body|
    ensures t.Some? ==> cursor <= t.value.opening < t.value.closing < |body|
  {
    var o := FindLess(body, cursor);
    if o == |body| then None
    else
      var c := CloseAt(body, o + 1, None);
      if c == |body| then None else Some(Span(o, c))
  }

  /** The body from `cursor` on, with every closed tag rewritten. */
  function RewriteTags(body: string, cursor: nat, prefix: string): string
    requires cursor <= |body|
    decreases |body| - cursor
  {
    match NextTag(body, cursor)
    case None => body[cursor..]
    case Some(t) =>
      body[cursor..t.opening] + RewriteTag(body[t.opening..t.closing + 1], prefix) +
          RewriteTags(body, t.closing + 1, prefix)
  }

  /** What the loop's output becomes: each closed tag grows it, and the rest of the body ends it. */
  function RewriteOnto(output: string, body: string, cursor: nat, prefix: string): string
    requires cursor <= |body|
    decreases |body| - cursor
  {
    match NextTag(body, cursor)
    case None => output + body[cursor..]
    case Some(t) =>
      RewriteOnto(output + body[cursor..t.opening] + RewriteTag(body[t.opening..t.closing + 1], prefix), body,
                  t.closing + 1, prefix)
  }

  function Rewritten(body: string, prefix: string): string {
    RewriteOnto("", body, 0, prefix)
  }

  lemma {:induction false} GrowingIsAppending(output: string, body: string, cursor: nat, prefix: string)
    requires cursor <= |body|
    ensures RewriteOnto(output, body, cursor, prefix) == output + RewriteTags(body, cursor, prefix)
    decreases |body| - cursor
  {
    match NextTag(body, cursor)
    case None =>
    case Some(t) =>
      var text, tag := body[cursor..t.opening], RewriteTag(body[t.opening..t.closing + 1], prefix);
      var rest := RewriteTags(body, t.closing + 1, prefix);
      GrowingIsAppending(output + text + tag, body, t.closing + 1, prefix);
      ConcatAssociates(output, text + tag, rest);
      ConcatAssociates(output, text, tag);
  }

  lemma RewrittenMapsTags(body: string, prefix: string)
    ensures Rewritten(body, prefix) == RewriteTags(body, 0, prefix)
  {
    GrowingIsAppending("", body, 0, prefix);
  }

  // ------------------------------------------------------------- the loops

  /** The quote-aware scan for the end of the tag that opens at `opening`. */
  method FindClosing(body: string, opening: nat) returns (closing: nat)
    requires opening < |body|
    ensures closing == CloseAt(body, opening + 1, None)
  {
    var quote: Option<char> := None;
    closing := opening + 1;
    while closing < |body|
      invariant opening + 1 <= closing <= |body|
      invariant CloseAt(body, opening + 1, None) == CloseAt(body, closing, quote)
    {
      var value := body[closing];
      if quote == None && IsQuote(value) {
        quote := Some(value);
      } else if quote == Some(value) {
        quote := None;
      } else if quote == None && value == '>' {
        break;
      }
      closing := closing + 1;
    }
  }

  method ReplaceAttributes(tag: string, prefix: string) returns (result: string)
    ensures result == RewriteTag(tag, prefix)
  {
    result := tag;
    for k := 0 to |HEADS|
      invariant result == ReplaceHeads(tag, k, prefix)
    {
      result := ReplaceHead(result, HEADS[k], prefix);
    }
  }

  lemma TwoPieces(output: string, body: string, cursor: nat, opening: nat)
    requires cursor <= opening <= |body|
    ensures output + body[cursor..opening] + body[opening..] == output + body[cursor..]
  {
    assert body[cursor..opening] + body[opening..] == body[cursor..];
    ConcatAssociates(output, body[cursor..opening], body[opening..]);
  }

  /** The source's loop: a growing output and a cursor behind the last closed tag. */
  method RewriteLegacyNextAssets(body: string, prefix: string) returns (output: string)
    ensures output == Rewritten(body, prefix)
  {
    output := "";
    var cursor := 0;
    while true
      invariant 0 <= cursor <= |body|
      invariant RewriteOnto(output, body, cursor, prefix) == Rewritten(body, prefix)
      decreases |body| - cursor
    {
      var opening := FindLess(body, cursor);
      if opening == |body| {
        output := output + body[cursor..];
        break;
      }
      var closing := FindClosing(body, opening);
      if closing >= |body| {
        TwoPieces(output, body, cursor, opening);
        output := output + body[cursor..opening];
        output := output + body[opening..];
        break;
      }
      output := output + body[cursor..opening];
      var tag := ReplaceAttributes(body[opening..closing + 1], prefix);
      output := output + tag;
      cursor := closing + 1;
    }
  }
}
