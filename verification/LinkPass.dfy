/**
 The rewriting of one tag as a single pass: replacing one attribute head after another inserts the prefix at the
 links of the original tag, wherever a head introduces one, and nowhere else.
 */
module LinkPass {
  import opened Common
  import opened LegacyAssets

  predicate IsHead(h: string) {
    h in HEADS
  }

  predicate EndsWith(s: string, suffix: string) {
    |suffix| <= |s| && forall i :: 0 <= i < |suffix| ==> suffix[i] == s[|s| - |suffix| + i]
  }

  /** `rest`, seen after `before`, starts a link that one of these heads introduces. */
  predicate Point(heads: set<string>, before: string, rest: string) {
    NEXT <= rest && exists h :: h in heads && EndsWith(before, h)
  }

  /** A single pass that inserts the prefix at every point of the original text. */
  function Pass(heads: set<string>, prefix: string, before: string, rest: string): string
    decreases |rest|
  {
    if rest == "" then ""
    else
      (if Point(heads, before, rest) then prefix else "") + [rest[0]]
      + Pass(heads, prefix, before + [rest[0]], rest[1..])
  }

  predicate Heads(heads: set<string>) {
    forall h :: h in heads ==> IsHead(h)
  }

  /** Where no point lies in the first `n` characters, the pass copies them. */
  lemma {:induction false} PassCopies(heads: set<string>, prefix: string, before: string, rest: string, n: nat)
    requires n <= |rest|
    requires forall k :: 0 <= k < n ==> !Point(heads, before + rest[..k], rest[k..])
    ensures Pass(heads, prefix, before, rest) == rest[..n] + Pass(heads, prefix, before + rest[..n], rest[n..])
    decreases n
  {
    if n == 0 {
      assert before + rest[..0] == before && rest[0..] == rest;
      assert rest[..0] + Pass(heads, prefix, before, rest) == Pass(heads, prefix, before, rest);
    } else {
      PassCopiesOne(heads, prefix, before, rest);
      var before', rest' := before + [rest[0]], rest[1..];
      forall k | 0 <= k < n - 1 ensures !Point(heads, before' + rest'[..k], rest'[k..]) {
        StepAlong(before, rest, k);
      }
      PassCopies(heads, prefix, before', rest', n - 1);
      StepAlong(before, rest, n - 1);
      var tail := Pass(heads, prefix, before + rest[..n], rest[n..]);
      ConcatAssociates([rest[0]], rest'[..n - 1], tail);
      assert [rest[0]] + rest'[..n - 1] == rest[..n];
    }
  }

  lemma StepAlong(before: string, rest: string, k: nat)
    requires k < |rest|
    ensures before + [rest[0]] + rest[1..][..k] == before + rest[..k + 1] && rest[1..][k..] == rest[k + 1..]
  {
  }

  lemma PassCopiesOne(heads: set<string>, prefix: string, before: string, rest: string)
    requires rest != "" && !Point(heads, before + rest[..0], rest[0..])
    ensures Pass(heads, prefix, before, rest) == [rest[0]] + Pass(heads, prefix, before + [rest[0]], rest[1..])
  {
    assert before + rest[..0] == before && rest[0..] == rest;
  }

  lemma HeadShape(h: string)
    requires IsHead(h)
    ensures |h| > 0 && IsQuote(h[|h| - 1]) && '/' !in h && '<' !in h
  {
  }

  lemma NotInSuffix(s: string, suffix: string, k: nat)
    requires |s| - |suffix| <= k < |s| && s[k] !in suffix
    ensures !EndsWith(s, suffix)
  {
    if |suffix| <= |s| {
      assert suffix[k - (|s| - |suffix|)] != s[k];
    }
  }

  /** Every head ends in a quote, so nothing is ever inserted right after anything else. */
  lemma NoPointAfter(heads: set<string>, before: string, rest: string)
    requires Heads(heads) && before != "" && !IsQuote(before[|before| - 1])
    ensures !Point(heads, before, rest)
  {
    forall h | h in heads ensures !EndsWith(before, h) {
      HeadShape(h);
      OtherLast(before, h);
    }
  }

  lemma OtherLast(s: string, h: string)
    requires s != "" && h != "" && s[|s| - 1] != h[|h| - 1]
    ensures !EndsWith(s, h)
  {
    assert |h| > |s| || s[|s| - |h|..][|h| - 1] == s[|s| - 1];
  }

  /** Neither a prefix nor the constant part of a link is ever split by an insertion. */
  lemma PassCopiesPlain(heads: set<string>, prefix: string, before: string, rest: string, n: nat)
    requires Heads(heads) && n <= |rest|
    requires n > 0 ==> !Point(heads, before, rest)
    requires forall k :: 0 <= k < n - 1 ==> !IsQuote(rest[k])
    ensures Pass(heads, prefix, before, rest) == rest[..n] + Pass(heads, prefix, before + rest[..n], rest[n..])
  {
    forall k | 0 <= k < n ensures !Point(heads, before + rest[..k], rest[k..]) {
      if k == 0 {
        assert before + rest[..0] == before && rest[0..] == rest;
      } else {
        assert (before + rest[..k])[|before + rest[..k]| - 1] == rest[k - 1];
        NoPointAfter(heads, before + rest[..k], rest[k..]);
      }
    }
    PassCopies(heads, prefix, before, rest, n);
  }

  // -------------------------------- one replacement is a pass with one head

  /** No link introduced by the head starts less than a head's length into `rest`. */
  ghost predicate NoEarlyPoint(head: string, before: string, rest: string) {
    forall k :: 0 <= k < |head| && k <= |rest| ==> !Point({head}, before + rest[..k], rest[k..])
  }

  lemma EndsAfter(s: string, t: string, suffix: string)
    requires |suffix| <= |t|
    ensures EndsWith(s + t, suffix) <==> EndsWith(t, suffix)
  {
    assert (s + t)[|s + t| - |suffix|..] == t[|t| - |suffix|..];
  }

  lemma {:induction false} ReplaceIsPass(head: string, prefix: string, before: string, rest: string)
    requires IsHead(head) && NoEarlyPoint(head, before, rest)
    ensures Pass({head}, prefix, before, rest) == ReplaceHead(rest, head, prefix)
    decreases |rest|
  {
    HeadShape(head);
    var needle := head + NEXT;
    if |rest| < |needle| {
      ShortRestHasNoPoint(head, before, rest);
      PassCopies({head}, prefix, before, rest, |rest|);
      assert rest[..|rest|] == rest && rest[|rest|..] == "";
    } else if needle <= rest {
      PassOverNeedle(head, prefix, before, rest);
      NoEarlyPointAfterNeedle(head, before, rest);
      ReplaceIsPass(head, prefix, before + needle, rest[|needle|..]);
    } else {
      NoEarlyPointAfterOne(head, before, rest);
      assert before + rest[..0] == before && rest[0..] == rest;
      ReplaceIsPass(head, prefix, before + [rest[0]], rest[1..]);
    }
  }

  lemma ShortRestHasNoPoint(head: string, before: string, rest: string)
    requires NoEarlyPoint(head, before, rest) && |rest| < |head + NEXT|
    ensures forall k :: 0 <= k < |rest| ==> !Point({head}, before + rest[..k], rest[k..])
  {
  }

  lemma NoEarlyPointAfterOne(head: string, before: string, rest: string)
    requires IsHead(head) && NoEarlyPoint(head, before, rest) && rest != "" && !(head + NEXT <= rest)
    ensures NoEarlyPoint(head, before + [rest[0]], rest[1..])
  {
    forall k | 0 <= k < |head| && k <= |rest[1..]|
      ensures !Point({head}, before + [rest[0]] + rest[1..][..k], rest[1..][k..])
    {
      StepAlong(before, rest, k);
      if k + 1 == |head| {
        PointAfterHead(head, before, rest);
      }
    }
  }

  lemma PointAfterHead(head: string, before: string, rest: string)
    requires |head| <= |rest|
    ensures Point({head}, before + rest[..|head|], rest[|head|..]) ==> head + NEXT <= rest
  {
    EndsAfter(before, rest[..|head|], head);
    assert rest == rest[..|head|] + rest[|head|..];
    assert rest[..|head|][0..] == rest[..|head|];
  }

  lemma NoEarlyPointAfterNeedle(head: string, before: string, rest: string)
    requires IsHead(head) && head + NEXT <= rest
    ensures NoEarlyPoint(head, before + (head + NEXT), rest[|head + NEXT|..])
  {
    HeadShape(head);
    var needle, later := head + NEXT, rest[|head + NEXT|..];
    forall k | 0 <= k < |head| && k <= |later| ensures !EndsWith(before + needle + later[..k], head) {
      var all := before + needle + later[..k];
      var at := |all| - k - 1;
      assert all[at] == '/';
      NotInSuffix(all, head, at);
    }
  }

  lemma PassOverNeedle(head: string, prefix: string, before: string, rest: string)
    requires IsHead(head) && NoEarlyPoint(head, before, rest) && head + NEXT <= rest
    ensures Pass({head}, prefix, before, rest) ==
            head + prefix + NEXT + Pass({head}, prefix, before + (head + NEXT), rest[|head + NEXT|..])
  {
    var link, later := rest[|head|..], rest[|head + NEXT|..];
    assert rest[..|head|] == head && NEXT <= link && link[|NEXT|..] == later;
    PassCopies({head}, prefix, before, rest, |head|);
    EndsAfter(before, head, head);
    PassOverLink({head}, prefix, before + head, link);
    ConcatAssociates(before, head, NEXT);
    var tail := Pass({head}, prefix, before + (head + NEXT), later);
    ConcatAssociates(head, prefix + NEXT, tail);
    ConcatAssociates(head, prefix, NEXT);
  }

  /** At a point: the prefix, the constant part of the link, and on with what follows. */
  lemma PassOverLink(heads: set<string>, prefix: string, before: string, link: string)
    requires Heads(heads) && Point(heads, before, link)
    ensures Pass(heads, prefix, before, link) == prefix + NEXT + Pass(heads, prefix, before + NEXT, link[|NEXT|..])
  {
    var after, rest := before + ['/'], link[1..];
    assert Pass(heads, prefix, before, link) == prefix + ['/'] + Pass(heads, prefix, after, rest);
    NoPointAfter(heads, after, rest);
    PassCopiesPlain(heads, prefix, after, rest, |NEXT| - 1);
    assert rest[..|NEXT| - 1] == NEXT[1..] && rest[|NEXT| - 1..] == link[|NEXT|..];
    assert after + NEXT[1..] == before + NEXT;
    var tail := Pass(heads, prefix, before + NEXT, link[|NEXT|..]);
    ConcatAssociates(prefix + ['/'], NEXT[1..], tail);
    assert prefix + ['/'] + NEXT[1..] == prefix + NEXT;
  }

  // -------------------------------------------- a pass after another pass

  /** Two contexts with a common end `t` no head can tell apart: they are equal, or `t` starts with a slash. */
  ghost predicate Alike(x: string, y: string, t: string) {
    x == y || (t != "" && t[0] == '/')
  }

  lemma AlikeEndAlike(x: string, y: string, t: string, head: string)
    requires IsHead(head) && Alike(x, y, t)
    ensures EndsWith(x + t, head) <==> EndsWith(y + t, head)
  {
    if x != y {
      if |head| <= |t| {
        EndsAfter(x, t, head);
        EndsAfter(y, t, head);
      } else {
        SlashTooNear(x, t, head);
        SlashTooNear(y, t, head);
      }
    }
  }

  lemma SlashTooNear(x: string, t: string, head: string)
    requires IsHead(head) && t != "" && t[0] == '/' && |t| < |head|
    ensures !EndsWith(x + t, head)
  {
    HeadShape(head);
    NotInSuffix(x + t, head, |x|);
  }

  /** A word without quotes is at the front after a pass exactly when it was before, unless a link starts there. */
  lemma {:induction false} FrontKept(heads: set<string>, prefix: string, before: string, rest: string, word: string)
    requires Heads(heads) && !Point(heads, before, rest)
    requires forall i :: 0 <= i < |word| ==> !IsQuote(word[i])
    ensures word <= Pass(heads, prefix, before, rest) <==> word <= rest
    decreases |word|
  {
    if word != "" && rest != "" {
      var rest' := Pass(heads, prefix, before + [rest[0]], rest[1..]);
      assert Pass(heads, prefix, before, rest) == [rest[0]] + rest';
      FrontOfCons(word, rest[0], rest');
      FrontOfCons(word, rest[0], rest[1..]);
      assert [rest[0]] + rest[1..] == rest;
      if word[0] == rest[0] {
        NoPointAfter(heads, before + [rest[0]], rest[1..]);
        FrontKept(heads, prefix, before + [rest[0]], rest[1..], word[1..]);
      }
    }
  }

  lemma FrontOfCons(word: string, c: char, rest: string)
    requires word != ""
    ensures word <= [c] + rest <==> word[0] == c && word[1..] <= rest
  {
    if word[0] == c && word[1..] <= rest {
      assert word == [c] + word[1..];
    }
    if word <= [c] + rest {
      assert ([c] + rest)[1..] == rest;
    }
  }

  lemma SamePoint(first: set<string>, second: set<string>, prefix: string, x: string, y: string, t: string,
                  rest: string)
    requires Heads(first) && Heads(second) && Alike(x, y, t) && !Point(first, x + t, rest)
    ensures Point(second, y + t, Pass(first, prefix, x + t, rest)) <==> Point(second, x + t, rest)
  {
    FrontKept(first, prefix, x + t, rest, NEXT);
    forall h | h in second ensures EndsWith(x + t, h) <==> EndsWith(y + t, h) {
      AlikeEndAlike(x, y, t, h);
    }
  }

  lemma PassOverPrefix(heads: set<string>, prefix: string, before: string, later: string)
    requires Heads(heads) && ValidPrefix(prefix)
    ensures Pass(heads, prefix, before, prefix + ['/'] + later) ==
            prefix + ['/'] + Pass(heads, prefix, before + prefix + ['/'], later)
  {
    var rest, n := prefix + ['/'] + later, |prefix| + 1;
    assert rest[0] == '/' && rest[1] == prefix[1] && NEXT[1] == '_';
    PassCopiesPlain(heads, prefix, before, rest, n);
    assert rest[..n] == prefix + ['/'] && rest[n..] == later;
    ConcatAssociates(before, prefix, ['/']);
  }

  lemma PointInUnion(first: set<string>, second: set<string>, before: string, rest: string)
    ensures Point(first + second, before, rest) <==> Point(first, before, rest) || Point(second, before, rest)
  {
  }

  /** Pass after pass inserts what one pass with both sets of heads inserts. */
  lemma {:induction false} PassesCompose(first: set<string>, second: set<string>, prefix: string, x: string, y: string,
                                         t: string, rest: string)
    requires Heads(first) && Heads(second) && ValidPrefix(prefix) && Alike(x, y, t)
    ensures Pass(second, prefix, y + t, Pass(first, prefix, x + t, rest)) == Pass(first + second, prefix, x + t, rest)
    decreases |rest|
  {
    if rest != "" {
      var c, later := rest[0], Pass(first, prefix, x + t + [rest[0]], rest[1..]);
      PointInUnion(first, second, x + t, rest);
      if Point(first, x + t, rest) {
        assert c == '/';
        PassOverPrefix(second, prefix, y + t, later);
        PassesCompose(first, second, prefix, x + t, y + t + prefix, ['/'], rest[1..]);
      } else {
        SamePoint(first, second, prefix, x, y, t, rest);
        ConcatAssociates(x, t, [c]);
        ConcatAssociates(y, t, [c]);
        PassesCompose(first, second, prefix, x, y, t + [c], rest[1..]);
        PassOfCons(second, prefix, y + t, c, later);
      }
    }
  }

  lemma PassOfCons(heads: set<string>, prefix: string, before: string, c: char, later: string)
    ensures Pass(heads, prefix, before, [c] + later) ==
            (if Point(heads, before, [c] + later) then prefix else "") + [c] + Pass(heads, prefix, before + [c], later)
  {
    assert ([c] + later)[1..] == later;
  }

  // --------------------------------------------------- the tag as one pass

  function AllHeads(k: nat): set<string>
    requires k <= |HEADS|
  {
    set h | h in HEADS[..k]
  }

  lemma OneMoreHead(k: nat)
    requires k < |HEADS|
    ensures Heads(AllHeads(k)) && AllHeads(k) + {HEADS[k]} == AllHeads(k + 1)
  {
    assert HEADS[..k + 1] == HEADS[..k] + [HEADS[k]];
  }

  lemma {:induction false} NoHeadsNoPass(prefix: string, before: string, rest: string)
    ensures Pass({}, prefix, before, rest) == rest
    decreases |rest|
  {
    if rest != "" {
      NoHeadsNoPass(prefix, before + [rest[0]], rest[1..]);
    }
  }

  lemma {:induction false} ReplacementsAreOnePass(tag: string, k: nat, prefix: string)
    requires k <= |HEADS| && ValidPrefix(prefix)
    ensures ReplaceHeads(tag, k, prefix) == Pass(AllHeads(k), prefix, "", tag)
  {
    if k == 0 {
      assert AllHeads(0) == {};
      NoHeadsNoPass(prefix, "", tag);
    } else {
      var head, so := HEADS[k - 1], ReplaceHeads(tag, k - 1, prefix);
      ReplacementsAreOnePass(tag, k - 1, prefix);
      OneMoreHead(k - 1);
      ReplaceIsPass(head, prefix, "", so);
      assert "" + "" == "";
      PassesCompose(AllHeads(k - 1), {head}, prefix, "", "", "", tag);
    }
  }

  /** A rewritten tag is a single pass of all four heads over the original tag. */
  lemma RewriteTagIsPass(tag: string, prefix: string)
    requires ValidPrefix(prefix)
    ensures RewriteTag(tag, prefix) == Pass(AllHeads(|HEADS|), prefix, "", tag)
  {
    ReplacementsAreOnePass(tag, |HEADS|, prefix);
  }

  lemma RewriteTagIsIdempotent(tag: string, prefix: string)
    requires ValidPrefix(prefix)
    ensures RewriteTag(RewriteTag(tag, prefix), prefix) == RewriteTag(tag, prefix)
  {
    var all := AllHeads(|HEADS|);
    RewriteTagIsPass(tag, prefix);
    RewriteTagIsPass(RewriteTag(tag, prefix), prefix);
    assert "" + "" == "" && all + all == all;
    PassesCompose(all, all, prefix, "", "", "", tag);
  }
}
