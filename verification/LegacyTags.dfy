/** Where a tag ends: at the first closing bracket outside its quoted values. */
module LegacyTags {
  import opened Common
  import opened LegacyAssets

  /** Characters that neither quote nor close, and quoted values, each up to the next quote of its own kind. */
  ghost predicate TagText(s: string)
    decreases |s|
  {
    || s == ""
    || (s[0] !in {'"', '\'', '>'} && TagText(s[1..]))
    || (s[0] in {'"', '\''} && exists k ::
          0 < k < |s| && s[k] == s[0] && s[0] !in s[1..k] && TagText(s[k + 1..]))
  }

  /** Inside quotes the scan goes on to behind the next quote of the same kind, or to the end. */
  lemma {:induction false} QuotedIsSkipped(body: string, i: nat, quote: char) returns (j: nat)
    requires i <= |body| && IsQuote(quote)
    ensures i <= j <= |body| && quote !in body[i..j] && (j < |body| ==> body[j] == quote)
    ensures CloseAt(body, i, Some(quote)) == if j < |body| then CloseAt(body, j + 1, None) else |body|
    decreases |body| - i
  {
    if i == |body| || body[i] == quote {
      j := i;
    } else {
      j := QuotedIsSkipped(body, i + 1, quote);
      assert body[i..j] == [body[i]] + body[i + 1..j];
    }
  }

  lemma AbsentAt(s: string, lo: nat, hi: nat, c: char)
    requires lo <= hi <= |s| && c !in s[lo..hi]
    ensures forall m :: lo <= m < hi ==> s[m] != c
  {
    forall m | lo <= m < hi ensures s[m] != c {
      assert s[lo..hi][m - lo] == s[m];
    }
  }

  /** The next quote is at one place. */
  lemma OnlyThere(s: string, j: nat, k: nat)
    requires 0 < k < |s| && 0 < j && s[k] == s[0]
    requires forall m :: 1 <= m < k ==> s[m] != s[0]
    requires forall m :: 1 <= m < j && m < |s| ==> s[m] != s[0]
    requires j < |s| ==> s[j] == s[0]
    ensures j == k
  {
  }

  lemma QuotedText(body: string, i: nat, j: nat, c: nat)
    requires i < j <= |body| && i < c < |body| && IsQuote(body[i])
    requires body[i] !in body[i + 1..j] && (j < |body| ==> body[j] == body[i])
    ensures TagText(body[i..c]) <==> j < c && TagText(body[j + 1..c])
  {
    var s := body[i..c];
    AbsentAt(body, i + 1, j, body[i]);
    assert forall m :: 0 <= m < |s| ==> s[m] == body[i + m];
    if j < c {
      var k := j - i;
      assert forall m :: 1 <= m < k ==> s[m] != s[0];
      assert s[k + 1..] == body[j + 1..c];
      assert s[k] == s[0] && s[0] !in s[1..k];
    }
    if k :| 0 < k < |s| && s[k] == s[0] && s[0] !in s[1..k] && TagText(s[k + 1..]) {
      AbsentAt(s, 1, k, s[0]);
      OnlyThere(s, j - i, k);
      assert s[k + 1..] == body[j + 1..c];
    }
  }

  /** The tag that is open at `i` closes at `c` if and only if there is a bracket behind nothing but tag text. */
  lemma {:induction false} ClosesExactlyWhen(body: string, i: nat, c: nat)
    requires i <= c < |body|
    ensures CloseAt(body, i, None) == c <==> body[c] == '>' && TagText(body[i..c])
    decreases |body| - i
  {
    if i < c {
      assert body[i..c][0] == body[i] && body[i..c][1..] == body[i + 1..c];
      if IsQuote(body[i]) {
        var j := QuotedIsSkipped(body, i + 1, body[i]);
        QuotedText(body, i, j, c);
        if j < c {
          ClosesExactlyWhen(body, j + 1, c);
        }
      } else if body[i] != '>' {
        ClosesExactlyWhen(body, i + 1, c);
      }
    }
  }

  /** So a tag stays open exactly when no bracket of the body follows tag text. */
  lemma OpenExactlyWhen(body: string, i: nat)
    requires i <= |body|
    ensures CloseAt(body, i, None) == |body| <==>
            forall c :: i <= c < |body| ==> !(body[c] == '>' && TagText(body[i..c]))
  {
    forall c | i <= c < |body|
      ensures CloseAt(body, i, None) == c <==> body[c] == '>' && TagText(body[i..c]) {
      ClosesExactlyWhen(body, i, c);
    }
  }
}
