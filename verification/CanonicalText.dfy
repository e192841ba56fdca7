/**
 Digest input as text: rows of fields, with a NUL between the fields of a row and a newline behind it
 (starter.py). A reader that knows the number of fields gets the rows back, so the text is unambiguous.
 */
module CanonicalText {
  import opened Common

  function Digit(d: nat): char
    requires d < 10
  {
    ('0' as int + d) as char
  }

  /** Python's `str(n)`. */
  function Decimal(n: nat): string {
    if n < 10 then [Digit(n)] else Decimal(n / 10) + [Digit(n % 10)]
  }

  /** The number that decimal digits write; other characters are read as zeros. */
  function Value(s: string): nat
    decreases |s|
  {
    if s == "" then 0
    else 10 * Value(s[..|s| - 1]) + if '0' <= s[|s| - 1] <= '9' then s[|s| - 1] as int - '0' as int else 0
  }

  lemma {:induction false} DecimalRoundTrip(n: nat)
    ensures Value(Decimal(n)) == n
    ensures forall i :: 0 <= i < |Decimal(n)| ==> '0' <= Decimal(n)[i] <= '9'
    decreases n
  {
    if n >= 10 {
      DecimalRoundTrip(n / 10);
      assert Decimal(n)[..|Decimal(n)| - 1] == Decimal(n / 10);
    } else {
      assert Decimal(n)[..0] == "";
    }
  }

  function Line(fields: seq<string>): string
    requires fields != []
  {
    if |fields| == 1 then fields[0] + ['\n'] else fields[0] + ['\0'] + Line(fields[1..])
  }

  function Lines(rows: seq<seq<string>>): string
    requires forall i :: 0 <= i < |rows| ==> rows[i] != []
  {
    if rows == [] then "" else Line(rows[0]) + Lines(rows[1..])
  }

  /** What the source's rows have to meet: no NUL but between fields, no newline in the last field. */
  predicate Clean(fields: seq<string>) {
    if |fields| <= 1 then |fields| == 1 && '\n' !in fields[0] else '\0' !in fields[0] && Clean(fields[1..])
  }

  /** The index of the first `c`; `|s|` when there is none. */
  function IndexOf(s: string, c: char): (i: nat)
    ensures i <= |s|
  {
    if s == "" || s[0] == c then 0 else 1 + IndexOf(s[1..], c)
  }

  /** Reads `k` fields; gives them and the unread text. */
  function ReadLine(text: string, k: nat): (r: Option<(seq<string>, string)>)
    requires k > 0
    ensures r.Some? ==> |r.value.1| < |text|
    decreases k
  {
    var n := IndexOf(text, if k == 1 then '\n' else '\0');
    if n == |text| then None
    else if k == 1 then Some(([text[..n]], text[n + 1..]))
    else
      match ReadLine(text[n + 1..], k - 1)
      case None => None
      case Some(rest) => Some(([text[..n]] + rest.0, rest.1))
  }

  /** The independent reader of a whole text whose rows have `k` fields. */
  function ReadLines(text: string, k: nat): Option<seq<seq<string>>>
    requires k > 0
    decreases |text|
  {
    if text == "" then Some([])
    else
      match ReadLine(text, k)
      case None => None
      case Some(line) =>
        match ReadLines(line.1, k)
        case None => None
        case Some(rows) => Some([line.0] + rows)
  }

  lemma {:induction false} IndexOfEnd(field: string, c: char, rest: string)
    requires c !in field
    ensures IndexOf(field + [c] + rest, c) == |field|
    decreases |field|
  {
    if field != "" {
      assert (field + [c] + rest)[1..] == field[1..] + [c] + rest;
      IndexOfEnd(field[1..], c, rest);
    }
  }

  lemma FieldRead(field: string, c: char, rest: string, text: string)
    requires text == field + [c] + rest && c !in field
    ensures IndexOf(text, c) == |field| < |text| && text[..|field|] == field && text[|field| + 1..] == rest
  {
    IndexOfEnd(field, c, rest);
  }

  lemma {:induction false} LineRoundTrip(fields: seq<string>, rest: string, text: string)
    requires Clean(fields) && text == Line(fields) + rest
    ensures ReadLine(text, |fields|) == Some((fields, rest))
    decreases |fields|
  {
    if |fields| == 1 {
      FieldRead(fields[0], '\n', rest, text);
      assert [fields[0]] == fields;
    } else {
      var later := Line(fields[1..]) + rest;
      ConcatAssociates(fields[0] + ['\0'], Line(fields[1..]), rest);
      FieldRead(fields[0], '\0', later, text);
      LineRoundTrip(fields[1..], rest, later);
      assert [fields[0]] + fields[1..] == fields;
    }
  }

  /** Reading what was written gives the rows back. */
  lemma {:induction false} LinesRoundTrip(rows: seq<seq<string>>, k: nat)
    requires k > 0 && forall i :: 0 <= i < |rows| ==> |rows[i]| == k && Clean(rows[i])
    ensures ReadLines(Lines(rows), k) == Some(rows)
    decreases |rows|
  {
    if rows != [] {
      LineRoundTrip(rows[0], Lines(rows[1..]), Lines(rows));
      LinesRoundTrip(rows[1..], k);
      assert [rows[0]] + rows[1..] == rows;
    }
  }
}
