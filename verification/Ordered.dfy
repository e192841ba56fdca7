/**
 Sorting records by a string key. Python compares strings code point by code point and sorts stably; a list whose
 keys are distinct has one sorted order only, whatever order it came in.
 */
module Ordered {
  import opened Common

  /** The strict order of strings. */
  predicate Less(a: string, b: string)
    decreases |a|
  {
    b != "" && (a == "" || a[0] < b[0] || (a[0] == b[0] && Less(a[1..], b[1..])))
  }

  lemma {:induction false} LessIsIrreflexive(a: string)
    ensures !Less(a, a)
    decreases |a|
  {
    if a != "" {
      LessIsIrreflexive(a[1..]);
    }
  }

  lemma {:induction false} LessIsTransitive(a: string, b: string, c: string)
    requires Less(a, b) && Less(b, c)
    ensures Less(a, c)
    decreases |a|
  {
    if a != "" && a[0] == b[0] == c[0] {
      LessIsTransitive(a[1..], b[1..], c[1..]);
    }
  }

  lemma {:induction false} LessIsTotal(a: string, b: string)
    ensures a == b || Less(a, b) || Less(b, a)
    decreases |a|
  {
    if a != "" && b != "" && a[0] == b[0] {
      LessIsTotal(a[1..], b[1..]);
      assert a == [a[0]] + a[1..] && b == [b[0]] + b[1..];
    }
  }

  /** Every key is less than all later keys. */
  predicate Ascending<T>(s: seq<T>, key: T -> string) {
    s == [] || ((forall j :: 1 <= j < |s| ==> Less(key(s[0]), key(s[j]))) && Ascending(s[1..], key))
  }

  predicate DistinctKeys<T>(s: seq<T>, key: T -> string) {
    forall i, j :: 0 <= i < j < |s| ==> key(s[i]) != key(s[j])
  }

  function Insert<T>(x: T, s: seq<T>, key: T -> string): seq<T> {
    if s == [] || !Less(key(s[0]), key(x)) then [x] + s else [s[0]] + Insert(x, s[1..], key)
  }

  /** `sorted(s, key=key)`. */
  function Sort<T>(s: seq<T>, key: T -> string): seq<T> {
    if s == [] then [] else Insert(s[0], Sort(s[1..], key), key)
  }

  lemma {:induction false} InsertKeepsElements<T>(x: T, s: seq<T>, key: T -> string)
    ensures multiset(Insert(x, s, key)) == multiset{x} + multiset(s)
    decreases |s|
  {
    if s != [] && Less(key(s[0]), key(x)) {
      InsertKeepsElements(x, s[1..], key);
      assert s == [s[0]] + s[1..];
    }
  }

  lemma {:induction false} SortKeepsElements<T>(s: seq<T>, key: T -> string)
    ensures multiset(Sort(s, key)) == multiset(s)
    decreases |s|
  {
    if s != [] {
      SortKeepsElements(s[1..], key);
      InsertKeepsElements(s[0], Sort(s[1..], key), key);
      assert s == [s[0]] + s[1..];
    }
  }

  /** What lies below every element of a list lies below every element of a list with the same elements. */
  lemma {:induction false} SameMembers<T>(s: seq<T>, t: seq<T>, j: nat) returns (i: nat)
    requires multiset(s) == multiset(t) && j < |t|
    ensures i < |s| && s[i] == t[j]
  {
    assert t[j] in multiset(t);
    i :| 0 <= i < |s| && s[i] == t[j];
  }

  lemma {:induction false} InsertAscends<T>(x: T, s: seq<T>, key: T -> string)
    requires Ascending(s, key) && forall j :: 0 <= j < |s| ==> key(s[j]) != key(x)
    ensures Ascending(Insert(x, s, key), key)
    decreases |s|
  {
    if s == [] {
    } else if Less(key(s[0]), key(x)) {
      var rest := Insert(x, s[1..], key);
      InsertAscends(x, s[1..], key);
      InsertKeepsElements(x, s[1..], key);
      forall j | 0 <= j < |rest| ensures Less(key(s[0]), key(rest[j])) {
        var i := SameMembers([x] + s[1..], rest, j);
      }
      ConsAscends(s[0], rest, key);
    } else {
      LessIsTotal(key(s[0]), key(x));
      forall j | 0 <= j < |s| ensures Less(key(x), key(s[j])) {
        if j > 0 {
          LessIsTransitive(key(x), key(s[0]), key(s[j]));
        }
      }
      ConsAscends(x, s, key);
    }
  }

  lemma ConsAscends<T>(x: T, s: seq<T>, key: T -> string)
    requires Ascending(s, key) && forall j :: 0 <= j < |s| ==> Less(key(x), key(s[j]))
    ensures Ascending([x] + s, key)
  {
    assert ([x] + s)[1..] == s;
  }

  lemma {:induction false} SortAscends<T>(s: seq<T>, key: T -> string)
    requires DistinctKeys(s, key)
    ensures Ascending(Sort(s, key), key)
    decreases |s|
  {
    if s != [] {
      var rest := Sort(s[1..], key);
      SortAscends(s[1..], key);
      SortKeepsElements(s[1..], key);
      forall j | 0 <= j < |rest| ensures key(rest[j]) != key(s[0]) {
        var i := SameMembers(s[1..], rest, j);
      }
      InsertAscends(s[0], rest, key);
    }
  }

  /** Two ascending lists with the same members are the same list. */
  lemma {:induction false} AscendingIsUnique<T>(s: seq<T>, t: seq<T>, key: T -> string)
    requires Ascending(s, key) && Ascending(t, key)
    requires forall x :: x in s <==> x in t
    ensures s == t
    decreases |s|
  {
    if s != [] {
      assert s[0] in s && s[0] in t;
    }
    if t != [] {
      assert t[0] in t && t[0] in s;
    }
    if s != [] && t != [] {
      SameFirst(s, t, key);
      forall x ensures x in s[1..] <==> x in t[1..] {
        InRest(s, key, x);
        InRest(t, key, x);
      }
      AscendingIsUnique(s[1..], t[1..], key);
      assert s == [s[0]] + s[1..] && t == [t[0]] + t[1..];
    }
  }

  lemma SameFirst<T>(s: seq<T>, t: seq<T>, key: T -> string)
    requires Ascending(s, key) && Ascending(t, key) && s != [] && t != [] && s[0] in t && t[0] in s
    ensures s[0] == t[0]
  {
    var i :| 0 <= i < |t| && t[i] == s[0];
    var j :| 0 <= j < |s| && s[j] == t[0];
    if i > 0 && j > 0 {
      LessIsTransitive(key(s[0]), key(t[0]), key(s[0]));
      LessIsIrreflexive(key(s[0]));
    }
  }

  lemma InRest<T>(s: seq<T>, key: T -> string, x: T)
    requires Ascending(s, key) && s != []
    ensures x in s[1..] <==> x in s && x != s[0]
  {
    LessIsIrreflexive(key(s[0]));
    assert forall j :: 0 <= j < |s[1..]| ==> s[1..][j] == s[j + 1];
    assert s == [s[0]] + s[1..];
  }

  lemma {:induction false} AscendingKeysDiffer<T>(s: seq<T>, key: T -> string, i: nat, j: nat)
    requires Ascending(s, key) && i < j < |s|
    ensures Less(key(s[i]), key(s[j])) && key(s[i]) != key(s[j])
    decreases i
  {
    if i == 0 {
      LessIsIrreflexive(key(s[i]));
    } else {
      AscendingKeysDiffer(s[1..], key, i - 1, j - 1);
    }
  }

  /** With distinct keys, only the members decide the sorted list. */
  lemma SortIsCanonical<T>(s: seq<T>, t: seq<T>, key: T -> string)
    requires DistinctKeys(s, key) && DistinctKeys(t, key)
    requires forall x :: x in s <==> x in t
    ensures Sort(s, key) == Sort(t, key)
  {
    SortAscends(s, key);
    SortAscends(t, key);
    forall x ensures x in Sort(s, key) <==> x in Sort(t, key) {
      SortHasMember(s, key, x);
      SortHasMember(t, key, x);
    }
    AscendingIsUnique(Sort(s, key), Sort(t, key), key);
  }

  lemma SortHasMember<T>(s: seq<T>, key: T -> string, x: T)
    ensures x in Sort(s, key) <==> x in s
  {
    SortKeepsElements(s, key);
    assert x in multiset(Sort(s, key)) <==> x in multiset(s);
  }

  // ------------------------------------------------- reordering a list

  lemma SameElements<T>(a: seq<T>, b: seq<T>)
    requires multiset(a) == multiset(b)
    ensures forall x :: x in a <==> x in b
    ensures Distinct(a) <==> Distinct(b)
  {
    forall x ensures x in a <==> x in b {
      assert x in multiset(a) <==> x in multiset(b);
    }
    DistinctMeansOnce(a);
    DistinctMeansOnce(b);
  }

  lemma DistinctRest<T>(s: seq<T>)
    requires s != []
    ensures Distinct(s) <==> s[0] !in s[1..] && Distinct(s[1..])
  {
    var rest := s[1..];
    assert s == [s[0]] + rest;
    if Distinct(s) {
      forall i, j | 0 <= i < j < |rest| ensures rest[i] != rest[j] {
        assert s[i + 1] != s[j + 1];
      }
      forall j | 0 <= j < |rest| ensures rest[j] != s[0] {
        assert s[0] != s[j + 1];
      }
    } else {
      var i, j :| 0 <= i < j < |s| && s[i] == s[j];
      assert rest[j - 1] == s[j];
      if i > 0 {
        assert rest[i - 1] == rest[j - 1];
      }
    }
  }

  lemma {:induction false} DistinctMeansOnce<T>(s: seq<T>)
    ensures Distinct(s) <==> forall x :: x in s ==> multiset(s)[x] == 1
    decreases |s|
  {
    if s != [] {
      var rest := s[1..];
      assert s == [s[0]] + rest;
      assert multiset(s) == multiset{s[0]} + multiset(rest);
      DistinctRest(s);
      DistinctMeansOnce(rest);
      if s[0] in rest {
        assert s[0] in s && multiset(s)[s[0]] == 1 + multiset(rest)[s[0]];
      } else if !Distinct(rest) {
        var x :| x in rest && multiset(rest)[x] != 1;
        assert x in s && multiset(s)[x] == multiset(rest)[x];
      }
    }
  }

  lemma DistinctKeysRest<T>(s: seq<T>, key: T -> string)
    requires s != []
    ensures DistinctKeys(s, key) <==> DistinctKeys(s[1..], key) && forall x :: x in s[1..] ==> key(x) != key(s[0])
  {
    var rest := s[1..];
    assert s == [s[0]] + rest;
    if DistinctKeys(s, key) {
      forall i, j | 0 <= i < j < |rest| ensures key(rest[i]) != key(rest[j]) {
        assert key(s[i + 1]) != key(s[j + 1]);
      }
      forall x | x in rest ensures key(x) != key(s[0]) {
        var j :| 0 <= j < |rest| && rest[j] == x;
        assert key(s[0]) != key(s[j + 1]);
      }
    } else {
      var i, j :| 0 <= i < j < |s| && key(s[i]) == key(s[j]);
      assert rest[j - 1] == s[j];
      if i > 0 {
        assert rest[i - 1] == s[i];
      } else {
        assert s[j] in rest;
      }
    }
  }

  lemma {:induction false} DistinctKeysMean<T>(s: seq<T>, key: T -> string)
    ensures DistinctKeys(s, key) <==> Distinct(s) && forall x, y :: x in s && y in s && key(x) == key(y) ==> x == y
    decreases |s|
  {
    if s != [] {
      var rest := s[1..];
      assert s == [s[0]] + rest;
      DistinctRest(s);
      DistinctKeysRest(s, key);
      DistinctKeysMean(rest, key);
    }
  }

  /** Whether keys are distinct does not depend on the order. */
  lemma DistinctKeysReordered<T>(a: seq<T>, b: seq<T>, key: T -> string)
    requires multiset(a) == multiset(b)
    ensures DistinctKeys(a, key) <==> DistinctKeys(b, key)
  {
    SameElements(a, b);
    DistinctKeysMean(a, key);
    DistinctKeysMean(b, key);
  }
}
