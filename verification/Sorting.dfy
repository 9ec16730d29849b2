/** Orders, sorting, and the sorted members of a set. */
module Sorting {

  // ---- Numbers ----------------------------------------------------------------------------

  predicate Ascending(s: seq<int>) {
    forall i, j :: 0 <= i < j < |s| ==> s[i] < s[j]
  }

  function Insert(x: int, s: seq<int>): seq<int> {
    if s == [] || x <= s[0] then [x] + s else [s[0]] + Insert(x, s[1..])
  }

  function Sort(s: seq<int>): seq<int> {
    if s == [] then [] else Insert(s[0], Sort(s[1..]))
  }

  predicate Distinct<T(==)>(s: seq<T>) {
    forall i, j :: 0 <= i < j < |s| ==> s[i] != s[j]
  }

  lemma {:induction false} InsertAscending(x: int, s: seq<int>)
    requires Ascending(s) && x !in s
    ensures Ascending(Insert(x, s))
    ensures forall y :: y in Insert(x, s) <==> y == x || y in s
  {
    if s != [] && x > s[0] {
      InsertAscending(x, s[1..]);
      forall j | 0 < j < |Insert(x, s)| ensures s[0] < Insert(x, s)[j] {
        assert Insert(x, s)[j] in Insert(x, s[1..]);
      }
    }
  }

  /** Sorting distinct numbers gives them in ascending order, none lost and none added. */
  lemma {:induction false} SortAscending(s: seq<int>)
    requires Distinct(s)
    ensures Ascending(Sort(s))
    ensures forall y :: y in Sort(s) <==> y in s
  {
    if s != [] {
      SortAscending(s[1..]);
      InsertAscending(s[0], Sort(s[1..]));
    }
  }

  lemma HeadIn(s: seq<int>)
    ensures s != [] ==> s[0] in s
  {
  }

  /** Ascending sequences with the same members are the same. */
  lemma {:induction false} AscendingUnique(a: seq<int>, b: seq<int>)
    requires Ascending(a) && Ascending(b)
    requires forall y :: y in a <==> y in b
    ensures a == b
    decreases |a|
  {
    HeadIn(a);
    HeadIn(b);
    if a != [] && b != [] {
      var i :| 0 <= i < |b| && b[i] == a[0];
      var j :| 0 <= j < |a| && a[j] == b[0];
      assert a[0] == b[0];
      forall y ensures y in a[1..] <==> y in b[1..] {
        assert y in a[1..] ==> y in a && y > a[0];
        assert y in b[1..] ==> y in b && y > b[0];
      }
      AscendingUnique(a[1..], b[1..]);
    }
  }

  predicate IsLeast(m: int, keys: set<int>) {
    m in keys && forall n :: n in keys ==> m <= n
  }

  lemma Pick<T>(s: set<T>) returns (x: T)
    requires s != {}
    ensures x in s
  {
    x :| x in s;
  }

  lemma {:induction false} LeastExists(keys: set<int>)
    requires keys != {}
    ensures exists m :: IsLeast(m, keys)
    decreases |keys|
  {
    var x := Pick(keys);
    var others := keys - {x};
    if others == {} {
      assert keys == {x};
      assert IsLeast(x, keys);
    } else {
      LeastExists(others);
      var m :| IsLeast(m, others);
      assert forall n :: n in keys ==> n == x || n in others;
      if x <= m {
        assert IsLeast(x, keys);
      } else {
        assert IsLeast(m, keys);
      }
    }
  }

  /** The numbers of a set, sorted. */
  function Numbers(keys: set<int>): (s: seq<int>)
    ensures Ascending(s) && forall n :: n in s <==> n in keys
    decreases |keys|
  {
    if keys == {} then []
    else
      LeastExists(keys);
      var least :| IsLeast(least, keys);
      [least] + Numbers(keys - {least})
  }

  // ---- Members, counted ---------------------------------------------------------------------

  lemma {:induction false} CountDistinct<T>(s: seq<T>, x: T)
    requires Distinct(s)
    ensures multiset(s)[x] == if x in s then 1 else 0
  {
    if s != [] {
      CountDistinct(s[1..], x);
      assert s == [s[0]] + s[1..];
    }
  }

  lemma {:induction false} CountTwice<T>(s: seq<T>, x: int, y: int)
    requires 0 <= x < y < |s| && s[x] == s[y]
    ensures multiset(s)[s[x]] >= 2
  {
    assert s == s[..y] + [s[y]] + s[y + 1..];
    assert s[..y][x] == s[x];
    assert s[x] in multiset(s[..y]);
  }

  lemma {:induction false} SameMembersSameBag<T>(a: seq<T>, b: seq<T>)
    requires Distinct(a) && Distinct(b) && forall x :: x in a <==> x in b
    ensures multiset(a) == multiset(b)
  {
    forall x ensures multiset(a)[x] == multiset(b)[x] {
      CountDistinct(a, x);
      CountDistinct(b, x);
    }
  }

  /** Where in a sequence `p` holds. */
  function Where<T>(s: seq<T>, p: T -> bool): set<nat> {
    set i: nat | i < |s| && p(s[i])
  }

  lemma WhereGrows<T>(s: seq<T>, x: T, p: T -> bool)
    ensures |Where(s + [x], p)| == |Where(s, p)| + if p(x) then 1 else 0
    ensures Where<T>([], p) == {}
  {
    var more := Where(s + [x], p);
    assert forall i: nat :: i < |s| ==> (s + [x])[i] == s[i];
    assert more == Where(s, p) + if p(x) then {|s|} else {};
  }

  // ---- Texts --------------------------------------------------------------------------------

  /** The order of texts, character by character. */
  predicate LexLess(a: string, b: string) {
    b != "" && (a == "" || a[0] < b[0] || (a[0] == b[0] && LexLess(a[1..], b[1..])))
  }

  /** `a` comes first where the two part: it ends there, or has the smaller character. */
  lemma {:induction false} LexLessIff(a: string, b: string)
    ensures LexLess(a, b) <==> exists k: nat :: PartAt(a, b, k)
  {
    if a != "" && b != "" && a[0] == b[0] {
      LexLessIff(a[1..], b[1..]);
      if k: nat :| PartAt(a[1..], b[1..], k) {
        assert a[..k + 1] == [a[0]] + a[1..][..k] && b[..k + 1] == [b[0]] + b[1..][..k];
        assert PartAt(a, b, k + 1);
      }
      if k: nat :| PartAt(a, b, k) {
        if k > 0 {
          assert a[1..][..k - 1] == a[..k][1..] && b[1..][..k - 1] == b[..k][1..];
          assert PartAt(a[1..], b[1..], k - 1);
        }
      }
    } else if LexLess(a, b) {
      assert PartAt(a, b, 0);
    } else {
      forall k: nat ensures !PartAt(a, b, k) {
        PartFirst(a, b, k);
      }
    }
  }

  lemma PartFirst(a: string, b: string, k: nat)
    ensures PartAt(a, b, k) && k > 0 ==> a != "" && b != "" && a[0] == b[0]
  {
    if PartAt(a, b, k) && k > 0 {
      assert a[..k][0] == b[..k][0];
    }
  }

  predicate PartAt(a: string, b: string, k: nat) {
    && k <= |a| && k < |b| && a[..k] == b[..k]
    && (k == |a| || a[k] < b[k])
  }

  lemma {:induction false} LexIrreflexive(a: string)
    ensures !LexLess(a, a)
  {
    if a != "" {
      LexIrreflexive(a[1..]);
    }
  }

  lemma {:induction false} LexTotal(a: string, b: string)
    ensures LexLess(a, b) || a == b || LexLess(b, a)
    ensures !(LexLess(a, b) && LexLess(b, a))
    decreases |a|
  {
    if a != "" && b != "" {
      LexTotal(a[1..], b[1..]);
      assert a == [a[0]] + a[1..] && b == [b[0]] + b[1..];
    }
  }

  lemma {:induction false} LexTransitive(a: string, b: string, c: string)
    requires LexLess(a, b) && LexLess(b, c)
    ensures LexLess(a, c)
    decreases |a|
  {
    if a != "" && a[0] == b[0] == c[0] {
      LexTransitive(a[1..], b[1..], c[1..]);
    }
  }


  predicate Alphabetical(s: seq<string>) {
    forall i, j :: 0 <= i < j < |s| ==> LexLess(s[i], s[j])
  }

  predicate IsFirst(m: string, texts: set<string>) {
    m in texts && forall t :: t in texts && t != m ==> LexLess(m, t)
  }

  lemma {:induction false} FirstExists(texts: set<string>)
    requires texts != {}
    ensures exists m :: IsFirst(m, texts)
    decreases |texts|
  {
    var x := Pick(texts);
    var others := texts - {x};
    if others == {} {
      assert texts == {x};
      assert IsFirst(x, texts);
    } else {
      FirstExists(others);
      var m :| IsFirst(m, others);
      assert forall t :: t in texts ==> t == x || t in others;
      LexTotal(x, m);
      if LexLess(x, m) {
        forall t | t in others && t != m ensures LexLess(x, t) {
          LexTransitive(x, m, t);
        }
        assert IsFirst(x, texts);
      } else {
        assert IsFirst(m, texts);
      }
    }
  }

  lemma {:induction false} FirstUnique(texts: set<string>, a: string, b: string)
    requires IsFirst(a, texts) && IsFirst(b, texts)
    ensures a == b
  {
    LexTotal(a, b);
  }

  /** The texts of a set, sorted. */
  function SortedTexts(texts: set<string>): (s: seq<string>)
    ensures Alphabetical(s) && forall t :: t in s <==> t in texts
    decreases |texts|
  {
    if texts == {} then []
    else
      FirstExists(texts);
      assert forall a, b :: IsFirst(a, texts) && IsFirst(b, texts) ==> a == b by {
        forall a, b | IsFirst(a, texts) && IsFirst(b, texts) ensures a == b {
          FirstUnique(texts, a, b);
        }
      }
      var m :| IsFirst(m, texts);
      var rest := SortedTexts(texts - {m});
      assert forall j :: 0 <= j < |rest| ==> LexLess(m, rest[j]) by {
        forall j | 0 <= j < |rest| ensures LexLess(m, rest[j]) {
          assert rest[j] in rest;
        }
      }
      assert forall t :: t in texts <==> t == m || t in rest;
      [m] + rest
  }
}
