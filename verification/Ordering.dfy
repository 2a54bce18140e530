/** Strings in code-point order, and the strictly sorted lists that `sorted` makes of sets of paths. */
module Ordering {

  predicate Below(a: string, b: string) {
    if b == "" then false
    else if a == "" then true
    else a[0] < b[0] || (a[0] == b[0] && Below(a[1..], b[1..]))
  }

  lemma {:induction false} Irreflexive(a: string)
    ensures !Below(a, a)
  {
    if a != "" {
      Irreflexive(a[1..]);
    }
  }

  lemma {:induction false} Transitive(a: string, b: string, c: string)
    requires Below(a, b) && Below(b, c)
    ensures Below(a, c)
  {
    if a != "" && a[0] == b[0] && b[0] == c[0] {
      Transitive(a[1..], b[1..], c[1..]);
    }
  }

  lemma {:induction false} Total(a: string, b: string)
    ensures a == b || Below(a, b) || Below(b, a)
  {
    if a != "" && b != "" && a[0] == b[0] {
      Total(a[1..], b[1..]);
      if a[1..] == b[1..] {
        assert a == [a[0]] + a[1..] && b == [b[0]] + b[1..];
      }
    }
  }

  ghost predicate StrictlySorted(s: seq<string>) {
    forall i, j :: 0 <= i < j < |s| ==> Below(s[i], s[j])
  }

  /** A strictly sorted list is determined by its elements. */
  lemma {:induction false} SortedIsUnique(s: seq<string>, t: seq<string>)
    requires StrictlySorted(s) && StrictlySorted(t)
    requires forall x :: x in s <==> x in t
    ensures s == t
  {
    HasFirst(t);
    if s != [] {
      assert s[0] in t;
      assert t[0] in s;
      SameFirst(s, t);
      forall x
        ensures x in s[1..] <==> x in t[1..]
      {
        SortedTail(s, x);
        SortedTail(t, x);
      }
      SortedIsUnique(s[1..], t[1..]);
      assert s == [s[0]] + s[1..] && t == [t[0]] + t[1..];
    }
  }

  lemma HasFirst(t: seq<string>)
    ensures t != [] ==> exists x :: x in t
  {
    if t != [] {
      assert t[0] in t;
    }
  }

  lemma SameFirst(s: seq<string>, t: seq<string>)
    requires StrictlySorted(s) && StrictlySorted(t) && s != [] && t != []
    requires s[0] in t && t[0] in s
    ensures s[0] == t[0]
  {
    if s[0] != t[0] {
      Transitive(s[0], t[0], s[0]);
      Irreflexive(s[0]);
    }
  }

  lemma SortedTail(s: seq<string>, x: string)
    requires StrictlySorted(s) && s != []
    ensures x in s[1..] <==> x in s && x != s[0]
  {
    Irreflexive(s[0]);
    if x in s && x != s[0] {
      var i :| 0 <= i < |s| && s[i] == x;
      assert s[1..][i - 1] == x;
    }
  }

  /** Puts x at its place in a sorted list. */
  function Insert(s: seq<string>, x: string): seq<string> {
    if s == [] then [x]
    else if Below(x, s[0]) then [x] + s
    else if x == s[0] then s
    else [s[0]] + Insert(s[1..], x)
  }

  lemma {:induction false} InsertSorts(s: seq<string>, x: string)
    requires StrictlySorted(s)
    ensures StrictlySorted(Insert(s, x))
    ensures forall y :: y in Insert(s, x) <==> y in s || y == x
  {
    if s == [] {
    } else if Below(x, s[0]) {
      forall j | 0 <= j < |s|
        ensures Below(x, s[j])
      {
        if j > 0 {
          Transitive(x, s[0], s[j]);
        }
      }
    } else if x != s[0] {
      InsertSorts(s[1..], x);
      Total(x, s[0]);
      var rest := Insert(s[1..], x);
      forall j | 0 <= j < |rest|
        ensures Below(s[0], rest[j])
      {
        assert rest[j] in rest;
        if rest[j] != x {
          var k :| 0 <= k < |s[1..]| && s[1..][k] == rest[j];
          assert s[k + 1] == rest[j];
        }
      }
      forall y
        ensures y in Insert(s, x) <==> y in s || y == x
      {
        assert s == [s[0]] + s[1..];
      }
    }
  }

  /** The elements of a set as a strictly sorted list. */
  ghost function Sorted(s: set<string>): (r: seq<string>)
    ensures StrictlySorted(r)
    ensures forall x :: x in r <==> x in s
  {
    if s == {} then []
    else
      var x :| x in s;
      var rest := Sorted(s - {x});
      InsertSorts(rest, x);
      Insert(rest, x)
  }

  /** However a strictly sorted list of the elements is found, it is this one. */
  lemma SortedIs(s: set<string>, r: seq<string>)
    requires StrictlySorted(r) && forall x :: x in r <==> x in s
    ensures r == Sorted(s)
  {
    SortedIsUnique(r, Sorted(s));
  }

  /** `sorted(s)`, by insertion. */
  method Sort(s: set<string>) returns (r: seq<string>)
    ensures r == Sorted(s)
  {
    r := [];
    var todo := s;
    while todo != {}
      invariant todo <= s && StrictlySorted(r) && forall x :: x in r <==> x in s - todo
      decreases |todo|
    {
      var x :| x in todo;
      InsertSorts(r, x);
      r := Insert(r, x);
      todo := todo - {x};
    }
    SortedIs(s, r);
  }
}
