/** Facts about finite sequences, of identities and of events, that several components share. */
module Sequences {

  function Front<T>(s: seq<T>): seq<T>
    requires s != []
  {
    s[..|s| - 1]
  }

  function Last<T>(s: seq<T>): T
    requires s != []
  {
    s[|s| - 1]
  }

  lemma Regroup<T>(a: seq<T>, b: seq<T>, c: seq<T>)
    ensures (a + b) + c == a + (b + c)
  {
  }

  ghost predicate Distinct<T>(s: seq<T>) {
    forall i, j :: 0 <= i < j < |s| ==> s[i] != s[j]
  }

  function Members<T(==,!new)>(s: seq<T>): (r: set<T>)
    ensures forall x {:trigger x in r} :: x in r <==> x in s
  {
    set x | x in s
  }

  /** The elements of s that lie in keep, in order. */
  function Select<T(==,!new)>(s: seq<T>, keep: set<T>): (r: seq<T>)
    ensures forall x {:trigger x in r} :: x in r <==> x in s && x in keep
    ensures |r| <= |s|
  {
    if s == [] then []
    else if s[0] in keep then [s[0]] + Select(s[1..], keep)
    else Select(s[1..], keep)
  }

  /** The elements of s that lie outside drop, in order. */
  function Exclude<T(==,!new)>(s: seq<T>, drop: set<T>): (r: seq<T>)
    ensures forall x {:trigger x in r} :: x in r <==> x in s && x !in drop
    ensures |r| <= |s|
  {
    if s == [] then []
    else if s[0] in drop then Exclude(s[1..], drop)
    else [s[0]] + Exclude(s[1..], drop)
  }

  lemma {:induction false} SelectConcat<T(!new)>(a: seq<T>, b: seq<T>, keep: set<T>)
    ensures Select(a + b, keep) == Select(a, keep) + Select(b, keep)
  {
    if a == [] {
      assert a + b == b;
    } else {
      var rest := a[1..] + b;
      assert (a + b)[1..] == rest && (a + b)[0] == a[0];
      SelectConcat(a[1..], b, keep);
      if a[0] in keep {
        assert [a[0]] + (Select(a[1..], keep) + Select(b, keep)) == ([a[0]] + Select(a[1..], keep)) + Select(b, keep);
      }
    }
  }

  lemma {:induction false} ExcludeConcat<T(!new)>(a: seq<T>, b: seq<T>, drop: set<T>)
    ensures Exclude(a + b, drop) == Exclude(a, drop) + Exclude(b, drop)
  {
    if a == [] {
      assert a + b == b;
    } else {
      var rest := a[1..] + b;
      assert (a + b)[1..] == rest && (a + b)[0] == a[0];
      ExcludeConcat(a[1..], b, drop);
      if a[0] !in drop {
        assert [a[0]] + (Exclude(a[1..], drop) + Exclude(b, drop)) == ([a[0]] + Exclude(a[1..], drop)) + Exclude(b, drop);
      }
    }
  }

  /** Excluding one set after another excludes the union. */
  lemma {:induction false} ExcludeTwice<T(!new)>(s: seq<T>, a: set<T>, b: set<T>)
    ensures Exclude(Exclude(s, a), b) == Exclude(s, a + b)
  {
    if s != [] {
      ExcludeTwice(s[1..], a, b);
      if s[0] !in a {
        assert Exclude(s, a) == [s[0]] + Exclude(s[1..], a);
        assert Exclude(s, a)[1..] == Exclude(s[1..], a);
      }
    }
  }

  lemma {:induction false} ExcludeNothing<T(!new)>(s: seq<T>, drop: set<T>)
    requires forall x :: x in s ==> x !in drop
    ensures Exclude(s, drop) == s
  {
    if s != [] {
      ExcludeNothing(s[1..], drop);
    }
  }

  lemma {:induction false} SelectNothing<T(!new)>(s: seq<T>, keep: set<T>)
    requires forall x :: x in s ==> x !in keep
    ensures Select(s, keep) == []
  {
    if s != [] {
      SelectNothing(s[1..], keep);
    }
  }

  lemma DistinctAppend<T(!new)>(s: seq<T>, x: T)
    requires Distinct(s) && x !in s
    ensures Distinct(s + [x])
  {
  }

  /** Two selections of the same sequence agree when the sets agree on it. */
  lemma {:induction false} SelectCongruent<T(!new)>(s: seq<T>, a: set<T>, b: set<T>)
    requires forall x :: x in s ==> (x in a <==> x in b)
    ensures Select(s, a) == Select(s, b)
  {
    if s != [] {
      SelectCongruent(s[1..], a, b);
    }
  }

  lemma {:induction false} DistinctSelect<T(!new)>(s: seq<T>, keep: set<T>)
    requires Distinct(s)
    ensures Distinct(Select(s, keep))
  {
    if s != [] {
      DistinctSelect(s[1..], keep);
      assert s[0] !in s[1..] && s[0] !in Select(s[1..], keep);
      assert forall j :: 0 <= j < |Select(s[1..], keep)| ==> Select(s[1..], keep)[j] in Select(s[1..], keep);
    }
  }

  lemma {:induction false} DistinctExclude<T(!new)>(s: seq<T>, drop: set<T>)
    requires Distinct(s)
    ensures Distinct(Exclude(s, drop))
  {
    if s != [] {
      DistinctExclude(s[1..], drop);
      assert s[0] !in s[1..] && s[0] !in Exclude(s[1..], drop);
      assert forall j :: 0 <= j < |Exclude(s[1..], drop)| ==> Exclude(s[1..], drop)[j] in Exclude(s[1..], drop);
    }
  }
}
