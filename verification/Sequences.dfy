/** Sequences in which nothing occurs twice. */
module Sequences {

  /** `Apart` is there to keep the solver from comparing all pairs. */
  ghost predicate NoRepeats<T>(s: seq<T>) {
    forall i, j :: Apart(s, i, j)
  }

  ghost predicate Apart<T>(s: seq<T>, i: int, j: int) {
    0 <= i < j < |s| ==> s[i] != s[j]
  }

  lemma OnlyAt<T>(s: seq<T>, n: nat)
    requires NoRepeats(s) && n < |s|
    ensures forall i {:trigger s[i]} :: 0 <= i < |s| && i != n ==> s[i] != s[n]
  {
    forall i | 0 <= i < |s| && i != n
      ensures s[i] != s[n]
    {
      assert Apart(s, i, n) && Apart(s, n, i);
    }
  }

  lemma TailOf<T>(s: seq<T>)
    requires s != [] && NoRepeats(s)
    ensures NoRepeats(s[1..]) && s[0] !in s[1..]
    ensures forall x :: x in s <==> x == s[0] || x in s[1..]
  {
    assert s == [s[0]] + s[1..];
    forall i, j
      ensures Apart(s[1..], i, j)
    {
      assert Apart(s, i + 1, j + 1);
    }
    forall j | 0 <= j < |s[1..]|
      ensures s[1..][j] != s[0]
    {
      assert Apart(s, 0, j + 1);
    }
  }

  lemma Join<T>(s: seq<T>, t: seq<T>)
    requires NoRepeats(s) && NoRepeats(t) && forall x :: x in t ==> x !in s
    ensures NoRepeats(s + t)
  {
    forall i, j
      ensures Apart(s + t, i, j)
    {
      if 0 <= i < j < |s + t| {
        if j < |s| {
          assert Apart(s, i, j);
        } else if i >= |s| {
          assert Apart(t, i - |s|, j - |s|);
        } else {
          assert s[i] in s && t[j - |s|] in t;
        }
      }
    }
  }

  lemma AppendNew<T>(s: seq<T>, x: T)
    requires NoRepeats(s) && x !in s
    ensures NoRepeats(s + [x]) && forall y :: y in s + [x] <==> y in s || y == x
  {
    Join(s, [x]);
  }
}
