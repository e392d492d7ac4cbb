/** Substring search as std::string::find does it, and where a text can occur. */
module StringSearch {

  predicate OccursAt(s: string, t: string, i: int) {
    0 <= i <= |s| - |t| && s[i..i + |t|] == t
  }

  predicate Contains(s: string, t: string) {
    exists i :: 0 <= i <= |s| - |t| && OccursAt(s, t, i)
  }

  /** The first occurrence at or after `from`, or -1. */
  function FindFrom(s: string, t: string, from: nat): (p: int)
    ensures p == -1 || from <= p <= |s| - |t|
    decreases |s| - from
  {
    if from > |s| then -1 else if OccursAt(s, t, from) then from else FindFrom(s, t, from + 1)
  }

  function Find(s: string, t: string): (p: int)
    ensures p == -1 || 0 <= p <= |s| - |t|
  {
    FindFrom(s, t, 0)
  }

  lemma {:induction false} FindsFirst(s: string, t: string, from: nat)
    ensures var p := FindFrom(s, t, from);
            if p == -1 then forall i :: from <= i ==> !OccursAt(s, t, i)
            else p >= from && OccursAt(s, t, p) && forall i :: from <= i < p ==> !OccursAt(s, t, i)
    decreases |s| - from
  {
    if from <= |s| && !OccursAt(s, t, from) {
      FindsFirst(s, t, from + 1);
    }
  }

  /** To name the first occurrence is to name one with none before it. */
  lemma FindIs(s: string, t: string, from: nat, p: nat)
    requires from <= p && OccursAt(s, t, p) && forall i :: from <= i < p ==> !OccursAt(s, t, i)
    ensures FindFrom(s, t, from) == p
  {
    FindsFirst(s, t, from);
  }

  lemma FindContains(s: string, t: string)
    ensures Find(s, t) == -1 <==> !Contains(s, t)
  {
    FindsFirst(s, t, 0);
  }

  lemma SliceOfSlice(s: string, a: nat, b: nat, c: nat, d: nat)
    requires a <= b <= |s| && c <= d <= b - a
    ensures s[a..b][c..d] == s[a + c..a + d]
  {
    var l, r := s[a..b][c..d], s[a + c..a + d];
    forall k | 0 <= k < d - c ensures l[k] == r[k] {
      assert l[k] == s[a..b][c + k] == s[a + (c + k)];
    }
  }

  lemma Middle(s: string, a: string, e: string, b: string)
    requires s == a + e + b
    ensures s[|a|..|a| + |e|] == e
  {
  }

  lemma OccursShift(a: string, b: string, t: string, i: nat)
    ensures OccursAt(a + b, t, |a| + i) <==> OccursAt(b, t, i)
  {
    if |a| + i + |t| <= |a + b| {
      assert (a + b)[|a| + i..|a| + i + |t|] == b[i..i + |t|];
    }
  }

  lemma OccursInside(a: string, b: string, t: string, i: nat)
    requires i + |t| <= |a|
    ensures OccursAt(a + b, t, i) <==> OccursAt(a, t, i)
  {
    assert (a + b)[i..i + |t|] == a[i..i + |t|];
  }

  /** A text without separators cannot reach over one. */
  lemma NoSpan(a: string, c: char, b: string, t: string, i: nat)
    requires c !in t && OccursAt(a + [c] + b, t, i) && i <= |a|
    ensures i + |t| <= |a|
  {
    var s := a + [c] + b;
    assert forall k :: 0 <= k < |t| ==> t[k] == s[i..i + |t|][k] == s[i + k];
    assert s[|a|] == s[i + (|a| - i)] == c;
  }

  lemma ContainsConcat(a: string, c: char, b: string, t: string)
    requires c !in t
    ensures Contains(a + [c] + b, t) <==> Contains(a, t) || Contains(b, t)
  {
    var s := a + [c] + b;
    if Contains(s, t) {
      var i :| 0 <= i <= |s| - |t| && OccursAt(s, t, i);
      if i <= |a| {
        NoSpan(a, c, b, t, i);
        assert s == a + ([c] + b);
        OccursInside(a, [c] + b, t, i);
      } else {
        OccursShift(a + [c], b, t, i - |a| - 1);
      }
    }
    if Contains(a, t) {
      var i :| 0 <= i <= |a| - |t| && OccursAt(a, t, i);
      assert s == a + ([c] + b);
      OccursInside(a, [c] + b, t, i);
    }
    if Contains(b, t) {
      var i :| 0 <= i <= |b| - |t| && OccursAt(b, t, i);
      OccursShift(a + [c], b, t, i);
      assert OccursAt(s, t, |a| + 1 + i);
    }
  }

  lemma FindShift(a: string, b: string, t: string)
    requires forall i :: 0 <= i < |a| ==> !OccursAt(a + b, t, i)
    ensures Find(a + b, t) == if Find(b, t) == -1 then -1 else |a| + Find(b, t)
  {
    var s, q := a + b, Find(b, t);
    FindsFirst(s, t, 0);
    FindsFirst(b, t, 0);
    forall i: nat ensures OccursAt(s, t, |a| + i) <==> OccursAt(b, t, i) {
      OccursShift(a, b, t, i);
    }
    forall i | 0 <= i && (q != -1 ==> i < |a| + q) ensures !OccursAt(s, t, i) {
      assert i >= |a| ==> (OccursAt(s, t, |a| + (i - |a|)) <==> OccursAt(b, t, i - |a|));
    }
    if q != -1 {
      FindIs(s, t, 0, |a| + q);
    }
  }
}
