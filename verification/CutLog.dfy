/** A log whose last line was not written completely: what a restart makes of it. */
module CutLog {
  import opened Decimal
  import opened LockTypes
  import opened TextStream
  import opened PaxosLog

  // ----- reading the front of a line -----

  lemma AllSpan(d: string)
    requires AllDigits(d)
    ensures Span(d) == |d|
  {
    SpanOf(d, "");
    assert d + "" == d;
  }

  /** The front of a space, a word and a tail ends in the word or reaches into the tail. */
  lemma FrontParts(w: string, tail: string, q: string)
    requires q <= " " + (w + tail)
    ensures q != "" && |q| <= |w| ==> q == " " + q[1..] && q[1..] <= w
    ensures |q| > |w| ==> q == " " + (w + q[1 + |w|..]) && q[1 + |w|..] <= tail
    ensures q == " " + (w + tail) ==> q[1 + |w|..] == tail
  {
    assert (" " + (w + tail))[1..] == w + tail;
    assert forall i :: 0 <= i < |q| ==> q[i] == (" " + (w + tail))[i];
  }

  function Front(s: string, n: nat): (r: string)
    ensures r <= s
  {
    if n <= |s| then s[..n] else s
  }

  function Less(c: nat, k: nat): nat {
    if c <= k then 0 else c - k
  }

  /** What `c` characters of a space and a number leave in a variable. */
  function NumberPart(n: nat, was: nat, c: nat): nat {
    if c <= 1 then was else ValueOf(Front(Digits(n), c - 1))
  }

  /** What `c` characters of a space and a word leave. */
  function WordPart(w: string, was: string, c: nat): string {
    if c <= 1 then was else Front(w, c - 1)
  }

  /** What `c` characters of a space and a value leave; the variable is a new one. */
  function LinePart(v: string, c: nat): string {
    if c == 0 then "" else Front(v, c - 1)
  }

  lemma {:induction false} FrontValue(d: string, k: nat)
    requires AllDigits(d) && k <= |d|
    ensures ValueOf(d[..k]) <= ValueOf(d)
    decreases |d|
  {
    if k < |d| {
      FrontValue(d[..|d| - 1], k);
      assert d[..|d| - 1][..k] == d[..k];
    } else {
      assert d[..k] == d;
    }
  }

  /** A number that is cut is read as far as it goes. */
  lemma DigitsFront(n: nat, was: nat, q: string)
    requires n <= UINT_MAX && q != "" && q == " " + q[1..] && q[1..] <= Digits(n)
    ensures TakeNumber(q, was) == Read(NumberPart(n, was, |q|), "")
  {
    var t := q[1..];
    SkipOne(t);
    AllSpan(t);
    FrontValue(Digits(n), |t|);
    ValueOfDigits(n);
    assert t[..|t|] == t && t[|t|..] == "" && Digits(n)[..|t|] == t;
  }

  /** A number that is cut, and a number with something behind it that is cut. */
  lemma NumberFront(n: nat, tail: string, was: nat, q: string)
    requires n <= UINT_MAX && (tail != "" ==> IsSpace(tail[0])) && q <= " " + (Digits(n) + tail)
    ensures var k := 1 + |Digits(n)|;
            && TakeNumber(q, was).val == NumberPart(n, was, |q|)
            && TakeNumber(q, was).rest == Drop(q, k) && Drop(q, k) <= tail
  {
    FrontParts(Digits(n), tail, q);
    if |q| > |Digits(n)| {
      ReadNumber(n, q[1 + |Digits(n)|..], was);
      ValueOfDigits(n);
      assert Digits(n)[..|Digits(n)|] == Digits(n);
    } else if q != "" {
      DigitsFront(n, was, q);
    }
  }

  lemma WordFront(w: string, tail: string, was: string, q: string)
    requires NoSpace(w) && w != "" && (tail != "" ==> IsSpace(tail[0])) && q <= " " + (w + tail)
    ensures var k := 1 + |w|;
            && TakeWord(q, was).val == WordPart(w, was, |q|)
            && TakeWord(q, was).rest == Drop(q, k) && Drop(q, k) <= tail
  {
    FrontParts(w, tail, q);
    if |q| > |w| {
      ReadWord(w, q[1 + |w|..]);
      assert w[..|w|] == w;
    } else {
      ShortWord(w, was, q);
    }
  }

  lemma ShortWord(w: string, was: string, q: string)
    requires NoSpace(w) && |q| <= |w| && (q != "" ==> q == " " + q[1..] && q[1..] <= w)
    ensures TakeWord(q, was) == Read(WordPart(w, was, |q|), "")
  {
    if |q| > 1 {
      var t := q[1..];
      ReadWord(t, "");
      assert " " + (t + "") == q && w[..|t|] == t;
    } else if |q| == 1 {
      SkipOne(q[1..]);
    }
  }

  lemma LastWord(w: string, was: string, q: string)
    requires NoSpace(w) && w != "" && q <= " " + w
    ensures TakeWord(q, was) == Read(WordPart(w, was, |q|), "")
  {
    assert " " + (w + "") == " " + w;
    WordFront(w, "", was, q);
  }

  lemma {:induction false} WholeLine(s: string)
    requires OneLine(s)
    ensures LineLen(s) == |s|
    decreases |s|
  {
    if s != "" {
      WholeLine(s[1..]);
    }
  }

  lemma LineFront(v: string, q: string)
    requires OneLine(v) && q <= " " + v
    ensures GetRestOfLine(q) == Read(LinePart(v, |q|), "")
  {
    if q != "" {
      var t := q[1..];
      assert (" " + v)[1..] == v;
      assert t <= v && v[..|t|] == t;
      WholeLine(t);
      assert Drop(q, 1) == t && t[..|t|] == t && Drop(t, |t| + 1) == "";
    }
  }

  // ----- a line that is cut -----

  /** The line of a record without its type word and its newline. */
  function Body(r: Record): (s: string)
    ensures s != "" && s[0] == ' '
  {
    match r
    case Done(i, v) => " " + (Digits(i) + (" " + v))
    case PropSeen(p) => " " + (Digits(p.n) + (" " + p.m))
    case Accepted(p, v) => " " + (Digits(p.n) + Name(p.m, v))
  }

  function Line(r: Record): string {
    Print(r, "")
  }

  lemma LineParts(r: Record)
    ensures Line(r) == Kind(r) + (Body(r) + "\n")
  {
    match r
    case Done(i, v) => assert Fields(r, "") == Body(r) + "\n";
    case PropSeen(p) => assert Fields(r, "") == Body(r) + "\n";
    case Accepted(p, v) => assert Fields(r, "") == Body(r) + "\n";
  }

  function Name(name: string, v: string): (s: string)
    ensures s != "" && s[0] == ' '
  {
    " " + (name + (" " + v))
  }

  function PropPart(p: Prop, was: Prop, c: nat): Prop {
    Prop(NumberPart(p.n, was.n, c), WordPart(p.m, was.m, Less(c, 1 + |Digits(p.n)|)))
  }

  predicate SameKind(a: Record, b: Record) {
    (a.Done? && b.Done?) || (a.PropSeen? && b.PropSeen?) || (a.Accepted? && b.Accepted?)
  }

  /** The record that is read from `c` characters of the body of a record. */
  function Part(r: Record, c: nat, st: State, inst: nat): (p: Record)
    ensures SameKind(p, r)
  {
    match r
    case Done(i, v) => Done(NumberPart(i, inst, c), LinePart(v, Less(c, 1 + |Digits(i)|)))
    case PropSeen(p) => PropSeen(PropPart(p, st.nH, c))
    case Accepted(p, v) => Accepted(PropPart(p, st.nA, c), LinePart(v, Less(c, 2 + |Digits(p.n)| + |p.m|)))
  }

  lemma WholeNumber(n: nat, was: nat, c: nat)
    requires c > |Digits(n)|
    ensures NumberPart(n, was, c) == n
  {
    ValueOfDigits(n);
    assert Digits(n)[..|Digits(n)|] == Digits(n);
  }

  /** The whole body is read as the record. */
  lemma WholePart(r: Record, st: State, inst: nat)
    requires Printable(r)
    ensures Part(r, |Body(r)|, st, inst) == r
  {
    match r
    case Done(i, v) =>
      WholeNumber(i, inst, |Body(r)|);
      assert v[..|v|] == v;
    case PropSeen(p) =>
      WholeNumber(p.n, st.nH.n, |Body(r)|);
      assert p.m[..|p.m|] == p.m;
    case Accepted(p, v) =>
      WholeNumber(p.n, st.nA.n, |Body(r)|);
      assert p.m[..|p.m|] == p.m || |Body(r)| > 2 + |Digits(p.n)| + |p.m|;
      assert v[..|v|] == v;
  }

  lemma DropLength(q: string, k: nat)
    ensures |Drop(q, k)| == Less(|q|, k)
  {
  }

  lemma DoneFront(i: nat, v: string, st: State, inst: nat, q: string)
    requires Printable(Done(i, v)) && q <= Body(Done(i, v))
    ensures var r := Part(Done(i, v), |q|, st, inst);
            GetEntry("done", q, st, inst) == Some(Entry(Apply(st, r), r.instance, ""))
  {
    NumberFront(i, " " + v, inst, q);
    DropLength(q, 1 + |Digits(i)|);
    LineFront(v, Drop(q, 1 + |Digits(i)|));
  }

  lemma PropFront(p: Prop, st: State, inst: nat, q: string)
    requires PrintableProp(p) && q <= Body(PropSeen(p))
    ensures GetEntry("propseen", q, st, inst) == Some(Entry(Apply(st, Part(PropSeen(p), |q|, st, inst)), inst, ""))
  {
    var k := 1 + |Digits(p.n)|;
    NumberFront(p.n, " " + p.m, st.nH.n, q);
    DropLength(q, k);
    LastWord(p.m, st.nH.m, Drop(q, k));
  }

  lemma NameFront(name: string, v: string, was: string, q: string)
    requires NoSpace(name) && name != "" && OneLine(v) && q <= Name(name, v)
    ensures TakeWord(q, was).val == WordPart(name, was, |q|)
    ensures GetRestOfLine(TakeWord(q, was).rest) == Read(LinePart(v, Less(|q|, 1 + |name|)), "")
  {
    WordFront(name, " " + v, was, q);
    DropLength(q, 1 + |name|);
    LineFront(v, Drop(q, 1 + |name|));
  }

  lemma AcceptedFront(p: Prop, v: string, st: State, inst: nat, q: string)
    requires Printable(Accepted(p, v)) && q <= Body(Accepted(p, v))
    ensures GetEntry("accepted", q, st, inst)
         == Some(Entry(Apply(st, Part(Accepted(p, v), |q|, st, inst)), inst, ""))
  {
    var k := 1 + |Digits(p.n)|;
    NumberFront(p.n, Name(p.m, v), st.nA.n, q);
    DropLength(q, k);
    NameFront(p.m, v, st.nA.m, Drop(q, k));
    assert Less(Less(|q|, k), 1 + |p.m|) == Less(|q|, 2 + |Digits(p.n)| + |p.m|);
  }

  lemma EntryFront(r: Record, st: State, inst: nat, q: string)
    requires Printable(r) && q <= Body(r)
    ensures var part := Part(r, |q|, st, inst);
            GetEntry(Kind(r), q, st, inst) == Some(Entry(Apply(st, part), InstAfter(part, inst), ""))
  {
    match r
    case Done(i, v) => DoneFront(i, v, st, inst, q);
    case PropSeen(p) => PropFront(p, st, inst, q);
    case Accepted(p, v) => AcceptedFront(p, v, st, inst, q);
  }

  /** What replay makes of the first `m` characters of the line of a record. */
  function CutOf(r: Record, m: nat, st: State, inst: nat): Option<State> {
    if m == 0 then Some(st)
    else if m < |Kind(r)| then None
    else Some(Apply(st, Part(r, m - |Kind(r)|, st, inst)))
  }

  /** A cut type word is none of the three. */
  lemma KindFront(r: Record, k: nat, s: string, st: State, inst: nat)
    requires 0 < k < |Kind(r)|
    ensures GetEntry(Kind(r)[..k], s, st, inst) == None
  {
    var w := Kind(r)[..k];
    assert w[0] == Kind(r)[0];
    assert "done"[0] == 'd' && "propseen"[0] == 'p' && "accepted"[0] == 'a';
    assert |"done"| == 4 && |"propseen"| == 8 && |"accepted"| == 8;
  }

  lemma ReplayKindFront(r: Record, k: nat, st: State, inst: nat)
    requires 0 < k < |Kind(r)|
    ensures Replay(Kind(r)[..k], st, inst) == None
  {
    var w := Kind(r)[..k];
    KindWord(r);
    assert w + "" == w;
    ReadWord(w, "");
    KindFront(r, k, "", st, inst);
  }

  lemma ReplayBodyFront(r: Record, st: State, inst: nat, q: string)
    requires Printable(r) && q <= Body(r)
    ensures Replay(Kind(r) + q, st, inst) == Some(Apply(st, Part(r, |q|, st, inst)))
  {
    var part := Part(r, |q|, st, inst);
    KindWord(r);
    EntryFront(r, st, inst, q);
    ReplayEntry(Kind(r), q, st, inst, Entry(Apply(st, part), InstAfter(part, inst), ""));
  }

  lemma ReplayBodyCut(r: Record, c: nat, st: State, inst: nat)
    requires Printable(r) && c <= |Body(r)|
    ensures Replay(Kind(r) + Body(r)[..c], st, inst) == CutOf(r, |Kind(r)| + c, st, inst)
  {
    KindWord(r);
    ReplayBodyFront(r, st, inst, Body(r)[..c]);
  }

  lemma LineFrontParts(kind: string, body: string, m: nat)
    requires |kind| <= m <= |kind| + |body|
    ensures (kind + (body + "\n"))[..m] == kind + body[..m - |kind|]
  {
  }

  lemma LineLength(r: Record)
    ensures |Line(r)| == |Kind(r)| + |Body(r)| + 1
  {
    LineParts(r);
  }

  lemma LineCut(r: Record, c: nat)
    requires |Kind(r)| + c < |Line(r)|
    ensures c <= |Body(r)| && Line(r)[..|Kind(r)| + c] == Kind(r) + Body(r)[..c]
  {
    LineParts(r);
    LineLength(r);
    LineFrontParts(Kind(r), Body(r), |Kind(r)| + c);
  }

  lemma BodyCut(r: Record, c: nat, st: State, inst: nat)
    requires Printable(r) && |Kind(r)| + c < |Line(r)|
    ensures Replay(Line(r)[..|Kind(r)| + c], st, inst) == CutOf(r, |Kind(r)| + c, st, inst)
  {
    LineCut(r, c);
    ReplayBodyCut(r, c, st, inst);
  }

  lemma KindCut(r: Record, m: nat, st: State, inst: nat)
    requires m < |Kind(r)| && m < |Line(r)|
    ensures Replay(Line(r)[..m], st, inst) == CutOf(r, m, st, inst)
  {
    if m > 0 {
      LineParts(r);
      FrontOfFirst(Kind(r), Body(r) + "\n", m);
      ReplayKindFront(r, m, st, inst);
    }
  }

  lemma ReplayFront(r: Record, m: nat, st: State, inst: nat)
    requires Printable(r) && m < |Line(r)|
    ensures Replay(Line(r)[..m], st, inst) == CutOf(r, m, st, inst)
  {
    if m >= |Kind(r)| {
      var c := m - |Kind(r)|;
      assert m == |Kind(r)| + c;
      BodyCut(r, c, st, inst);
    } else {
      KindCut(r, m, st, inst);
    }
  }

  // ----- a log that is cut -----

  /** How many lines are whole in the first `n` characters. */
  function Whole(rs: seq<Record>, n: nat): (k: nat)
    ensures k <= |rs|
  {
    if rs == [] || n < |Line(rs[0])| then 0 else 1 + Whole(rs[1..], n - |Line(rs[0])|)
  }

  /** How many characters there are behind the whole lines. */
  function Over(rs: seq<Record>, n: nat): (m: nat)
    ensures m <= n
  {
    if rs == [] then 0 else if n < |Line(rs[0])| then n else Over(rs[1..], n - |Line(rs[0])|)
  }

  lemma TextFirst(rs: seq<Record>)
    requires rs != []
    ensures Text(rs) == Line(rs[0]) + Text(rs[1..])
  {
    PrintTail(rs[0], "", Text(rs[1..]));
    assert "" + Text(rs[1..]) == Text(rs[1..]);
  }

  lemma FrontOfFirst(a: string, b: string, n: nat)
    requires n <= |a|
    ensures (a + b)[..n] == a[..n]
  {
  }

  lemma FrontOfBoth(a: string, b: string, n: nat)
    requires |a| <= n <= |a| + |b|
    ensures (a + b)[..n] == a + b[..n - |a|]
  {
  }

  /** The part of the next line that is there. */
  function Rest(rs: seq<Record>, k: nat, m: nat): string {
    if k < |rs| && m <= |Line(rs[k])| then Line(rs[k])[..m] else ""
  }

  /** The first `n` characters are the whole lines and a part of the next one. */
  ghost predicate IsCut(rs: seq<Record>, n: nat, front: string) {
    var k, m := Whole(rs, n), Over(rs, n);
    (k < |rs| ==> m < |Line(rs[k])|) && front == Text(rs[..k]) + Rest(rs, k, m)
  }

  lemma {:induction false} CutText(rs: seq<Record>, n: nat)
    requires n <= |Text(rs)|
    ensures IsCut(rs, n, Text(rs)[..n])
    decreases |rs|
  {
    if rs == [] {
      assert Text(rs)[..n] == "" == Text(rs[..0]) + "";
    } else {
      TextFirst(rs);
      if n < |Line(rs[0])| {
        FrontOfFirst(Line(rs[0]), Text(rs[1..]), n);
        CutFirst(rs, n);
      } else {
        FrontOfBoth(Line(rs[0]), Text(rs[1..]), n);
        var n1 := n - |Line(rs[0])|;
        CutText(rs[1..], n1);
        CutNext(rs, n, Text(rs[1..])[..n1]);
      }
    }
  }

  lemma CutFirst(rs: seq<Record>, n: nat)
    requires rs != [] && n < |Line(rs[0])|
    ensures IsCut(rs, n, Line(rs[0])[..n])
  {
    assert rs[..0] == [];
    assert "" + Line(rs[0])[..n] == Line(rs[0])[..n];
  }

  lemma CutNext(rs: seq<Record>, n: nat, front: string)
    requires rs != [] && |Line(rs[0])| <= n && IsCut(rs[1..], n - |Line(rs[0])|, front)
    ensures IsCut(rs, n, Line(rs[0]) + front)
  {
    var k, m := Whole(rs, n), Over(rs, n);
    assert rs[..k][1..] == rs[1..][..k - 1];
    TextFirst(rs[..k]);
    Assoc(Line(rs[0]), Text(rs[1..][..k - 1]), Rest(rs, k, m));
  }

  lemma CutInside(rs: seq<Record>, n: nat, st: State, inst: nat)
    requires AllPrintable(rs) && n <= |Text(rs)| && Whole(rs, n) < |rs|
    ensures var k := Whole(rs, n);
            var cut := CutOf(rs[k], Over(rs, n), Fold(rs[..k], st), LastInstance(rs[..k], inst));
            Replay(Text(rs)[..n], st, inst) == cut
  {
    var k, m := Whole(rs, n), Over(rs, n);
    CutText(rs, n);
    ReplayFrom(rs[..k], Line(rs[k])[..m], st, inst);
    ReplayFront(rs[k], m, Fold(rs[..k], st), LastInstance(rs[..k], inst));
  }

  lemma NotCut(rs: seq<Record>, n: nat, st: State, inst: nat)
    requires AllPrintable(rs) && n <= |Text(rs)| && Whole(rs, n) == |rs|
    ensures Replay(Text(rs)[..n], st, inst) == Some(Fold(rs, st))
  {
    CutText(rs, n);
    assert rs[..|rs|] == rs;
    assert Text(rs)[..n] == Text(rs) + "" == Text(rs);
    ReplayFolds(rs, st, inst);
  }

  /**
   * A log that is cut anywhere: the whole lines count in full. A cut inside the type word of the next line
   * stops the reader; behind it, the reader takes the part of the record that `Part` describes.
   */
  lemma CutLogReplays(rs: seq<Record>, n: nat, st: State, inst: nat)
    requires AllPrintable(rs) && n <= |Text(rs)|
    ensures var k := Whole(rs, n);
            var a := Replay(Text(rs)[..n], st, inst);
            if k == |rs| then a == Some(Fold(rs, st))
            else a == CutOf(rs[k], Over(rs, n), Fold(rs[..k], st), LastInstance(rs[..k], inst))
  {
    if Whole(rs, n) < |rs| {
      CutInside(rs, n, st, inst);
    } else {
      NotCut(rs, n, st, inst);
    }
  }

  // ----- which cuts do no harm -----

  /** Reading the record leaves the state as it is. */
  predicate Idle(r: Record, st: State) {
    match r
    case Done(j, w) => Holds(st.values, j, w) && st.instanceH == j && Unproposed(st)
    case PropSeen(q) => st.nH == q
    case Accepted(q, w) => st.nA == q && st.vA == w
  }

  /** The part of a record that is read is the whole record, or says what is there already. */
  predicate Harmless(part: Record, r: Record, st: State) {
    part == r || Idle(part, st)
  }

  predicate OneOf(st: State, next: State, now: Option<State>) {
    now == Some(st) || now == Some(next)
  }

  predicate Holds(values: map<nat, string>, j: nat, w: string) {
    j in values && values[j] == w
  }

  lemma SetIdle(values: map<nat, string>, j: nat, w: string)
    ensures values[j := w] == values <==> Holds(values, j, w)
  {
    assert j in values[j := w] && values[j := w][j] == w;
    if Holds(values, j, w) {
      assert values[j := w] == values;
    }
  }

  lemma SetSame(values: map<nat, string>, j: nat, w: string, v: string)
    ensures values[j := w] == values[j := v] <==> w == v
  {
    assert values[j := w][j] == w && values[j := v][j] == v;
  }

  /** The state is the one with or without the record exactly if its part is the record or changes nothing. */
  lemma CleanIff(r: Record, part: Record, st: State)
    requires SameKind(part, r)
    ensures Apply(st, part) == st || Apply(st, part) == Apply(st, r) <==> part == r || Idle(part, st)
  {
    if r.Done? {
      SetIdle(st.values, part.instance, part.v);
      SetSame(st.values, r.instance, part.v, r.v);
    }
  }

  /** The part of the first line that is not whole, as it is read. */
  function CutPart(rs: seq<Record>, n: nat, st: State, inst: nat): (p: Record)
    requires Whole(rs, n) < |rs|
    ensures SameKind(p, rs[Whole(rs, n)])
  {
    var k := Whole(rs, n);
    Part(rs[k], Less(Over(rs, n), |Kind(rs[k])|), Fold(rs[..k], st), LastInstance(rs[..k], inst))
  }

  lemma CutApplies(rs: seq<Record>, n: nat, st: State, inst: nat)
    requires AllPrintable(rs) && n <= |Text(rs)| && Whole(rs, n) < |rs| && Over(rs, n) >= |Kind(rs[Whole(rs, n)])|
    ensures Replay(Text(rs)[..n], st, inst) == Some(Apply(Fold(rs[..Whole(rs, n)], st), CutPart(rs, n, st, inst)))
  {
    KindWord(rs[Whole(rs, n)]);
    CutInside(rs, n, st, inst);
  }

  lemma ReadsClean(r: Record, part: Record, st: State, next: State, now: Option<State>)
    requires SameKind(part, r) && next == Apply(st, r) && now == Some(Apply(st, part))
    ensures OneOf(st, next, now) <==> Harmless(part, r, st)
  {
    CleanIff(r, part, st);
  }

  /**
   * A log whose last line is cut behind its type word is read as the log with or without that line, exactly
   * if the part that is read is the record or says what was there.
   */
  lemma CutIsCleanIff(rs: seq<Record>, r: Record, c: nat, st: State, inst: nat)
    requires AllPrintable(rs) && Printable(r) && c <= |Body(r)|
    ensures var whole := Fold(rs, st);
            OneOf(whole, Fold(rs + [r], st), Replay(Text(rs) + (Kind(r) + Body(r)[..c]), st, inst))
            <==> Harmless(Part(r, c, whole, LastInstance(rs, inst)), r, whole)
  {
    var whole, last := Fold(rs, st), LastInstance(rs, inst);
    ReplayFrom(rs, Kind(r) + Body(r)[..c], st, inst);
    ReplayBodyFront(r, whole, last, Body(r)[..c]);
    FoldAppend(rs, r, st);
    ReadsClean(r, Part(r, c, whole, last), whole, Fold(rs + [r], st), Replay(Kind(r) + Body(r)[..c], whole, last));
  }

  lemma OneValueIff(values: map<nat, string>, j: nat, w: string, i: nat, v: string)
    ensures values[j := w] == values || values[j := w] == values[i := v]
       <==> Done(j, w) == Done(i, v) || Holds(values, j, w)
  {
    SetIdle(values, j, w);
    SetSame(values, j, w, v);
    assert values[j := w][j] == w;
  }

  /** The decisions are those with or without the line that is cut. */
  predicate DecisionsKept(before: map<nat, string>, now: map<nat, string>, r: Record)
    requires r.Done?
  {
    now == before || now == before[r.instance := r.v]
  }

  /**
   * The decisions after a cut. Only a `done` line touches them, and of all instances only the one that is read.
   * They are those with or without the line exactly if the line is read whole or repeats a decision.
   */
  lemma DecisionsSurviveCut(rs: seq<Record>, n: nat, st: State, inst: nat)
    requires AllPrintable(rs) && n <= |Text(rs)| && Replay(Text(rs)[..n], st, inst).Some?
    ensures var k, before := Whole(rs, n), st.values + Decided(rs[..Whole(rs, n)]);
            var now := Replay(Text(rs)[..n], st, inst).value.values;
            if k == |rs| || Over(rs, n) == 0 || !rs[k].Done? then now == before
            else
              var part := CutPart(rs, n, st, inst);
              && now == before[part.instance := part.v]
              && (DecisionsKept(before, now, rs[k]) <==> part == rs[k] || Holds(before, part.instance, part.v))
  {
    var k := Whole(rs, n);
    FoldDecides(rs[..k], st);
    CutLogReplays(rs, n, st, inst);
    if k == |rs| {
      assert rs[..k] == rs;
    } else if Over(rs, n) > 0 {
      CutApplies(rs, n, st, inst);
      if rs[k].Done? {
        var part := CutPart(rs, n, st, inst);
        OneValueIff(st.values + Decided(rs[..k]), part.instance, part.v, rs[k].instance, rs[k].v);
      }
    }
  }

  // ----- cuts that do harm -----

  lemma ReplayCut(rs: seq<Record>, r: Record, m: nat, st: State, inst: nat)
    requires AllPrintable(rs) && Printable(r) && m < |Line(r)|
    ensures Replay(Text(rs) + Line(r)[..m], st, inst) == CutOf(r, m, Fold(rs, st), LastInstance(rs, inst))
  {
    ReplayFrom(rs, Line(r)[..m], st, inst);
    ReplayFront(r, m, Fold(rs, st), LastInstance(rs, inst));
  }

  /** A `done` line that ends right behind its type word or the space makes the last decision empty. */
  lemma CutErasesDecision(rs: seq<Record>, i: nat, v: string, c: nat, st: State, inst: nat)
    requires AllPrintable(rs) && Printable(Done(i, v)) && c <= 1
    ensures |"done"| + c < |Line(Done(i, v))|
    ensures Replay(Text(rs) + Line(Done(i, v))[..|"done"| + c], st, inst) ==
            Some(Apply(Fold(rs, st), Done(LastInstance(rs, inst), "")))
  {
    LineLength(Done(i, v));
    ReplayCut(rs, Done(i, v), |"done"| + c, st, inst);
  }

  /** An `accepted` line makes the accepted value empty. */
  lemma CutErasesAccepted(rs: seq<Record>, p: Prop, v: string, c: nat, st: State, inst: nat)
    requires AllPrintable(rs) && Printable(Accepted(p, v)) && c <= 1
    ensures |"accepted"| + c < |Line(Accepted(p, v))|
    ensures Replay(Text(rs) + Line(Accepted(p, v))[..|"accepted"| + c], st, inst) == Some(Fold(rs, st).(vA := ""))
  {
    LineLength(Accepted(p, v));
    ReplayCut(rs, Accepted(p, v), |"accepted"| + c, st, inst);
  }

  /** So a decision that was on the disk before is lost, unless it was the empty one. */
  lemma CutLosesDecision(rs: seq<Record>, was: Record, next: Record, c: nat, st: State, inst: nat)
    requires AllPrintable(rs) && Printable(was) && Printable(next) && was.Done? && next.Done? && c <= 1
    ensures |"done"| + c < |Line(next)|
    ensures var now := Replay(Text(rs + [was]) + Line(next)[..|"done"| + c], st, inst);
            && now == Some(Apply(Fold(rs + [was], st), Done(was.instance, "")))
            && (Holds(now.value.values, was.instance, was.v) <==> was.v == "")
  {
    CutErasesDecision(rs + [was], next.instance, next.v, c, st, inst);
    LastAppend(rs, was, inst);
  }

  lemma {:induction false} LastAppend(rs: seq<Record>, r: Record, inst: nat)
    requires r.Done?
    ensures LastInstance(rs + [r], inst) == r.instance
    decreases |rs|
  {
    if rs == [] {
      assert rs + [r] == [r];
    } else {
      LastAppend(rs[1..], r, InstAfter(rs[0], inst));
      assert (rs + [r])[1..] == rs[1..] + [r];
    }
  }

  /** A promise whose line ends inside the number falls back to the digits that are there. */
  lemma CutPromise(rs: seq<Record>, p: Prop, c: nat, st: State, inst: nat)
    requires AllPrintable(rs) && PrintableProp(p) && 1 < c <= 1 + |Digits(p.n)|
    ensures |"propseen"| + c < |Line(PropSeen(p))|
    ensures var before := Fold(rs, st);
            var now := before.(nH := Prop(ValueOf(Digits(p.n)[..c - 1]), before.nH.m));
            Replay(Text(rs) + Line(PropSeen(p))[..|"propseen"| + c], st, inst) == Some(now)
  {
    LineLength(PropSeen(p));
    ReplayCut(rs, PropSeen(p), |"propseen"| + c, st, inst);
  }

  /** A line that lost its newline and the end of its value decides a value that nobody wrote. */
  lemma CutValueIsDecided(i: nat, v: string, c: char, st: State, inst: nat)
    requires Printable(Done(i, v)) && c != '\n'
    ensures var line := Line(Done(i, v + [c]));
            |line| >= 2 && Replay(line[..|line| - 2], st, inst) == Some(Apply(st, Done(i, v)))
  {
    var r, longer := Done(i, v), Done(i, v + [c]);
    LineParts(longer);
    assert Body(longer) == Body(r) + [c];
    assert Line(longer) == Kind(r) + Body(r) + [c, '\n'];
    assert Line(longer)[..|Line(longer)| - 2] == Kind(r) + Body(r);
    ReplayBodyFront(r, st, inst, Body(r));
    WholePart(r, st, inst);
  }
}
