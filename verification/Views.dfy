/** Views as lists of nodes, their text in the log, and the majorities that Paxos asks for. */
module Views {
  import opened PaxosLog
  import opened TextStream

  type Node = string

  // ----- majorities -----

  /** How many places of the view are taken by nodes of `acks`. */
  function Count(view: seq<Node>, acks: seq<Node>): (n: nat)
    ensures n <= |view|
  {
    if view == [] then 0
    else if view[0] in acks then 1 + Count(view[1..], acks)
    else Count(view[1..], acks)
  }

  predicate Majority(view: seq<Node>, acks: seq<Node>) {
    Count(view, acks) >= |view| / 2 + 1
  }

  predicate Distinct(view: seq<Node>) {
    forall i, j :: 0 <= i < j < |view| ==> view[i] != view[j]
  }

  /** A node of the view that answered in both rounds. */
  predicate Shared(view: seq<Node>, a: seq<Node>, b: seq<Node>, m: Node) {
    m in view && m in a && m in b
  }

  lemma {:induction false} Pigeonhole(view: seq<Node>, a: seq<Node>, b: seq<Node>)
    requires Count(view, a) + Count(view, b) > |view|
    ensures exists m :: Shared(view, a, b, m)
    decreases |view|
  {
    if view[0] in a && view[0] in b {
      assert Shared(view, a, b, view[0]);
    } else {
      Pigeonhole(view[1..], a, b);
      var m :| Shared(view[1..], a, b, m);
      assert Shared(view, a, b, m);
    }
  }

  /** Two majorities of one view share a node. */
  lemma MajoritiesMeet(view: seq<Node>, a: seq<Node>, b: seq<Node>)
    requires Majority(view, a) && Majority(view, b)
    ensures exists m :: Shared(view, a, b, m)
  {
    Pigeonhole(view, a, b);
  }

  /** All nodes of a view are a majority of it, unless the view is empty. */
  lemma WholeViewIsMajority(view: seq<Node>, acks: seq<Node>)
    requires forall m :: m in view ==> m in acks
    ensures Majority(view, acks) <==> view != []
  {
    AllCounted(view, acks);
  }

  lemma {:induction false} AllCounted(view: seq<Node>, acks: seq<Node>)
    requires forall m :: m in view ==> m in acks
    ensures Count(view, acks) == |view|
    decreases |view|
  {
    if view != [] {
      AllCounted(view[1..], acks);
    }
  }

  lemma {:induction false} CountAppend(view: seq<Node>, x: Node, acks: seq<Node>)
    ensures Count(view + [x], acks) == Count(view, acks) + if x in acks then 1 else 0
    decreases |view|
  {
    if view == [] {
      assert view + [x] == [x];
    } else {
      CountAppend(view[1..], x, acks);
      assert (view + [x])[1..] == view[1..] + [x];
    }
  }

  /** A majority of a view and one of the view with a node added share a node of the old view. */
  lemma AddKeepsOverlap(view: seq<Node>, x: Node, a: seq<Node>, b: seq<Node>)
    requires Majority(view, a) && Majority(view + [x], b)
    ensures Meet(view, a, b)
  {
    CountAppend(view, x, b);
    Pigeonhole(view, a, b);
  }

  function Removed(view: seq<Node>, x: Node): seq<Node> {
    if view == [] then []
    else if view[0] == x then Removed(view[1..], x)
    else [view[0]] + Removed(view[1..], x)
  }

  function Times(view: seq<Node>, x: Node): nat {
    if view == [] then 0 else Times(view[1..], x) + if view[0] == x then 1 else 0
  }

  lemma {:induction false} RemovedCounts(view: seq<Node>, x: Node, acks: seq<Node>)
    ensures |Removed(view, x)| == |view| - Times(view, x)
    ensures Count(Removed(view, x), acks) <= Count(view, acks)
    decreases |view|
  {
    if view != [] {
      RemovedCounts(view[1..], x, acks);
      if view[0] != x {
        assert Removed(view, x)[1..] == Removed(view[1..], x);
      }
    }
  }

  lemma {:induction false} DistinctOnce(view: seq<Node>, x: Node)
    requires Distinct(view)
    ensures Times(view, x) <= 1 && (x !in view ==> Times(view, x) == 0)
    decreases |view|
  {
    if view != [] {
      DistinctOnce(view[1..], x);
      assert view[0] !in view[1..];
    }
  }

  /** Every majority of one view and every majority of the other share a node of the first. */
  ghost predicate Overlap(view: seq<Node>, next: seq<Node>) {
    forall a, b :: Majority(view, a) && Majority(next, b) ==> Meet(view, a, b)
  }

  ghost predicate Meet(view: seq<Node>, a: seq<Node>, b: seq<Node>) {
    exists m :: Shared(view, a, b, m)
  }

  /** A group of nodes that is a majority once `x` is removed, while the rest is a majority before. */
  predicate Splits(view: seq<Node>, x: Node, group: seq<Node>) {
    var r := Removed(view, x);
    |r| / 2 + 1 <= Count(r, group) <= |view| - (|view| / 2 + 1)
  }

  lemma {:induction false} CountRemoved(view: seq<Node>, x: Node, acks: seq<Node>)
    ensures Count(Removed(view, x), acks) == Count(view, Removed(acks, x))
    decreases |view|
  {
    if view != [] {
      RemovedIn(acks, x);
      CountRemoved(view[1..], x, acks);
      if view[0] != x {
        assert Removed(view, x)[1..] == Removed(view[1..], x);
      }
    }
  }

  /** The nodes of the view that are not in the group. */
  function Others(view: seq<Node>, group: seq<Node>): seq<Node> {
    if view == [] then []
    else if view[0] in group then Others(view[1..], group)
    else [view[0]] + Others(view[1..], group)
  }

  lemma {:induction false} OthersIn(view: seq<Node>, group: seq<Node>)
    ensures forall m :: m in Others(view, group) <==> m in view && m !in group
    decreases |view|
  {
    if view != [] {
      OthersIn(view[1..], group);
      assert view == [view[0]] + view[1..];
    }
  }

  lemma {:induction false} CountComplement(view: seq<Node>, a: seq<Node>, b: seq<Node>)
    requires forall m :: m in view ==> (m in a <==> m !in b)
    ensures Count(view, a) + Count(view, b) == |view|
    decreases |view|
  {
    if view != [] {
      CountComplement(view[1..], a, b);
    }
  }

  lemma SplitLosesOverlap(view: seq<Node>, x: Node, group: seq<Node>)
    requires Splits(view, x, group)
    ensures !Overlap(view, Removed(view, x))
  {
    var b := Removed(group, x);
    var a := Others(view, b);
    CountRemoved(view, x, group);
    CountRemoved(view, x, b);
    RemovedIn(group, x);
    RemovedIn(b, x);
    OthersIn(view, b);
    CountComplement(view, a, b);
    CountSame(view, b, Removed(b, x));
    assert Majority(view, a) && Majority(Removed(view, x), b) && !Meet(view, a, b);
  }

  lemma {:induction false} CountSame(view: seq<Node>, a: seq<Node>, b: seq<Node>)
    requires forall m :: m in a <==> m in b
    ensures Count(view, a) == Count(view, b)
    decreases |view|
  {
    if view != [] {
      CountSame(view[1..], a, b);
    }
  }

  lemma NoSplitOverlaps(view: seq<Node>, x: Node)
    requires forall group :: !Splits(view, x, group)
    ensures Overlap(view, Removed(view, x))
  {
    forall a, b | Majority(view, a) && Majority(Removed(view, x), b) ensures Meet(view, a, b) {
      RemovedCounts(view, x, b);
      assert !Splits(view, x, b);
      Pigeonhole(view, a, b);
    }
  }

  lemma {:induction false} CountConcat(u: seq<Node>, v: seq<Node>, acks: seq<Node>)
    ensures Count(u + v, acks) == Count(u, acks) + Count(v, acks)
    decreases |u|
  {
    if u == [] {
      assert u + v == v;
    } else {
      CountConcat(u[1..], v, acks);
      assert (u + v)[1..] == u[1..] + v;
    }
  }

  lemma {:induction false} NoneCounted(view: seq<Node>, acks: seq<Node>)
    requires forall m :: m in view ==> m !in acks
    ensures Count(view, acks) == 0
    decreases |view|
  {
    if view != [] {
      NoneCounted(view[1..], acks);
    }
  }

  lemma PrefixCounts(view: seq<Node>, k: nat)
    requires Distinct(view) && k <= |view|
    ensures Count(view, view[..k]) == k
  {
    assert view == view[..k] + view[k..];
    CountConcat(view[..k], view[k..], view[..k]);
    AllCounted(view[..k], view[..k]);
    NoneCounted(view[k..], view[..k]);
  }

  /** When only `x` can be listed more than once, whether a removal is safe depends on two lengths. */
  lemma RemoveOverlapExactly(view: seq<Node>, x: Node)
    requires Distinct(Removed(view, x))
    ensures var r := Removed(view, x);
            Overlap(view, r) <==> r == [] || |view| < |view| / 2 + |r| / 2 + 2
  {
    var r := Removed(view, x);
    if r == [] || |view| < |view| / 2 + |r| / 2 + 2 {
      NoSplitOverlaps(view, x);
    } else {
      PrefixCounts(r, |r| / 2 + 1);
      SplitLosesOverlap(view, x, r[..|r| / 2 + 1]);
    }
  }

  /** Removing a node that is listed at most once is safe, whatever else the view repeats. */
  lemma RemoveKeepsOverlap(view: seq<Node>, x: Node)
    requires Times(view, x) <= 1
    ensures Overlap(view, Removed(view, x))
  {
    RemovedCounts(view, x, []);
    NoSplitOverlaps(view, x);
  }

  /** With a node listed twice, removing it can leave a majority that misses an old one. */
  lemma DuplicateLosesOverlap()
    ensures var view := ["m", "m", "a"];
            Majority(view, ["m"]) && Majority(Removed(view, "m"), ["a"]) && forall n :: !Shared(view, ["m"], ["a"], n)
  {
    var view := ["m", "m", "a"];
    assert view[1..] == ["m", "a"] && ["m", "a"][1..] == ["a"] && ["a"][1..] == [];
    assert Removed(["a"], "m") == ["a"] + Removed([], "m");
    assert "m" != "a" by {
      assert "m"[0] != "a"[0];
    }
    assert Count(["a"], ["m"]) == 0 && Count(["m", "a"], ["m"]) == 1;
    assert Removed(["m", "a"], "m") == ["a"];
    assert Count(["a"], ["a"]) == 1;
  }

  // ----- view changes -----

  datatype Change = Add(x: Node) | Remove(x: Node)

  function Changed(view: seq<Node>, c: Change): seq<Node> {
    match c
    case Add(x) => view + [x]
    case Remove(x) => Removed(view, x)
  }

  /** A node is added only when it is new. */
  predicate Allowed(view: seq<Node>, c: Change) {
    c.Add? ==> c.x !in view
  }

  lemma {:induction false} RemovedIn(view: seq<Node>, x: Node)
    ensures forall n :: n in Removed(view, x) <==> n in view && n != x
    ensures Distinct(view) ==> Distinct(Removed(view, x))
    decreases |view|
  {
    if view != [] {
      RemovedIn(view[1..], x);
      assert view == [view[0]] + view[1..];
      if Distinct(view) {
        assert view[0] !in view[1..];
        assert Distinct(view[1..]);
      }
    }
  }

  lemma ChangeKeepsDistinct(view: seq<Node>, c: Change)
    requires Distinct(view) && Allowed(view, c)
    ensures Distinct(Changed(view, c))
  {
    match c
    case Add(x) =>
    case Remove(x) => RemovedIn(view, x);
  }

  /** Every view that a sequence of changes goes through, the first one included. */
  function History(view: seq<Node>, cs: seq<Change>): (h: seq<seq<Node>>)
    ensures |h| == |cs| + 1 && h[0] == view
    decreases |cs|
  {
    if cs == [] then [view] else [view] + History(Changed(view, cs[0]), cs[1..])
  }

  predicate IsHistory(view: seq<Node>, cs: seq<Change>)
    decreases |cs|
  {
    cs == [] || (Allowed(view, cs[0]) && IsHistory(Changed(view, cs[0]), cs[1..]))
  }

  lemma {:induction false} HistoryNext(view: seq<Node>, cs: seq<Change>, k: nat)
    requires k < |cs|
    ensures History(view, cs)[k + 1] == Changed(History(view, cs)[k], cs[k])
    decreases |cs|
  {
    var rest := History(Changed(view, cs[0]), cs[1..]);
    assert History(view, cs)[k + 1] == rest[k];
    if k > 0 {
      HistoryNext(Changed(view, cs[0]), cs[1..], k - 1);
      assert History(view, cs)[k] == rest[k - 1];
    }
  }

  /** An addition is always safe; a removal is when no group of nodes splits the view. */
  ghost predicate Safe(view: seq<Node>, c: Change) {
    c.Add? || forall group :: !Splits(view, c.x, group)
  }

  /** In any sequence of changes, majorities of one view and of the next share a node exactly if that change is safe. */
  lemma SuccessiveViewsMeet(view: seq<Node>, cs: seq<Change>, k: nat)
    requires k < |cs|
    ensures Overlap(History(view, cs)[k], History(view, cs)[k + 1]) <==> Safe(History(view, cs)[k], cs[k])
  {
    HistoryNext(view, cs, k);
    ChangeOverlaps(History(view, cs)[k], cs[k]);
  }

  lemma ChangeOverlaps(view: seq<Node>, c: Change)
    ensures Overlap(view, Changed(view, c)) <==> Safe(view, c)
  {
    match c
    case Add(x) =>
      forall a, b | Majority(view, a) && Majority(view + [x], b) ensures Meet(view, a, b) {
        AddKeepsOverlap(view, x, a, b);
      }
    case Remove(x) =>
      if Safe(view, c) {
        NoSplitOverlaps(view, x);
      } else {
        var group :| Splits(view, x, group);
        SplitLosesOverlap(view, x, group);
      }
  }

  /** If every added node is new, all changes are safe. */
  lemma {:induction false} DistinctViewsMeet(view: seq<Node>, cs: seq<Change>, k: nat)
    requires Distinct(view) && IsHistory(view, cs) && k < |cs|
    ensures Safe(History(view, cs)[k], cs[k])
    ensures Overlap(History(view, cs)[k], History(view, cs)[k + 1])
    decreases |cs|
  {
    if k > 0 {
      ChangeKeepsDistinct(view, cs[0]);
      DistinctViewsMeet(Changed(view, cs[0]), cs[1..], k - 1);
      assert History(view, cs)[k] == History(Changed(view, cs[0]), cs[1..])[k - 1];
    } else if cs[0].Remove? {
      DistinctOnce(view, cs[0].x);
      RemovedCounts(view, cs[0].x, []);
    }
    SuccessiveViewsMeet(view, cs, k);
  }

  // ----- the text of a view -----

  predicate Named(view: seq<Node>) {
    forall i :: 0 <= i < |view| ==> NoSpace(view[i]) && view[i] != ""
  }

  function Value(view: seq<Node>): string {
    if view == [] then "" else view[0] + (" " + Value(view[1..]))
  }

  function Members(value: string): seq<Node>
    decreases |value|
  {
    var w := GetWord(value);
    if w.val == "" then [] else [w.val] + Members(w.rest)
  }

  lemma MembersSpace(s: string)
    ensures Members(" " + s) == Members(s)
  {
    assert (" " + s)[1..] == s;
  }

  /** The members of a printed view are the view. */
  lemma {:induction false} MembersOfValue(view: seq<Node>)
    requires Named(view)
    ensures Members(Value(view)) == view
    decreases |view|
  {
    if view != [] {
      var rest := Value(view[1..]);
      MembersOfValue(view[1..]);
      ReadWord(view[0], " " + rest);
      MembersSpace(rest);
      assert Members(Value(view)) == [view[0]] + Members(" " + rest);
    }
  }

  /** A printed view fits into a log record: a view change survives the log. */
  lemma {:induction false} ValueOneLine(view: seq<Node>)
    requires Named(view)
    ensures OneLine(Value(view))
    decreases |view|
  {
    if view != [] {
      ValueOneLine(view[1..]);
    }
  }

  /** A view that was decided and logged last is the view that a restarted node finds. */
  lemma ViewSurvivesRestart(rs: seq<Record>, i: nat, view: seq<Node>, st: State, inst: nat)
    requires AllPrintable(rs) && i <= UINT_MAX && Named(view)
    ensures var r := Replay(Text(rs + [Done(i, Value(view))]), st, inst);
            && r.Some? && r.value.instanceH == i && i in r.value.values
            && Members(r.value.values[i]) == view
  {
    var last := Done(i, Value(view));
    ValueOneLine(view);
    ReplayFolds(rs + [last], st, inst);
    FoldAppend(rs, last, st);
    MembersOfValue(view);
  }

  // ----- proposal numbers -----

  /** The order of std::string. */
  predicate StringLess(a: string, b: string) {
    b != "" && (a == "" || a[0] < b[0] || (a[0] == b[0] && StringLess(a[1..], b[1..])))
  }

  predicate Greater(a: Prop, b: Prop) {
    a.n > b.n || (a.n == b.n && StringLess(b.m, a.m))
  }

  predicate GreaterEqual(a: Prop, b: Prop) {
    a.n > b.n || (a.n == b.n && !StringLess(a.m, b.m))
  }

  lemma {:induction false} StringOrder(a: string, b: string, c: string)
    ensures !(StringLess(a, b) && StringLess(b, a))
    ensures StringLess(a, b) || StringLess(b, a) || a == b
    ensures StringLess(a, b) && StringLess(b, c) ==> StringLess(a, c)
    decreases |a| + |b| + |c|
  {
    if a != "" && b != "" {
      if c != "" {
        StringOrder(a[1..], b[1..], c[1..]);
      } else {
        StringOrder(a[1..], b[1..], c);
      }
      assert a == [a[0]] + a[1..] && b == [b[0]] + b[1..];
    }
  }

  /** Proposal numbers are totally ordered, and `>=` is `>` or equal. */
  lemma ProposalOrder(a: Prop, b: Prop, c: Prop)
    ensures Greater(a, b) || Greater(b, a) || a == b
    ensures !(Greater(a, b) && Greater(b, a)) && !Greater(a, a)
    ensures Greater(a, b) && Greater(b, c) ==> Greater(a, c)
    ensures GreaterEqual(a, b) <==> Greater(a, b) || a == b
  {
    StringOrder(a.m, b.m, c.m);
    StringOrder(c.m, b.m, a.m);
    StringOrder(a.m, a.m, a.m);
  }

  function NextNumber(mine: nat, highest: nat): nat {
    if highest + 1 > mine + 1 then highest + 1 else mine + 1
  }

  /** A fresh proposal is above the last one and all that the acceptor has seen, by the smallest such number. */
  lemma NextNumberAbove(mine: Prop, highest: Prop, seen: Prop, other: nat)
    requires GreaterEqual(highest, seen)
    ensures var next := mine.(n := NextNumber(mine.n, highest.n));
            Greater(next, mine) && Greater(next, seen)
    ensures other > mine.n && other > highest.n ==> other >= NextNumber(mine.n, highest.n)
  {
  }

  // ----- the loops of the proposer and of the configuration -----

  method IsAMember(m: Node, nodes: seq<Node>) returns (r: bool)
    ensures r == (m in nodes)
  {
    for i := 0 to |nodes|
      invariant m !in nodes[..i]
    {
      if nodes[i] == m {
        return true;
      }
    }
    return false;
  }

  method IsMajority(l1: seq<Node>, l2: seq<Node>) returns (r: bool)
    ensures r == Majority(l1, l2)
  {
    var n := 0;
    for i := 0 to |l1|
      invariant n == Count(l1[..i], l2)
    {
      var found := IsAMember(l1[i], l2);
      assert l1[..i + 1] == l1[..i] + [l1[i]];
      CountAppend(l1[..i], l1[i], l2);
      if found {
        n := n + 1;
      }
    }
    assert l1[..|l1|] == l1;
    r := n >= |l1| / 2 + 1;
  }

  class Config {
    var mems: seq<Node>
    var myvid: nat

    method ValueOf(m: seq<Node>) returns (v: string)
      ensures v == Value(m)
    {
      v := "";
      for i := 0 to |m|
        invariant v + Value(m[i..]) == Value(m)
      {
        assert m[i..][1..] == m[i + 1..];
        Assoc3(v, m[i], Value(m[i + 1..]));
        v := v + m[i] + " ";
      }
    }

    method MembersOf(value: string) returns (view: seq<Node>)
      ensures view == Members(value)
    {
      view := [];
      var rest := value;
      var w := GetWord(rest);
      while w.val != ""
        invariant w == GetWord(rest) && view + Members(rest) == Members(value)
        decreases |rest|
      {
        AppendFirst(view, w.val, Members(w.rest));
        view := view + [w.val];
        rest := w.rest;
        w := GetWord(rest);
      }
    }

    /** The value that `add` proposes, unless the view has moved on. */
    method ProposeAdd(x: Node, vid: nat) returns (ok: bool, nextvid: nat, v: string)
      ensures ok == (vid == myvid)
      ensures ok ==> nextvid == myvid + 1 && v == Value(mems + [x])
    {
      ok, nextvid, v := vid == myvid, 0, "";
      if ok {
        nextvid := myvid + 1;
        v := ValueOf(mems + [x]);
      }
    }

    /** The value that `remove` proposes. */
    method ProposeRemove(x: Node) returns (nextvid: nat, v: string)
      ensures nextvid == myvid + 1 && v == Value(Removed(mems, x))
    {
      var n: seq<Node> := [];
      for i := 0 to |mems|
        invariant n + Removed(mems[i..], x) == Removed(mems, x)
      {
        assert mems[i..][1..] == mems[i + 1..];
        if mems[i] != x {
          n := n + [mems[i]];
        }
      }
      assert Removed(mems[|mems|..], x) == [];
      assert n == Removed(mems, x);
      v := ValueOf(n);
      nextvid := myvid + 1;
    }

    /** A decided value becomes the view. */
    method PaxosCommit(instance: nat, value: string)
      modifies this
      ensures myvid == instance && mems == Members(value)
      ensures forall view :: Named(view) && value == Value(view) ==> mems == view
    {
      mems := MembersOf(value);
      myvid := instance;
      forall view | Named(view) && value == Value(view) ensures mems == view {
        MembersOfValue(view);
      }
    }
  }

  lemma AppendFirst(view: seq<Node>, m: Node, rest: seq<Node>)
    ensures view + ([m] + rest) == (view + [m]) + rest
  {
  }

  lemma Assoc3(v: string, m: string, rest: string)
    ensures v + (m + (" " + rest)) == (v + m + " ") + rest
  {
  }
}
