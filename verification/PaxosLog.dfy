/** The durable Paxos log: records printed as lines of text, and the parser that replays them. */
module PaxosLog {
  import opened Decimal
  import opened LockTypes
  import opened TextStream

  datatype Prop = Prop(n: nat, m: string)

  datatype Record =
    | Done(instance: nat, v: string)
    | PropSeen(p: Prop)
    | Accepted(p: Prop, v: string)

  datatype State = State(values: map<nat, string>, instanceH: nat, nH: Prop, nA: Prop, vA: string)

  // ----- what a record means -----

  function Apply(st: State, r: Record): State {
    match r
    case Done(i, v) =>
      st.(values := st.values[i := v], instanceH := i, vA := "", nH := st.nH.(n := 0), nA := st.nA.(n := 0))
    case PropSeen(p) => st.(nH := p)
    case Accepted(p, v) => st.(nA := p, vA := v)
  }

  function Fold(rs: seq<Record>, st: State): State {
    if rs == [] then st else Fold(rs[1..], Apply(st, rs[0]))
  }

  // ----- printing -----

  function Kind(r: Record): string {
    match r
    case Done(_, _) => "done"
    case PropSeen(_) => "propseen"
    case Accepted(_, _) => "accepted"
  }

  /** The rest of the line of a record, in front of the text that follows. */
  function Fields(r: Record, tail: string): (s: string)
    ensures s != "" && s[0] == ' '
  {
    match r
    case Done(i, v) => " " + (Digits(i) + (" " + (v + ("\n" + tail))))
    case PropSeen(p) => " " + (Digits(p.n) + (" " + (p.m + ("\n" + tail))))
    case Accepted(p, v) => " " + (Digits(p.n) + (" " + (p.m + (" " + (v + ("\n" + tail))))))
  }

  function Print(r: Record, tail: string): string {
    Kind(r) + Fields(r, tail)
  }

  function Text(rs: seq<Record>): string {
    if rs == [] then "" else Print(rs[0], Text(rs[1..]))
  }

  // ----- parsing, as the stream operators do it -----

  /** What reading one record leaves: the state, the local variable `instance`, and the text behind. */
  datatype Entry = Entry(st: State, inst: nat, rest: string)

  /** One record behind its type word; nothing if the type is unknown, where the source stops. */
  function GetEntry(kind: string, s: string, st: State, inst: nat): (r: Option<Entry>)
    ensures r.Some? ==> |r.value.rest| <= |s|
  {
    if kind == "done" then
      var n := TakeNumber(s, inst);
      var v := GetRestOfLine(n.rest);
      Some(Entry(Apply(st, Done(n.val, v.val)), n.val, v.rest))
    else if kind == "propseen" then
      var n := TakeNumber(s, st.nH.n);
      var m := TakeWord(n.rest, st.nH.m);
      Some(Entry(Apply(st, PropSeen(Prop(n.val, m.val))), inst, m.rest))
    else if kind == "accepted" then
      var n := TakeNumber(s, st.nA.n);
      var m := TakeWord(n.rest, st.nA.m);
      var v := GetRestOfLine(m.rest);
      Some(Entry(Apply(st, Accepted(Prop(n.val, m.val), v.val)), inst, v.rest))
    else None
  }

  /** The whole log, record by record; `inst` is what the uninitialised `instance` holds at the start. */
  function Replay(s: string, st: State, inst: nat): Option<State>
    decreases |s|
  {
    var kind := GetWord(s);
    if kind.val == "" then Some(st)
    else
      var e := GetEntry(kind.val, kind.rest, st, inst);
      if e.None? then None else Replay(e.value.rest, e.value.st, e.value.inst)
  }

  // ----- reading back -----

  /** Numbers fit, values have no newline, node names have no spaces and are not empty. */
  predicate Printable(r: Record) {
    match r
    case Done(i, v) => i <= UINT_MAX && OneLine(v)
    case PropSeen(p) => PrintableProp(p)
    case Accepted(p, v) => PrintableProp(p) && OneLine(v)
  }

  predicate PrintableProp(p: Prop) {
    p.n <= UINT_MAX && NoSpace(p.m) && p.m != ""
  }

  predicate AllPrintable(rs: seq<Record>) {
    forall i :: 0 <= i < |rs| ==> Printable(rs[i])
  }

  /** The local variable `instance` after a record. */
  function InstAfter(r: Record, inst: nat): nat {
    if r.Done? then r.instance else inst
  }

  /** A number, a name and a line are read up to the following text; `propseen` leaves the newline. */
  lemma ReadEntry(r: Record, tail: string, st: State, inst: nat)
    requires Printable(r)
    ensures GetEntry(Kind(r), Fields(r, tail), st, inst)
         == Some(Entry(Apply(st, r), InstAfter(r, inst), if r.PropSeen? then "\n" + tail else tail))
  {
    match r
    case Done(i, v) =>
      ReadNumber(i, " " + (v + ("\n" + tail)), inst);
      ReadLine(v, tail);
    case PropSeen(p) =>
      ReadNumber(p.n, " " + (p.m + ("\n" + tail)), st.nH.n);
      ReadWord(p.m, "\n" + tail);
    case Accepted(p, v) =>
      var line := " " + (v + ("\n" + tail));
      ReadNumber(p.n, " " + (p.m + line), st.nA.n);
      ReadWord(p.m, line);
      ReadLine(v, tail);
  }

  lemma ReplayNewline(tail: string, st: State, inst: nat)
    ensures Replay("\n" + tail, st, inst) == Replay(tail, st, inst)
  {
    SkipNewline(tail);
  }

  lemma ReplayEntry(kind: string, fields: string, st: State, inst: nat, e: Entry)
    requires NoSpace(kind) && kind != "" && (fields != "" ==> IsSpace(fields[0]))
    requires GetEntry(kind, fields, st, inst) == Some(e)
    ensures Replay(kind + fields, st, inst) == Replay(e.rest, e.st, e.inst)
  {
    ReadWord(kind, fields);
  }

  /** A printed record is read back, and what follows stays. */
  lemma ReadRecord(r: Record, tail: string, st: State, inst: nat)
    requires Printable(r)
    ensures Replay(Print(r, tail), st, inst) == Replay(tail, Apply(st, r), InstAfter(r, inst))
  {
    KindWord(r);
    ReadEntry(r, tail, st, inst);
    var e := Entry(Apply(st, r), InstAfter(r, inst), if r.PropSeen? then "\n" + tail else tail);
    ReplayEntry(Kind(r), Fields(r, tail), st, inst, e);
    if r.PropSeen? {
      ReplayNewline(tail, e.st, e.inst);
    }
  }

  lemma KindWord(r: Record)
    ensures NoSpace(Kind(r)) && Kind(r) != ""
  {
  }

  /** Parsing the text of records and something more is folding the records and parsing that. */
  lemma {:induction false} ReplayFrom(rs: seq<Record>, more: string, st: State, inst: nat)
    requires AllPrintable(rs)
    ensures Replay(Text(rs) + more, st, inst) == Replay(more, Fold(rs, st), LastInstance(rs, inst))
    decreases |rs|
  {
    if rs == [] {
      assert "" + more == more;
    } else {
      PrintTail(rs[0], Text(rs[1..]), more);
      ReadRecord(rs[0], Text(rs[1..]) + more, st, inst);
      ReplayFrom(rs[1..], more, Apply(st, rs[0]), InstAfter(rs[0], inst));
    }
  }

  /** Parsing the text of the log is folding its records. */
  lemma ReplayFolds(rs: seq<Record>, st: State, inst: nat)
    requires AllPrintable(rs)
    ensures Replay(Text(rs), st, inst) == Some(Fold(rs, st))
  {
    ReplayFrom(rs, "", st, inst);
    assert Text(rs) + "" == Text(rs);
  }

  // ----- appending -----

  lemma Assoc(a: string, b: string, c: string)
    ensures a + (b + c) == (a + b) + c
  {
  }

  lemma FieldsTail(r: Record, a: string, b: string)
    ensures Fields(r, a + b) == Fields(r, a) + b
  {
    var line := "\n" + a;
    Assoc("\n", a, b);
    match r
    case Done(i, v) =>
      Assoc(v, line, b);
      Assoc(" ", v + line, b);
      Assoc(Digits(i), " " + (v + line), b);
      Assoc(" ", Digits(i) + (" " + (v + line)), b);
    case PropSeen(p) =>
      Assoc(p.m, line, b);
      Assoc(" ", p.m + line, b);
      Assoc(Digits(p.n), " " + (p.m + line), b);
      Assoc(" ", Digits(p.n) + (" " + (p.m + line)), b);
    case Accepted(p, v) =>
      var name := p.m + (" " + (v + line));
      Assoc(v, line, b);
      Assoc(" ", v + line, b);
      Assoc(p.m, " " + (v + line), b);
      Assoc(" ", name, b);
      Assoc(Digits(p.n), " " + name, b);
      Assoc(" ", Digits(p.n) + (" " + name), b);
  }

  lemma PrintTail(r: Record, a: string, b: string)
    ensures Print(r, a + b) == Print(r, a) + b
  {
    FieldsTail(r, a, b);
    Assoc(Kind(r), Fields(r, a), b);
  }

  /** A writer that appends one line extends the list by one record. */
  lemma {:induction false} TextAppend(rs: seq<Record>, r: Record)
    ensures Text(rs + [r]) == Text(rs) + Print(r, "")
    decreases |rs|
  {
    if rs == [] {
      assert rs + [r] == [r] && [r][1..] == [];
    } else {
      TextAppend(rs[1..], r);
      assert (rs + [r])[1..] == rs[1..] + [r];
      PrintTail(rs[0], Text(rs[1..]), Print(r, ""));
    }
  }

  lemma {:induction false} FoldAppend(rs: seq<Record>, r: Record, st: State)
    ensures Fold(rs + [r], st) == Apply(Fold(rs, st), r)
    decreases |rs|
  {
    if rs == [] {
      assert rs + [r] == [r];
    } else {
      FoldAppend(rs[1..], r, Apply(st, rs[0]));
      assert (rs + [r])[1..] == rs[1..] + [r];
    }
  }

  // ----- values and highest instance -----

  /** The decided values of a log, the last one for each instance. */
  function Decided(rs: seq<Record>): map<nat, string> {
    if rs == [] then map[] else Decision(rs[0]) + Decided(rs[1..])
  }

  function Decision(r: Record): map<nat, string> {
    if r.Done? then map[r.instance := r.v] else map[]
  }

  /** The instance of the last decision, or the given one. */
  function LastInstance(rs: seq<Record>, before: nat): nat {
    if rs == [] then before else LastInstance(rs[1..], InstAfter(rs[0], before))
  }

  lemma UnionAssoc(a: map<nat, string>, b: map<nat, string>, c: map<nat, string>)
    ensures (a + b) + c == a + (b + c)
  {
  }

  /** Replaying a log over any state puts its decisions on top and takes its last instance. */
  lemma {:induction false} FoldDecides(rs: seq<Record>, st: State)
    ensures Fold(rs, st).values == st.values + Decided(rs)
    ensures Fold(rs, st).instanceH == LastInstance(rs, st.instanceH)
    decreases |rs|
  {
    if rs == [] {
      assert st.values + map[] == st.values;
    } else {
      FoldDecides(rs[1..], Apply(st, rs[0]));
      assert Apply(st, rs[0]).values == st.values + Decision(rs[0]);
      UnionAssoc(st.values, Decision(rs[0]), Decided(rs[1..]));
    }
  }

  // ----- dump and restore -----

  /** The file line by line, each with a newline again. */
  function Dump(s: string): string
    decreases |s|
  {
    if s == "" then "" else s[..LineLen(s)] + "\n" + Dump(Drop(s, LineLen(s) + 1))
  }

  predicate Ended(s: string) {
    s == "" || s[|s| - 1] == '\n'
  }

  lemma {:induction false} LineStops(s: string)
    requires Ended(s) && s != ""
    ensures LineLen(s) < |s| && s[LineLen(s)] == '\n' && Ended(s[LineLen(s) + 1..])
    decreases |s|
  {
    if s[0] != '\n' {
      LineStops(s[1..]);
    }
  }

  lemma SplitLine(s: string, k: nat)
    requires k < |s| && s[k] == '\n'
    ensures s[..k] + "\n" + s[k + 1..] == s
  {
  }

  lemma {:induction false} DumpSame(s: string)
    requires Ended(s)
    ensures Dump(s) == s
    decreases |s|
  {
    if s != "" {
      LineStops(s);
      var k := LineLen(s);
      DumpSame(s[k + 1..]);
      SplitLine(s, k);
    }
  }

  lemma {:induction false} TextEnded(rs: seq<Record>)
    ensures Ended(Text(rs))
    decreases |rs|
  {
    if rs != [] {
      TextEnded(rs[1..]);
      PrintEnds(rs[0], Text(rs[1..]));
    }
  }

  lemma FieldsEnd(r: Record, tail: string)
    requires Ended(tail)
    ensures Ended(Fields(r, tail))
  {
    var line := "\n" + tail;
    match r
    case Done(i, v) =>
      EndedAfter(v, line);
      EndedAfter(Digits(i), " " + (v + line));
    case PropSeen(p) =>
      EndedAfter(p.m, line);
      EndedAfter(Digits(p.n), " " + (p.m + line));
    case Accepted(p, v) =>
      EndedAfter(v, line);
      EndedAfter(p.m, " " + (v + line));
      EndedAfter(Digits(p.n), " " + (p.m + (" " + (v + line))));
  }

  lemma PrintEnds(r: Record, tail: string)
    requires Ended(tail)
    ensures Ended(Print(r, tail))
  {
    FieldsEnd(r, tail);
    EndedAfter(Kind(r), Fields(r, tail));
  }

  lemma EndedAfter(a: string, s: string)
    requires s != "" && Ended(s)
    ensures Ended(a + s) && Ended(" " + (a + s))
  {
  }

  /** A dumped log, restored elsewhere and read, brings its decisions and its last instance. */
  lemma RestoreReproduces(rs: seq<Record>, st: State, inst: nat)
    requires AllPrintable(rs)
    ensures var r := Replay(Dump(Text(rs)), st, inst);
            r.Some? && r.value.values == st.values + Decided(rs) && r.value.instanceH == LastInstance(rs, st.instanceH)
  {
    TextEnded(rs);
    DumpSame(Text(rs));
    ReplayFolds(rs, st, inst);
    FoldDecides(rs, st);
  }

  // ----- the acceptor and its log -----

  /** `Seen` and `Accept` are the acceptor's changes that go with logprop and logaccept. */
  datatype Op =
    | Commit(instance: nat, v: string)
    | Decide(instance: nat, v: string)
    | Seen(p: Prop)
    | Accept(p: Prop, v: string)

  function Committed(st: State, me: string, i: nat, v: string): State {
    if i > st.instanceH then State(st.values[i := v], i, Prop(0, me), Prop(0, me), "") else st
  }

  /** The source stops if it hears of a later instance, or of another value for the next one. */
  predicate CanDo(st: State, op: Op) {
    op.Decide? ==> op.instance <= st.instanceH || (op.instance == st.instanceH + 1 && op.v == st.vA)
  }

  /** The three answers to a decide: ignored if it is known, committed if it is next and accepted, otherwise a stop. */
  lemma DecideExact(st: State, me: string, i: nat, v: string)
    ensures var op := Decide(i, v);
            if i <= st.instanceH then CanDo(st, op) && Do(st, me, op) == st && Logged(st, op) == []
            else if i == st.instanceH + 1 && v == st.vA then
              CanDo(st, op) && Do(st, me, op) == Do(st, me, Commit(i, v)) && Logged(st, op) == [Done(i, v)]
            else !CanDo(st, op)
  {
  }

  function Do(st: State, me: string, op: Op): State {
    match op
    case Commit(i, v) => Committed(st, me, i, v)
    case Decide(i, v) => if i == st.instanceH + 1 then Committed(st, me, i, st.vA) else st
    case Seen(p) => st.(nH := p)
    case Accept(p, v) => st.(nA := p, vA := v)
  }

  /** What an operation writes to the log. */
  function Logged(st: State, op: Op): seq<Record> {
    match op
    case Commit(i, v) => if i > st.instanceH then [Done(i, v)] else []
    case Decide(i, v) => if i == st.instanceH + 1 then [Done(i, st.vA)] else []
    case Seen(p) => [PropSeen(p)]
    case Accept(p, v) => [Accepted(p, v)]
  }

  predicate SameProp(a: Prop, b: Prop) {
    a.n == b.n && (a.n != 0 ==> a.m == b.m)
  }

  /** Equal apart from the node of a proposal numbered zero. */
  predicate Agree(a: State, b: State) {
    && a.values == b.values && a.instanceH == b.instanceH && a.vA == b.vA
    && SameProp(a.nH, b.nH) && SameProp(a.nA, b.nA)
  }

  lemma StepAgrees(rs: seq<Record>, start: State, st: State, me: string, op: Op)
    requires Agree(Fold(rs, start), st) && CanDo(st, op)
    ensures Agree(Fold(rs + Logged(st, op), start), Do(st, me, op))
  {
    var more := Logged(st, op);
    if more == [] {
      assert rs + more == rs;
    } else {
      assert more == [more[0]];
      FoldAppend(rs, more[0], start);
    }
  }

  /** A commit leaves the acceptor as a fresh one, apart from the decisions. */
  lemma CommitResets(st: State, me: string, i: nat, v: string)
    requires i > st.instanceH
    ensures Committed(st, me, i, v) == Fresh(me).(values := st.values[i := v], instanceH := i)
  {
  }

  /** The node of the last promise in the log, or the given one: what replay has where `Agree` does not look. */
  function LastNode(rs: seq<Record>, before: string): string {
    if rs == [] then before else LastNode(rs[1..], if rs[0].PropSeen? then rs[0].p.m else before)
  }

  lemma {:induction false} FoldNode(rs: seq<Record>, st: State)
    ensures Fold(rs, st).nH.m == LastNode(rs, st.nH.m)
    decreases |rs|
  {
    if rs != [] {
      FoldNode(rs[1..], Apply(st, rs[0]));
    }
  }

  lemma CommitAgrees(rs: seq<Record>, start: State, st: State, me: string, i: nat, v: string)
    requires i > st.instanceH
    ensures Agree(Fold(rs, start), st) ==> Agree(Fold(rs + [Done(i, v)], start), Committed(st, me, i, v))
  {
    if Agree(Fold(rs, start), st) {
      StepAgrees(rs, start, st, me, Commit(i, v));
    }
  }

  predicate IsRun(st: State, me: string, ops: seq<Op>)
    decreases |ops|
  {
    ops == [] || (CanDo(st, ops[0]) && IsRun(Do(st, me, ops[0]), me, ops[1..]))
  }

  function DoAll(st: State, me: string, ops: seq<Op>): State
    decreases |ops|
  {
    if ops == [] then st else DoAll(Do(st, me, ops[0]), me, ops[1..])
  }

  function LogAll(st: State, me: string, ops: seq<Op>): seq<Record>
    decreases |ops|
  {
    if ops == [] then [] else Logged(st, ops[0]) + LogAll(Do(st, me, ops[0]), me, ops[1..])
  }

  lemma {:induction false} RunAgrees(rs: seq<Record>, start: State, st: State, me: string, ops: seq<Op>)
    requires Agree(Fold(rs, start), st) && IsRun(st, me, ops)
    ensures Agree(Fold(rs + LogAll(st, me, ops), start), DoAll(st, me, ops))
    decreases |ops|
  {
    if ops == [] {
      assert rs + [] == rs;
    } else {
      StepAgrees(rs, start, st, me, ops[0]);
      var next := Do(st, me, ops[0]);
      RunAgrees(rs + Logged(st, ops[0]), start, next, me, ops[1..]);
      var first, rest := Logged(st, ops[0]), LogAll(next, me, ops[1..]);
      assert rs + (first + rest) == (rs + first) + rest;
    }
  }

  /** A restarted acceptor reads back the state it had, apart from the node of zeroed proposals. */
  lemma RestartAgrees(start: State, me: string, ops: seq<Op>, inst: nat)
    requires IsRun(start, me, ops) && AllPrintable(LogAll(start, me, ops))
    ensures var r := Replay(Text(LogAll(start, me, ops)), start, inst); r.Some? && Agree(r.value, DoAll(start, me, ops))
  {
    var rs := LogAll(start, me, ops);
    RunAgrees([], start, start, me, ops);
    assert [] + rs == rs;
    ReplayFolds(rs, start, inst);
  }

  /** Each decision is for a later instance than the ones before it. */
  predicate Rising(rs: seq<Record>, before: nat) {
    rs == [] || ((rs[0].Done? ==> rs[0].instance > before) && Rising(rs[1..], InstAfter(rs[0], before)))
  }

  lemma {:induction false} RisingAppend(rs: seq<Record>, more: seq<Record>, before: nat)
    requires Rising(rs, before) && Rising(more, LastInstance(rs, before))
    ensures Rising(rs + more, before)
    decreases |rs|
  {
    if rs == [] {
      assert rs + more == more;
    } else {
      RisingAppend(rs[1..], more, InstAfter(rs[0], before));
      assert (rs + more)[1..] == rs[1..] + more;
    }
  }

  /** The log that an acceptor writes rises. */
  lemma {:induction false} LogRises(st: State, me: string, ops: seq<Op>)
    ensures Rising(LogAll(st, me, ops), st.instanceH)
    decreases |ops|
  {
    if ops != [] {
      var first := Logged(st, ops[0]);
      LogRises(Do(st, me, ops[0]), me, ops[1..]);
      assert first != [] ==> first[1..] == [];
      RisingAppend(first, LogAll(Do(st, me, ops[0]), me, ops[1..]), st.instanceH);
    }
  }

  /** In a rising log the last instance is the highest one. */
  lemma {:induction false} LastIsHighest(rs: seq<Record>, before: nat)
    requires Rising(rs, before)
    ensures before <= LastInstance(rs, before)
    ensures forall i :: i in Decided(rs) ==> before < i <= LastInstance(rs, before)
    decreases |rs|
  {
    if rs != [] {
      LastIsHighest(rs[1..], InstAfter(rs[0], before));
    }
  }

  /** What an acceptor wrote in any run, restored elsewhere, brings its decisions and its highest instance. */
  lemma RestoreTakesHighest(start: State, me: string, ops: seq<Op>, st: State, inst: nat)
    requires AllPrintable(LogAll(start, me, ops))
    ensures var rs := LogAll(start, me, ops);
            var r := Replay(Dump(Text(rs)), st, inst);
            && r.Some? && r.value.values == st.values + Decided(rs)
            && (Decided(rs) != map[] ==> r.value.instanceH in Decided(rs))
            && (forall i :: i in Decided(rs) ==> i <= r.value.instanceH)
  {
    var rs := LogAll(start, me, ops);
    RestoreReproduces(rs, st, inst);
    LogRises(start, me, ops);
    LastIsHighest(rs, start.instanceH);
    LastIsDecided(rs, start.instanceH, st.instanceH);
  }

  lemma {:induction false} LastIsDecided(rs: seq<Record>, a: nat, b: nat)
    ensures Decided(rs) != map[] ==> LastInstance(rs, a) == LastInstance(rs, b) && LastInstance(rs, b) in Decided(rs)
    decreases |rs|
  {
    if rs != [] {
      LastIsDecided(rs[1..], InstAfter(rs[0], a), InstAfter(rs[0], b));
      if Decided(rs[1..]) == map[] {
        NothingDecided(rs[1..], InstAfter(rs[0], a));
        NothingDecided(rs[1..], InstAfter(rs[0], b));
      }
    }
  }

  lemma DecisionEmpty(r: Record)
    ensures Decision(r) == map[] <==> !r.Done?
  {
    if r.Done? {
      assert r.instance in Decision(r);
    }
  }

  lemma UnionEmpty(a: map<nat, string>, b: map<nat, string>)
    requires a + b == map[]
    ensures a == map[] && b == map[]
  {
    assert a.Keys + b.Keys == (a + b).Keys;
  }

  lemma {:induction false} NothingDecided(rs: seq<Record>, before: nat)
    requires Decided(rs) == map[]
    ensures LastInstance(rs, before) == before
    decreases |rs|
  {
    if rs != [] {
      UnionEmpty(Decision(rs[0]), Decided(rs[1..]));
      DecisionEmpty(rs[0]);
      NothingDecided(rs[1..], before);
    }
  }

  function Fresh(me: string): State {
    State(map[], 0, Prop(0, me), Prop(0, me), "")
  }

  /** The end of the constructor: the first node decides instance 1, unless the log had a decision. */
  function Started(st: State, first: bool, value: string): State {
    if first && st.instanceH == 0 then st.(values := st.values[1 := value], instanceH := 1) else st
  }

  function StartRecord(st: State, first: bool, value: string): seq<Record> {
    if first && st.instanceH == 0 then [Done(1, value)] else []
  }

  /** Nothing is proposed or accepted for the next instance. */
  predicate Unproposed(st: State) {
    st.nH.n == 0 && st.nA.n == 0 && st.vA == ""
  }

  /** Starting keeps log and state in agreement exactly if nothing was proposed when it decides instance 1. */
  lemma StartAgrees(rs: seq<Record>, st: State, first: bool, value: string)
    ensures var now := Fold(rs, st);
            Agree(Fold(rs + StartRecord(now, first, value), st), Started(now, first, value))
            <==> !first || now.instanceH != 0 || Unproposed(now)
  {
    var now := Fold(rs, st);
    if first && now.instanceH == 0 {
      FoldAppend(rs, Done(1, value), st);
    } else {
      assert rs + [] == rs;
    }
  }

  /** A log with a promise but no decision: the first node's start forgets it in the log and not in memory. */
  lemma StartCanDisagree(me: string, p: Prop, value: string)
    requires p.n > 0
    ensures var rs := [PropSeen(p)];
            var now := Fold(rs, Fresh(me));
            !Agree(Fold(rs + StartRecord(now, true, value), Fresh(me)), Started(now, true, value))
  {
    var rs := [PropSeen(p)];
    assert rs[1..] == [] && Fold(rs, Fresh(me)) == Apply(Fresh(me), PropSeen(p));
    StartAgrees(rs, Fresh(me), true, value);
  }

  /** The acceptor's durable part; `file` is the content of its log file, `base` the state under which it was read. */
  class Acceptor {
    const me: string
    var values: map<nat, string>
    var instanceH: nat
    var nH: Prop
    var nA: Prop
    var vA: string
    var file: string
    ghost var records: seq<Record>
    ghost var base: State

    function View(): State
      reads this
    {
      State(values, instanceH, nH, nA, vA)
    }

    /** The file lists the records. */
    ghost predicate Written()
      reads this
    {
      file == Text(records)
    }

    /** And replaying them gives the present state. */
    ghost predicate Valid()
      reads this
    {
      Written() && Agree(Fold(records, base), View())
    }

    /** The fields before the log is opened; `disk` is what the file holds. */
    constructor (name: string, disk: string)
      ensures me == name && base == View() == Fresh(name) && file == disk
    {
      me := name;
      values, instanceH, nH, nA, vA := map[], 0, Prop(0, name), Prop(0, name), "";
      file, records, base := disk, [], Fresh(name);
    }

    /**
     * The rest of the constructor: reads the log and lets the first node decide; `ok` is false where it
     * stops. `rs` are the records on the disk, if it has the text of any; `junk` is the uninitialised `instance`.
     */
    method Start(first: bool, value: string, junk: nat, ghost rs: seq<Record>) returns (ok: bool)
      modifies this
      ensures base == old(View()) && (ok <==> Replay(old(file), base, junk).Some?)
      ensures ok ==> View() == Started(Replay(old(file), base, junk).value, first, value)
      ensures AllPrintable(rs) && old(file) == Text(rs) ==>
                ok && Written() && records == rs + StartRecord(Fold(rs, base), first, value)
      ensures AllPrintable(rs) && old(file) == Text(rs) ==>
                (Valid() <==> !first || Fold(rs, base).instanceH != 0 || Unproposed(Fold(rs, base)))
    {
      base, records := View(), rs;
      ok := LogRead(junk);
      if AllPrintable(rs) && file == Text(rs) {
        ReplayFolds(rs, base, junk);
        StartAgrees(rs, base, first, value);
      }
      if ok {
        DecideFirst(first, value);
      }
    }

    method DecideFirst(first: bool, value: string)
      modifies this
      ensures View() == Started(old(View()), first, value) && base == old(base)
      ensures records == old(records) + StartRecord(old(View()), first, value) && (old(Written()) ==> Written())
      ensures file == old(file) + Text(StartRecord(old(View()), first, value))
    {
      if instanceH == 0 && first {
        values := values[1 := value];
        LogInstance(1, value);
        instanceH := 1;
      } else {
        assert file + "" == file && records + [] == records;
      }
    }

    /** Appends one record to the file; the acceptor itself is unchanged. */
    method LogInstance(i: nat, v: string)
      modifies this`file, this`records
      ensures records == old(records) + [Done(i, v)] && (old(Written()) ==> Written())
      ensures file == old(file) + Text([Done(i, v)])
    {
      file := file + "done" + " " + Digits(i) + " " + v + "\n";
      JoinedDone(old(file), Digits(i), v);
      AppendRecord(old(file), old(records), Done(i, v));
      records := records + [Done(i, v)];
    }

    method LogProp(p: Prop)
      modifies this`file, this`records
      ensures records == old(records) + [PropSeen(p)] && (old(Written()) ==> Written())
      ensures file == old(file) + Text([PropSeen(p)])
    {
      file := file + "propseen" + " " + Digits(p.n) + " " + p.m + "\n";
      JoinedProp(old(file), Digits(p.n), p.m);
      AppendRecord(old(file), old(records), PropSeen(p));
      records := records + [PropSeen(p)];
    }

    method LogAccept(p: Prop, v: string)
      modifies this`file, this`records
      ensures records == old(records) + [Accepted(p, v)] && (old(Written()) ==> Written())
      ensures file == old(file) + Text([Accepted(p, v)])
    {
      file := file + "accepted" + " " + Digits(p.n) + " " + p.m + " " + v + "\n";
      JoinedAccept(old(file), Digits(p.n), p.m, v);
      AppendRecord(old(file), old(records), Accepted(p, v));
      records := records + [Accepted(p, v)];
    }

    /** Overwrites the fields record by record; `ok` is false where the source stops on an unknown type word. */
    method LogRead(junk: nat) returns (ok: bool)
      modifies this`values, this`instanceH, this`nH, this`nA, this`vA
      ensures Replay(file, old(View()), junk) == if ok then Some(View()) else None
    {
      var from := file;
      var instance := junk;
      while true
        invariant Replay(from, View(), instance) == Replay(file, old(View()), junk)
        decreases |from|
      {
        var kind := GetWord(from);
        if kind.val == "" {
          return true;
        }
        ok, instance, from := LogReadOne(kind.val, kind.rest, instance);
        if !ok {
          return;
        }
      }
    }

    /** The body of the loop; a number that cannot be read still changes the fields. */
    method LogReadOne(kind: string, s: string, inst: nat) returns (ok: bool, instance: nat, from: string)
      modifies this`values, this`instanceH, this`nH, this`nA, this`vA
      ensures GetEntry(kind, s, old(View()), inst) == if ok then Some(Entry(View(), instance, from)) else None
    {
      ok, instance, from := true, inst, s;
      if kind == "done" {
        var n := TakeNumber(from, instance);
        instance := n.val;
        var v := GetRestOfLine(n.rest);
        values := values[instance := v.val];
        instanceH := instance;
        vA := "";
        nH, nA := nH.(n := 0), nA.(n := 0);
        from := v.rest;
      } else if kind == "propseen" {
        var n := TakeNumber(from, nH.n);
        nH := nH.(n := n.val);
        var m := TakeWord(n.rest, nH.m);
        nH := nH.(m := m.val);
        from := m.rest;
      } else if kind == "accepted" {
        var n := TakeNumber(from, nA.n);
        nA := nA.(n := n.val);
        var m := TakeWord(n.rest, nA.m);
        nA := nA.(m := m.val);
        var v := GetRestOfLine(m.rest);
        vA := v.val;
        from := v.rest;
      } else {
        ok := false;
      }
    }

    method DumpLog() returns (res: string)
      ensures res == Dump(file)
      ensures Ended(file) ==> res == file
    {
      res := "";
      var from := file;
      while from != ""
        invariant res + Dump(from) == Dump(file)
        decreases |from|
      {
        var v := from[..LineLen(from)];
        DumpLine(res, from);
        from := Drop(from, LineLen(from) + 1);
        res := res + v + "\n";
      }
      if Ended(file) {
        DumpSame(file);
      }
    }

    /** `rs` are the records of the text, if it is one of printable records. */
    method Restore(s: string, junk: nat, ghost rs: seq<Record>) returns (ok: bool)
      modifies this
      ensures file == s && Replay(s, old(View()), junk) == if ok then Some(View()) else None
      ensures AllPrintable(rs) && s == Text(rs) ==> ok && Valid() && records == rs && base == old(View())
      ensures AllPrintable(rs) && s == Text(rs) ==> values == old(values) + Decided(rs)
    {
      base, records := View(), rs;
      file := s;
      ok := LogRead(junk);
      if AllPrintable(rs) && s == Text(rs) {
        ReplayFolds(rs, base, junk);
        FoldDecides(rs, base);
      }
    }

    method CommitInstance(i: nat, v: string)
      requires Written()
      modifies this
      ensures Written() && (old(Valid()) ==> Valid()) && base == old(base)
      ensures View() == Committed(old(View()), me, i, v)
      ensures records == old(records) + Logged(old(View()), Commit(i, v))
    {
      if i > instanceH {
        CommitAgrees(records, base, View(), me, i, v);
      } else {
        assert records + [] == records;
      }
      if i > instanceH {
        values := values[i := v];
        LogInstance(i, v);
        instanceH := i;
        nH, nA, vA := Prop(0, me), Prop(0, me), "";
      }
    }

    /** `ok` is false where the source stops. */
    method DecideReq(i: nat, v: string) returns (ok: bool)
      requires Written()
      modifies this
      ensures ok <==> CanDo(old(View()), Decide(i, v))
      ensures Written() && (old(Valid()) ==> Valid()) && base == old(base)
      ensures View() == if ok then Do(old(View()), me, Decide(i, v)) else old(View())
      ensures records == old(records) + if ok then Logged(old(View()), Decide(i, v)) else []
    {
      assert records + [] == records;
      if i == instanceH + 1 {
        if vA != v {
          return false;
        }
        CommitInstance(i, vA);
      } else if i > instanceH {
        return false;
      }
      return true;
    }
  }

  /** A process that starts on the file of another finds the state which that one had. */
  method Restart(a: Acceptor, first: bool, value: string, junk: nat) returns (b: Acceptor)
    requires a.Valid() && a.base == Fresh(a.me) && AllPrintable(a.records) && (first ==> a.instanceH > 0)
    ensures b.file == a.file && b.Valid() && Agree(b.View(), a.View())
  {
    b := new Acceptor(a.me, a.file);
    ReplayFolds(a.records, a.base, junk);
    assert a.records + [] == a.records;
    var ok := b.Start(first, value, junk, a.records);
  }

  lemma AppendRecord(file: string, rs: seq<Record>, r: Record)
    ensures Text([r]) == Print(r, "") && (file == Text(rs) ==> file + Print(r, "") == Text(rs + [r]))
  {
    assert [r][1..] == [];
    TextAppend(rs, r);
  }

  /** The writers' chains of insertions, regrouped. */
  lemma JoinedDone(file: string, n: string, v: string)
    ensures file + "done" + " " + n + " " + v + "\n" == file + ("done" + (" " + (n + (" " + (v + ("\n" + ""))))))
  {
  }

  lemma JoinedProp(file: string, n: string, m: string)
    ensures file + "propseen" + " " + n + " " + m + "\n"
         == file + ("propseen" + (" " + (n + (" " + (m + ("\n" + ""))))))
  {
  }

  lemma JoinedAccept(file: string, n: string, m: string, v: string)
    ensures file + "accepted" + " " + n + " " + m + " " + v + "\n"
         == file + ("accepted" + (" " + (n + (" " + (m + (" " + (v + ("\n" + ""))))))))
  {
  }

  lemma DumpLine(res: string, from: string)
    requires from != ""
    ensures res + Dump(from) == res + from[..LineLen(from)] + "\n" + Dump(Drop(from, LineLen(from) + 1))
  {
    var line := from[..LineLen(from)] + "\n";
    Assoc(res, line, Dump(Drop(from, LineLen(from) + 1)));
    Assoc(res, from[..LineLen(from)], "\n");
  }
}
