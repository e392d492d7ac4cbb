/** Runs of create, create_dir and unlink on one directory. */
module DirectoryRuns {
  import opened Decimal
  import opened Directory
  import opened StringSearch

  /** The inums that the client makes: 32 bits, the top one set for files. */
  const MAX_INUM: nat := 0x1_0000_0000

  predicate IsFile(inum: nat) {
    0x8000_0000 <= inum < MAX_INUM
  }

  /** When an entry was made, no earlier one held its name; inums differ, and no name holds a file's digits. */
  predicate Clean(es: seq<Entry>) {
    && Proper(es)
    && (forall i :: 0 <= i < |es| ==> es[i].name != "" && es[i].inum < MAX_INUM)
    && (forall i, j :: 0 <= i < j < |es| ==> !Mentions(es[i], es[j].name))
    && (forall i, j :: 0 <= i < j < |es| ==> es[i].inum != es[j].inum)
    && (forall i, j :: 0 <= i < |es| && 0 <= j < |es| && IsFile(es[j].inum) ==>
          !Contains(es[i].name, Digits(es[j].inum)))
  }

  lemma SuffixContained(n: string, name: string)
    requires HasSuffix(n, name)
    ensures Contains(n, name)
  {
    assert OccursAt(n, name, |n| - |name|);
  }

  lemma FirstIsOwn(es: seq<Entry>, j: nat)
    requires Clean(es) && j < |es|
    ensures FirstWith(es, es[j].name) == j
  {
    var k := FirstWith(es, es[j].name);
    assert HasSuffix(es[j].name, es[j].name);
    if k < j {
      SuffixContained(es[k].name, es[j].name);
    }
  }

  /** A present name is looked up to its own inum. */
  lemma LookupOwn(es: seq<Entry>, j: nat)
    requires Clean(es) && j < |es|
    ensures Lookup(Text(es), es[j].name) == Found(OK, es[j].inum)
  {
    FirstIsOwn(es, j);
    LookupExact(es, es[j].name);
  }

  lemma FileDigits(m: nat, n: nat)
    requires m < MAX_INUM && IsFile(n) && m != n
    ensures !Contains(Digits(m), Digits(n))
  {
    TenDigits(m);
    TenDigits(n);
    if Contains(Digits(m), Digits(n)) {
      var i :| 0 <= i <= |Digits(m)| - |Digits(n)| && OccursAt(Digits(m), Digits(n), i);
      assert Digits(m)[0..0 + |Digits(n)|] == Digits(m);
      DigitsDistinct(m, n);
    }
  }

  lemma TenDigits(n: nat)
    requires n < MAX_INUM
    ensures |Digits(n)| <= 10 && (IsFile(n) ==> |Digits(n)| == 10)
  {
    assert Pow10(2) == 100 && Pow10(4) == 100 * Pow10(2) && Pow10(6) == 100 * Pow10(4);
    assert Pow10(8) == 100 * Pow10(6) && Pow10(10) == 100 * Pow10(8) && Pow10(10) == 10 * Pow10(9);
    DigitsLength(n, 10);
  }

  /** Unlinking a present file removes exactly its entry. */
  lemma UnlinkOwn(es: seq<Entry>, j: nat)
    requires Clean(es) && j < |es| && IsFile(es[j].inum)
    ensures Unlink(Text(es), es[j].name) == Result(OK, Text(Without(es, j)))
  {
    FirstIsOwn(es, j);
    UnlinkExact(es, es[j].name);
    forall i | 0 <= i < j ensures !Mentions(es[..j][i], Digits(es[j].inum)) {
      FileDigits(es[i].inum, es[j].inum);
    }
  }

  datatype Op = Make(name: string, inum: nat) | Remove(name: string)

  /** What the operations are meant to do to the list of entries. */
  function Meant(es: seq<Entry>, op: Op): seq<Entry> {
    match op
    case Make(name, inum) => if name == "" || Mentioned(es, name) then es else es + [Entry(inum, name)]
    case Remove(name) =>
      var k := FirstWith(es, name);
      if k < |es| then Without(es, k) else es
  }

  /** Fresh inums, names without separators or file inums, and no removal of a directory or of half a name. */
  predicate Allowed(es: seq<Entry>, op: Op) {
    match op
    case Make(name, inum) =>
      && Plain(name) && inum < MAX_INUM
      && (forall i :: 0 <= i < |es| ==> es[i].inum != inum)
      && (forall i :: 0 <= i < |es| && IsFile(es[i].inum) ==> !Contains(name, Digits(es[i].inum)))
      && (IsFile(inum) ==>
            !Contains(name, Digits(inum)) && forall i :: 0 <= i < |es| ==> !Contains(es[i].name, Digits(inum)))
    case Remove(name) =>
      && Plain(name)
      && var k := FirstWith(es, name);
         k == |es| || (es[k].name == name && IsFile(es[k].inum))
  }

  function Done(s: string, op: Op): string {
    match op
    case Make(name, inum) => Create(s, name, inum).text
    case Remove(name) => Unlink(s, name).text
  }

  predicate IsRun(es: seq<Entry>, ops: seq<Op>)
    decreases |ops|
  {
    ops == [] || (Allowed(es, ops[0]) && IsRun(Meant(es, ops[0]), ops[1..]))
  }

  function MeantAll(es: seq<Entry>, ops: seq<Op>): seq<Entry>
    decreases |ops|
  {
    if ops == [] then es else MeantAll(Meant(es, ops[0]), ops[1..])
  }

  function DoneAll(s: string, ops: seq<Op>): string
    decreases |ops|
  {
    if ops == [] then s else DoneAll(Done(s, ops[0]), ops[1..])
  }

  lemma MakeClean(es: seq<Entry>, name: string, inum: nat)
    requires Clean(es) && Allowed(es, Make(name, inum))
    ensures Clean(Meant(es, Make(name, inum)))
  {
    if name != "" && !Mentioned(es, name) {
      var now := es + [Entry(inum, name)];
      forall i, j | 0 <= i < j < |now| ensures !Mentions(now[i], now[j].name) && now[i].inum != now[j].inum {
        assert j == |es| ==> !Mentions(es[i], name);
      }
      forall i, j | 0 <= i < |now| && 0 <= j < |now| && IsFile(now[j].inum)
        ensures !Contains(now[i].name, Digits(now[j].inum))
      {
        assert i < |es| ==> now[i] == es[i];
        assert j < |es| ==> now[j] == es[j];
      }
    }
  }

  lemma WithoutClean(es: seq<Entry>, k: nat)
    requires Clean(es) && k < |es|
    ensures Clean(Without(es, k))
  {
    var now := Without(es, k);
    assert forall i :: 0 <= i < |now| ==> now[i] == es[if i < k then i else i + 1];
  }

  lemma StepMatches(es: seq<Entry>, op: Op)
    requires Clean(es) && Allowed(es, op)
    ensures Clean(Meant(es, op)) && Done(Text(es), op) == Text(Meant(es, op))
  {
    match op
    case Make(name, inum) =>
      MakeClean(es, name, inum);
      CreateExact(es, name, inum);
    case Remove(name) =>
      var k := FirstWith(es, name);
      if k < |es| {
        WithoutClean(es, k);
        UnlinkOwn(es, k);
      } else {
        UnlinkExact(es, name);
      }
  }

  /** In every allowed run the string is the text of the list that was meant. */
  lemma {:induction false} RunMatches(es: seq<Entry>, ops: seq<Op>)
    requires Clean(es) && IsRun(es, ops)
    ensures Clean(MeantAll(es, ops)) && DoneAll(Text(es), ops) == Text(MeantAll(es, ops))
    decreases |ops|
  {
    if ops != [] {
      StepMatches(es, ops[0]);
      RunMatches(Meant(es, ops[0]), ops[1..]);
    }
  }

  /** After any allowed run on an empty directory, every present name is looked up to its own inum. */
  lemma LookupAfterRun(ops: seq<Op>, j: nat)
    requires IsRun([], ops) && j < |MeantAll([], ops)|
    ensures Lookup(DoneAll("", ops), MeantAll([], ops)[j].name) == Found(OK, MeantAll([], ops)[j].inum)
  {
    RunMatches([], ops);
    LookupOwn(MeantAll([], ops), j);
  }

  /** Looking up an absent name finds the entry of a longer one. */
  lemma LookupFindsLongerName(e: Entry, name: string)
    requires Plain(e.name) && Plain(name) && HasSuffix(e.name, name)
    ensures Lookup(Text([e]), name) == Found(OK, e.inum)
  {
    assert FirstWith([e], name) == 0;
    LookupExact([e], name);
  }
}
