/** Unlink in two locked regions: what it does to a directory that changed between them. */
module DirectoryRace {
  import opened Decimal
  import opened Directory
  import opened LockTypes
  import opened StringSearch

  /** Digits occur at the start of an entry exactly if its own digits begin with them. */
  lemma DigitsAtEntry(a: string, e: Entry, b: string, inum: nat)
    ensures OccursAt(a + (EntryText(e) + b), Digits(inum), |a|) <==> Digits(inum) <= Digits(e.inum)
  {
    var ds, own := Digits(inum), Digits(e.inum);
    var s := a + (EntryText(e) + b);
    assert s == a + (own + (":" + (e.name + ";" + b)));
    OwnDigits(a, own, ":" + (e.name + ";" + b), ds);
  }

  lemma OwnDigits(a: string, own: string, rest: string, ds: string)
    requires rest != "" && rest[0] == ':' && ':' !in ds
    ensures OccursAt(a + (own + rest), ds, |a|) <==> ds <= own
  {
    var s := a + (own + rest);
    assert s[|a| + |own|] == ':';
    if ds <= own {
      assert s[|a|..|a| + |ds|] == own[..|ds|] == ds;
    }
    if OccursAt(s, ds, |a|) {
      assert forall j :: 0 <= j < |ds| ==> ds[j] == s[|a|..|a| + |ds|][j] == s[|a| + j];
      assert |ds| <= |own|;
      assert own[..|ds|] == ds;
    }
  }

  /** The digits are found first at an entry exactly if they begin its digits and no earlier entry holds them. */
  lemma FoundAtEntry(es: seq<Entry>, k: nat, inum: nat)
    requires k < |es|
    ensures Find(Text(es), Digits(inum)) == |Text(es[..k])| <==>
            Digits(inum) <= Digits(es[k].inum) && !Mentioned(es[..k], Digits(inum))
  {
    var a, e, b := Text(es[..k]), es[k], Text(es[k + 1..]);
    SplitText(es, k);
    Join(a, EntryText(e), b);
    DigitsPlain(inum);
    TextContains(es[..k], Digits(inum));
    DigitsAtEntry(a, e, b, inum);
    FirstAt(a, EntryText(e) + b, Digits(inum));
  }

  lemma FirstAt(a: string, tail: string, ds: string)
    requires (a != "" ==> a[|a| - 1] == ';') && Plain(ds) && ds != ""
    ensures Find(a + tail, ds) == |a| <==> OccursAt(a + tail, ds, |a|) && !Contains(a, ds)
  {
    var s := a + tail;
    FindsFirst(s, ds, 0);
    if Contains(a, ds) {
      var i :| 0 <= i <= |a| - |ds| && OccursAt(a, ds, i);
      OccursInside(a, tail, ds, i);
    } else if OccursAt(s, ds, |a|) {
      var q := Find(s, ds);
      if q < |a| {
        DigitsNotAcross(a, tail, ds, q);
      }
    }
  }

  lemma CutLength(s: string, a: string, e: string, b: string, q: nat)
    requires s == a + (e + b) && q <= |a| + |e|
    ensures s[..q] + b == a + b <==> q == |a|
  {
    if q == |a| {
      assert s[..q] == a;
    } else {
      assert |s[..q] + b| != |a + b|;
    }
  }

  /** What the cut leaves of a directory that has the name. */
  lemma CutLeaves(es: seq<Entry>, name: string, k: nat, inum: nat)
    requires Proper(es) && Plain(name) && k == FirstWith(es, name) < |es|
    ensures var s, q, end := Text(es), Find(Text(es), Digits(inum)), |Text(es[..k])| + |EntryText(es[k])|;
            && end <= |s| && s[end..] == Text(es[k + 1..])
            && CutName(s, name, inum) == if 0 <= q <= end then Some(s[..q] + s[end..]) else None
  {
    var a, e, b := Text(es[..k]), es[k], Text(es[k + 1..]);
    FindName(es, name);
    SplitText(es, k);
    FindEnd(Text(es), a, e, b, name, Find(Text(es), name + ";"));
    assert Text(es)[|a| + |EntryText(e)|..] == b;
  }

  /** The cut removes exactly the entry of the name if and only if the inum's digits are found first at its start. */
  lemma CutExact(es: seq<Entry>, name: string, k: nat, inum: nat)
    requires Proper(es) && Plain(name) && k == FirstWith(es, name) < |es|
    ensures CutName(Text(es), name, inum) == Some(Text(Without(es, k))) <==>
            Digits(inum) <= Digits(es[k].inum) && !Mentioned(es[..k], Digits(inum))
  {
    var a, e, b := Text(es[..k]), EntryText(es[k]), Text(es[k + 1..]);
    var q := Find(Text(es), Digits(inum));
    CutLeaves(es, name, k, inum);
    FoundAtEntry(es, k, inum);
    TextAppend(es[..k], es[k + 1..]);
    SplitText(es, k);
    Join(a, e, b);
    if 0 <= q <= |a| + |e| {
      CutLength(Text(es), a, e, b, q);
    }
  }

  /** The digits occur up to the end of the entry exactly if one of the entries so far holds them. */
  lemma FoundByEntry(es: seq<Entry>, k: nat, inum: nat)
    requires k < |es|
    ensures 0 <= Find(Text(es), Digits(inum)) < |Text(es[..k])| + |EntryText(es[k])| <==>
            Mentioned(es[..k + 1], Digits(inum))
  {
    var front, b, ds := Text(es[..k + 1]), Text(es[k + 1..]), Digits(inum);
    FrontText(es, k);
    DigitsPlain(inum);
    TextContains(es[..k + 1], ds);
    FoundInFront(front, b, ds);
  }

  lemma FrontText(es: seq<Entry>, k: nat)
    requires k < |es|
    ensures Text(es) == Text(es[..k + 1]) + Text(es[k + 1..])
    ensures |Text(es[..k + 1])| == |Text(es[..k])| + |EntryText(es[k])| > 0
    ensures Text(es[..k + 1])[|Text(es[..k + 1])| - 1] == ';'
  {
    assert es == es[..k + 1] + es[k + 1..];
    TextAppend(es[..k + 1], es[k + 1..]);
    assert es[..k + 1] == es[..k] + [es[k]];
    TextAppend(es[..k], [es[k]]);
    OneText(es[k]);
    TextEnds(es[..k + 1]);
  }

  lemma FoundInFront(a: string, tail: string, ds: string)
    requires a != "" && a[|a| - 1] == ';' && Plain(ds) && ds != "" && (tail == "" ==> !OccursAt(a + tail, ds, |a|))
    ensures 0 <= Find(a + tail, ds) < |a| <==> Contains(a, ds)
  {
    var s := a + tail;
    FindsFirst(s, ds, 0);
    var q := Find(s, ds);
    if Contains(a, ds) {
      var i :| 0 <= i <= |a| - |ds| && OccursAt(a, ds, i);
      OccursInside(a, tail, ds, i);
    } else if 0 <= q < |a| {
      DigitsNotAcross(a, tail, ds, q);
    }
  }

  /** The digits are first found at the start of the entry behind. */
  predicate StartsNext(es: seq<Entry>, k: nat, ds: string) {
    k + 1 < |es| && ds <= Digits(es[k + 1].inum) && !Mentioned(es[..k + 1], ds)
  }

  lemma FoundBehind(es: seq<Entry>, k: nat, inum: nat)
    requires k < |es|
    ensures Find(Text(es), Digits(inum)) == |Text(es[..k])| + |EntryText(es[k])| <==> StartsNext(es, k, Digits(inum))
  {
    FrontText(es, k);
    if k + 1 < |es| {
      FoundAtEntry(es, k + 1, inum);
    } else {
      assert es[k + 1..] == [];
      FindsFirst(Text(es), Digits(inum), 0);
    }
  }

  /**
   * The cut on a directory that has the name. If no entry up to it holds the digits, the source removes nothing
   * when they start the entry behind, and otherwise goes on with positions that are not there or out of order. If
   * one does, it cuts from the first place of the digits to the end of the entry.
   */
  lemma CutCases(es: seq<Entry>, name: string, k: nat, inum: nat)
    requires Proper(es) && Plain(name) && k == FirstWith(es, name) < |es|
    ensures var ds, q, cut := Digits(inum), Find(Text(es), Digits(inum)), CutName(Text(es), name, inum);
            if Mentioned(es[..k + 1], ds) then
              0 <= q <= |Text(es)| && cut == Some(Text(es)[..q] + Text(es[k + 1..]))
            else if StartsNext(es, k, ds) then cut == Some(Text(es))
            else cut == None
  {
    var s, q, end := Text(es), Find(Text(es), Digits(inum)), |Text(es[..k])| + |EntryText(es[k])|;
    CutLeaves(es, name, k, inum);
    FoundByEntry(es, k, inum);
    FoundBehind(es, k, inum);
    if q == end {
      assert s[..q] + s[end..] == s;
    }
  }

  /**
   * `unlink` of a name that was there at the lookup. If it is gone by the second region, the source goes on with
   * a position that is not there. Otherwise it cuts as above, and removes exactly the entry that has the name by
   * then if and only if that entry's inum begins with the digits of the one looked up and no entry before it
   * holds them.
   */
  lemma RacedUnlink(before: seq<Entry>, es: seq<Entry>, name: string)
    requires Proper(before) && Proper(es) && Plain(name) && FirstWith(before, name) < |before|
    ensures var inum := before[FirstWith(before, name)].inum;
            var k, r := FirstWith(es, name), Raced(Text(before), Text(es), name);
            if k == |es| then r == None
            else
              var cut := CutName(Text(es), name, inum);
              && r == (if cut.Some? then Some(Result(Status.OK, cut.value)) else None)
              && (cut == Some(Text(Without(es, k))) <==>
                  Digits(inum) <= Digits(es[k].inum) && !Mentioned(es[..k], Digits(inum)))
  {
    LookupExact(before, name);
    var k := FirstWith(es, name);
    if k == |es| {
      FindName(es, name);
    } else {
      CutExact(es, name, k, before[FirstWith(before, name)].inum);
    }
  }

  /** A name that is not there at the lookup: the answer is NOENT, and whatever is there by then stays. */
  lemma AbsentUnlink(before: seq<Entry>, between: string, name: string)
    requires Proper(before) && Plain(name) && FirstWith(before, name) == |before|
    ensures Raced(Text(before), between, name) == Some(Result(Status.NOENT, between))
  {
    LookupExact(before, name);
  }

  /** On an unchanged directory it is the undisturbed unlink. */
  lemma UndisturbedRace(es: seq<Entry>, name: string)
    requires Proper(es) && Plain(name)
    ensures Raced(Text(es), Text(es), name) == Some(Unlink(Text(es), name))
  {
    var k := FirstWith(es, name);
    if k == |es| {
      AbsentUnlink(es, Text(es), name);
      UnlinkExact(es, name);
    } else {
      LookupExact(es, name);
      DigitsFound(es, k);
      CutLeaves(es, name, k, es[k].inum);
      UnlinkLeaves(es, name, k, Find(Text(es), Digits(es[k].inum)));
    }
  }

  /** The name was unlinked by somebody else in between. */
  lemma RaceGoesWrong(e: Entry)
    requires Plain(e.name)
    ensures Raced(Text([e]), Text([]), e.name) == None
  {
    assert FirstWith([e], e.name) == 0;
    RacedUnlink([e], [], e.name);
  }
}
