/** A directory is one string, `inum:name;` for each entry, searched by substring. */
module Directory {
  import opened Decimal
  import T = LockTypes
  import opened StringSearch

  datatype Entry = Entry(inum: nat, name: string)

  // ----- the text -----

  function EntryText(e: Entry): string {
    Digits(e.inum) + ":" + e.name + ";"
  }

  function Text(es: seq<Entry>): string {
    if es == [] then "" else EntryText(es[0]) + Text(es[1..])
  }

  /** Free of the two separators. */
  predicate Plain(s: string) {
    forall i :: 0 <= i < |s| ==> s[i] != ':' && s[i] != ';'
  }

  predicate Proper(es: seq<Entry>) {
    forall i :: 0 <= i < |es| ==> Plain(es[i].name)
  }

  // ----- the operations -----

  datatype Status = OK | EXIST | IOERR | NOENT

  /** The last `;` before position `i`, or -1. */
  function Back(s: string, i: int): (r: int)
    requires -1 <= i < |s|
    ensures -1 <= r <= i && (r >= 0 ==> s[r] == ';') && forall k :: r < k <= i ==> s[k] != ';'
    decreases i
  {
    if i == -1 || s[i] == ';' then i else Back(s, i - 1)
  }

  /** One character less if the entry is the first (yfs_client.cc:226); at position 0 that is all of the text. */
  function InumText(s: string, p: nat): string
    requires p < |s|
  {
    var i := Back(s, p - 1);
    if i != -1 then s[i + 1..p] else if p == 0 then s else s[..p - 1]
  }

  datatype Found = Found(status: Status, inum: nat)

  function Lookup(s: string, name: string): Found {
    var p := Find(s, name + ";");
    if p != -1 then Found(OK, Number(InumText(s, p))) else Found(IOERR, 0)
  }

  datatype Result = Result(status: Status, text: string)

  function Create(s: string, name: string, inum: nat): Result {
    if Find(s, name) != -1 then Result(EXIST, s) else Result(OK, s + EntryText(Entry(inum, name)))
  }

  /**
   * Cuts from the first occurrence of the inum's digits to the `;` behind the name. The last case
   * has no meaning in the source; it does not arise for the text of a directory.
   */
  function Unlink(s: string, name: string): Result {
    var found := Lookup(s, name);
    if found.status != OK then Result(NOENT, s)
    else
      var p, q := Find(s, name + ";"), Find(s, Digits(found.inum));
      var end := FindFrom(s, ";", p);
      if 0 <= q <= end + 1 then Result(OK, s[..q] + s[end + 1..]) else Result(OK, s)
  }

  /** The cut of `unlink` on any text; nothing where it works with positions that are not there. */
  function CutName(s: string, name: string, inum: nat): T.Option<string> {
    var p, q := Find(s, name + ";"), Find(s, Digits(inum));
    if p == -1 || q == -1 then T.None
    else
      var end := FindFrom(s, ";", p);
      if q <= end + 1 then T.Some(s[..q] + s[end + 1..]) else T.None
  }

  /** `unlink` with what other clients may leave between its two locked regions. */
  function Raced(s: string, between: string, name: string): T.Option<Result> {
    var found := Lookup(s, name);
    if found.status != OK then T.Some(Result(NOENT, between))
    else
      match CutName(between, name, found.inum)
      case None => T.None
      case Some(text) => T.Some(Result(OK, text))
  }

  /** An entry holds the text in its name or in its digits. */
  predicate Mentions(e: Entry, t: string) {
    Contains(Digits(e.inum), t) || Contains(e.name, t)
  }

  predicate Mentioned(es: seq<Entry>, t: string) {
    exists i :: 0 <= i < |es| && Mentions(es[i], t)
  }

  lemma OneEntry(e: Entry, rest: string, t: string)
    requires Plain(t)
    ensures Contains(EntryText(e) + rest, t) <==> Mentions(e, t) || Contains(rest, t)
  {
    ContainsConcat(Digits(e.inum), ':', e.name + ";" + rest, t);
    ContainsConcat(e.name, ';', rest, t);
    assert EntryText(e) + rest == Digits(e.inum) + ":" + (e.name + ";" + rest);
  }

  lemma MentionedFirst(es: seq<Entry>, t: string)
    requires es != []
    ensures Mentioned(es, t) <==> Mentions(es[0], t) || Mentioned(es[1..], t)
  {
    if Mentioned(es, t) {
      var i :| 0 <= i < |es| && Mentions(es[i], t);
      assert i > 0 ==> es[1..][i - 1] == es[i];
    }
    if Mentioned(es[1..], t) {
      var i :| 0 <= i < |es| - 1 && Mentions(es[1..][i], t);
      assert es[i + 1] == es[1..][i];
    }
  }

  /** A text without separators is in the directory exactly if it is inside one name or one inum. */
  lemma {:induction false} TextContains(es: seq<Entry>, t: string)
    requires Plain(t) && t != ""
    ensures Contains(Text(es), t) <==> Mentioned(es, t)
    decreases |es|
  {
    if es != [] {
      TextContains(es[1..], t);
      OneEntry(es[0], Text(es[1..]), t);
      MentionedFirst(es, t);
    }
  }

  // ----- create -----

  /** `create` refuses exactly the names that occur inside a name or an inum, and the empty one. */
  lemma CreateExact(es: seq<Entry>, name: string, inum: nat)
    requires Plain(name)
    ensures var r := Create(Text(es), name, inum);
            if name == "" || Mentioned(es, name)
            then r == Result(EXIST, Text(es))
            else r == Result(OK, Text(es + [Entry(inum, name)]))
  {
    FindContains(Text(es), name);
    if name == "" {
      assert OccursAt(Text(es), name, 0);
    } else {
      TextContains(es, name);
    }
    TextAppend(es, [Entry(inum, name)]);
    OneText(Entry(inum, name));
  }

  lemma {:induction false} TextAppend(a: seq<Entry>, b: seq<Entry>)
    ensures Text(a + b) == Text(a) + Text(b)
    decreases |a|
  {
    if a == [] {
      assert a + b == b;
    } else {
      TextAppend(a[1..], b);
      assert (a + b)[1..] == a[1..] + b;
      assert EntryText(a[0]) + (Text(a[1..]) + Text(b)) == (EntryText(a[0]) + Text(a[1..])) + Text(b);
    }
  }

  lemma OneText(e: Entry)
    ensures Text([e]) == EntryText(e)
  {
    assert [e][1..] == [];
    assert EntryText(e) + "" == EntryText(e);
  }

  /** A free name is refused when it occurs inside another one. */
  lemma CreateRefusesFreeName()
    ensures Create(Text([Entry(7, "xfoo")]), "foo", 8).status == EXIST
  {
    CreateExact([Entry(7, "xfoo")], "foo", 8);
    assert OccursAt("xfoo", "foo", 1);
    assert Mentions([Entry(7, "xfoo")][0], "foo");
  }

  // ----- lookup -----

  predicate HasSuffix(n: string, name: string) {
    |name| <= |n| && n[|n| - |name|..] == name
  }

  /** The first entry whose name ends with `name`, or the number of entries. */
  function FirstWith(es: seq<Entry>, name: string): (k: nat)
    ensures k <= |es|
    ensures forall i :: 0 <= i < k ==> !HasSuffix(es[i].name, name)
    ensures k < |es| ==> HasSuffix(es[k].name, name)
  {
    if es == [] || HasSuffix(es[0].name, name) then 0
    else
      assert forall i :: 0 <= i < |es| - 1 ==> es[1..][i] == es[i + 1];
      1 + FirstWith(es[1..], name)
  }

  /** A match of `name` that ends at the first `;` ends at the end of `body`. */
  lemma MatchEnds(s: string, body: string, rest: string, name: string, p: nat)
    requires s == body + ";" + rest && ';' !in body && ';' !in name && p <= |body| && OccursAt(s, name + ";", p)
    ensures p == |body| - |name| && OccursAt(s, name, p)
  {
    var t := s[p..p + |name| + 1];
    SliceOfSlice(s, p, p + |name| + 1, 0, |name|);
    assert t[..|name|] == name;
    assert s[p + |name|] == t[|name|] == ';';
    NoSpan(body, ';', rest, name, p);
    assert forall k :: 0 <= k < |body| ==> s[k] == body[k];
  }

  /** In one entry, a name with its `;` occurs only at the end. */
  lemma NameOccurs(e: Entry, rest: string, name: string, p: nat)
    requires Plain(e.name) && Plain(name) && p < |EntryText(e)|
    ensures OccursAt(EntryText(e) + rest, name + ";", p)
       <==> HasSuffix(e.name, name) && p == |EntryText(e)| - 1 - |name|
  {
    var d, n := Digits(e.inum), e.name;
    DigitsPlain(e.inum);
    NameAtEnd(EntryText(e) + rest, d, n, rest, name, p);
  }

  lemma NameAtEnd(s: string, d: string, n: string, rest: string, name: string, p: nat)
    requires s == d + ":" + n + ";" + rest && Plain(d) && Plain(n) && Plain(name) && p <= |d| + 1 + |n|
    ensures OccursAt(s, name + ";", p) <==> HasSuffix(n, name) && p == |d| + 1 + |n| - |name|
  {
    var body := d + ":" + n;
    assert s == body + ";" + rest && s == d + ":" + (n + ";" + rest);
    if OccursAt(s, name + ";", p) {
      MatchEnds(s, body, rest, name, p);
      if p <= |d| {
        NoSpan(d, ':', n + ";" + rest, name, p);
      }
      assert n[|n| - |name|..] == s[p..p + |name|];
    }
    if HasSuffix(n, name) && p == |body| - |name| {
      assert n == n[..|n| - |name|] + name;
      assert s[p..p + |name| + 1] == name + ";";
    }
  }

  /** Where the last `|name|` characters of entry `k` are, or -1. */
  function NameStart(es: seq<Entry>, k: nat, name: string): int
    requires k <= |es|
  {
    if k == |es| then -1 else |Text(es[..k])| + |EntryText(es[k])| - 1 - |name|
  }

  lemma FindInEntry(e: Entry, rest: string, name: string)
    requires Plain(e.name) && Plain(name)
    ensures var p, q := Find(EntryText(e) + rest, name + ";"), Find(rest, name + ";");
            if HasSuffix(e.name, name) then p == |EntryText(e)| - 1 - |name|
            else p == if q == -1 then -1 else |EntryText(e)| + q
  {
    var s, n := EntryText(e) + rest, |EntryText(e)|;
    forall i: nat | i < n ensures OccursAt(s, name + ";", i) <==> HasSuffix(e.name, name) && i == n - 1 - |name| {
      NameOccurs(e, rest, name, i);
    }
    if HasSuffix(e.name, name) {
      FindIs(s, name + ";", 0, n - 1 - |name|);
    } else {
      FindShift(EntryText(e), rest, name + ";");
    }
  }

  lemma NextStart(es: seq<Entry>, k: nat, name: string)
    requires 0 < k <= |es| && FirstWith(es, name) == k
    ensures var n := NameStart(es[1..], k - 1, name);
            NameStart(es, k, name) == if n < 0 then n else |EntryText(es[0])| + n
  {
    if k < |es| {
      assert es[..k][1..] == es[1..][..k - 1];
    }
  }

  lemma {:induction false} FindName(es: seq<Entry>, name: string)
    requires Proper(es) && Plain(name)
    ensures Find(Text(es), name + ";") == NameStart(es, FirstWith(es, name), name)
    decreases |es|
  {
    if es != [] {
      var k := FirstWith(es, name);
      FindInEntry(es[0], Text(es[1..]), name);
      if k == 0 {
        assert es[..0] == [];
      } else {
        FindName(es[1..], name);
        NextStart(es, k, name);
      }
    }
  }

  lemma SplitText(es: seq<Entry>, k: nat)
    requires k < |es|
    ensures Text(es) == Text(es[..k]) + EntryText(es[k]) + Text(es[k + 1..])
    ensures Text(es[..k]) != "" ==> Text(es[..k])[|Text(es[..k])| - 1] == ';'
  {
    assert es == es[..k] + es[k..] && es[k..][1..] == es[k + 1..];
    TextAppend(es[..k], es[k..]);
    TextEnds(es[..k]);
  }

  lemma {:induction false} TextEnds(es: seq<Entry>)
    ensures es == [] <==> Text(es) == ""
    ensures es != [] ==> Text(es)[|Text(es)| - 1] == ';'
    decreases |es|
  {
    if es != [] {
      TextEnds(es[1..]);
    }
  }

  /** Going back from the end of `x` stops in front of it, if `x` has no `;`. */
  lemma BackOver(s: string, a: string, x: string, rest: string)
    requires s == a + x + rest && x != "" && ';' !in x && (a != "" ==> a[|a| - 1] == ';')
    ensures Back(s, |a| + |x| - 1) == |a| - 1 && s[|a|..|a| + |x|] == x
  {
    assert forall k :: |a| <= k < |a| + |x| ==> s[k] == x[k - |a|];
    BackIs(s, |a| + |x|, |a| - 1);
  }

  lemma InumTextIs(s: string, a: string, x: string, rest: string)
    requires s == a + x + rest && x != "" && rest != "" && ';' !in x && (a != "" ==> a[|a| - 1] == ';')
    ensures InumText(s, |a| + |x|) == if a == "" then x[..|x| - 1] else x
  {
    BackOver(s, a, x, rest);
    if a == "" {
      SliceOfSlice(s, 0, |x|, 0, |x| - 1);
    }
  }

  lemma InumOf(s: string, a: string, x: string, rest: string, inum: nat, tail: string, p: nat)
    requires s == a + x + rest && (a != "" ==> a[|a| - 1] == ';') && rest != "" && ';' !in x
    requires x == Digits(inum) + tail && tail != "" && tail[0] == ':' && p == |a| + |x|
    ensures Number(InumText(s, p)) == inum
  {
    InumTextIs(s, a, x, rest);
    NumberOfText(InumText(s, p), x, inum, tail);
  }

  /** With or without the last character of what follows it, the inum is read. */
  lemma NumberOfText(text: string, x: string, inum: nat, tail: string)
    requires x == Digits(inum) + tail && tail != "" && tail[0] == ':' && (text == x || text == x[..|x| - 1])
    ensures Number(text) == inum
  {
    if text == x {
      NumberOfDigits(inum, tail);
    } else {
      assert x[..|x| - 1] == Digits(inum) + tail[..|tail| - 1];
      NumberOfDigits(inum, tail[..|tail| - 1]);
    }
  }

  lemma EntrySplit(d: string, front: string, name: string)
    ensures d + ":" + (front + name) + ";" == (d + (":" + front)) + (name + ";")
  {
  }

  lemma Reassoc(a: string, x: string, y: string, b: string)
    ensures a + (x + y) + b == a + x + (y + b)
  {
  }

  /** An entry cut in front of the last part of its name. */
  lemma CutEntry(s: string, a: string, e: Entry, b: string, front: string, name: string)
    requires s == a + EntryText(e) + b && e.name == front + name
    ensures var x := Digits(e.inum) + (":" + front);
            s == a + x + (name + ";" + b) && |a + x| == |a| + |EntryText(e)| - 1 - |name|
  {
    EntrySplit(Digits(e.inum), front, name);
    Reassoc(a, Digits(e.inum) + (":" + front), name + ";", b);
  }

  lemma SuffixSplit(s: string, name: string)
    requires HasSuffix(s, name)
    ensures s == s[..|s| - |name|] + name
  {
  }

  /** The text in front of a name, back to the last `;`, starts with the inum of the entry. */
  lemma InumRead(s: string, a: string, e: Entry, b: string, name: string)
    requires s == a + EntryText(e) + b && Plain(e.name) && HasSuffix(e.name, name) && (a != "" ==> a[|a| - 1] == ';')
    ensures Number(InumText(s, |a| + |EntryText(e)| - 1 - |name|)) == e.inum
  {
    var front := e.name[..|e.name| - |name|];
    SuffixSplit(e.name, name);
    NoSemicolon(e.inum, e.name, |front|);
    InumBefore(s, a, e, b, front, name);
  }

  lemma InumBefore(s: string, a: string, e: Entry, b: string, front: string, name: string)
    requires s == a + EntryText(e) + b && e.name == front + name && (a != "" ==> a[|a| - 1] == ';')
    requires ';' !in Digits(e.inum) + (":" + front)
    ensures Number(InumText(s, |a| + |EntryText(e)| - 1 - |name|)) == e.inum
  {
    CutEntry(s, a, e, b, front, name);
    InumOf(s, a, Digits(e.inum) + (":" + front), name + ";" + b, e.inum, ":" + front,
           |a| + |EntryText(e)| - 1 - |name|);
  }

  lemma NoSemicolon(inum: nat, name: string, k: nat)
    requires Plain(name) && k <= |name|
    ensures ';' !in Digits(inum) + (":" + name[..k])
  {
    DigitsPlain(inum);
  }

  lemma BackIs(s: string, p: nat, i: int)
    requires -1 <= i < p <= |s| && (i >= 0 ==> s[i] == ';') && forall k :: i < k < p ==> s[k] != ';'
    ensures Back(s, p - 1) == i
  {
  }

  /** `lookup` finds the first entry whose name ends with the given one. */
  lemma LookupExact(es: seq<Entry>, name: string)
    requires Proper(es) && Plain(name)
    ensures var k := FirstWith(es, name);
            Lookup(Text(es), name) == if k < |es| then Found(OK, es[k].inum) else Found(IOERR, 0)
  {
    var k := FirstWith(es, name);
    FindName(es, name);
    if k < |es| {
      var a, b := Text(es[..k]), Text(es[k + 1..]);
      SplitText(es, k);
      InumRead(Text(es), a, es[k], b, name);
    }
  }

  /** A text that starts with the name: there is no entry in front, and all of the text is read as the inum. */
  lemma LookupAtFront(name: string, b: string)
    ensures Lookup(name + ";" + b, name) == Found(OK, Number(name + ";" + b))
  {
    var s := name + ";" + b;
    FindsFirst(s, name + ";", 0);
    assert s[0..|name + ";"|] == name + ";";
    assert OccursAt(s, name + ";", 0);
  }

  // ----- unlink -----

  function Without(es: seq<Entry>, k: nat): seq<Entry>
    requires k < |es|
  {
    es[..k] + es[k + 1..]
  }

  lemma DigitsPlain(n: nat)
    ensures Plain(Digits(n))
  {
  }

  lemma DigitsOccur(a: string, e: Entry, b: string)
    ensures OccursAt(a + (EntryText(e) + b), Digits(e.inum), |a|)
  {
    var s, tail := a + (EntryText(e) + b), EntryText(e) + b;
    assert s[|a|..|a| + |Digits(e.inum)|] == tail[..|Digits(e.inum)|] == Digits(e.inum);
  }

  lemma DigitsNotAcross(a: string, tail: string, ds: string, q: nat)
    requires a != "" && a[|a| - 1] == ';' && Plain(ds) && ds != "" && q < |a| && OccursAt(a + tail, ds, q)
    ensures Contains(a, ds)
  {
    var front := a[..|a| - 1];
    assert a + tail == front + ";" + tail;
    NoSpan(front, ';', tail, ds, q);
    OccursInside(a, tail, ds, q);
  }

  /** The digits of an entry are found at its start, or earlier if the text before it holds them. */
  lemma FindDigits(s: string, a: string, e: Entry, b: string)
    requires s == a + EntryText(e) + b && (a != "" ==> a[|a| - 1] == ';')
    ensures 0 <= Find(s, Digits(e.inum)) <= |a|
    ensures Find(s, Digits(e.inum)) == |a| <==> !Contains(a, Digits(e.inum))
  {
    var ds, tail := Digits(e.inum), EntryText(e) + b;
    assert s == a + tail;
    DigitsOccur(a, e, b);
    var q := Find(s, ds);
    FindsFirst(s, ds, 0);
    if Contains(a, ds) {
      var i :| 0 <= i <= |a| - |ds| && OccursAt(a, ds, i);
      OccursInside(a, tail, ds, i);
    } else if q < |a| {
      DigitsPlain(e.inum);
      DigitsNotAcross(a, tail, ds, q);
    }
  }

  lemma EndOfName(x: string, name: string, b: string)
    requires Plain(name)
    ensures FindFrom(x + name + ";" + b, ";", |x|) == |x| + |name|
  {
    var s, end := x + name + ";" + b, |x| + |name|;
    assert s[end..end + 1] == ";";
    assert OccursAt(s, ";", end);
    forall i | |x| <= i < end ensures !OccursAt(s, ";", i) {
      assert s[i] == name[i - |x|];
      assert s[i..i + 1][0] == s[i];
    }
    FindIs(s, ";", |x|, end);
  }

  /** The `;` behind a name is the end of its entry. */
  lemma FindEnd(s: string, a: string, e: Entry, b: string, name: string, p: nat)
    requires s == a + EntryText(e) + b && Plain(name) && HasSuffix(e.name, name)
    requires p == |a| + |EntryText(e)| - 1 - |name|
    ensures FindFrom(s, ";", p) == |a| + |EntryText(e)| - 1
  {
    var front := e.name[..|e.name| - |name|];
    var x := a + (Digits(e.inum) + (":" + front));
    SuffixSplit(e.name, name);
    CutEntry(s, a, e, b, front, name);
    assert s == x + name + ";" + b;
    EndOfName(x, name, b);
  }

  /** Where the digits of entry `k` are found first. */
  lemma DigitsFound(es: seq<Entry>, k: nat)
    requires k < |es|
    ensures 0 <= Find(Text(es), Digits(es[k].inum)) <= |Text(es[..k])| <= |Text(es)|
    ensures Find(Text(es), Digits(es[k].inum)) == |Text(es[..k])| <==> !Mentioned(es[..k], Digits(es[k].inum))
  {
    SplitText(es, k);
    FindDigits(Text(es), Text(es[..k]), es[k], Text(es[k + 1..]));
    DigitsPlain(es[k].inum);
    TextContains(es[..k], Digits(es[k].inum));
  }

  /** What `unlink` leaves: the text up to the first occurrence of the digits, and the later entries. */
  lemma UnlinkLeaves(es: seq<Entry>, name: string, k: nat, q: int)
    requires Proper(es) && Plain(name) && k == FirstWith(es, name) < |es| && q == Find(Text(es), Digits(es[k].inum))
    ensures 0 <= q <= |Text(es)| && Unlink(Text(es), name) == Result(OK, Text(es)[..q] + Text(es[k + 1..]))
  {
    LookupExact(es, name);
    FindName(es, name);
    SplitText(es, k);
    DigitsFound(es, k);
    CutAt(Text(es), Text(es[..k]), es[k], Text(es[k + 1..]), name);
  }

  lemma CutAt(s: string, a: string, e: Entry, b: string, name: string)
    requires s == a + EntryText(e) + b && Plain(name) && HasSuffix(e.name, name) && (a != "" ==> a[|a| - 1] == ';')
    requires Lookup(s, name) == Found(OK, e.inum) && Find(s, name + ";") == |a| + |EntryText(e)| - 1 - |name|
    ensures 0 <= Find(s, Digits(e.inum)) <= |a| && Unlink(s, name) == Result(OK, s[..Find(s, Digits(e.inum))] + b)
  {
    FindDigits(s, a, e, b);
    FindEnd(s, a, e, b, name, Find(s, name + ";"));
    assert s[|a| + |EntryText(e)|..] == b;
  }

  /** `unlink` removes one entry, or more than that exactly if an earlier entry holds the digits of its inum. */
  lemma UnlinkExact(es: seq<Entry>, name: string)
    requires Proper(es) && Plain(name)
    ensures var k, r := FirstWith(es, name), Unlink(Text(es), name);
            if k == |es| then r == Result(NOENT, Text(es))
            else
              && r.status == OK
              && (Mentioned(es[..k], Digits(es[k].inum)) <==> r.text != Text(Without(es, k)))
  {
    var k := FirstWith(es, name);
    if k < |es| {
      var q := Find(Text(es), Digits(es[k].inum));
      DigitsFound(es, k);
      UnlinkLeaves(es, name, k, q);
      LeavesWithout(es, k, q, Unlink(Text(es), name).text);
    } else {
      LookupExact(es, name);
    }
  }

  lemma LeavesWithout(es: seq<Entry>, k: nat, q: nat, text: string)
    requires k < |es| && q <= |Text(es[..k])| <= |Text(es)| && text == Text(es)[..q] + Text(es[k + 1..])
    ensures text == Text(Without(es, k)) <==> q == |Text(es[..k])|
  {
    var a, e, b := Text(es[..k]), EntryText(es[k]), Text(es[k + 1..]);
    TextAppend(es[..k], es[k + 1..]);
    SplitText(es, k);
    Join(a, e, b);
    CutText(Text(es), a, e + b, b, q);
  }

  lemma Join(a: string, e: string, b: string)
    ensures a + e + b == a + (e + b)
  {
  }

  lemma CutText(s: string, a: string, e: string, b: string, q: nat)
    requires s == a + e && q <= |a|
    ensures s[..q] + b == a + b <==> q == |a|
  {
    if q == |a| {
      assert s[..q] == a;
    } else {
      assert |s[..q] + b| < |a + b|;
    }
  }

  lemma SecondOfTwo(e: Entry, f: Entry, name: string)
    requires !HasSuffix(e.name, name) && HasSuffix(f.name, name) && Mentions(e, Digits(f.inum))
    requires Plain(e.name) && Plain(f.name) && Plain(name)
    ensures Unlink(Text([e, f]), name).text != Text([e])
  {
    var es := [e, f];
    assert es[1..] == [f] && FirstWith([f], name) == 0;
    assert FirstWith(es, name) == 1;
    assert es[..1] == [e] && [e][0] == e && Without(es, 1) == [e];
    UnlinkExact(es, name);
  }

  /** The digits of `b` occur in the name before it: unlinking `b` cuts into both entries. */
  lemma UnlinkCutsTooMuch()
    ensures Unlink(Text([Entry(1, "x7"), Entry(7, "b")]), "b").text != Text([Entry(1, "x7")])
  {
    assert Digits(7) == "7" && OccursAt("x7", "7", 1);
    SecondOfTwo(Entry(1, "x7"), Entry(7, "b"), "b");
  }

  // ----- the loops of the client -----

  /** The directory extent, between acquire and release of its lock. */
  class DirectoryExtent {
    var buffer: string

    constructor ()
      ensures buffer == ""
    {
      buffer := "";
    }

    /** `create` and `create_dir`, which differ only in the kind of inum. */
    method MakeEntry(name: string, inum: nat) returns (status: Status)
      modifies this
      ensures Result(status, buffer) == Create(old(buffer), name, inum)
    {
      if Find(buffer, name) != -1 {
        status := EXIST;
      } else {
        buffer := buffer + EntryText(Entry(inum, name));
        status := OK;
      }
    }

    method LookupName(name: string) returns (status: Status, inum: nat)
      ensures Found(status, inum) == Lookup(buffer, name)
    {
      var start := Find(buffer, name + ";");
      if start == -1 {
        return IOERR, 0;
      }
      var indexer := start - 1;
      while indexer != -1 && buffer[indexer] != ';'
        invariant -1 <= indexer < start
        invariant Back(buffer, indexer) == Back(buffer, start - 1)
        decreases indexer
      {
        indexer := indexer - 1;
      }
      var text;
      if indexer != -1 {
        text := buffer[indexer + 1..start];
      } else {
        text := if start == 0 then buffer else buffer[..start - 1];
      }
      return OK, Number(text);
    }

    /**
     * The lock is free between the lookup and the cut; `between` is what the directory holds by then. `defined`
     * is false where the source goes on with a position that it has not found.
     */
    method UnlinkName(name: string, between: string) returns (status: Status, defined: bool)
      modifies this
      ensures Raced(old(buffer), between, name) == if defined then T.Some(Result(status, buffer)) else T.None
    {
      var found, inum := LookupName(name);
      buffer := between;
      if found != OK {
        return NOENT, true;
      }
      status, defined := OK, false;
      var p, q := Find(buffer, name + ";"), Find(buffer, Digits(inum));
      if p != -1 && q != -1 {
        var end := FindSemicolon(buffer, p);
        if q <= end + 1 {
          defined := true;
          buffer := buffer[..q] + buffer[end + 1..];
        }
      }
    }

    static method FindSemicolon(s: string, p: nat) returns (end: int)
      requires p <= |s|
      ensures end == FindFrom(s, ";", p)
    {
      end := p;
      while end < |s| && s[end] != ';'
        invariant p <= end <= |s| && FindFrom(s, ";", p) == FindFrom(s, ";", end)
      {
        assert s[end..end + 1][0] == s[end];
        end := end + 1;
      }
      if end == |s| {
        end := -1;
      } else {
        assert s[end..end + 1] == ";";
      }
    }
  }
}
