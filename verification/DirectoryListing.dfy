/** The loop of readdir that splits a directory into its entries. */
module DirectoryListing {
  import opened Decimal
  import opened Directory
  import opened LockTypes
  import opened StringSearch

  /** How far the first `k` entries reach. */
  function Offset(es: seq<Entry>, k: nat): nat
    requires k <= |es|
  {
    |Text(es[..k])|
  }

  lemma NextOffset(es: seq<Entry>, k: nat)
    requires k < |es|
    ensures Offset(es, k + 1) == Offset(es, k) + |EntryText(es[k])| <= |Text(es)|
    ensures Text(es)[Offset(es, k)..Offset(es, k + 1)] == EntryText(es[k])
  {
    SplitText(es, k);
    OneText(es[k]);
    assert es[..k + 1] == es[..k] + [es[k]];
    TextAppend(es[..k], [es[k]]);
    Middle(Text(es), Text(es[..k]), EntryText(es[k]), Text(es[k + 1..]));
  }

  /** The separators and the parts of an entry that stands at `o`. */
  lemma PartChars(s: string, o: nat, d: string, name: string, i: nat)
    requires Plain(d) && Plain(name) && o <= i < o + |d| + |name| + 2 <= |s|
    requires s[o..o + |d| + |name| + 2] == d + ":" + name + ";"
    ensures s[i] == ':' <==> i == o + |d|
    ensures s[i] == ';' <==> i == o + |d| + 1 + |name|
    ensures s[o..o + |d|] == d && s[o + |d| + 1..o + |d| + 1 + |name|] == name
  {
    var part := s[o..o + |d| + |name| + 2];
    assert s[i] == part[i - o];
    assert part[..|d|] == d && part[|d| + 1..|d| + 1 + |name|] == name;
    SliceOfSlice(s, o, o + |d| + |name| + 2, 0, |d|);
    SliceOfSlice(s, o, o + |d| + |name| + 2, |d| + 1, |d| + 1 + |name|);
  }

  /** What `readdir` hands to `dirbuf_add`, the inum still as text. */
  datatype Item = Item(inum: string, name: string)

  /** The loop from position `i` on any text; nothing where it would use `delim_pos` before setting it. */
  function Listed(s: string, i: nat, start: int, delim: Option<nat>, inumText: string): Option<seq<Item>>
    requires i <= |s| && -1 <= start < i && (delim.Some? ==> delim.value < i)
    decreases |s| - i
  {
    if i == |s| then Some([])
    else if s[i] == ':' then Listed(s, i + 1, start, Some(i), s[start + 1..i])
    else if s[i] == ';' then
      if delim.None? then None
      else Before([Item(inumText, s[delim.value + 1..i])], Listed(s, i + 1, i, delim, inumText))
    else Listed(s, i + 1, start, delim, inumText)
  }

  function Before(list: seq<Item>, rest: Option<seq<Item>>): Option<seq<Item>> {
    if rest.None? then None else Some(list + rest.value)
  }

  function Listing(s: string): Option<seq<Item>> {
    Listed(s, 0, -1, None, "")
  }

  lemma BeforeNothing(list: seq<Item>, rest: Option<seq<Item>>)
    ensures Before([], rest) == rest && Before(list, Some([])) == Some(list)
  {
    assert rest.Some? ==> [] + rest.value == rest.value;
    assert list + [] == list;
  }

  lemma BeforeBoth(a: seq<Item>, b: seq<Item>, rest: Option<seq<Item>>)
    ensures Before(a, Before(b, rest)) == Before(a + b, rest)
  {
    if rest.Some? {
      assert a + (b + rest.value) == (a + b) + rest.value;
    }
  }

  lemma {:induction false} SetDelimLists(s: string, i: nat, start: int, delim: nat, inumText: string)
    requires i <= |s| && -1 <= start < i && delim < i
    ensures Listed(s, i, start, Some(delim), inumText).Some?
    decreases |s| - i
  {
    if i < |s| {
      if s[i] == ':' {
        SetDelimLists(s, i + 1, start, i, s[start + 1..i]);
      } else if s[i] == ';' {
        SetDelimLists(s, i + 1, i, delim, inumText);
      } else {
        SetDelimLists(s, i + 1, start, delim, inumText);
      }
    }
  }

  // ----- the same without the loop's variables -----

  /** The last colon before position `i`. */
  function LastColon(s: string, i: nat): (d: Option<nat>)
    requires i <= |s|
    ensures d.Some? ==> d.value < i
  {
    if i == 0 then None else if s[i - 1] == ':' then Some(i - 1) else LastColon(s, i - 1)
  }

  /** The last semicolon before position `i`, or -1. */
  function LastSemicolon(s: string, i: nat): (r: int)
    requires i <= |s|
    ensures -1 <= r < i
  {
    if i == 0 then -1 else if s[i - 1] == ';' then i - 1 else LastSemicolon(s, i - 1)
  }

  /** The text between a colon and the semicolon before it. */
  function InumBefore(s: string, d: nat): string
    requires d <= |s|
  {
    s[LastSemicolon(s, d) + 1..d]
  }

  /** The entry that ends at a semicolon: around the last colon, and back to the semicolon before that. */
  function ItemAt(s: string, i: nat): Item
    requires i <= |s| && LastColon(s, i).Some?
  {
    var d := LastColon(s, i).value;
    Item(InumBefore(s, d), s[d + 1..i])
  }

  /** One entry for each semicolon. */
  function ItemsFrom(s: string, i: nat): Option<seq<Item>>
    requires i <= |s|
    decreases |s| - i
  {
    if i == |s| then Some([])
    else if s[i] != ';' then ItemsFrom(s, i + 1)
    else if LastColon(s, i).None? then None
    else Before([ItemAt(s, i)], ItemsFrom(s, i + 1))
  }

  /** The inum text that the loop holds at position `i`. */
  function InumHeld(s: string, i: nat): string
    requires i <= |s|
  {
    match LastColon(s, i)
    case None => ""
    case Some(d) => InumBefore(s, d)
  }

  lemma LastsNext(s: string, i: nat)
    requires i < |s|
    ensures LastSemicolon(s, i + 1) == if s[i] == ';' then i else LastSemicolon(s, i)
    ensures LastColon(s, i + 1) == if s[i] == ':' then Some(i) else LastColon(s, i)
    ensures InumHeld(s, i + 1) == if s[i] == ':' then InumBefore(s, i) else InumHeld(s, i)
  {
  }

  lemma {:induction false} ListedItems(s: string, i: nat)
    requires i <= |s|
    ensures Listed(s, i, LastSemicolon(s, i), LastColon(s, i), InumHeld(s, i)) == ItemsFrom(s, i)
    decreases |s| - i
  {
    if i < |s| {
      LastsNext(s, i);
      ListedItems(s, i + 1);
    }
  }

  /** On any text, the listing has one entry for each semicolon, given by the separators before it. */
  lemma ListingExact(s: string)
    ensures Listing(s) == ItemsFrom(s, 0)
  {
    ListedItems(s, 0);
  }

  /** A semicolon with no colon before it. */
  predicate Early(s: string, j: nat) {
    j < |s| && s[j] == ';' && ':' !in s[..j]
  }

  lemma {:induction false} UnsetDelimFails(s: string, i: nat, start: int, inumText: string)
    requires i <= |s| && -1 <= start < i && ':' !in s[..i] && ';' !in s[..i]
    ensures Listed(s, i, start, None, inumText).None? <==> exists j: nat :: Early(s, j)
    decreases |s| - i
  {
    if i < |s| {
      assert s[..i + 1] == s[..i] + [s[i]];
      if s[i] == ':' {
        SetDelimLists(s, i + 1, start, i, s[start + 1..i]);
        forall j: nat ensures !Early(s, j) {
          if i < j < |s| {
            assert s[i] in s[..j] by { assert s[..j][i] == s[i]; }
          } else if j < i {
            assert s[..i][j] == s[j];
          }
        }
      } else if s[i] == ';' {
        assert Early(s, i);
      } else {
        UnsetDelimFails(s, i + 1, start, inumText);
      }
    } else {
      forall j: nat ensures !Early(s, j) {
        if j < |s| {
          assert s[..i][j] == s[j];
        }
      }
    }
  }

  /** On any text, the listing is undefined exactly if a semicolon has no colon before it. */
  lemma ListingFailsIff(s: string)
    ensures Listing(s).None? <==> exists j: nat :: Early(s, j)
  {
    UnsetDelimFails(s, 0, -1, "");
  }

  /** The state of the `readdir` loop at position `i`, inside the entry `e` that stands at `o`. */
  predicate Scanning(e: Entry, o: nat, i: nat, start: int, delim: Option<nat>, inumText: string) {
    var n := |Digits(e.inum)|;
    && start == o - 1
    && o <= i < o + n + |e.name| + 2
    && (i > o + n ==> delim == Some(o + n) && inumText == Digits(e.inum))
  }

  /** What the loop sees at position `i`: an inum ends at `:`, an entry ends at `;`. */
  lemma ScanStep(s: string, e: Entry, o: nat, i: nat, start: int, delim: Option<nat>, inumText: string)
    requires Plain(e.name) && Scanning(e, o, i, start, delim, inumText)
    requires o + |EntryText(e)| <= |s| && s[o..o + |EntryText(e)|] == EntryText(e)
    ensures 0 <= start + 1 <= i < |s|
    ensures s[i] == ':' ==> s[start + 1..i] == Digits(e.inum) && Scanning(e, o, i + 1, start, Some(i), Digits(e.inum))
    ensures s[i] == ';' ==>
              && i + 1 == o + |EntryText(e)|
              && delim.Some? && delim.value < i && s[delim.value + 1..i] == e.name && inumText == Digits(e.inum)
    ensures s[i] != ':' && s[i] != ';' ==> Scanning(e, o, i + 1, start, delim, inumText)
  {
    DigitsPlain(e.inum);
    PartChars(s, o, Digits(e.inum), e.name, i);
  }

  function ItemOf(e: Entry): Item {
    Item(Digits(e.inum), e.name)
  }

  function Items(es: seq<Entry>): seq<Item> {
    if es == [] then [] else [ItemOf(es[0])] + Items(es[1..])
  }

  /** The loop invariant of `readdir`: `k` entries are done, and position `i` is inside the next. */
  ghost predicate InEntry(es: seq<Entry>, k: nat, i: nat, start: int, delim: Option<nat>, inumText: string) {
    && k <= |es|
    && (k == |es| ==> i == |Text(es)|)
    && (k < |es| ==> Scanning(es[k], Offset(es, k), i, start, delim, inumText))
  }

  lemma ScanStart(es: seq<Entry>)
    ensures InEntry(es, 0, 0, -1, None, "")
  {
    assert es[..0] == [];
  }

  lemma ScanNext(es: seq<Entry>, k: nat, i: nat, start: int, delim: Option<nat>, inumText: string)
    requires Proper(es) && InEntry(es, k, i, start, delim, inumText) && i < |Text(es)|
    ensures k < |es| && 0 <= start + 1 <= i
    ensures var s := Text(es);
            if s[i] == ':' then InEntry(es, k, i + 1, start, Some(i), s[start + 1..i])
            else if s[i] == ';' then
              && delim.Some? && delim.value < i && Item(inumText, s[delim.value + 1..i]) == ItemOf(es[k])
              && InEntry(es, k + 1, i + 1, i, delim, inumText)
            else InEntry(es, k, i + 1, start, delim, inumText)
  {
    NextOffset(es, k);
    ScanStep(Text(es), es[k], Offset(es, k), i, start, delim, inumText);
    assert es[..|es|] == es;
  }

  lemma ScanEnd(es: seq<Entry>, k: nat, start: int, delim: Option<nat>, inumText: string)
    requires InEntry(es, k, |Text(es)|, start, delim, inumText)
    ensures es[..k] == es
  {
    if k < |es| {
      NextOffset(es, k);
    }
  }

  lemma {:induction false} ListedFrom(es: seq<Entry>, k: nat, i: nat, start: int, delim: Option<nat>, inumText: string)
    requires Proper(es) && InEntry(es, k, i, start, delim, inumText)
    requires i <= |Text(es)| && -1 <= start < i && (delim.Some? ==> delim.value < i)
    ensures Listed(Text(es), i, start, delim, inumText) == Some(Items(es[k..]))
    decreases |Text(es)| - i
  {
    var s := Text(es);
    if i < |s| {
      ScanNext(es, k, i, start, delim, inumText);
      if s[i] == ':' {
        ListedFrom(es, k, i + 1, start, Some(i), s[start + 1..i]);
      } else if s[i] == ';' {
        ListedFrom(es, k + 1, i + 1, i, delim, inumText);
        assert es[k..][1..] == es[k + 1..];
      } else {
        ListedFrom(es, k, i + 1, start, delim, inumText);
      }
    } else {
      ScanEnd(es, k, start, delim, inumText);
      assert es[k..] == [];
    }
  }

  /** The listing of a directory is its entries, in order, with their inums in decimal. */
  lemma ListingOfText(es: seq<Entry>)
    requires Proper(es)
    ensures Listing(Text(es)) == Some(Items(es))
    ensures |Items(es)| == |es|
    ensures forall k :: 0 <= k < |es| ==> Items(es)[k].name == es[k].name && Number(Items(es)[k].inum) == es[k].inum
  {
    ScanStart(es);
    ListedFrom(es, 0, 0, -1, None, "");
    assert es[0..] == es;
    ItemsAt(es);
    forall k | 0 <= k < |es| ensures Number(Items(es)[k].inum) == es[k].inum {
      NumberOfDigits(es[k].inum, "");
      assert Digits(es[k].inum) + "" == Digits(es[k].inum);
    }
  }

  lemma {:induction false} ItemsAt(es: seq<Entry>)
    ensures |Items(es)| == |es| && forall k :: 0 <= k < |es| ==> Items(es)[k] == ItemOf(es[k])
    decreases |es|
  {
    if es != [] {
      ItemsAt(es[1..]);
    }
  }

  /** The splitting loop of `readdir`; `ok` is false where it would use an unset variable. */
  method ReadDir(buffer: string) returns (ok: bool, list: seq<Item>)
    ensures Listing(buffer) == if ok then Some(list) else None
  {
    ok, list := true, [];
    var start: int, delim: Option<nat>, inumText := -1, None, "";
    BeforeNothing([], Listing(buffer));
    for i := 0 to |buffer|
      invariant -1 <= start < i && (delim.Some? ==> delim.value < i)
      invariant Listing(buffer) == Before(list, Listed(buffer, i, start, delim, inumText))
    {
      if buffer[i] == ':' {
        delim := Some(i);
        inumText := buffer[start + 1..i];
      }
      if buffer[i] == ';' {
        if delim.None? {
          return false, [];
        }
        var item := Item(inumText, buffer[delim.value + 1..i]);
        BeforeBoth(list, [item], Listed(buffer, i + 1, i, delim, inumText));
        list := list + [item];
        start := i;
      }
    }
    BeforeNothing(list, None);
  }
}
