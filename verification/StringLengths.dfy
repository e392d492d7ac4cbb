/** When reading bytes that nobody wrote goes outside the buffer: exactly at a string length that wraps around. */
module StringLengths {
  import opened Marshalling
  import opened Messages

  /** The index is inside a buffer whose size is an `int`. */
  predicate Inside(u: Reader) {
    u.ind <= |u.buf| < MAX_SIZE
  }

  /** The length word that comes next takes the 32-bit end of the string back into the buffer. */
  predicate Wraps(u: Reader) {
    var n := GetNum(u, WORD_SZ);
    n.rest.ok && WORD <= n.rest.ind + n.val <= WORD + |u.buf|
  }

  /** Reading a value of the type comes to such a length word. */
  predicate MeetsWrap(u: Reader, t: Type, less: Order)
    decreases t
  {
    match t
    case Bool => false
    case Num(_, _) => false
    case Str => Wraps(u)
    case Vec(_) => ItemsMeetWrap(GetNum(u, WORD_SZ).rest, t, less, GetNum(u, WORD_SZ).val)
    case Map(_, _) => PairsMeetWrap(GetNum(u, WORD_SZ).rest, t, less, GetNum(u, WORD_SZ).val)
  }

  predicate ItemsMeetWrap(u: Reader, t: Type, less: Order, n: nat)
    requires t.Vec?
    decreases t, n
  {
    n > 0 && (ItemsMeetWrap(u, t, less, n - 1) || MeetsWrap(GetItems(u, t, less, n - 1).rest, t.elem, less))
  }

  predicate PairMeetsWrap(u: Reader, t: Type, less: Order)
    requires t.Map?
    decreases t, 0
  {
    MeetsWrap(u, t.key, less) || MeetsWrap(Get(u, t.key, less).rest, t.val, less)
  }

  predicate PairsMeetWrap(u: Reader, t: Type, less: Order, n: nat)
    requires t.Map?
    decreases t, n
  {
    n > 0 && (PairsMeetWrap(u, t, less, n - 1) || PairMeetsWrap(GetPairs(u, t, less, n - 1).rest, t, less))
  }

  predicate AllMeetWrap(u: Reader, ts: seq<Type>, less: Order)
    decreases |ts|
  {
    ts != [] && (MeetsWrap(u, ts[0], less) || AllMeetWrap(Get(u, ts[0], less).rest, ts[1..], less))
  }

  /** The reader stays inside its buffer, and goes wrong exactly if it was wrong or the condition holds. */
  predicate WrongIff(u: Reader, r: Reader, wraps: bool) {
    Inside(r) && (r.undef <==> u.undef || wraps)
  }

  lemma {:induction false} NumInside(u: Reader, w: nat)
    requires Inside(u)
    ensures WrongIff(u, GetNum(u, w).rest, false) && GetNum(u, w).val < Pow256(w) && GetNum(u, w).rest.buf == u.buf
    decreases w
  {
    if w > 0 {
      NumInside(u, w - 1);
    }
  }

  lemma WordValue(u: Reader)
    requires Inside(u)
    ensures GetNum(u, WORD_SZ).val < WORD
  {
    NumInside(u, WORD_SZ);
    assert Pow256(4) == 256 * Pow256(3) && Pow256(3) == 256 * Pow256(2) && Pow256(2) == 256 * Pow256(1);
  }

  /** A string is read outside the buffer exactly if its length wraps, whatever the caller's string was. */
  lemma StrWrongIff(u: Reader, was: seq<Byte>)
    requires Inside(u)
    ensures WrongIff(u, GetStr(u, was).rest, Wraps(u))
  {
    NumInside(u, WORD_SZ);
    WordValue(u);
    var n := GetNum(u, WORD_SZ);
    if n.rest.ok {
      BytesWrongIff(n.rest, n.val, was);
    }
  }

  lemma BytesWrongIff(u: Reader, n: nat, was: seq<Byte>)
    requires Inside(u) && n < WORD
    ensures WrongIff(u, RawBytes(u, n, was).rest, WORD <= u.ind + n <= WORD + |u.buf|)
  {
    if u.ind + n >= WORD {
      assert (u.ind + n) % WORD == u.ind + n - WORD;
    } else {
      assert (u.ind + n) % WORD == u.ind + n;
    }
  }

  /** Reading any bytes as any type goes outside the buffer exactly if it comes to a length that wraps. */
  lemma {:induction false} GetWrongIff(u: Reader, t: Type, less: Order)
    requires Inside(u)
    ensures WrongIff(u, Get(u, t, less).rest, MeetsWrap(u, t, less))
    decreases t
  {
    match t
    case Bool =>
    case Num(w, _) => NumInside(u, w);
    case Str => StrWrongIff(u, []);
    case Vec(_) =>
      NumInside(u, WORD_SZ);
      ItemsWrongIff(GetNum(u, WORD_SZ).rest, t, less, GetNum(u, WORD_SZ).val);
    case Map(_, _) =>
      NumInside(u, WORD_SZ);
      PairsWrongIff(GetNum(u, WORD_SZ).rest, t, less, GetNum(u, WORD_SZ).val);
  }

  lemma {:induction false} ItemsWrongIff(u: Reader, t: Type, less: Order, n: nat)
    requires Inside(u) && t.Vec?
    ensures WrongIff(u, GetItems(u, t, less, n).rest, ItemsMeetWrap(u, t, less, n))
    decreases t, n
  {
    if n > 0 {
      ItemsWrongIff(u, t, less, n - 1);
      GetWrongIff(GetItems(u, t, less, n - 1).rest, t.elem, less);
    }
  }

  lemma PairWrongIff(u: Reader, t: Type, less: Order)
    requires Inside(u) && t.Map?
    ensures WrongIff(u, GetPair(u, t, less).rest, PairMeetsWrap(u, t, less))
    decreases t, 0
  {
    GetWrongIff(u, t.key, less);
    GetWrongIff(Get(u, t.key, less).rest, t.val, less);
  }

  lemma {:induction false} PairsWrongIff(u: Reader, t: Type, less: Order, n: nat)
    requires Inside(u) && t.Map?
    ensures WrongIff(u, GetPairs(u, t, less, n).rest, PairsMeetWrap(u, t, less, n))
    decreases t, n
  {
    if n > 0 {
      PairsWrongIff(u, t, less, n - 1);
      PairWrongIff(GetPairs(u, t, less, n - 1).rest, t, less);
    }
  }

  /** The same for a list of arguments. */
  lemma {:induction false} AllWrongIff(u: Reader, ts: seq<Type>, less: Order)
    requires Inside(u)
    ensures WrongIff(u, GetAll(u, ts, less).rest, AllMeetWrap(u, ts, less))
    decreases |ts|
  {
    if ts != [] {
      GetWrongIff(u, ts[0], less);
      AllWrongIff(Get(u, ts[0], less).rest, ts[1..], less);
    }
  }

  lemma {:induction false} NumSkips(u: Reader, w: nat)
    requires u.ind + w <= |u.buf|
    ensures GetNum(u, w).rest == Skip(u, w)
    decreases w
  {
    if w > 0 {
      NumSkips(u, w - 1);
    }
  }

  lemma {:induction false} WordsSkip(u: Reader, ts: seq<Type>, less: Order)
    requires (forall i :: 0 <= i < |ts| ==> ts[i].Num? && ts[i].width == WORD_SZ) && u.ind + WORD_SZ * |ts| <= |u.buf|
    ensures GetAll(u, ts, less).rest == Skip(u, WORD_SZ * |ts|)
    decreases |ts|
  {
    if ts != [] {
      NumSkips(u, WORD_SZ);
      WordsSkip(Skip(u, WORD_SZ), ts[1..], less);
    }
  }

  /** A message of any bytes that has room for its header: only a length in its body can do it. */
  lemma ReceiveWrongIff(buf: seq<Byte>, header: seq<Type>, ts: seq<Type>, less: Order)
    requires RPC_HEADER_SZ <= |buf| < MAX_SIZE && (header == REQ_TYPES || header == REPLY_TYPES)
    ensures Receive(buf, header, ts, less).rest.undef <==>
            AllMeetWrap(Reader(buf, RPC_HEADER_SZ, true, false), ts, less)
  {
    WordsSkip(Reader(buf, SIZE_SZ, true, false), header, less);
    AllWrongIff(Reader(buf, RPC_HEADER_SZ, true, false), ts, less);
  }

  /** A length that is an `int` never wraps. */
  lemma SmallLengthsFine(u: Reader)
    requires Inside(u) && GetNum(u, WORD_SZ).val < MAX_SIZE
    ensures !Wraps(u)
  {
    NumInside(u, WORD_SZ);
  }

  /** Four bytes 255 are the shortest message that reads outside its buffer: the length is 4294967295. */
  lemma WrapHappens(less: Order)
    ensures MeetsWrap(Reader([255, 255, 255, 255], 0, true, false), Str, less)
    ensures Get(Reader([255, 255, 255, 255], 0, true, false), Str, less).rest.undef
  {
    var u := Reader([255, 255, 255, 255], 0, true, false);
    assert GetNum(u, 1) == Got(0xff, u.(ind := 1));
    assert GetNum(u, 2) == Got(0xffff, u.(ind := 2));
    assert GetNum(u, 3) == Got(0xff_ffff, u.(ind := 3));
    assert GetNum(u, 4) == Got(0xffff_ffff, u.(ind := 4));
    GetWrongIff(u, Str, less);
  }
}
