/** A message that lost its end is never taken for complete. */
module MarshallingCut {
  import opened Marshalling

  // ----- failure is permanent -----

  /** What every read does to the reader. */
  predicate Moves(u: Reader, r: Reader) {
    && r.buf == u.buf
    && (!u.ok ==> !r.ok && r.undef == u.undef)
    && (u.undef ==> r.undef)
  }

  lemma {:induction false} NumMoves(u: Reader, w: nat)
    ensures Moves(u, GetNum(u, w).rest) && GetNum(u, w).rest.undef == u.undef
    decreases w
  {
    if w > 0 {
      NumMoves(u, w - 1);
    }
  }

  lemma StrMoves(u: Reader)
    ensures Moves(u, GetStr(u, []).rest)
  {
    NumMoves(u, WORD_SZ);
  }

  lemma {:induction false} GetMoves(u: Reader, t: Type, less: Order)
    ensures Moves(u, Get(u, t, less).rest)
    decreases t
  {
    match t
    case Bool =>
    case Num(w, _) => NumMoves(u, w);
    case Str => StrMoves(u);
    case Vec(_) =>
      NumMoves(u, WORD_SZ);
      ItemsMove(GetNum(u, WORD_SZ).rest, t, less, GetNum(u, WORD_SZ).val);
    case Map(_, _) =>
      NumMoves(u, WORD_SZ);
      PairsMove(GetNum(u, WORD_SZ).rest, t, less, GetNum(u, WORD_SZ).val);
  }

  lemma {:induction false} ItemsMove(u: Reader, t: Type, less: Order, n: nat)
    requires t.Vec?
    ensures Moves(u, GetItems(u, t, less, n).rest)
    decreases t, n
  {
    if n > 0 {
      ItemsMove(u, t, less, n - 1);
      GetMoves(GetItems(u, t, less, n - 1).rest, t.elem, less);
    }
  }

  lemma PairMoves(u: Reader, t: Type, less: Order)
    requires t.Map?
    ensures Moves(u, GetPair(u, t, less).rest)
    decreases t, 0
  {
    GetMoves(u, t.key, less);
    GetMoves(Get(u, t.key, less).rest, t.val, less);
  }

  lemma {:induction false} PairsMove(u: Reader, t: Type, less: Order, n: nat)
    requires t.Map?
    ensures Moves(u, GetPairs(u, t, less, n).rest)
    decreases t, n
  {
    if n > 0 {
      PairsMove(u, t, less, n - 1);
      PairMoves(GetPairs(u, t, less, n - 1).rest, t, less);
    }
  }

  // ----- reading a message that was cut at `n` -----

  function Trim(u: Reader, n: nat): Reader
    requires n <= |u.buf|
  {
    u.(buf := u.buf[..n])
  }

  /** A read that succeeds on the whole message succeeds alike on the cut one, or fails. */
  predicate Tracks<T(==)>(whole: Got<T>, cut: Got<T>, n: nat) {
    && n <= |whole.rest.buf| < MAX_SIZE
    && !cut.rest.undef
    && (cut.rest.ok ==> cut == Got(whole.val, Trim(whole.rest, n)) && whole.rest.ind <= n)
  }

  predicate Good(u: Reader) {
    u.ok && !u.undef
  }

  predicate Starts(u: Reader, n: nat) {
    Good(u) && u.ind <= n <= |u.buf| < MAX_SIZE
  }

  lemma {:induction false} CutNum(u: Reader, n: nat, w: nat)
    requires Starts(u, n) && Good(GetNum(u, w).rest)
    ensures Tracks(GetNum(u, w), GetNum(Trim(u, n), w), n)
    decreases w
  {
    NumMoves(u, w);
    if w > 0 {
      NumMoves(u, w - 1);
      NumMoves(Trim(u, n), w - 1);
      CutNum(u, n, w - 1);
    }
  }

  lemma CutSlice(b: seq<Byte>, n: nat, i: nat, k: nat)
    requires n <= |b|
    ensures i + k <= n ==> b[..n][i..i + k] == b[i..i + k]
  {
  }

  lemma CutStr(u: Reader, n: nat)
    requires Starts(u, n) && Good(GetStr(u, []).rest)
    ensures Tracks(GetStr(u, []), GetStr(Trim(u, n), []), n)
  {
    NumMoves(u, WORD_SZ);
    CutNum(u, n, WORD_SZ);
    NumMoves(Trim(u, n), WORD_SZ);
    var whole, cut := GetNum(u, WORD_SZ), GetNum(Trim(u, n), WORD_SZ);
    if cut.rest.ok {
      assert whole.rest.ind + whole.val <= |u.buf| < WORD;
      CutSlice(u.buf, n, cut.rest.ind, cut.val);
    }
  }

  lemma {:induction false} CutGet(u: Reader, n: nat, t: Type, less: Order)
    requires Starts(u, n) && Good(Get(u, t, less).rest)
    ensures Tracks(Get(u, t, less), Get(Trim(u, n), t, less), n)
    decreases t
  {
    match t
    case Bool =>
    case Num(w, _) => CutNum(u, n, w);
    case Str => CutStr(u, n);
    case Vec(_) => CutVec(u, n, t, less);
    case Map(_, _) => CutMap(u, n, t, less);
  }

  lemma CutVec(u: Reader, n: nat, t: Type, less: Order)
    requires t.Vec? && Starts(u, n) && Good(Get(u, t, less).rest)
    ensures Tracks(Get(u, t, less), Get(Trim(u, n), t, less), n)
    decreases t, GetNum(u, WORD_SZ).val + 1
  {
    var whole, cut := GetNum(u, WORD_SZ), GetNum(Trim(u, n), WORD_SZ);
    NumMoves(u, WORD_SZ);
    NumMoves(Trim(u, n), WORD_SZ);
    ItemsMove(whole.rest, t, less, whole.val);
    ItemsMove(cut.rest, t, less, cut.val);
    CutNum(u, n, WORD_SZ);
    if cut.rest.ok {
      CutItems(whole.rest, n, t, less, whole.val);
    }
  }

  lemma {:induction false} CutItems(u: Reader, n: nat, t: Type, less: Order, m: nat)
    requires t.Vec? && Starts(u, n) && Good(GetItems(u, t, less, m).rest)
    ensures Tracks(GetItems(u, t, less, m), GetItems(Trim(u, n), t, less, m), n)
    decreases t, m
  {
    ItemsMove(u, t, less, m);
    if m > 0 {
      var whole, cut := GetItems(u, t, less, m - 1), GetItems(Trim(u, n), t, less, m - 1);
      ItemsMove(u, t, less, m - 1);
      ItemsMove(Trim(u, n), t, less, m - 1);
      GetMoves(whole.rest, t.elem, less);
      GetMoves(cut.rest, t.elem, less);
      CutItems(u, n, t, less, m - 1);
      if cut.rest.ok {
        CutGet(whole.rest, n, t.elem, less);
      }
    }
  }

  lemma CutMap(u: Reader, n: nat, t: Type, less: Order)
    requires t.Map? && Starts(u, n) && Good(Get(u, t, less).rest)
    ensures Tracks(Get(u, t, less), Get(Trim(u, n), t, less), n)
    decreases t, GetNum(u, WORD_SZ).val + 1
  {
    var whole, cut := GetNum(u, WORD_SZ), GetNum(Trim(u, n), WORD_SZ);
    NumMoves(u, WORD_SZ);
    NumMoves(Trim(u, n), WORD_SZ);
    PairsMove(whole.rest, t, less, whole.val);
    PairsMove(cut.rest, t, less, cut.val);
    CutNum(u, n, WORD_SZ);
    if cut.rest.ok {
      CutPairs(whole.rest, n, t, less, whole.val);
    }
  }

  lemma CutPair(u: Reader, n: nat, t: Type, less: Order)
    requires t.Map? && Starts(u, n) && Good(GetPair(u, t, less).rest)
    ensures Tracks(GetPair(u, t, less), GetPair(Trim(u, n), t, less), n)
    decreases t, 0
  {
    var whole, cut := Get(u, t.key, less), Get(Trim(u, n), t.key, less);
    GetMoves(u, t.key, less);
    GetMoves(Trim(u, n), t.key, less);
    GetMoves(whole.rest, t.val, less);
    GetMoves(cut.rest, t.val, less);
    CutGet(u, n, t.key, less);
    if cut.rest.ok {
      CutGet(whole.rest, n, t.val, less);
    }
  }

  lemma {:induction false} CutPairs(u: Reader, n: nat, t: Type, less: Order, m: nat)
    requires t.Map? && Starts(u, n) && Good(GetPairs(u, t, less, m).rest)
    ensures Tracks(GetPairs(u, t, less, m), GetPairs(Trim(u, n), t, less, m), n)
    decreases t, m
  {
    PairsMove(u, t, less, m);
    if m > 0 {
      var whole, cut := GetPairs(u, t, less, m - 1), GetPairs(Trim(u, n), t, less, m - 1);
      PairsMove(u, t, less, m - 1);
      PairsMove(Trim(u, n), t, less, m - 1);
      PairMoves(whole.rest, t, less);
      PairMoves(cut.rest, t, less);
      CutPairs(u, n, t, less, m - 1);
      if cut.rest.ok {
        CutPair(whole.rest, n, t, less);
      }
    }
  }

  lemma {:induction false} AllMove(u: Reader, ts: seq<Type>, less: Order)
    ensures Moves(u, GetAll(u, ts, less).rest)
    decreases |ts|
  {
    if ts != [] {
      GetMoves(u, ts[0], less);
      AllMove(Get(u, ts[0], less).rest, ts[1..], less);
    }
  }

  lemma {:induction false} CutAll(u: Reader, n: nat, ts: seq<Type>, less: Order)
    requires Starts(u, n) && Good(GetAll(u, ts, less).rest)
    ensures Tracks(GetAll(u, ts, less), GetAll(Trim(u, n), ts, less), n)
    decreases |ts|
  {
    if ts != [] {
      var whole, cut := Get(u, ts[0], less), Get(Trim(u, n), ts[0], less);
      GetMoves(u, ts[0], less);
      GetMoves(Trim(u, n), ts[0], less);
      AllMove(whole.rest, ts[1..], less);
      AllMove(cut.rest, ts[1..], less);
      CutGet(u, n, ts[0], less);
      if cut.rest.ok {
        CutAll(whole.rest, n, ts[1..], less);
      }
    }
  }
}
