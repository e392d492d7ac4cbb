/** The RPC wire format: typed values as bytes, and the reader that takes them back. */
module Marshalling {

  type Byte = x: int | 0 <= x < 256

  const WORD: nat := 0x1_0000_0000
  const MAX_SIZE: nat := 0x8000_0000
  const WORD_SZ: nat := 4

  type Width = w: nat | w == 1 || w == 2 || w == 4 || w == 8 witness 1

  /** `Num(1, false)` is unsigned char, `Num(1, true)` char, and so on up to `Num(8, false)`. */
  datatype Type =
    | Bool
    | Num(width: Width, signed: bool)
    | Str
    | Vec(elem: Type)
    | Map(key: Type, val: Type)

  datatype Value =
    | BoolV(b: bool)
    | NumV(n: int)
    | StrV(s: seq<Byte>)
    | VecV(items: seq<Value>)
    | MapV(pairs: seq<Pair>)

  datatype Pair = Pair(key: Value, val: Value)

  // ----- numbers -----

  function Pow256(w: nat): (p: nat)
    ensures p > 0
  {
    if w == 0 then 1 else 256 * Pow256(w - 1)
  }

  /** Network order, most significant byte first. */
  function BigEndian(n: nat, w: nat): (r: seq<Byte>)
    ensures |r| == w
  {
    if w == 0 then [] else BigEndian(n / 256, w - 1) + [n % 256]
  }

  /** The cast to the unsigned type of the same width. */
  function Unsigned(n: int, w: nat): int {
    if n < 0 then n + Pow256(w) else n
  }

  /** The cast back. */
  function Signed(n: nat, w: nat, signed: bool): int {
    if signed && 2 * n >= Pow256(w) then n - Pow256(w) else n
  }

  predicate InRange(n: int, w: nat, signed: bool) {
    if signed then 0 - Pow256(w) <= 2 * n < Pow256(w) else 0 <= n < Pow256(w)
  }

  // ----- typing -----

  /** The `operator<` that a std::map is kept in order with; the results hold for any. */
  type Order = (Value, Value) -> bool

  predicate HasType(v: Value, t: Type)
    decreases t
  {
    match t
    case Bool => v.BoolV?
    case Num(w, signed) => v.NumV? && InRange(v.n, w, signed)
    case Str => v.StrV? && |v.s| < WORD
    case Vec(_) => v.VecV? && |v.items| < WORD && ItemsTyped(v.items, t)
    case Map(_, _) => v.MapV? && |v.pairs| < WORD && PairsTyped(v.pairs, t)
  }

  predicate ItemsTyped(items: seq<Value>, t: Type)
    requires t.Vec?
    decreases t, 0
  {
    forall x :: x in items ==> HasType(x, t.elem)
  }

  predicate PairsTyped(pairs: seq<Pair>, t: Type)
    requires t.Map?
    decreases t, 0
  {
    forall p :: p in pairs ==> HasType(p.key, t.key) && HasType(p.val, t.val)
  }

  /** Every map inside the value lists its pairs by increasing key. */
  predicate Ordered(v: Value, t: Type, less: Order)
    requires HasType(v, t)
    decreases t
  {
    match t
    case Vec(_) => ItemsOrdered(v.items, t, less)
    case Map(_, _) => PairsOrdered(v.pairs, t, less)
    case _ => true
  }

  predicate ItemsOrdered(items: seq<Value>, t: Type, less: Order)
    requires t.Vec? && ItemsTyped(items, t)
    decreases t, 0
  {
    forall x :: x in items ==> Ordered(x, t.elem, less)
  }

  predicate PairsOrdered(pairs: seq<Pair>, t: Type, less: Order)
    requires t.Map? && PairsTyped(pairs, t)
    decreases t, 0
  {
    Keyed(pairs, less) && forall p :: p in pairs ==> Ordered(p.key, t.key, less) && Ordered(p.val, t.val, less)
  }

  predicate Keyed(d: seq<Pair>, less: Order) {
    forall i, j :: 0 <= i < j < |d| ==> less(d[i].key, d[j].key)
  }

  /** `d[k] = v`: overwrites an equivalent key, or inserts where the order wants it. */
  function MapSet(d: seq<Pair>, k: Value, v: Value, less: Order): seq<Pair> {
    if d == [] then [Pair(k, v)]
    else if less(d[0].key, k) then [d[0]] + MapSet(d[1..], k, v, less)
    else if less(k, d[0].key) then [Pair(k, v)] + d
    else [Pair(d[0].key, v)] + d[1..]
  }

  // ----- writing -----

  function Put(v: Value, t: Type): (r: seq<Byte>)
    requires HasType(v, t)
    decreases t
  {
    match t
    case Bool => [if v.b then 1 else 0]
    case Num(w, _) => BigEndian(Unsigned(v.n, w), w)
    case Str => BigEndian(|v.s|, WORD_SZ) + v.s
    case Vec(e) => BigEndian(|v.items|, WORD_SZ) + PutItems(v.items, t)
    case Map(k, e) => BigEndian(|v.pairs|, WORD_SZ) + PutPairs(v.pairs, t)
  }

  function PutItems(items: seq<Value>, t: Type): seq<Byte>
    requires t.Vec? && ItemsTyped(items, t)
    decreases t, |items|
  {
    if items == [] then []
    else
      var n := |items| - 1;
      PutItems(items[..n], t) + Put(items[n], t.elem)
  }

  function PutPairs(pairs: seq<Pair>, t: Type): seq<Byte>
    requires t.Map? && PairsTyped(pairs, t)
    decreases t, |pairs|
  {
    if pairs == [] then []
    else
      var n := |pairs| - 1;
      PutPairs(pairs[..n], t) + PutPair(pairs[n], t)
  }

  function PutPair(p: Pair, t: Type): seq<Byte>
    requires t.Map? && HasType(p.key, t.key) && HasType(p.val, t.val)
    decreases t, 0
  {
    Put(p.key, t.key) + Put(p.val, t.val)
  }

  // ----- reading -----

  /** `undef` marks a read outside the buffer, after the 32-bit sum of index and length wrapped around. */
  datatype Reader = Reader(buf: seq<Byte>, ind: nat, ok: bool, undef: bool)

  datatype Got<T> = Got(val: T, rest: Reader)

  function RawByte(u: Reader): Got<Byte> {
    if u.ind >= |u.buf| then Got(0, u.(ok := false)) else Got(u.buf[u.ind], u.(ind := u.ind + 1))
  }

  /** On failure the caller's string keeps what it was. */
  function RawBytes(u: Reader, n: nat, was: seq<Byte>): Got<seq<Byte>> {
    if (u.ind + n) % WORD > |u.buf| then Got(was, u.(ok := false))
    else if u.ind + n > |u.buf| then Got(was, u.(undef := true))
    else Got(u.buf[u.ind..u.ind + n], u.(ind := u.ind + n))
  }

  function GetNum(u: Reader, w: nat): Got<nat> {
    if w == 0 then Got(0, u)
    else
      var hi := GetNum(u, w - 1);
      var lo := RawByte(hi.rest);
      Got(256 * hi.val + lo.val, lo.rest)
  }

  function GetStr(u: Reader, was: seq<Byte>): Got<Value> {
    var n := GetNum(u, WORD_SZ);
    if n.rest.ok then
      var s := RawBytes(n.rest, n.val, was);
      Got(StrV(s.val), s.rest)
    else Got(StrV(was), n.rest)
  }

  /** Reads one value into a new variable; after a failure it goes on with zero bytes. */
  function Get(u: Reader, t: Type, less: Order): Got<Value>
    decreases t
  {
    match t
    case Bool =>
      var b := RawByte(u);
      Got(BoolV(b.val != 0), b.rest)
    case Num(w, signed) =>
      var n := GetNum(u, w);
      Got(NumV(Signed(n.val, w, signed)), n.rest)
    case Str => GetStr(u, [])
    case Vec(_) =>
      var n := GetNum(u, WORD_SZ);
      var items := GetItems(n.rest, t, less, n.val);
      Got(VecV(items.val), items.rest)
    case Map(_, _) =>
      var n := GetNum(u, WORD_SZ);
      var pairs := GetPairs(n.rest, t, less, n.val);
      Got(MapV(pairs.val), pairs.rest)
  }

  function GetItems(u: Reader, t: Type, less: Order, n: nat): Got<seq<Value>>
    requires t.Vec?
    decreases t, n
  {
    if n == 0 then Got([], u)
    else
      var items := GetItems(u, t, less, n - 1);
      var x := Get(items.rest, t.elem, less);
      Got(items.val + [x.val], x.rest)
  }

  function GetPairs(u: Reader, t: Type, less: Order, n: nat): Got<seq<Pair>>
    requires t.Map?
    decreases t, n
  {
    if n == 0 then Got([], u)
    else
      var pairs := GetPairs(u, t, less, n - 1);
      var p := GetPair(pairs.rest, t, less);
      Got(MapSet(pairs.val, p.val.key, p.val.val, less), p.rest)
  }

  function GetPair(u: Reader, t: Type, less: Order): Got<Pair>
    requires t.Map?
    decreases t, 0
  {
    var k := Get(u, t.key, less);
    var x := Get(k.rest, t.val, less);
    Got(Pair(k.val, x.val), x.rest)
  }

  /** One value after the other, as a call's arguments are written and read. */
  predicate AllTyped(vs: seq<Value>, ts: seq<Type>) {
    |vs| == |ts| && forall i :: 0 <= i < |ts| ==> HasType(vs[i], ts[i])
  }

  predicate AllOrdered(vs: seq<Value>, ts: seq<Type>, less: Order)
    requires AllTyped(vs, ts)
  {
    forall i :: 0 <= i < |ts| ==> Ordered(vs[i], ts[i], less)
  }

  function PutAll(vs: seq<Value>, ts: seq<Type>): seq<Byte>
    requires AllTyped(vs, ts)
    decreases |ts|
  {
    if ts == [] then [] else Put(vs[0], ts[0]) + PutAll(vs[1..], ts[1..])
  }

  function GetAll(u: Reader, ts: seq<Type>, less: Order): Got<seq<Value>>
    decreases |ts|
  {
    if ts == [] then Got([], u)
    else
      var x := Get(u, ts[0], less);
      var more := GetAll(x.rest, ts[1..], less);
      Got([x.val] + more.val, more.rest)
  }

  predicate OkDone(u: Reader) {
    u.ok && u.ind == |u.buf|
  }

  // ----- reading back what was written -----

  /** The bytes come next. */
  predicate At(u: Reader, bytes: seq<Byte>) {
    u.ind + |bytes| <= |u.buf| && u.buf[u.ind..u.ind + |bytes|] == bytes
  }

  function Skip(u: Reader, n: nat): Reader {
    u.(ind := u.ind + n)
  }

  predicate Fine(u: Reader) {
    u.ok && !u.undef && |u.buf| < MAX_SIZE
  }

  lemma AtSplit(u: Reader, a: seq<Byte>, b: seq<Byte>)
    requires At(u, a + b)
    ensures At(u, a) && At(Skip(u, |a|), b)
  {
    var all := u.buf[u.ind..u.ind + |a + b|];
    assert all[..|a|] == a && all[|a|..] == b;
    assert u.buf[u.ind..u.ind + |a|] == all[..|a|];
    assert u.buf[u.ind + |a|..u.ind + |a| + |b|] == all[|a|..];
  }

  lemma {:induction false} ReadsNum(u: Reader, n: nat, w: nat)
    requires n < Pow256(w) && At(u, BigEndian(n, w))
    ensures GetNum(u, w) == Got(n, Skip(u, w))
    decreases w
  {
    if w > 0 {
      AtSplit(u, BigEndian(n / 256, w - 1), [n % 256]);
      ReadsNum(u, n / 256, w - 1);
      var u1 := Skip(u, w - 1);
      assert u1.buf[u1.ind..u1.ind + 1][0] == u1.buf[u1.ind];
    }
  }

  lemma SignedUnsigned(n: int, w: nat, signed: bool)
    requires InRange(n, w, signed)
    ensures 0 <= Unsigned(n, w) < Pow256(w) && Signed(Unsigned(n, w), w, signed) == n
  {
  }

  /** A key above all the keys of a map goes to the end. */
  lemma {:induction false} MapSetLast(d: seq<Pair>, k: Value, v: Value, less: Order)
    requires forall i :: 0 <= i < |d| ==> less(d[i].key, k)
    ensures MapSet(d, k, v, less) == d + [Pair(k, v)]
    decreases |d|
  {
    if d != [] {
      MapSetLast(d[1..], k, v, less);
    }
  }

  /** A written bool is the byte 0 or 1. */
  lemma BoolIsByte(u: Reader, b: bool, less: Order)
    requires At(u, Put(BoolV(b), Bool))
    ensures Get(u, Num(1, false), less) == Got(NumV(if b then 1 else 0), Skip(u, 1))
  {
    assert u.buf[u.ind..u.ind + 1][0] == u.buf[u.ind];
    assert GetNum(u, 1) == Got(u.buf[u.ind], Skip(u, 1));
  }

  /** Every byte but 0 reads as true; only the bytes 0 and 1 come back when the value is written again. */
  lemma BoolFromByte(u: Reader, less: Order)
    requires u.ok && u.ind < |u.buf|
    ensures var got := Get(u, Bool, less);
            && got.rest == Skip(u, 1) && got.val.BoolV? && (got.val.b <==> u.buf[u.ind] > 0)
            && (Put(got.val, Bool) == [u.buf[u.ind]] <==> u.buf[u.ind] <= 1)
  {
  }

  // ----- maps -----

  /** What std::map asks of its order. */
  ghost predicate StrictOrder(less: Order) {
    && (forall a, b :: less(a, b) ==> !less(b, a))
    && (forall a, b, c :: less(a, b) && less(b, c) ==> less(a, c))
    && (forall a, b, c :: less(a, c) ==> less(a, b) || less(b, c))
  }

  predicate Equivalent(a: Value, b: Value, less: Order) {
    !less(a, b) && !less(b, a)
  }

  /** The value under a key, as a list of none or one. */
  function ValueAt(d: seq<Pair>, k: Value, less: Order): seq<Value> {
    if d == [] then [] else (if Equivalent(d[0].key, k, less) then [d[0].val] else []) + ValueAt(d[1..], k, less)
  }

  lemma {:induction false} NothingBelow(d: seq<Pair>, k: Value, less: Order)
    requires StrictOrder(less) && forall i :: 0 <= i < |d| ==> less(k, d[i].key)
    ensures ValueAt(d, k, less) == []
    decreases |d|
  {
    if d != [] {
      NothingBelow(d[1..], k, less);
    }
  }

  lemma {:induction false} MapSetKeys(d: seq<Pair>, k: Value, v: Value, less: Order)
    ensures forall p :: p in MapSet(d, k, v, less) ==> p.key == k || exists q :: q in d && q.key == p.key
    decreases |d|
  {
    if d != [] && less(d[0].key, k) {
      MapSetKeys(d[1..], k, v, less);
    } else if d != [] && !less(k, d[0].key) {
      assert d[0] in d;
      assert d == [d[0]] + d[1..];
    }
  }

  lemma KeyedHead(p: Pair, d: seq<Pair>, less: Order)
    requires Keyed(d, less) && forall q :: q in d ==> less(p.key, q.key)
    ensures Keyed([p] + d, less)
  {
  }

  /** `d[k] = v` keeps the keys in order. */
  lemma {:induction false} MapSetKeyed(d: seq<Pair>, k: Value, v: Value, less: Order)
    requires StrictOrder(less) && Keyed(d, less)
    ensures Keyed(MapSet(d, k, v, less), less)
    decreases |d|
  {
    if d != [] {
      var rest := MapSet(d[1..], k, v, less);
      assert forall q :: q in d[1..] ==> less(d[0].key, q.key);
      if less(d[0].key, k) {
        MapSetKeyed(d[1..], k, v, less);
        MapSetKeys(d[1..], k, v, less);
        KeyedHead(d[0], rest, less);
      } else if less(k, d[0].key) {
        assert forall q :: q in d ==> less(k, q.key);
        KeyedHead(Pair(k, v), d, less);
      } else {
        KeyedHead(Pair(d[0].key, v), d[1..], less);
      }
    }
  }

  lemma ValueAtHead(p: Pair, d: seq<Pair>, x: Value, less: Order)
    ensures ValueAt([p] + d, x, less) == (if Equivalent(p.key, x, less) then [p.val] else []) + ValueAt(d, x, less)
  {
    assert ([p] + d)[1..] == d;
  }

  /** Keys above one that is equivalent to `x` are not equivalent to it. */
  lemma NothingAbove(d: seq<Pair>, k: Value, x: Value, less: Order)
    requires StrictOrder(less) && (forall i :: 0 <= i < |d| ==> less(k, d[i].key)) && Equivalent(k, x, less)
    ensures ValueAt(d, x, less) == []
  {
    forall i | 0 <= i < |d| ensures less(x, d[i].key) {
      assert less(k, x) || less(x, d[i].key);
    }
    NothingBelow(d, x, less);
  }

  /** And afterwards the key has this value, and every other key what it had. */
  lemma {:induction false} MapSetValue(d: seq<Pair>, k: Value, v: Value, x: Value, less: Order)
    requires StrictOrder(less) && Keyed(d, less)
    ensures ValueAt(MapSet(d, k, v, less), x, less) == if Equivalent(k, x, less) then [v] else ValueAt(d, x, less)
    decreases |d|
  {
    if d != [] {
      if less(d[0].key, k) {
        MapSetValue(d[1..], k, v, x, less);
        ValueAtHead(d[0], MapSet(d[1..], k, v, less), x, less);
        assert Equivalent(k, x, less) ==> less(d[0].key, x);
      } else if less(k, d[0].key) {
        ValueAtHead(Pair(k, v), d, x, less);
        if Equivalent(k, x, less) {
          NothingAbove(d, k, x, less);
        }
      } else {
        ValueAtHead(Pair(d[0].key, v), d[1..], x, less);
        SameClass(d[0].key, k, x, less);
        if Equivalent(k, x, less) {
          NothingAbove(d[1..], d[0].key, x, less);
        }
      }
    }
  }

  lemma SameClass(a: Value, b: Value, x: Value, less: Order)
    requires StrictOrder(less) && Equivalent(a, b, less)
    ensures Equivalent(a, x, less) <==> Equivalent(b, x, less)
  {
  }

  /** A map that is read from any bytes is in order, whatever keys they hold. */
  lemma {:induction false} ReadMapKeyed(u: Reader, t: Type, less: Order, n: nat)
    requires StrictOrder(less) && t.Map?
    ensures Keyed(GetPairs(u, t, less, n).val, less)
    decreases n
  {
    if n > 0 {
      ReadMapKeyed(u, t, less, n - 1);
      var pairs := GetPairs(u, t, less, n - 1);
      var p := GetPair(pairs.rest, t, less);
      MapSetKeyed(pairs.val, p.val.key, p.val.val, less);
    }
  }

  lemma WordRange(n: nat)
    requires n < WORD
    ensures n < Pow256(WORD_SZ)
  {
    assert Pow256(4) == 256 * Pow256(3) && Pow256(3) == 256 * Pow256(2) && Pow256(2) == 256 * Pow256(1);
  }

  lemma ReadsLength(u: Reader, n: nat, body: seq<Byte>)
    requires n < WORD && At(u, BigEndian(n, WORD_SZ) + body)
    ensures GetNum(u, WORD_SZ) == Got(n, Skip(u, WORD_SZ)) && At(Skip(u, WORD_SZ), body)
  {
    WordRange(n);
    AtSplit(u, BigEndian(n, WORD_SZ), body);
    ReadsNum(u, n, WORD_SZ);
  }

  lemma ReadsBytes(u: Reader, s: seq<Byte>, was: seq<Byte>)
    requires |u.buf| < MAX_SIZE && At(u, s)
    ensures RawBytes(u, |s|, was) == Got(s, Skip(u, |s|))
  {
    assert (u.ind + |s|) % WORD == u.ind + |s|;
  }

  lemma ReadsStr(u: Reader, s: seq<Byte>, less: Order)
    requires Fine(u) && |s| < WORD && At(u, BigEndian(|s|, WORD_SZ) + s)
    ensures Get(u, Str, less) == Got(StrV(s), Skip(u, WORD_SZ + |s|))
  {
    ReadsLength(u, |s|, s);
    ReadsBytes(Skip(u, WORD_SZ), s, []);
  }

  /** A written value is read back, and the reader stops right behind it. */
  lemma {:induction false} ReadsBack(u: Reader, v: Value, t: Type, less: Order)
    requires Fine(u) && HasType(v, t) && Ordered(v, t, less) && At(u, Put(v, t))
    ensures Get(u, t, less) == Got(v, Skip(u, |Put(v, t)|))
    decreases t
  {
    match t
    case Bool =>
      assert u.buf[u.ind..u.ind + 1][0] == u.buf[u.ind];
    case Num(w, signed) =>
      SignedUnsigned(v.n, w, signed);
      ReadsNum(u, Unsigned(v.n, w), w);
    case Str =>
      ReadsStr(u, v.s, less);
    case Vec(_) =>
      ReadsVec(u, v.items, t, less);
    case Map(_, _) =>
      ReadsMap(u, v.pairs, t, less);
  }

  lemma ReadsVec(u: Reader, items: seq<Value>, t: Type, less: Order)
    requires Fine(u) && t.Vec? && |items| < WORD && ItemsTyped(items, t) && ItemsOrdered(items, t, less)
    requires At(u, BigEndian(|items|, WORD_SZ) + PutItems(items, t))
    ensures Get(u, t, less) == Got(VecV(items), Skip(u, WORD_SZ + |PutItems(items, t)|))
    decreases t, |items| + 1
  {
    ReadsLength(u, |items|, PutItems(items, t));
    ReadsItems(Skip(u, WORD_SZ), items, t, less);
    GetVec(u, t, less, |items|, Skip(u, WORD_SZ), items, Skip(u, WORD_SZ + |PutItems(items, t)|));
  }

  lemma GetVec(u: Reader, t: Type, less: Order, n: nat, u1: Reader, items: seq<Value>, u2: Reader)
    requires t.Vec? && GetNum(u, WORD_SZ) == Got(n, u1) && GetItems(u1, t, less, n) == Got(items, u2)
    ensures Get(u, t, less) == Got(VecV(items), u2)
  {
  }

  lemma ReadsMap(u: Reader, pairs: seq<Pair>, t: Type, less: Order)
    requires Fine(u) && t.Map? && |pairs| < WORD && PairsTyped(pairs, t) && PairsOrdered(pairs, t, less)
    requires At(u, BigEndian(|pairs|, WORD_SZ) + PutPairs(pairs, t))
    ensures Get(u, t, less) == Got(MapV(pairs), Skip(u, WORD_SZ + |PutPairs(pairs, t)|))
    decreases t, |pairs| + 1
  {
    ReadsLength(u, |pairs|, PutPairs(pairs, t));
    ReadsPairs(Skip(u, WORD_SZ), pairs, t, less);
    GetMap(u, t, less, |pairs|, Skip(u, WORD_SZ), pairs, Skip(u, WORD_SZ + |PutPairs(pairs, t)|));
  }

  lemma GetMap(u: Reader, t: Type, less: Order, n: nat, u1: Reader, pairs: seq<Pair>, u2: Reader)
    requires t.Map? && GetNum(u, WORD_SZ) == Got(n, u1) && GetPairs(u1, t, less, n) == Got(pairs, u2)
    ensures Get(u, t, less) == Got(MapV(pairs), u2)
  {
  }

  lemma {:induction false} ReadsItems(u: Reader, items: seq<Value>, t: Type, less: Order)
    requires Fine(u) && t.Vec? && ItemsTyped(items, t) && ItemsOrdered(items, t, less)
    requires At(u, PutItems(items, t))
    ensures GetItems(u, t, less, |items|) == Got(items, Skip(u, |PutItems(items, t)|))
    decreases t, |items|
  {
    if items != [] {
      var n := |items| - 1;
      AtSplit(u, PutItems(items[..n], t), Put(items[n], t.elem));
      ReadsItems(u, items[..n], t, less);
      ReadsBack(Skip(u, |PutItems(items[..n], t)|), items[n], t.elem, less);
      assert items == items[..n] + [items[n]];
    }
  }

  lemma ReadsPair(u: Reader, p: Pair, t: Type, less: Order)
    requires Fine(u) && t.Map? && HasType(p.key, t.key) && HasType(p.val, t.val)
    requires Ordered(p.key, t.key, less) && Ordered(p.val, t.val, less) && At(u, PutPair(p, t))
    ensures GetPair(u, t, less) == Got(p, Skip(u, |PutPair(p, t)|))
    decreases t, 0
  {
    AtSplit(u, Put(p.key, t.key), Put(p.val, t.val));
    ReadsBack(u, p.key, t.key, less);
    ReadsBack(Skip(u, |Put(p.key, t.key)|), p.val, t.val, less);
  }

  lemma PairsFront(pairs: seq<Pair>, t: Type, less: Order, n: nat)
    requires t.Map? && PairsTyped(pairs, t) && PairsOrdered(pairs, t, less) && n < |pairs|
    ensures PairsTyped(pairs[..n], t) && PairsOrdered(pairs[..n], t, less)
    ensures HasType(pairs[n].key, t.key) && HasType(pairs[n].val, t.val)
    ensures Ordered(pairs[n].key, t.key, less) && Ordered(pairs[n].val, t.val, less)
    ensures MapSet(pairs[..n], pairs[n].key, pairs[n].val, less) == pairs[..n + 1]
  {
    assert pairs[n] in pairs;
    MapSetLast(pairs[..n], pairs[n].key, pairs[n].val, less);
  }

  lemma {:induction false} ReadsPairs(u: Reader, pairs: seq<Pair>, t: Type, less: Order)
    requires Fine(u) && t.Map? && PairsTyped(pairs, t) && PairsOrdered(pairs, t, less) && At(u, PutPairs(pairs, t))
    ensures GetPairs(u, t, less, |pairs|) == Got(pairs, Skip(u, |PutPairs(pairs, t)|))
    decreases t, |pairs|
  {
    if pairs != [] {
      var n := |pairs| - 1;
      PairsFront(pairs, t, less, n);
      assert pairs[..n + 1] == pairs;
      var head, tail := PutPairs(pairs[..n], t), PutPair(pairs[n], t);
      AtSplit(u, head, tail);
      ReadsPairs(u, pairs[..n], t, less);
      ReadsPair(Skip(u, |head|), pairs[n], t, less);
      SkipBoth(u, head, tail);
      SetPair(u, t, less, pairs[..n], pairs[n], Skip(u, |head|), Skip(u, |head + tail|));
    }
  }

  lemma SkipBoth(u: Reader, a: seq<Byte>, b: seq<Byte>)
    ensures Skip(Skip(u, |a|), |b|) == Skip(u, |a + b|)
  {
  }

  lemma SetPair(u: Reader, t: Type, less: Order, d: seq<Pair>, p: Pair, u1: Reader, u2: Reader)
    requires t.Map? && GetPairs(u, t, less, |d|) == Got(d, u1) && GetPair(u1, t, less) == Got(p, u2)
    ensures GetPairs(u, t, less, |d| + 1) == Got(MapSet(d, p.key, p.val, less), u2)
  {
  }

  lemma {:induction false} ReadsAll(u: Reader, vs: seq<Value>, ts: seq<Type>, less: Order)
    requires Fine(u) && AllTyped(vs, ts) && AllOrdered(vs, ts, less) && At(u, PutAll(vs, ts))
    ensures GetAll(u, ts, less) == Got(vs, Skip(u, |PutAll(vs, ts)|))
    decreases |ts|
  {
    if ts != [] {
      var head, tail := Put(vs[0], ts[0]), PutAll(vs[1..], ts[1..]);
      AtSplit(u, head, tail);
      ReadsBack(u, vs[0], ts[0], less);
      ReadsAll(Skip(u, |head|), vs[1..], ts[1..], less);
      SkipBoth(u, head, tail);
      AllOfFirst(u, vs, ts, less, Skip(u, |head|), Skip(u, |head + tail|));
    }
  }

  lemma AllOfFirst(u: Reader, vs: seq<Value>, ts: seq<Type>, less: Order, u1: Reader, u2: Reader)
    requires vs != [] && ts != []
    requires Get(u, ts[0], less) == Got(vs[0], u1) && GetAll(u1, ts[1..], less) == Got(vs[1..], u2)
    ensures GetAll(u, ts, less) == Got(vs, u2)
  {
    assert vs == [vs[0]] + vs[1..];
  }
}
