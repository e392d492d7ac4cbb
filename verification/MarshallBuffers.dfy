/** The buffers behind the wire format: a growing array to write to, and an index to read with. */
module MarshallBuffers {
  import opened Marshalling
  import opened Messages

  const DEFAULT_RPC_SZ := 1024

  /** The capacity after `n` more bytes: doubled or just enough, and always enough. */
  function Grown(capa: nat, ind: nat, n: nat): (r: nat)
    requires ind <= capa
    ensures ind + n <= r && (r == capa <==> ind + n <= capa || capa == 0 == n)
    ensures ind + n > capa ==> r == if capa > n then 2 * capa else capa + n
  {
    if ind + n <= capa then capa else if capa > n then 2 * capa else capa + n
  }

  class Marshall {
    var buf: array<Byte>
    var ind: nat

    ghost predicate Valid()
      reads this
    {
      RPC_HEADER_SZ <= ind <= buf.Length && DEFAULT_RPC_SZ <= buf.Length
    }

    /** Everything written so far, behind the header. */
    ghost function Content(): seq<Byte>
      reads this, buf
      requires Valid()
    {
      buf[RPC_HEADER_SZ..ind]
    }

    constructor ()
      ensures Valid() && fresh(buf) && Content() == []
    {
      buf := new Byte[DEFAULT_RPC_SZ];
      ind := RPC_HEADER_SZ;
    }

    /** `realloc` to at least the old size: the old bytes stay, the new ones are arbitrary. */
    method Realloc(capa: nat)
      requires capa >= buf.Length
      modifies this
      ensures fresh(buf) && buf.Length == capa && ind == old(ind)
      ensures buf[..old(buf.Length)] == old(buf[..])
    {
      var bigger := new Byte[capa];
      for i := 0 to buf.Length
        invariant buf == old(buf) && ind == old(ind) && buf[..] == old(buf[..])
        invariant bigger[..i] == buf[..i]
      {
        bigger[i] := buf[i];
      }
      buf := bigger;
    }

    method RawByte(x: Byte)
      requires ind <= buf.Length && buf.Length > 0
      modifies this, buf
      ensures ind == old(ind) + 1 <= buf.Length && buf.Length >= old(buf.Length)
      ensures buf == old(buf) || fresh(buf)
      ensures buf[..ind] == old(buf[..ind]) + [x]
      ensures buf.Length == old(buf.Length) * (if old(ind) < old(buf.Length) then 1 else 2)
      ensures old(ind) < old(buf.Length) ==> buf == old(buf) && buf[..] == old(buf[..])[old(ind) := x]
    {
      if ind >= buf.Length {
        Realloc(2 * buf.Length);
      }
      ghost var before := buf[..];
      buf[ind] := x;
      ind := ind + 1;
      assert buf[..] == before[ind - 1 := x];
    }

    /** The length is an `int`; the growth always makes enough room. */
    method RawBytes(p: seq<Byte>)
      requires Valid()
      modifies this, buf
      ensures Valid() && (buf == old(buf) || fresh(buf))
      ensures Content() == old(Content()) + p
      ensures buf.Length == Grown(old(buf.Length), old(ind), |p|)
    {
      var n := |p|;
      if ind + n > buf.Length {
        Realloc(if buf.Length > n then 2 * buf.Length else buf.Length + n);
      }
      assert buf[..ind] == old(buf[..ind]);
      Copy(buf, ind, p);
      ind := ind + n;
      assert Content() == buf[..ind][RPC_HEADER_SZ..];
    }

    /** memcpy. */
    static method Copy(bytes: array<Byte>, at: nat, p: seq<Byte>)
      requires at + |p| <= bytes.Length
      modifies bytes
      ensures bytes[..at + |p|] == old(bytes[..at]) + p
    {
      for i := 0 to |p|
        invariant bytes[..at + i] == old(bytes[..at]) + p[..i]
      {
        bytes[at + i] := p[i];
        assert bytes[..at + i + 1] == bytes[..at + i] + [p[i]];
      }
      assert p[..|p|] == p;
    }

    /** One byte at the end of the content. */
    method AppendByte(x: Byte)
      requires Valid()
      modifies this, buf
      ensures Valid() && (buf == old(buf) || fresh(buf))
      ensures Content() == old(Content()) + [x]
    {
      RawByte(x);
      assert Content() == buf[..ind][RPC_HEADER_SZ..];
    }

    method PutWord(x: nat)
      requires Valid() && x < WORD
      modifies this, buf
      ensures Valid() && (buf == old(buf) || fresh(buf))
      ensures Content() == old(Content()) + BigEndian(x, WORD_SZ)
    {
      AppendByte(x / 0x100_0000 % 256);
      AppendByte(x / 0x1_0000 % 256);
      AppendByte(x / 0x100 % 256);
      AppendByte(x % 256);
      WordBytes(x);
    }

    method PutNum(x: nat, w: Width)
      requires Valid() && x < Pow256(w)
      modifies this, buf
      ensures Valid() && (buf == old(buf) || fresh(buf))
      ensures Content() == old(Content()) + BigEndian(x, w)
    {
      NumBytes(x, w);
      if w == 1 {
        AppendByte(x);
      } else if w == 2 {
        PutShort(x);
      } else if w == 4 {
        PutWord(x);
      } else {
        PutLong(x);
      }
    }

    method PutShort(x: nat)
      requires Valid() && x < 0x1_0000
      modifies this, buf
      ensures Valid() && (buf == old(buf) || fresh(buf))
      ensures Content() == old(Content()) + BigEndian(x, 2)
    {
      AppendByte(x / 0x100 % 256);
      AppendByte(x % 256);
      assert BigEndian(x, 2) == BigEndian(x / 0x100, 1) + [x % 256];
    }

    method PutLong(x: nat)
      requires Valid() && x / WORD < WORD
      modifies this, buf
      ensures Valid() && (buf == old(buf) || fresh(buf))
      ensures Content() == old(Content()) + BigEndian(x, 8)
    {
      LongBytes(x);
      PutWord(x / WORD);
      PutWord(x % WORD);
      Assoc(old(Content()), BigEndian(x / WORD, WORD_SZ), BigEndian(x % WORD, WORD_SZ));
    }

    method PutStr(s: seq<Byte>)
      requires Valid() && |s| < WORD
      modifies this, buf
      ensures Valid() && (buf == old(buf) || fresh(buf))
      ensures Content() == old(Content()) + (BigEndian(|s|, WORD_SZ) + s)
    {
      PutWord(|s|);
      RawBytes(s);
      Assoc(old(Content()), BigEndian(|s|, WORD_SZ), s);
    }

    /** Any typed value appends exactly its encoding. */
    method PutValue(v: Value, t: Type)
      requires Valid() && HasType(v, t)
      modifies this, buf
      ensures Valid() && (buf == old(buf) || fresh(buf))
      ensures Content() == old(Content()) + Put(v, t)
      decreases t
    {
      match t
      case Bool =>
        AppendByte(if v.b then 1 else 0);
      case Num(w, signed) =>
        SignedUnsigned(v.n, w, signed);
        PutNum(Unsigned(v.n, w), w);
      case Str =>
        PutStr(v.s);
      case Vec(_) =>
        PutVector(v.items, t);
      case Map(_, _) =>
        PutMap(v.pairs, t);
    }

    method PutVector(items: seq<Value>, t: Type)
      requires Valid() && t.Vec? && |items| < WORD && ItemsTyped(items, t)
      modifies this, buf
      ensures Valid() && (buf == old(buf) || fresh(buf))
      ensures Content() == old(Content()) + (BigEndian(|items|, WORD_SZ) + PutItems(items, t))
      decreases t, 1
    {
      PutWord(|items|);
      PutElements(items, t);
      Assoc(old(Content()), BigEndian(|items|, WORD_SZ), PutItems(items, t));
    }

    method PutElements(items: seq<Value>, t: Type)
      requires Valid() && t.Vec? && ItemsTyped(items, t)
      modifies this, buf
      ensures Valid() && (buf == old(buf) || fresh(buf))
      ensures Content() == old(Content()) + PutItems(items, t)
      decreases t, 0
    {
      for i := 0 to |items|
        invariant Valid() && (buf == old(buf) || fresh(buf))
        invariant ItemsTyped(items[..i], t) && Content() == old(Content()) + PutItems(items[..i], t)
      {
        NextItem(items, t, i);
        PutValue(items[i], t.elem);
        Assoc(old(Content()), PutItems(items[..i], t), Put(items[i], t.elem));
      }
      assert items[..|items|] == items;
    }

    method PutMap(pairs: seq<Pair>, t: Type)
      requires Valid() && t.Map? && |pairs| < WORD && PairsTyped(pairs, t)
      modifies this, buf
      ensures Valid() && (buf == old(buf) || fresh(buf))
      ensures Content() == old(Content()) + (BigEndian(|pairs|, WORD_SZ) + PutPairs(pairs, t))
      decreases t, 2
    {
      PutWord(|pairs|);
      PutEntries(pairs, t);
      Assoc(old(Content()), BigEndian(|pairs|, WORD_SZ), PutPairs(pairs, t));
    }

    method PutEntries(pairs: seq<Pair>, t: Type)
      requires Valid() && t.Map? && PairsTyped(pairs, t)
      modifies this, buf
      ensures Valid() && (buf == old(buf) || fresh(buf))
      ensures Content() == old(Content()) + PutPairs(pairs, t)
      decreases t, 1
    {
      for i := 0 to |pairs|
        invariant Valid() && (buf == old(buf) || fresh(buf))
        invariant PairsTyped(pairs[..i], t) && Content() == old(Content()) + PutPairs(pairs[..i], t)
      {
        NextPair(pairs, t, i);
        PutKeyAndValue(pairs[i], t);
        Assoc(old(Content()), PutPairs(pairs[..i], t), PutPair(pairs[i], t));
      }
      assert pairs[..|pairs|] == pairs;
    }

    method PutKeyAndValue(p: Pair, t: Type)
      requires Valid() && t.Map? && HasType(p.key, t.key) && HasType(p.val, t.val)
      modifies this, buf
      ensures Valid() && (buf == old(buf) || fresh(buf))
      ensures Content() == old(Content()) + PutPair(p, t)
      decreases t, 0
    {
      PutValue(p.key, t.key);
      PutValue(p.val, t.val);
      Assoc(old(Content()), Put(p.key, t.key), Put(p.val, t.val));
    }

    /** The arguments of a call, one after the other. */
    method PutArguments(vs: seq<Value>, ts: seq<Type>)
      requires Valid() && AllTyped(vs, ts)
      modifies this, buf
      ensures Valid() && (buf == old(buf) || fresh(buf))
      ensures Content() == old(Content()) + PutAll(vs, ts)
    {
      for i := 0 to |ts|
        invariant Valid() && (buf == old(buf) || fresh(buf))
        invariant Content() + PutAll(vs[i..], ts[i..]) == old(Content()) + PutAll(vs, ts)
      {
        NextArgument(vs, ts, i);
        PutValue(vs[i], ts[i]);
      }
      assert PutAll(vs[|ts|..], ts[|ts|..]) == [];
    }

    /** `pack`: overwrites four bytes of the header in place. */
    method Pack(x: int, signed: bool)
      requires InRange(x, 4, signed) && ind + 4 <= RPC_HEADER_SZ && DEFAULT_RPC_SZ <= buf.Length
      modifies this, buf
      ensures buf == old(buf) && ind == old(ind) + 4
      ensures buf[..] == Overwrite(old(buf[..]), old(ind), BigEndian(Unsigned(x, 4), 4))
    {
      SignedUnsigned(x, 4, signed);
      var n := Unsigned(x, 4);
      RawByte(n / 0x100_0000 % 256);
      RawByte(n / 0x1_0000 % 256);
      RawByte(n / 0x100 % 256);
      RawByte(n % 256);
      WordBytes(n);
      FourBytes(old(buf[..]), old(ind), n / 0x100_0000 % 256, n / 0x1_0000 % 256, n / 0x100 % 256, n % 256);
    }

    /** The header goes in front of the content; the content and the write index stay. */
    method PackReqHeader(h: ReqHeader)
      requires Valid() && ReqInRange(h)
      modifies this, buf
      ensures Valid() && buf == old(buf) && ind == old(ind) && Content() == old(Content())
      ensures buf[..] == Overwrite(old(buf[..]), SIZE_SZ, PackedReq(h))
    {
      ghost var before := buf[..];
      var saved := ind;
      ind := SIZE_SZ;
      Pack(h.xid, true);
      Pack(h.proc, true);
      Pack(h.cltNonce, false);
      Pack(h.srvNonce, false);
      Pack(h.xidRep, true);
      FiveWords(before, Word(h.xid), Word(h.proc), Word(h.cltNonce), Word(h.srvNonce), Word(h.xidRep));
      ind := saved;
      OverwriteKeeps(before, SIZE_SZ, PackedReq(h), ind);
    }

    method PackReplyHeader(h: ReplyHeader)
      requires Valid() && ReplyInRange(h)
      modifies this, buf
      ensures Valid() && buf == old(buf) && ind == old(ind) && Content() == old(Content())
      ensures buf[..] == Overwrite(old(buf[..]), SIZE_SZ, PackedReply(h))
    {
      ghost var before := buf[..];
      var saved := ind;
      ind := SIZE_SZ;
      Pack(h.xid, true);
      Pack(h.ret, true);
      OverwriteNext(before, SIZE_SZ, Word(h.xid), Word(h.ret));
      ind := saved;
      OverwriteKeeps(before, SIZE_SZ, PackedReply(h), ind);
    }
  }

  /** Arguments first, header last: what `call` hands to the connection. */
  method MarshallRequest(h: ReqHeader, vs: seq<Value>, ts: seq<Type>) returns (m: Marshall)
    requires ReqInRange(h) && AllTyped(vs, ts)
    ensures fresh(m) && m.Valid() && AllTyped(ReqFields(h), REQ_TYPES)
    ensures m.ind < MAX_SIZE ==> IsMessage(m.buf[..m.ind], ReqFields(h), REQ_TYPES, vs, ts)
  {
    m := new Marshall();
    m.PutArguments(vs, ts);
    ghost var before := m.buf[..];
    m.PackReqHeader(h);
    ReqBytes(h);
    OverwriteKeeps(before, SIZE_SZ, PackedReq(h), m.ind);
    PackedMessage(m.buf[..], m.ind, h, vs, ts);
  }

  lemma PackedMessage(b: seq<Byte>, ind: nat, h: ReqHeader, vs: seq<Value>, ts: seq<Type>)
    requires ReqInRange(h) && AllTyped(vs, ts) && RPC_HEADER_SZ <= ind <= |b|
    requires b[SIZE_SZ..RPC_HEADER_SZ] == PackedReq(h) && b[RPC_HEADER_SZ..ind] == PutAll(vs, ts)
    ensures ind < MAX_SIZE ==> AllTyped(ReqFields(h), REQ_TYPES) && IsMessage(b[..ind], ReqFields(h), REQ_TYPES, vs, ts)
  {
    ReqBytes(h);
    assert b[..ind][RPC_HEADER_SZ..] == b[RPC_HEADER_SZ..ind];
    assert b[..ind][SIZE_SZ..RPC_HEADER_SZ] == b[SIZE_SZ..RPC_HEADER_SZ];
  }

  lemma NextArgument(vs: seq<Value>, ts: seq<Type>, i: nat)
    requires AllTyped(vs, ts) && i < |ts|
    ensures HasType(vs[i], ts[i])
    ensures PutAll(vs[i..], ts[i..]) == Put(vs[i], ts[i]) + PutAll(vs[i + 1..], ts[i + 1..])
  {
    assert vs[i..][1..] == vs[i + 1..] && ts[i..][1..] == ts[i + 1..];
  }

  class Unmarshall {
    const buf: seq<Byte>
    var ind: nat
    var ok: bool
    var undef: bool

    function View(): Reader
      reads this
    {
      Reader(buf, ind, ok, undef)
    }

    constructor (bytes: seq<Byte>)
      ensures View() == Reader(bytes, 0, true, false)
    {
      buf, ind, ok, undef := bytes, 0, true, false;
    }

    method ReadByte() returns (b: Byte)
      modifies this
      ensures Got(b, View()) == RawByte(old(View()))
    {
      if ind >= |buf| {
        b, ok := 0, false;
      } else {
        b := buf[ind];
        ind := ind + 1;
      }
    }

    /** The string parameter is passed in and out: a failed read leaves it as it was. */
    method ReadBytes(n: nat, was: seq<Byte>) returns (s: seq<Byte>)
      modifies this
      ensures Got(s, View()) == RawBytes(old(View()), n, was)
    {
      s := was;
      if (ind + n) % WORD > |buf| {
        ok := false;
      } else if ind + n > |buf| {
        undef := true;
      } else {
        s := buf[ind..ind + n];
        ind := ind + n;
      }
    }

    method ReadWord() returns (n: nat)
      modifies this
      ensures Got(n, View()) == GetNum(old(View()), WORD_SZ)
    {
      var a: int := ReadByte();
      assert Got(a, View()) == GetNum(old(View()), 1);
      var b: int := ReadByte();
      assert Got(256 * a + b, View()) == GetNum(old(View()), 2);
      var c: int := ReadByte();
      assert Got(256 * (256 * a + b) + c, View()) == GetNum(old(View()), 3);
      var d: int := ReadByte();
      n := a * 0x100_0000 + b * 0x1_0000 + c * 0x100 + d;
    }

    /** High byte first; eight bytes are two words. */
    method ReadNum(w: Width) returns (n: nat)
      modifies this
      ensures Got(n, View()) == GetNum(old(View()), w)
    {
      if w == 1 {
        var b := ReadByte();
        n := b;
      } else if w == 2 {
        var a: int := ReadByte();
        assert Got(a, View()) == GetNum(old(View()), 1);
        var b: int := ReadByte();
        n := a * 0x100 + b;
      } else if w == 4 {
        n := ReadWord();
      } else {
        NumSplit(View(), 4, 4);
        Pow4();
        var h := ReadWord();
        var l := ReadWord();
        n := l + h * WORD;
      }
    }

    method ReadStr(was: seq<Byte>) returns (v: Value)
      modifies this
      ensures Got(v, View()) == GetStr(old(View()), was)
    {
      var n := ReadWord();
      v := StrV(was);
      if ok {
        var s := ReadBytes(n, was);
        v := StrV(s);
      }
    }

    method ReadValue(t: Type, less: Order) returns (v: Value)
      modifies this
      ensures Got(v, View()) == Get(old(View()), t, less)
      decreases t
    {
      match t
      case Bool =>
        var b := ReadByte();
        v := BoolV(b != 0);
      case Num(w, signed) =>
        var n := ReadNum(w);
        v := NumV(Signed(n, w, signed));
      case Str =>
        v := ReadStr([]);
      case Vec(_) =>
        v := ReadVector(t, less);
      case Map(_, _) =>
        v := ReadMap(t, less);
    }

    method ReadVector(t: Type, less: Order) returns (v: Value)
      requires t.Vec?
      modifies this
      ensures Got(v, View()) == Get(old(View()), t, less)
      decreases t, 0
    {
      var n := ReadWord();
      ghost var start := View();
      var items := [];
      for i := 0 to n
        invariant Got(items, View()) == GetItems(start, t, less, i)
      {
        var z := ReadValue(t.elem, less);
        items := items + [z];
      }
      v := VecV(items);
    }

    method ReadMap(t: Type, less: Order) returns (v: Value)
      requires t.Map?
      modifies this
      ensures Got(v, View()) == Get(old(View()), t, less)
      decreases t, 0
    {
      var n := ReadWord();
      ghost var start := View();
      var pairs := [];
      for i := 0 to n
        invariant Got(pairs, View()) == GetPairs(start, t, less, i)
      {
        var a := ReadValue(t.key, less);
        var b := ReadValue(t.val, less);
        pairs := MapSet(pairs, a, b, less);
      }
      v := MapV(pairs);
    }
  }

  lemma Assoc(a: seq<Byte>, b: seq<Byte>, c: seq<Byte>)
    ensures (a + b) + c == a + (b + c)
  {
  }

  function Overwrite(b: seq<Byte>, at: nat, p: seq<Byte>): seq<Byte>
    requires at + |p| <= |b|
  {
    b[..at] + p + b[at + |p|..]
  }

  lemma FourBytes(b: seq<Byte>, i: nat, w: Byte, x: Byte, y: Byte, z: Byte)
    requires i + 4 <= |b|
    ensures b[i := w][i + 1 := x][i + 2 := y][i + 3 := z] == Overwrite(b, i, [w, x, y, z])
  {
  }

  lemma OverwriteNext(b: seq<Byte>, at: nat, p: seq<Byte>, q: seq<Byte>)
    requires at + |p| + |q| <= |b|
    ensures Overwrite(Overwrite(b, at, p), at + |p|, q) == Overwrite(b, at, p + q)
  {
  }

  lemma OverwriteKeeps(b: seq<Byte>, at: nat, p: seq<Byte>, hi: nat)
    requires at + |p| <= RPC_HEADER_SZ <= hi <= |b|
    ensures Overwrite(b, at, p)[RPC_HEADER_SZ..hi] == b[RPC_HEADER_SZ..hi]
    ensures Overwrite(b, at, p)[at..at + |p|] == p
  {
  }

  lemma FiveWords(b: seq<Byte>, v: seq<Byte>, w: seq<Byte>, x: seq<Byte>, y: seq<Byte>, z: seq<Byte>)
    requires |v| == |w| == |x| == |y| == |z| == 4 && |b| >= RPC_HEADER_SZ
    ensures Overwrite(Overwrite(Overwrite(Overwrite(Overwrite(b, 4, v), 8, w), 12, x), 16, y), 20, z)
         == Overwrite(b, 4, v + w + x + y + z)
  {
    OverwriteNext(b, 4, v, w);
    OverwriteNext(b, 4, v + w, x);
    OverwriteNext(b, 4, v + w + x, y);
    OverwriteNext(b, 4, v + w + x + y, z);
  }

  function Word(x: int): (r: seq<Byte>)
    requires Unsigned(x, 4) >= 0
    ensures |r| == 4
  {
    BigEndian(Unsigned(x, 4), 4)
  }

  function PackedReq(h: ReqHeader): (r: seq<Byte>)
    requires ReqInRange(h)
    ensures |r| == RPC_HEADER_SZ - SIZE_SZ
  {
    Word(h.xid) + Word(h.proc) + Word(h.cltNonce) + Word(h.srvNonce) + Word(h.xidRep)
  }

  function PackedReply(h: ReplyHeader): (r: seq<Byte>)
    requires ReplyInRange(h)
    ensures |r| == 8
  {
    Word(h.xid) + Word(h.ret)
  }

  /** The packed header is what writing its fields one by one would give. */
  lemma ReqBytes(h: ReqHeader)
    requires ReqInRange(h)
    ensures AllTyped(ReqFields(h), REQ_TYPES) && PutAll(ReqFields(h), REQ_TYPES) == PackedReq(h)
  {
    var vs, ts := ReqFields(h), REQ_TYPES;
    assert PutAll(vs[5..], ts[5..]) == [];
    assert PutAll(vs[4..], ts[4..]) == Word(h.xidRep) + PutAll(vs[5..], ts[5..]);
    assert PutAll(vs[3..], ts[3..]) == Word(h.srvNonce) + PutAll(vs[4..], ts[4..]);
    assert PutAll(vs[2..], ts[2..]) == Word(h.cltNonce) + PutAll(vs[3..], ts[3..]);
    assert PutAll(vs[1..], ts[1..]) == Word(h.proc) + PutAll(vs[2..], ts[2..]);
  }

  lemma ReplyBytes(h: ReplyHeader)
    requires ReplyInRange(h)
    ensures AllTyped(ReplyFields(h), REPLY_TYPES) && PutAll(ReplyFields(h), REPLY_TYPES) == PackedReply(h)
  {
    var vs, ts := ReplyFields(h), REPLY_TYPES;
    assert PutAll(vs[2..], ts[2..]) == [];
    assert PutAll(vs[1..], ts[1..]) == Word(h.ret) + PutAll(vs[2..], ts[2..]);
  }

  lemma NextItem(items: seq<Value>, t: Type, i: nat)
    requires t.Vec? && ItemsTyped(items, t) && i < |items|
    ensures HasType(items[i], t.elem) && ItemsTyped(items[..i + 1], t)
    ensures PutItems(items[..i + 1], t) == PutItems(items[..i], t) + Put(items[i], t.elem)
  {
    assert items[..i + 1][..i] == items[..i];
  }

  lemma NextPair(pairs: seq<Pair>, t: Type, i: nat)
    requires t.Map? && PairsTyped(pairs, t) && i < |pairs|
    ensures HasType(pairs[i].key, t.key) && HasType(pairs[i].val, t.val) && PairsTyped(pairs[..i + 1], t)
    ensures PutPairs(pairs[..i + 1], t) == PutPairs(pairs[..i], t) + PutPair(pairs[i], t)
  {
    assert pairs[i] in pairs;
    assert pairs[..i + 1][..i] == pairs[..i];
  }

  /** Reading in two pieces. */
  lemma {:induction false} NumSplit(u: Reader, a: nat, b: nat)
    ensures var hi := GetNum(u, a);
            var lo := GetNum(hi.rest, b);
            GetNum(u, a + b) == Got(hi.val * Pow256(b) + lo.val, lo.rest)
    decreases b
  {
    if b > 0 {
      NumSplit(u, a, b - 1);
      Regroup(GetNum(u, a).val, Pow256(b - 1), GetNum(GetNum(u, a).rest, b - 1).val);
    }
  }

  lemma Regroup(h: nat, p: nat, l: nat)
    ensures 256 * (h * p + l) == h * (256 * p) + 256 * l
  {
  }

  lemma NumBytes(x: nat, w: Width)
    requires x < Pow256(w)
    ensures w == 1 ==> x < 256 && BigEndian(x, w) == [x]
    ensures w == 2 ==> x < 0x1_0000
    ensures w == 4 ==> x < WORD
    ensures w == 8 ==> x / WORD < WORD
  {
    Pow4();
    if w == 1 {
      assert BigEndian(x, 1) == BigEndian(x / 256, 0) + [x];
    }
  }

  lemma Pow4()
    ensures Pow256(4) == WORD && Pow256(8) == WORD * WORD
  {
    assert Pow256(4) == 256 * Pow256(3) && Pow256(3) == 256 * Pow256(2) && Pow256(2) == 256 * Pow256(1);
    assert Pow256(8) == 256 * Pow256(7) && Pow256(7) == 256 * Pow256(6) && Pow256(6) == 256 * Pow256(5);
  }

  /** Eight bytes are the high word and the low word. */
  lemma LongBytes(x: nat)
    ensures BigEndian(x, 8) == BigEndian(x / WORD, 4) + BigEndian(x % WORD, 4)
  {
    WordBytes(x % WORD);
    LowBytes(x);
    assert BigEndian(x / 0x100_0000, 5) == BigEndian(x / WORD, 4) + [x / 0x100_0000 % 256];
    assert BigEndian(x / 0x1_0000, 6) == BigEndian(x / 0x100_0000, 5) + [x / 0x1_0000 % 256];
    assert BigEndian(x / 0x100, 7) == BigEndian(x / 0x1_0000, 6) + [x / 0x100 % 256];
  }

  lemma LowBytes(x: nat)
    ensures x % WORD / 0x100_0000 % 256 == x / 0x100_0000 % 256
    ensures x % WORD / 0x1_0000 % 256 == x / 0x1_0000 % 256
    ensures x % WORD / 0x100 % 256 == x / 0x100 % 256
    ensures x % WORD % 256 == x % 256
    ensures x / 0x100 / 0x100 == x / 0x1_0000 && x / 0x1_0000 / 0x100 == x / 0x100_0000
    ensures x / 0x100_0000 / 0x100 == x / WORD
  {
    var k, low := x / WORD, x % WORD;
    ShiftWords(low, k);
    SameByte(low / 0x100, 0x1_0000 * k);
    SameByte(low / 0x1_0000, 0x100 * k);
    SameByte(low / 0x100_0000, k);
    SameByte(low, 0x100_0000 * k);
  }

  lemma ShiftWords(x: nat, k: nat)
    ensures (x + WORD * k) / 0x100 == x / 0x100 + 0x100_0000 * k
    ensures (x + WORD * k) / 0x1_0000 == x / 0x1_0000 + 0x1_0000 * k
    ensures (x + WORD * k) / 0x100_0000 == x / 0x100_0000 + 0x100 * k
  {
  }

  lemma SameByte(x: nat, k: nat)
    ensures (x + 256 * k) % 256 == x % 256
  {
  }

  lemma WordBytes(x: nat)
    ensures BigEndian(x, WORD_SZ) == [x / 0x100_0000 % 256, x / 0x1_0000 % 256, x / 0x100 % 256, x % 256]
  {
    assert x / 0x100 / 0x100 == x / 0x1_0000 && x / 0x1_0000 / 0x100 == x / 0x100_0000;
    assert BigEndian(x / 0x100_0000, 1) == [x / 0x100_0000 % 256];
    assert BigEndian(x / 0x1_0000, 2) == BigEndian(x / 0x100_0000, 1) + [x / 0x1_0000 % 256];
    assert BigEndian(x / 0x100, 3) == BigEndian(x / 0x1_0000, 2) + [x / 0x100 % 256];
  }
}
