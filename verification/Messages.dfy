/** Requests and replies as they go over the wire: size, header, body. */
module Messages {
  import opened Marshalling
  import opened MarshallingCut

  const SIZE_SZ := 4
  const RPC_HEADER_SZ := 24

  datatype ReqHeader = ReqHeader(xid: int, proc: int, cltNonce: nat, srvNonce: nat, xidRep: int)

  datatype ReplyHeader = ReplyHeader(xid: int, ret: int)

  predicate IsInt(n: int) { InRange(n, 4, true) }

  predicate ReqInRange(h: ReqHeader) {
    IsInt(h.xid) && IsInt(h.proc) && InRange(h.cltNonce, 4, false) && InRange(h.srvNonce, 4, false) && IsInt(h.xidRep)
  }

  predicate ReplyInRange(h: ReplyHeader) {
    IsInt(h.xid) && IsInt(h.ret)
  }

  const INT := Num(4, true)
  const UINT := Num(4, false)
  const REQ_TYPES := [INT, INT, UINT, UINT, INT]
  const REPLY_TYPES := [INT, INT]

  /** The header fields are written like the values of a body. */
  function ReqFields(h: ReqHeader): seq<Value> {
    [NumV(h.xid), NumV(h.proc), NumV(h.cltNonce), NumV(h.srvNonce), NumV(h.xidRep)]
  }

  function ReplyFields(h: ReplyHeader): seq<Value> {
    [NumV(h.xid), NumV(h.ret)]
  }

  function IntOf(v: Value): int {
    if v.NumV? then v.n else 0
  }

  function NatOf(v: Value): nat {
    if v.NumV? && v.n >= 0 then v.n else 0
  }

  /** The header that `unpack_req_header` fills in. */
  function ReqHeaderOf(fields: seq<Value>): ReqHeader
    requires |fields| == |REQ_TYPES|
  {
    ReqHeader(IntOf(fields[0]), IntOf(fields[1]), NatOf(fields[2]), NatOf(fields[3]), IntOf(fields[4]))
  }

  function ReplyHeaderOf(fields: seq<Value>): ReplyHeader
    requires |fields| == |REPLY_TYPES|
  {
    ReplyHeader(IntOf(fields[0]), IntOf(fields[1]))
  }

  lemma {:induction false} FieldsTyped(vs: seq<Value>, ts: seq<Type>, less: Order)
    requires AllTyped(vs, ts) && forall i :: 0 <= i < |ts| ==> ts[i].Num? && ts[i].width == 4
    ensures |PutAll(vs, ts)| == 4 * |ts| && AllOrdered(vs, ts, less)
    decreases |ts|
  {
    if ts != [] {
      FieldsTyped(vs[1..], ts[1..], less);
    }
  }

  /** Unpacking starts behind the size and ends at the body, whatever was read. */
  function UnpackHeader(u: Reader, ts: seq<Type>, less: Order): Got<seq<Value>> {
    var fields := GetAll(u.(ind := SIZE_SZ), ts, less);
    Got(fields.val, fields.rest.(ind := RPC_HEADER_SZ))
  }

  /** The receiver of a request: a reader over the whole message, header first, then the arguments. */
  function Receive(buf: seq<Byte>, header: seq<Type>, body: seq<Type>, less: Order): Got<(seq<Value>, seq<Value>)> {
    var h := UnpackHeader(Reader(buf, 0, true, false), header, less);
    var b := GetAll(h.rest, body, less);
    Got((h.val, b.val), b.rest)
  }

  /** A message on the wire: a size word, the header fields, whatever fills the header up, and the body. */
  ghost predicate IsMessage(buf: seq<Byte>, fields: seq<Value>, header: seq<Type>, vs: seq<Value>, ts: seq<Type>)
    requires AllTyped(fields, header) && AllTyped(vs, ts)
  {
    && RPC_HEADER_SZ <= |buf| < MAX_SIZE
    && SIZE_SZ + |PutAll(fields, header)| <= RPC_HEADER_SZ
    && buf[SIZE_SZ..SIZE_SZ + |PutAll(fields, header)|] == PutAll(fields, header)
    && buf[RPC_HEADER_SZ..] == PutAll(vs, ts)
  }

  /** Header and body come back as they were packed, with nothing left over. */
  lemma MessageRoundTrip(buf: seq<Byte>, fields: seq<Value>, header: seq<Type>, vs: seq<Value>, ts: seq<Type>,
                         less: Order)
    requires AllTyped(fields, header) && AllTyped(vs, ts) && IsMessage(buf, fields, header, vs, ts)
    requires AllOrdered(fields, header, less) && AllOrdered(vs, ts, less)
    ensures var r := Receive(buf, header, ts, less); r.val == (fields, vs) && OkDone(r.rest) && !r.rest.undef
  {
    var u := Reader(buf, SIZE_SZ, true, false);
    ReadsAll(u, fields, header, less);
    var v := Reader(buf, RPC_HEADER_SZ, true, false);
    assert buf[v.ind..v.ind + |PutAll(vs, ts)|] == buf[RPC_HEADER_SZ..];
    ReadsAll(v, vs, ts, less);
  }

  /** The server gets the header and the arguments that the client packed. */
  lemma RequestRoundTrip(buf: seq<Byte>, h: ReqHeader, vs: seq<Value>, ts: seq<Type>, less: Order)
    requires ReqInRange(h) && AllTyped(vs, ts) && AllOrdered(vs, ts, less)
    requires IsMessage(buf, ReqFields(h), REQ_TYPES, vs, ts)
    ensures var r := Receive(buf, REQ_TYPES, ts, less);
            |r.val.0| == |REQ_TYPES| && ReqHeaderOf(r.val.0) == h && r.val.1 == vs && OkDone(r.rest)
  {
    FieldsTyped(ReqFields(h), REQ_TYPES, less);
    MessageRoundTrip(buf, ReqFields(h), REQ_TYPES, vs, ts, less);
  }

  /** Arguments with something behind them are read, but the message is not taken as complete. */
  lemma LongRequestFails(buf: seq<Byte>, more: seq<Byte>, vs: seq<Value>, ts: seq<Type>, less: Order)
    requires AllTyped(vs, ts) && AllOrdered(vs, ts, less) && more != []
    requires RPC_HEADER_SZ <= |buf| && |buf| + |more| < MAX_SIZE && buf[RPC_HEADER_SZ..] == PutAll(vs, ts)
    ensures var body := GetAll(Reader(buf + more, RPC_HEADER_SZ, true, false), ts, less);
            body.val == vs && body.rest.ok && !OkDone(body.rest)
  {
    var u := Reader(buf + more, RPC_HEADER_SZ, true, false);
    assert (buf + more)[u.ind..u.ind + |PutAll(vs, ts)|] == buf[RPC_HEADER_SZ..];
    ReadsAll(u, vs, ts, less);
  }

  /** Any strict prefix of a request fails, whether the cut is in the size, the header or the body. */
  lemma CutRequestFails(buf: seq<Byte>, h: ReqHeader, vs: seq<Value>, ts: seq<Type>, less: Order, n: nat)
    requires ReqInRange(h) && AllTyped(vs, ts) && AllOrdered(vs, ts, less)
    requires IsMessage(buf, ReqFields(h), REQ_TYPES, vs, ts) && n < |buf|
    ensures !Receive(buf[..n], REQ_TYPES, ts, less).rest.ok
  {
    var u := Reader(buf[..n], SIZE_SZ, true, false);
    if n < RPC_HEADER_SZ {
      CutHeader(buf, h, vs, ts, less, n);
      AllMove(GetAll(u, REQ_TYPES, less).rest.(ind := RPC_HEADER_SZ), ts, less);
    } else {
      FieldsTyped(ReqFields(h), REQ_TYPES, less);
      HeaderOfPrefix(buf, ReqFields(h), REQ_TYPES, vs, ts, less, n);
      CutBody(buf, vs, ts, less, n);
    }
  }

  lemma HeaderOfPrefix(buf: seq<Byte>, fields: seq<Value>, header: seq<Type>, vs: seq<Value>, ts: seq<Type>,
                       less: Order, n: nat)
    requires AllTyped(fields, header) && AllOrdered(fields, header, less) && AllTyped(vs, ts)
    requires IsMessage(buf, fields, header, vs, ts) && RPC_HEADER_SZ <= n <= |buf|
    ensures UnpackHeader(Reader(buf[..n], 0, true, false), header, less)
         == Got(fields, Reader(buf[..n], RPC_HEADER_SZ, true, false))
  {
    var m := |PutAll(fields, header)|;
    assert buf[..n][SIZE_SZ..SIZE_SZ + m] == buf[SIZE_SZ..SIZE_SZ + m];
    ReadsAll(Reader(buf[..n], SIZE_SZ, true, false), fields, header, less);
  }

  lemma CutHeader(buf: seq<Byte>, h: ReqHeader, vs: seq<Value>, ts: seq<Type>, less: Order, n: nat)
    requires ReqInRange(h) && AllTyped(vs, ts)
    requires IsMessage(buf, ReqFields(h), REQ_TYPES, vs, ts) && n < RPC_HEADER_SZ
    ensures !GetAll(Reader(buf[..n], SIZE_SZ, true, false), REQ_TYPES, less).rest.ok
  {
    if n < SIZE_SZ {
      ShortHeader(Reader(buf[..n], SIZE_SZ, true, false), REQ_TYPES, less);
    } else {
      FieldsTyped(ReqFields(h), REQ_TYPES, less);
      var u := Reader(buf, SIZE_SZ, true, false);
      ReadsAll(u, ReqFields(h), REQ_TYPES, less);
      CutAll(u, n, REQ_TYPES, less);
    }
  }

  lemma CutBody(buf: seq<Byte>, vs: seq<Value>, ts: seq<Type>, less: Order, n: nat)
    requires AllTyped(vs, ts) && AllOrdered(vs, ts, less)
    requires RPC_HEADER_SZ <= n < |buf| < MAX_SIZE && buf[RPC_HEADER_SZ..] == PutAll(vs, ts)
    ensures !GetAll(Reader(buf[..n], RPC_HEADER_SZ, true, false), ts, less).rest.ok
  {
    var v := Reader(buf, RPC_HEADER_SZ, true, false);
    assert buf[v.ind..v.ind + |PutAll(vs, ts)|] == buf[RPC_HEADER_SZ..];
    ReadsAll(v, vs, ts, less);
    CutAll(v, n, ts, less);
  }

  // ----- replies -----

  /** The waiting caller's reader takes over the buffer, and is good only if a whole header arrived. */
  function TakeIn(u: Reader): Reader {
    u.(ind := RPC_HEADER_SZ, ok := |u.buf| >= RPC_HEADER_SZ)
  }

  lemma ReplyRoundTrip(buf: seq<Byte>, h: ReplyHeader, vs: seq<Value>, ts: seq<Type>, less: Order)
    requires ReplyInRange(h) && AllTyped(vs, ts) && AllOrdered(vs, ts, less)
    requires IsMessage(buf, ReplyFields(h), REPLY_TYPES, vs, ts)
    ensures var header := UnpackHeader(Reader(buf, 0, true, false), REPLY_TYPES, less);
            var body := GetAll(TakeIn(header.rest), ts, less);
            && |header.val| == |REPLY_TYPES| && ReplyHeaderOf(header.val) == h && header.rest.ok
            && body.val == vs && OkDone(body.rest)
  {
    FieldsTyped(ReplyFields(h), REPLY_TYPES, less);
    assert buf[..|buf|] == buf;
    HeaderOfPrefix(buf, ReplyFields(h), REPLY_TYPES, vs, ts, less, |buf|);
    var v := Reader(buf, RPC_HEADER_SZ, true, false);
    assert buf[v.ind..v.ind + |PutAll(vs, ts)|] == buf[RPC_HEADER_SZ..];
    ReadsAll(v, vs, ts, less);
  }

  /** Any strict prefix of a reply fails. */
  lemma CutReplyFails(buf: seq<Byte>, h: ReplyHeader, vs: seq<Value>, ts: seq<Type>, less: Order, n: nat)
    requires ReplyInRange(h) && AllTyped(vs, ts) && AllOrdered(vs, ts, less)
    requires IsMessage(buf, ReplyFields(h), REPLY_TYPES, vs, ts) && n < |buf|
    ensures var header := UnpackHeader(Reader(buf[..n], 0, true, false), REPLY_TYPES, less);
            !GetAll(TakeIn(header.rest), ts, less).rest.ok
  {
    var header := UnpackHeader(Reader(buf[..n], 0, true, false), REPLY_TYPES, less);
    AllMove(Reader(buf[..n], SIZE_SZ, true, false), REPLY_TYPES, less);
    AllMove(TakeIn(header.rest), ts, less);
    if n >= RPC_HEADER_SZ {
      FieldsTyped(ReplyFields(h), REPLY_TYPES, less);
      HeaderOfPrefix(buf, ReplyFields(h), REPLY_TYPES, vs, ts, less, n);
      CutBody(buf, vs, ts, less, n);
    }
  }

  /** Reading past the end fails on the first byte. */
  lemma ShortHeader(u: Reader, ts: seq<Type>, less: Order)
    requires u.ind >= |u.buf| && ts != [] && ts[0].Num?
    ensures !GetAll(u, ts, less).rest.ok
  {
    FirstByte(u, ts[0].width);
    AllMove(Get(u, ts[0], less).rest, ts[1..], less);
  }

  lemma {:induction false} FirstByte(u: Reader, w: nat)
    requires u.ind >= |u.buf| && w > 0
    ensures !GetNum(u, w).rest.ok
    decreases w
  {
    if w > 1 {
      FirstByte(u, w - 1);
      NumMoves(u, w - 1);
    }
  }

  lemma {:induction false} NumPastEnd(u: Reader, w: nat)
    requires u.ind >= |u.buf| && w > 0
    ensures GetNum(u, w) == Got(0, u.(ok := false))
    decreases w
  {
    if w > 1 {
      NumPastEnd(u, w - 1);
    }
  }

  /** Reading past the end fails, gives zeros, and leaves a string as it was. */
  lemma PastEnd(u: Reader, w: Width, was: seq<Byte>)
    requires u.ind >= |u.buf|
    ensures GetNum(u, w) == Got(0, u.(ok := false)) && GetStr(u, was) == Got(StrV(was), u.(ok := false))
  {
    NumPastEnd(u, w);
    NumPastEnd(u, WORD_SZ);
  }

  /** A string that is not read whole leaves the caller's string as it was. */
  lemma FailedStrKeeps(u: Reader, was: seq<Byte>)
    requires !GetStr(u, was).rest.ok
    ensures GetStr(u, was).val == StrV(was)
  {
  }

  /** A request without a body is refused by a handler that expects a number: the server cannot read it. */
  lemma MissingArgumentFails(buf: seq<Byte>, w: Width, signed: bool, less: Order)
    requires |buf| == RPC_HEADER_SZ
    ensures !Receive(buf, REQ_TYPES, [Num(w, signed)], less).rest.ok
  {
    var h := UnpackHeader(Reader(buf, 0, true, false), REQ_TYPES, less);
    AllMove(Reader(buf, SIZE_SZ, true, false), REQ_TYPES, less);
    NumPastEnd(h.rest, w);
    var ts := [Num(w, signed)];
    assert ts[1..] == [];
    assert GetAll(h.rest, ts, less).rest == Get(h.rest, ts[0], less).rest;
  }
}
