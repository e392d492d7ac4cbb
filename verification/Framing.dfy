/** PDUs over a byte stream: a size word in front, and any number of partial writes and reads. */
module Framing {
  import opened Marshalling
  import Messages

  const SIZE_SZ := Messages.SIZE_SZ
  const MAX_PDU := 10 * 0x10_0000

  type Bytes = seq<Byte>

  /** The size goes over the first four bytes of the buffer, as far as it has them. */
  function Stamped(b: Bytes): (r: Bytes)
    ensures |r| == |b| && (|b| >= SIZE_SZ ==> r[SIZE_SZ..] == b[SIZE_SZ..])
    ensures |b| < SIZE_SZ ==> r == BigEndian(|b|, WORD_SZ)[..|b|]
  {
    if |b| < SIZE_SZ then BigEndian(|b|, WORD_SZ)[..|b|] else BigEndian(|b|, WORD_SZ) + b[SIZE_SZ..]
  }

  function SizeIn(b: Bytes): int
    requires |b| >= SIZE_SZ
  {
    Signed(GetNum(Reader(b, 0, true, false), WORD_SZ).val, WORD_SZ, true)
  }

  /** What is being written: nothing, a buffer of which `solong` bytes are out, or a failed one. */
  datatype Out = Idle | Busy(buf: Bytes, solong: nat) | Broken

  /** What is being read: nothing, or the bytes so far of a PDU of size `sz`. */
  datatype In = Waiting | Filling(buf: Bytes, sz: int)

  datatype WriteResult = WroteSome(n: nat) | WouldBlock | WriteError

  datatype SizeRead = SizeWord | SizeMissing(lost: nat)

  datatype BodyRead = Body(n: nat) | NoBody | BodyError

  /** One direction of a connection. `given` are the buffers that `send` took, `wrote` the bytes that went out. */
  datatype Link = Link(
    given: seq<Bytes>,
    out: Out,
    senderDead: bool,
    wrote: Bytes,
    wire: Bytes,
    into: In,
    receiverDead: bool,
    got: seq<Bytes>
  )

  datatype Step =
    | Give(b: Bytes)
    | Write(result: WriteResult)
    | EndSend
    | SenderDies
    | Read(size: SizeRead, body: BodyRead, accept: bool)
    | ReceiverDies

  // ----- the sender -----

  predicate CanWrite(out: Out, result: WriteResult) {
    out.Busy? && out.solong <= |out.buf| && (result.WroteSome? ==> result.n <= |out.buf| - out.solong)
  }

  /** `writepdu`: the new state and the bytes that went out. */
  function WritePdu(out: Out, result: WriteResult): (Out, Bytes)
    requires CanWrite(out, result)
  {
    if out.solong == |out.buf| then (out, [])
    else
      var buf := if out.solong == 0 then Stamped(out.buf) else out.buf;
      match result
      case WroteSome(n) => (Busy(buf, out.solong + n), buf[out.solong..out.solong + n])
      case WouldBlock => (Busy(buf, out.solong), [])
      case WriteError => (Broken, [])
  }

  // ----- the receiver -----

  /** The first half of `readpdu`: a PDU starts with its size word. */
  function ReadSize(into: In, wire: Bytes, size: SizeRead): (In, Bytes, bool)
    requires into.Waiting? ==> if size.SizeWord? then |wire| >= SIZE_SZ else size.lost <= |wire|
  {
    match into
    case Filling(_, _) => (into, wire, true)
    case Waiting =>
      match size
      case SizeMissing(lost) => (Waiting, wire[lost..], false)
      case SizeWord =>
        var sz := SizeIn(wire);
        if sz > MAX_PDU then (Waiting, wire[SIZE_SZ..], false)
        else (Filling(wire[..SIZE_SZ], sz), wire[SIZE_SZ..], true)
  }

  /** The second half: as many bytes of this PDU as there are. */
  function ReadBody(into: In, wire: Bytes, body: BodyRead): (In, Bytes, bool)
    requires into.Filling? && (body.Body? ==> body.n <= |wire|)
  {
    match body
    case Body(n) => (Filling(into.buf + wire[..n], into.sz), wire[n..], true)
    case NoBody => (into, wire, true)
    case BodyError => (Waiting, wire, false)
  }

  predicate Complete(into: In) {
    into.Filling? && |into.buf| == into.sz
  }

  predicate Full(into: In) {
    into.Filling? && |into.buf| >= into.sz
  }

  function ReadPdu(into: In, wire: Bytes, size: SizeRead, body: BodyRead): (In, Bytes, bool)
    requires CanRead(into, wire, size, body)
  {
    var (in1, wire1, ok) := ReadSize(into, wire, size);
    if !ok then (in1, wire1, false) else ReadBody(in1, wire1, body)
  }

  /** The results that the two `read` calls can give. */
  predicate CanRead(into: In, wire: Bytes, size: SizeRead, body: BodyRead) {
    && (into.Waiting? ==> if size.SizeWord? then |wire| >= SIZE_SZ else size.lost <= |wire|)
    && var (in1, wire1, ok) := ReadSize(into, wire, size);
       ok && body.Body? ==> 0 < body.n <= |wire1| && body.n <= in1.sz - |in1.buf|
  }

  // ----- the steps of a link -----

  predicate Enabled(l: Link, step: Step) {
    match step
    case Give(b) => !l.senderDead && l.out == Idle && SIZE_SZ <= |b| < MAX_SIZE
    case Write(result) => !l.senderDead && CanWrite(l.out, result)
    case EndSend => l.out.Broken? || (l.out.Busy? && (l.senderDead || l.out.solong == |l.out.buf|))
    case SenderDies => true
    case Read(size, body, _) => l.receiverDead || Full(l.into) || CanRead(l.into, l.wire, size, body)
    case ReceiverDies => true
  }

  function Apply(l: Link, step: Step): Link
    requires Enabled(l, step)
  {
    match step
    case Give(b) => l.(given := l.given + [b], out := Busy(b, 0))
    case Write(result) =>
      var (out, bytes) := WritePdu(l.out, result);
      l.(out := out, wrote := l.wrote + bytes, wire := l.wire + bytes, senderDead := out == Broken)
    case EndSend => l.(out := Idle)
    case SenderDies => l.(senderDead := true)
    case Read(size, body, accept) => ReadCallback(l, size, body, accept)
    case ReceiverDies => l.(receiverDead := true)
  }

  function ReadCallback(l: Link, size: SizeRead, body: BodyRead, accept: bool): Link
    requires l.receiverDead || Full(l.into) || CanRead(l.into, l.wire, size, body)
  {
    if l.receiverDead then l
    else if Full(l.into) then Delivered(l, accept)
    else
      var (into, wire, ok) := ReadPdu(l.into, l.wire, size, body);
      Delivered(l.(into := into, wire := wire, receiverDead := !ok), accept)
  }

  /** A complete PDU goes to the channel manager, and stays when that refuses it. */
  function Delivered(l: Link, accept: bool): Link {
    if Complete(l.into) && accept then l.(got := l.got + [l.into.buf], into := Waiting) else l
  }

  predicate IsRun(l: Link, run: seq<Step>)
    decreases |run|
  {
    run == [] || (Enabled(l, run[0]) && IsRun(Apply(l, run[0]), run[1..]))
  }

  function Exec(l: Link, run: seq<Step>): Link
    requires IsRun(l, run)
    decreases |run|
  {
    if run == [] then l else Exec(Apply(l, run[0]), run[1..])
  }

  const START := Link([], Idle, false, [], [], Waiting, false, [])

  // ----- byte streams -----

  function Concat(ps: seq<Bytes>): Bytes {
    if ps == [] then [] else ps[0] + Concat(ps[1..])
  }

  lemma {:induction false} ConcatSplit(ps: seq<Bytes>, n: nat)
    requires n <= |ps|
    ensures Concat(ps) == Concat(ps[..n]) + Concat(ps[n..])
    decreases n
  {
    if n > 0 {
      ConcatSplit(ps[1..], n - 1);
      assert ps[..n][1..] == ps[1..][..n - 1] && ps[n..] == ps[1..][n - 1..];
    }
  }

  lemma ConcatAppend(ps: seq<Bytes>, p: Bytes)
    ensures Concat(ps + [p]) == Concat(ps) + p
  {
    ConcatSplit(ps + [p], |ps|);
    assert (ps + [p])[..|ps|] == ps && (ps + [p])[|ps|..] == [p];
    assert [p][1..] == [];
  }

  lemma PrefixCancel(a: Bytes, x: Bytes, y: Bytes, whole: Bytes)
    requires a + x <= whole && whole == a + y
    ensures x <= y
  {
    assert (a + x)[|a|..] == x && whole[|a|..] == y;
    assert (a + x)[|a|..] <= whole[|a|..];
  }

  // ----- what has been sent -----

  predicate AllSized(given: seq<Bytes>) {
    forall i :: 0 <= i < |given| ==> SIZE_SZ <= |given[i]| < MAX_SIZE
  }

  /** The PDUs as they go over the wire. */
  function Sent(given: seq<Bytes>): (r: seq<Bytes>)
    requires AllSized(given)
    ensures |r| == |given| && forall i :: 0 <= i < |given| ==> r[i] == Stamped(given[i])
  {
    seq(|given|, i requires 0 <= i < |given| => Stamped(given[i]))
  }

  lemma SentAppend(given: seq<Bytes>, b: Bytes)
    requires AllSized(given) && SIZE_SZ <= |b| < MAX_SIZE
    ensures AllSized(given + [b]) && Sent(given + [b]) == Sent(given) + [Stamped(b)]
  {
  }

  /** The size word of a PDU is its length. */
  lemma StampedSize(b: Bytes)
    requires SIZE_SZ <= |b| < MAX_SIZE
    ensures SizeIn(Stamped(b)[..SIZE_SZ]) == |b|
  {
    var u := Reader(Stamped(b)[..SIZE_SZ], 0, true, false);
    WordRange(|b|);
    assert u.buf == BigEndian(|b|, WORD_SZ) == u.buf[0..0 + WORD_SZ];
    ReadsNum(u, |b|, WORD_SZ);
    assert Pow256(4) == 256 * Pow256(3) && Pow256(3) == 256 * Pow256(2) && Pow256(2) == 256 * Pow256(1);
  }

  lemma {:induction false} SizeInPrefix(b: Bytes, c: Bytes, w: nat)
    requires w <= |b| && b <= c
    ensures GetNum(Reader(b, 0, true, false), w).val == GetNum(Reader(c, 0, true, false), w).val
    ensures GetNum(Reader(b, 0, true, false), w).rest.ind == GetNum(Reader(c, 0, true, false), w).rest.ind == w
    ensures GetNum(Reader(b, 0, true, false), w).rest.buf == b && GetNum(Reader(c, 0, true, false), w).rest.buf == c
    decreases w
  {
    if w > 0 {
      SizeInPrefix(b, c, w - 1);
    }
  }

  // ----- the invariant -----

  /** What went out is a prefix of the PDUs; a buffer under way is the last one. */
  predicate Wrote(last: Bytes, sent: seq<Bytes>, out: Out, dead: bool, wrote: Bytes) {
    && wrote <= Concat(sent)
    && match out
       case Idle => !dead ==> wrote == Concat(sent)
       case Broken => dead
       case Busy(buf, solong) =>
         && sent != []
         && solong <= |buf|
         && (buf == last || buf == sent[|sent| - 1])
         && (solong > 0 ==> buf == sent[|sent| - 1])
         && wrote == Concat(sent[..|sent| - 1]) + sent[|sent| - 1][..solong]
  }

  function Last(given: seq<Bytes>): Bytes {
    if given == [] then [] else given[|given| - 1]
  }

  predicate WriterOk(l: Link)
    requires AllSized(l.given)
  {
    Wrote(Last(l.given), Sent(l.given), l.out, l.senderDead, l.wrote)
  }

  function Part(into: In): Bytes {
    match into
    case Waiting => []
    case Filling(buf, _) => buf
  }

  /** Taken, under way and on the wire make up what was written; the PDU under way is the next one sent. */
  predicate Tracks(sent: seq<Bytes>, got: seq<Bytes>, into: In, wire: Bytes, wrote: Bytes) {
    && got <= sent
    && Concat(got) + (Part(into) + wire) == wrote
    && (into.Filling? ==>
          |got| < |sent| && |into.buf| >= SIZE_SZ && into.buf <= sent[|got|] && into.sz == |sent[|got|]|)
  }

  predicate ReaderOk(l: Link)
    requires AllSized(l.given)
  {
    && l.got <= Sent(l.given)
    && (!l.receiverDead ==> Tracks(Sent(l.given), l.got, l.into, l.wire, l.wrote))
  }

  predicate Inv(l: Link) {
    AllSized(l.given) && WriterOk(l) && ReaderOk(l)
  }

  lemma StampedTwice(b: Bytes)
    ensures Stamped(Stamped(b)) == Stamped(b)
  {
  }

  lemma GiveWrote(last: Bytes, sent: seq<Bytes>, wrote: Bytes, b: Bytes)
    requires Wrote(last, sent, Idle, false, wrote)
    ensures Wrote(b, sent + [Stamped(b)], Busy(b, 0), false, wrote)
  {
    var more := sent + [Stamped(b)];
    ConcatAppend(sent, Stamped(b));
    assert more[..|more| - 1] == sent && more[|more| - 1] == Stamped(b);
    assert Stamped(b)[..0] == [] && wrote + [] == wrote;
  }

  /** What is sent later does not disturb the receiver. */
  lemma GiveTracks(sent: seq<Bytes>, p: Bytes, got: seq<Bytes>, into: In, wire: Bytes, wrote: Bytes)
    requires Tracks(sent, got, into, wire, wrote)
    ensures Tracks(sent + [p], got, into, wire, wrote)
  {
  }

  lemma GiveInv(l: Link, b: Bytes)
    requires Inv(l) && Enabled(l, Give(b))
    ensures Inv(Apply(l, Give(b)))
  {
    SentAppend(l.given, b);
    GiveWrote(Last(l.given), Sent(l.given), l.wrote, b);
    assert Last(l.given + [b]) == b;
    if !l.receiverDead {
      GiveTracks(Sent(l.given), Stamped(b), l.got, l.into, l.wire, l.wrote);
    }
  }

  /** One call of `writepdu` moves on in the stamped buffer, and nowhere else. */
  lemma WriteMoves(b: Bytes, out: Out, result: WriteResult)
    requires CanWrite(out, result) && |b| == |out.buf|
    requires (out.buf == b || out.buf == Stamped(b)) && (out.solong > 0 ==> out.buf == Stamped(b))
    ensures var (next, bytes) := WritePdu(out, result);
            if next.Busy? then
              && out.solong <= next.solong <= |b|
              && (next.buf == b || next.buf == Stamped(b)) && (next.solong > 0 ==> next.buf == Stamped(b))
              && Stamped(b)[..out.solong] + bytes == Stamped(b)[..next.solong]
            else next.Broken? && bytes == []
  {
    StampedTwice(b);
  }

  lemma WriteInv(l: Link, result: WriteResult)
    requires Inv(l) && Enabled(l, Write(result))
    ensures Inv(Apply(l, Write(result)))
  {
    var (next, bytes) := WritePdu(l.out, result);
    WriterKept(l, result);
    Assoc(Concat(l.got), Part(l.into) + l.wire, bytes);
    Assoc(Part(l.into), l.wire, bytes);
  }

  lemma WriterKept(l: Link, result: WriteResult)
    requires AllSized(l.given) && WriterOk(l) && Enabled(l, Write(result))
    ensures WriterOk(Apply(l, Write(result)))
  {
    var sent := Sent(l.given);
    var n := |sent| - 1;
    var (next, bytes) := WritePdu(l.out, result);
    WriteMoves(l.given[n], l.out, result);
    if next.Busy? {
      WroteMore(Last(l.given), sent, l.out, next, bytes, l.wrote);
    } else {
      assert l.wrote + [] == l.wrote;
    }
  }

  lemma WroteMore(last: Bytes, sent: seq<Bytes>, out: Out, next: Out, bytes: Bytes, wrote: Bytes)
    requires Wrote(last, sent, out, false, wrote) && out.Busy? && next.Busy? && |last| == |Last(sent)|
    requires next.solong <= |next.buf| && (next.buf == last || next.buf == Last(sent))
    requires (next.solong > 0 ==> next.buf == Last(sent)) && out.solong <= |Last(sent)| && next.solong <= |Last(sent)|
    requires Last(sent)[..out.solong] + bytes == Last(sent)[..next.solong]
    ensures Wrote(last, sent, next, false, wrote + bytes)
  {
    var n := |sent| - 1;
    Assoc(Concat(sent[..n]), sent[n][..out.solong], bytes);
    PartOfLast(sent, next.solong);
  }

  lemma Assoc(a: Bytes, b: Bytes, c: Bytes)
    ensures (a + b) + c == a + (b + c)
  {
  }

  lemma PartOfLast(ps: seq<Bytes>, k: nat)
    requires ps != [] && k <= |ps[|ps| - 1]|
    ensures Concat(ps[..|ps| - 1]) + ps[|ps| - 1][..k] <= Concat(ps)
    ensures Concat(ps[..|ps| - 1]) + ps[|ps| - 1] == Concat(ps)
  {
    var n := |ps| - 1;
    LastConcat(ps);
    PrefixParts(Concat(ps[..n]), ps[n], k);
  }

  lemma LastConcat(ps: seq<Bytes>)
    requires ps != []
    ensures Concat(ps[..|ps| - 1]) + ps[|ps| - 1] == Concat(ps)
  {
    ConcatAppend(ps[..|ps| - 1], ps[|ps| - 1]);
    assert ps[..|ps| - 1] + [ps[|ps| - 1]] == ps;
  }

  lemma PrefixParts(a: Bytes, b: Bytes, k: nat)
    requires k <= |b|
    ensures a + b[..k] <= a + b
  {
  }

  lemma EndSendInv(l: Link)
    requires Inv(l) && Enabled(l, EndSend)
    ensures Inv(Apply(l, EndSend))
  {
    LastLengths(l.given);
    EndsIdle(Last(l.given), Sent(l.given), l.out, l.senderDead, l.wrote);
  }

  lemma LastLengths(given: seq<Bytes>)
    requires AllSized(given)
    ensures |Last(given)| == |Last(Sent(given))|
  {
  }

  lemma EndsIdle(last: Bytes, sent: seq<Bytes>, out: Out, dead: bool, wrote: Bytes)
    requires Wrote(last, sent, out, dead, wrote) && |last| == |Last(sent)|
    requires out.Broken? || (out.Busy? && (dead || out.solong == |out.buf|))
    ensures Wrote(last, sent, Idle, dead, wrote)
  {
    if out.Busy? && !dead {
      WholeLast(last, sent, out, dead, wrote);
    }
  }

  // ----- the receiver -----

  /** What is on its way continues the first PDU that has not been consumed. */
  lemma StreamAhead(tail: seq<Bytes>, done: Bytes, ahead: Bytes, whole: Bytes, k: nat)
    requires done + ahead <= whole && whole == done + Concat(tail) && 0 < |ahead| && k <= |ahead|
    ensures |tail| > 0 && (k <= |tail[0]| ==> ahead[..k] <= tail[0])
  {
    PrefixCancel(done, ahead, Concat(tail), whole);
    if k <= |tail[0]| {
      TakePrefix(ahead, tail[0], Concat(tail[1..]), k);
    }
  }

  lemma SplitAt(sent: seq<Bytes>, got: seq<Bytes>)
    requires got <= sent
    ensures Concat(sent) == Concat(got) + Concat(sent[|got|..])
  {
    ConcatSplit(sent, |got|);
    assert sent[..|got|] == got;
  }

  /** Whatever part of `ahead` is not longer than the next PDU is a prefix of it. */
  lemma TakePrefix(ahead: Bytes, p: Bytes, rest: Bytes, k: nat)
    requires ahead <= p + rest && k <= |ahead| && k <= |p|
    ensures ahead[..k] <= p
  {
    assert ahead[..k] == (p + rest)[..k] == p[..k];
  }

  lemma SizeInv(l: Link, size: SizeRead)
    requires Inv(l) && !l.receiverDead && l.into.Waiting?
    requires if size.SizeWord? then |l.wire| >= SIZE_SZ else size.lost <= |l.wire|
    ensures var (into, wire, ok) := ReadSize(l.into, l.wire, size);
            Inv(l.(into := into, wire := wire, receiverDead := !ok)) && (ok ==> into.Filling?)
  {
    assert Part(l.into) + l.wire == l.wire;
    if size.SizeWord? && SizeIn(l.wire) <= MAX_PDU {
      SizeFound(l.given, l.got, l.wire);
      assert l.wire[..SIZE_SZ] + l.wire[SIZE_SZ..] == l.wire;
    }
  }

  /** The next four bytes are the size word of the next PDU. */
  lemma SizeFound(given: seq<Bytes>, got: seq<Bytes>, wire: Bytes)
    requires AllSized(given) && got <= Sent(given) && Concat(got) + wire <= Concat(Sent(given)) && |wire| >= SIZE_SZ
    ensures |got| < |given| && wire[..SIZE_SZ] <= Sent(given)[|got|] && SizeIn(wire) == |given[|got|]|
  {
    var sent := Sent(given);
    var g := |got|;
    SplitAt(sent, got);
    StreamAhead(sent[g..], Concat(got), wire, Concat(sent), SIZE_SZ);
    assert wire[..SIZE_SZ] == sent[g][..SIZE_SZ];
    StampedSize(given[g]);
    SizeInPrefix(wire[..SIZE_SZ], wire, WORD_SZ);
  }

  lemma BodyTracks(sent: seq<Bytes>, got: seq<Bytes>, into: In, wire: Bytes, wrote: Bytes, n: nat)
    requires Tracks(sent, got, into, wire, wrote) && wrote <= Concat(sent) && into.Filling?
    requires n <= |wire| && n <= into.sz - |into.buf|
    ensures Tracks(sent, got, Filling(into.buf + wire[..n], into.sz), wire[n..], wrote)
  {
    var g, buf := |got|, into.buf;
    var ahead := buf + wire;
    SplitAt(sent, got);
    StreamAhead(sent[g..], Concat(got), ahead, Concat(sent), |buf| + n);
    assert ahead[..|buf| + n] == buf + wire[..n];
    assert wire == wire[..n] + wire[n..];
    Assoc(buf, wire[..n], wire[n..]);
  }

  lemma BodyInv(l: Link, body: BodyRead)
    requires Inv(l) && !l.receiverDead && l.into.Filling?
    requires body.Body? ==> body.n <= |l.wire| && body.n <= l.into.sz - |l.into.buf|
    ensures var (into, wire, ok) := ReadBody(l.into, l.wire, body);
            Inv(l.(into := into, wire := wire, receiverDead := !ok))
  {
    if body.Body? {
      BodyTracks(Sent(l.given), l.got, l.into, l.wire, l.wrote, body.n);
    }
  }

  lemma CompleteTracks(sent: seq<Bytes>, got: seq<Bytes>, into: In, wire: Bytes, wrote: Bytes)
    requires Tracks(sent, got, into, wire, wrote) && Complete(into)
    ensures Tracks(sent, got + [into.buf], Waiting, wire, wrote)
  {
    assert into.buf == sent[|got|];
    ConcatAppend(got, into.buf);
    Assoc(Concat(got), into.buf, wire);
    assert [] + wire == wire;
  }

  lemma DeliveredInv(l: Link, accept: bool)
    requires Inv(l) && !l.receiverDead
    ensures Inv(Delivered(l, accept))
  {
    if Complete(l.into) && accept {
      CompleteTracks(Sent(l.given), l.got, l.into, l.wire, l.wrote);
    }
  }

  lemma ReadInv(l: Link, size: SizeRead, body: BodyRead, accept: bool)
    requires Inv(l) && Enabled(l, Read(size, body, accept))
    ensures Inv(Apply(l, Read(size, body, accept)))
  {
    if !l.receiverDead {
      if Full(l.into) {
        DeliveredInv(l, accept);
      } else {
        ReadPduInv(l, size, body, accept);
      }
    }
  }

  lemma ReadPduInv(l: Link, size: SizeRead, body: BodyRead, accept: bool)
    requires Inv(l) && !l.receiverDead && !Full(l.into) && CanRead(l.into, l.wire, size, body)
    ensures Inv(ReadCallback(l, size, body, accept))
  {
    var (in1, wire1, ok1) := ReadSize(l.into, l.wire, size);
    var m := l.(into := in1, wire := wire1, receiverDead := !ok1);
    if l.into.Waiting? {
      SizeInv(l, size);
    }
    assert Inv(m);
    if ok1 {
      BodyInv(m, body);
      var (in2, wire2, ok2) := ReadBody(in1, wire1, body);
      var k := m.(into := in2, wire := wire2, receiverDead := !ok2);
      assert Inv(k);
      if ok2 {
        DeliveredInv(k, accept);
      }
    }
  }

  lemma SenderDiesInv(l: Link)
    requires Inv(l)
    ensures Inv(l.(senderDead := true))
  {
  }

  lemma StepInv(l: Link, step: Step)
    requires Inv(l) && Enabled(l, step)
    ensures Inv(Apply(l, step))
  {
    match step
    case Give(b) => GiveInv(l, b);
    case Write(result) => WriteInv(l, result);
    case EndSend => EndSendInv(l);
    case SenderDies => SenderDiesInv(l);
    case Read(size, body, accept) => ReadInv(l, size, body, accept);
    case ReceiverDies =>
  }

  lemma {:induction false} RunInv(l: Link, run: seq<Step>)
    requires Inv(l) && IsRun(l, run)
    ensures Inv(Exec(l, run))
    decreases |run|
  {
    if run != [] {
      StepInv(l, run[0]);
      RunInv(Apply(l, run[0]), run[1..]);
    }
  }

  // ----- main results -----

  /** The consumed PDUs are a prefix of the sent ones, in order, each once, byte for byte behind the size word. */
  lemma ConsumedIsPrefixOfSent(run: seq<Step>)
    requires IsRun(START, run)
    ensures var l := Exec(START, run);
            && |l.got| <= |l.given|
            && forall i :: 0 <= i < |l.got| ==>
                 |l.got[i]| == |l.given[i]| >= SIZE_SZ && l.got[i][SIZE_SZ..] == l.given[i][SIZE_SZ..]
  {
    RunInv(START, run);
    var l := Exec(START, run);
    forall i | 0 <= i < |l.got|
      ensures |l.got[i]| == |l.given[i]| >= SIZE_SZ && l.got[i][SIZE_SZ..] == l.given[i][SIZE_SZ..]
    {
      assert l.got[i] == Sent(l.given)[i];
    }
  }

  lemma FullIsNext(l: Link)
    requires Inv(l) && !l.receiverDead && Full(l.into)
    ensures |l.got| < |l.given| && Complete(l.into) && l.into.buf == Stamped(l.given[|l.got|])
  {
    assert l.into.buf == Sent(l.given)[|l.got|];
  }

  /** A complete PDU that the channel manager takes is the next one sent; a refused one stays for the next callback. */
  predicate HandsOverNext(l: Link, size: SizeRead, body: BodyRead) {
    && |l.got| < |l.given|
    && Enabled(l, Read(size, body, true)) && Enabled(l, Read(size, body, false))
    && Apply(l, Read(size, body, true)) == l.(got := l.got + [Stamped(l.given[|l.got|])], into := Waiting)
    && Apply(l, Read(size, body, false)) == l
  }

  lemma FullHandsOver(l: Link, size: SizeRead, body: BodyRead)
    requires Inv(l) && !l.receiverDead && Full(l.into)
    ensures HandsOverNext(l, size, body)
  {
    FullIsNext(l);
  }

  lemma CompletePduIsNext(run: seq<Step>, size: SizeRead, body: BodyRead)
    requires IsRun(START, run)
    requires !Exec(START, run).receiverDead && Full(Exec(START, run).into)
    ensures HandsOverNext(Exec(START, run), size, body)
  {
    RunInv(START, run);
    FullHandsOver(Exec(START, run), size, body);
  }

  lemma WholeLast(last: Bytes, sent: seq<Bytes>, out: Out, dead: bool, wrote: Bytes)
    requires Wrote(last, sent, out, dead, wrote) && out.Busy? && out.solong == |out.buf|
    requires |last| == |Last(sent)|
    ensures wrote == Concat(sent)
  {
    LastConcat(sent);
    var p := sent[|sent| - 1];
    assert p[..|p|] == p;
  }

  lemma FinishedWroteAll(l: Link)
    requires Inv(l) && l.out.Busy? && l.out.solong == |l.out.buf|
    ensures l.wrote == Concat(Sent(l.given))
  {
    LastLengths(l.given);
    WholeLast(Last(l.given), Sent(l.given), l.out, l.senderDead, l.wrote);
  }

  /** When `send` can report success, every byte of every PDU so far is out. */
  lemma SuccessWroteAll(run: seq<Step>)
    requires IsRun(START, run)
    requires var out := Exec(START, run).out; out.Busy? && out.solong == |out.buf|
    ensures AllSized(Exec(START, run).given) && Exec(START, run).wrote == Concat(Sent(Exec(START, run).given))
  {
    RunInv(START, run);
    FinishedWroteAll(Exec(START, run));
  }

  /** Nothing is lost on a connection that lives: with nothing under way, everything sent was consumed. */
  lemma QuietLinkDeliveredAll(run: seq<Step>)
    requires IsRun(START, run)
    requires var l := Exec(START, run);
             !l.senderDead && !l.receiverDead && l.out.Idle? && l.into.Waiting? && l.wire == []
    ensures |Exec(START, run).got| == |Exec(START, run).given|
  {
    RunInv(START, run);
    var l := Exec(START, run);
    var sent := Sent(l.given);
    assert Part(l.into) + l.wire == [] && Concat(l.got) + [] == Concat(l.got);
    SplitAt(sent, l.got);
    assert |Concat(sent[|l.got|..])| == 0;
  }

  // ----- when the sender gives up -----

  /** What one write does to the sender: it dies exactly of an error, and a write that would block changes nothing. */
  predicate WriteKeeps(l: Link, result: WriteResult, after: Link) {
    && (after.senderDead <==> result.WriteError? && l.out.Busy? && l.out.solong < |l.out.buf|)
    && (!after.senderDead ==>
          var n := if result.WroteSome? then result.n else 0;
          && l.out.Busy? && after.out.Busy? && after.out.solong == l.out.solong + n
          && |after.wrote| == |l.wrote| + n && l.wrote <= after.wrote
          && |after.wire| == |l.wire| + n && l.wire <= after.wire)
  }

  /** In every run, and for every result of the write. */
  lemma SenderDiesIff(run: seq<Step>, result: WriteResult)
    requires IsRun(START, run) && Enabled(Exec(START, run), Write(result))
    ensures WriteKeeps(Exec(START, run), result, Apply(Exec(START, run), Write(result)))
  {
    WriteExact(Exec(START, run), result);
  }

  lemma WriteExact(l: Link, result: WriteResult)
    requires Enabled(l, Write(result))
    ensures WriteKeeps(l, result, Apply(l, Write(result)))
  {
  }

  // ----- when the receiver gives up -----

  /** A callback that finds the size word in pieces, a PDU above the limit, or an error in the body. */
  predicate Fatal(l: Link, size: SizeRead, body: BodyRead) {
    if l.into.Waiting? then
      || size.SizeMissing?
      || (|l.got| < |l.given| && |l.given[|l.got|]| > 10_485_760)
      || body.BodyError?
    else !Full(l.into) && body.BodyError?
  }

  lemma DiesIffFatal(l: Link, size: SizeRead, body: BodyRead, accept: bool)
    requires Inv(l) && !l.receiverDead && Enabled(l, Read(size, body, accept))
    ensures Apply(l, Read(size, body, accept)).receiverDead <==> Fatal(l, size, body)
  {
    if l.into.Waiting? && size.SizeWord? {
      assert Part(l.into) + l.wire == l.wire;
      SizeFound(l.given, l.got, l.wire);
    }
  }

  /** In every run a callback ends the connection exactly in these cases. */
  lemma ReceiverDiesIff(run: seq<Step>, size: SizeRead, body: BodyRead, accept: bool)
    requires IsRun(START, run) && !Exec(START, run).receiverDead
    requires Enabled(Exec(START, run), Read(size, body, accept))
    ensures Apply(Exec(START, run), Read(size, body, accept)).receiverDead <==> Fatal(Exec(START, run), size, body)
  {
    RunInv(START, run);
    DiesIffFatal(Exec(START, run), size, body, accept);
  }

  predicate Small(got: seq<Bytes>, into: In) {
    && (forall i :: 0 <= i < |got| ==> |got[i]| <= MAX_PDU)
    && (into.Filling? ==> into.sz <= MAX_PDU)
  }

  lemma {:induction false} RunSmall(l: Link, run: seq<Step>)
    requires IsRun(l, run) && Small(l.got, l.into)
    ensures Small(Exec(l, run).got, Exec(l, run).into)
    decreases |run|
  {
    if run != [] {
      RunSmall(Apply(l, run[0]), run[1..]);
    }
  }

  /** A PDU above the limit never arrives, although `send` reports success for it. */
  lemma LargeIsLost(b: Bytes, run: seq<Step>)
    requires 10_485_760 < |b| < MAX_SIZE && IsRun(START, run)
    ensures forall i :: 0 <= i < |Exec(START, run).got| ==> |Exec(START, run).got[i]| <= 10_485_760
    ensures var sent := Link([b], Busy(Stamped(b), |b|), false, Stamped(b), Stamped(b), Waiting, false, []);
            && IsRun(START, [Give(b), Write(WroteSome(|b|))])
            && Exec(START, [Give(b), Write(WroteSome(|b|))]) == sent
            && forall accept :: Enabled(sent, Read(SizeWord, NoBody, accept))
                                && Apply(sent, Read(SizeWord, NoBody, accept)).receiverDead
  {
    RunSmall(START, run);
    GiveAndWrite(b);
    var two := [Give(b), Write(WroteSome(|b|))];
    RunInv(START, two);
    var sent := Exec(START, two);
    forall accept ensures Enabled(sent, Read(SizeWord, NoBody, accept))
                          && Apply(sent, Read(SizeWord, NoBody, accept)).receiverDead {
      DiesIffFatal(sent, SizeWord, NoBody, accept);
    }
  }

  lemma GiveAndWrite(b: Bytes)
    requires SIZE_SZ <= |b| < MAX_SIZE
    ensures var two := [Give(b), Write(WroteSome(|b|))];
            && IsRun(START, two)
            && Exec(START, two) == Link([b], Busy(Stamped(b), |b|), false, Stamped(b), Stamped(b), Waiting, false, [])
  {
    var two := [Give(b), Write(WroteSome(|b|))];
    assert two[1..] == [Write(WroteSome(|b|))] && two[1..][1..] == [];
    var l := Apply(START, two[0]);
    assert l == Link([b], Busy(b, 0), false, [], [], Waiting, false, []);
    assert Stamped(b)[0..0 + |b|] == Stamped(b);
    assert [] + Stamped(b) == Stamped(b);
    var m := Link([b], Busy(Stamped(b), |b|), false, Stamped(b), Stamped(b), Waiting, false, []);
    assert Apply(l, two[1]) == m;
    assert Exec(l, two[1..]) == Exec(m, []) == m;
  }

  /** From the moment an end dies it stays dead: the sender writes and the receiver takes nothing more. */
  lemma {:induction false} DeadForEver(l: Link, run: seq<Step>)
    requires IsRun(l, run)
    ensures l.senderDead || (run != [] && run[0].SenderDies?) ==>
              Exec(l, run).senderDead && Exec(l, run).wrote == l.wrote && Exec(l, run).given == l.given
    ensures l.receiverDead || (run != [] && run[0].ReceiverDies?) ==>
              Exec(l, run).receiverDead && Exec(l, run).got == l.got
    decreases |run|
  {
    if run != [] {
      DeadForEver(Apply(l, run[0]), run[1..]);
    }
  }

  /** A buffer that holds more than its size says, as after a size word below four: nothing moves it on. */
  lemma {:induction false} UndersizedBlocks(l: Link, run: seq<Step>)
    requires IsRun(l, run) && l.into.Filling? && l.into.sz < |l.into.buf|
    ensures Exec(l, run).into == l.into && Exec(l, run).got == l.got
    ensures (forall i :: 0 <= i < |run| ==> !run[i].ReceiverDies?) ==> Exec(l, run).receiverDead == l.receiverDead
    decreases |run|
  {
    if run != [] {
      assert run[0].ReceiverDies? || Apply(l, run[0]).receiverDead == l.receiverDead;
      UndersizedBlocks(Apply(l, run[0]), run[1..]);
    }
  }

  // ----- the connection object -----

  /** `wire` and the results of the system calls are parameters; `has` is a buffer pointer that is not null. */
  class Connection {
    var dead: bool
    var wHas: bool
    var wBuf: Bytes
    var wSz: int
    var wSolong: int
    var rHas: bool
    var rBuf: Bytes
    var rSz: int

    ghost predicate Valid()
      reads this
    {
      && (wHas && wSolong >= 0 ==> wSz == |wBuf| && wSolong <= wSz)
      && (wHas && wSolong < 0 ==> wSz == 0)
      && (!wHas ==> wSz == 0 && wSolong == 0)
      && (!rHas ==> rSz == 0 && rBuf == [])
    }

    ghost function Writing(): Out
      reads this
    {
      if !wHas then Idle else if wSolong < 0 then Broken else Busy(wBuf, wSolong)
    }

    ghost function Reading(): In
      reads this
    {
      if rHas then Filling(rBuf, rSz) else Waiting
    }

    constructor ()
      ensures Valid() && !dead && Writing() == Idle && Reading() == Waiting
    {
      dead := false;
      wHas, wBuf, wSz, wSolong := false, [], 0, 0;
      rHas, rBuf, rSz := false, [], 0;
    }

    /** The start of `send`, once the slot is free. */
    method BeginSend(b: Bytes) returns (taken: bool)
      requires Valid() && Writing() == Idle
      modifies this
      ensures Valid() && dead == old(dead) && Reading() == old(Reading())
      ensures taken == !dead && Writing() == if taken then Busy(b, 0) else Idle
    {
      taken := !dead;
      if taken {
        wHas, wBuf, wSz, wSolong := true, b, |b|, 0;
      }
    }

    method WriteSome(result: WriteResult) returns (ok: bool, bytes: Bytes)
      requires Valid() && CanWrite(Writing(), result)
      modifies this
      ensures Valid() && dead == old(dead) && Reading() == old(Reading())
      ensures (Writing(), bytes) == WritePdu(old(Writing()), result) && ok == !Writing().Broken?
    {
      ok, bytes := true, [];
      if wSolong == wSz {
        return;
      }
      if wSolong == 0 {
        wBuf := Stamped(wBuf);
      }
      match result {
        case WriteError =>
          wSolong, wSz := -1, 0;
          ok := false;
        case WouldBlock =>
        case WroteSome(n) =>
          bytes := wBuf[wSolong..wSolong + n];
          wSolong := wSolong + n;
      }
    }

    /** The end of `send`: the slot becomes free, and the caller learns whether all bytes are out. */
    method FinishSend() returns (ret: bool)
      requires Valid() && wHas
      modifies this
      ensures Valid() && dead == old(dead) && Writing() == Idle && Reading() == old(Reading())
      ensures ret <==> !dead && old(Writing().Busy? && Writing().solong == |Writing().buf|)
    {
      ret := !dead && wSolong == wSz;
      wHas, wSz, wSolong := false, 0, 0;
    }

    /** Called while there is no PDU or an incomplete one; one of size below four is never complete. */
    method ReadSome(wire: Bytes, size: SizeRead, body: BodyRead) returns (rest: Bytes, ok: bool)
      requires Valid() && CanRead(Reading(), wire, size, body) && (!rHas || |rBuf| < rSz)
      modifies this
      ensures Valid() && dead == old(dead) && Writing() == old(Writing())
      ensures (Reading(), rest, ok) == ReadPdu(old(Reading()), wire, size, body)
    {
      rest, ok := wire, false;
      if rSz == 0 {
        match size {
          case SizeMissing(lost) =>
            rest := wire[lost..];
            return;
          case SizeWord =>
            var sz := SizeIn(wire);
            rest := wire[SIZE_SZ..];
            if sz > MAX_PDU {
              return;
            }
            rHas, rBuf, rSz := true, wire[..SIZE_SZ], sz;
        }
      }
      match body {
        case Body(n) =>
          rBuf := rBuf + rest[..n];
          rest, ok := rest[n..], true;
        case NoBody =>
          ok := true;
        case BodyError =>
          rHas, rBuf, rSz := false, [], 0;
      }
    }

    /** The end of the callback: a complete PDU goes to the channel manager. */
    method HandOver(accept: bool) returns (consumed: seq<Bytes>)
      requires Valid()
      modifies this
      ensures Valid() && dead == old(dead) && Writing() == old(Writing())
      ensures Reading() == if Complete(old(Reading())) && accept then Waiting else old(Reading())
      ensures consumed == if Complete(old(Reading())) && accept then [old(Reading()).buf] else []
    {
      consumed := [];
      if rHas && rSz == |rBuf| && accept {
        consumed := [rBuf];
        rHas, rBuf, rSz := false, [], 0;
      }
    }

    /** One readiness callback; `consumed` is the PDU that the channel manager took, if any. */
    method ReadCb(l: Link, size: SizeRead, body: BodyRead, accept: bool) returns (rest: Bytes, consumed: seq<Bytes>)
      requires Valid() && l.receiverDead == dead && l.into == Reading()
      requires dead || Full(Reading()) || CanRead(Reading(), l.wire, size, body)
      modifies this
      ensures Valid() && Writing() == old(Writing())
      ensures ReadCallback(l, size, body, accept)
           == l.(receiverDead := dead, into := Reading(), wire := rest, got := l.got + consumed)
    {
      rest, consumed := l.wire, [];
      if dead {
        assert l.got + [] == l.got;
        return;
      }
      if !rHas || |rBuf| < rSz {
        var ok;
        rest, ok := ReadSome(l.wire, size, body);
        if !ok {
          dead := true;
        }
      }
      DeliveredParts(l.(into := Reading(), wire := rest, receiverDead := dead), accept);
      consumed := HandOver(accept);
    }
  }

  lemma DeliveredParts(l: Link, accept: bool)
    ensures Delivered(l, accept)
         == l.(into := if Complete(l.into) && accept then Waiting else l.into,
               got := l.got + if Complete(l.into) && accept then [l.into.buf] else [])
  {
    assert l.got + [] == l.got;
  }
}
