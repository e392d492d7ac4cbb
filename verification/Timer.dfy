/** The retransmission timer of a call: deadlines that double until the final one. */
module Timer {

  const NS := 1_000_000_000
  const TO_MIN: nat := 1000

  datatype Timespec = Timespec(sec: int, nsec: int)

  function Nanos(t: Timespec): int {
    t.sec * NS + t.nsec
  }

  /** A clock reading. */
  predicate Proper(t: Timespec) {
    t.sec > 0 && 0 <= t.nsec < NS
  }

  function Compare(a: Timespec, b: Timespec): int {
    if a.sec > b.sec then 1
    else if a.sec < b.sec then -1
    else if a.nsec > b.nsec then 1
    else if a.nsec < b.nsec then -1
    else 0
  }

  /** Carries only while there is more than a second of nanoseconds. */
  function Carried(t: Timespec): Timespec
    decreases t.nsec
  {
    if t.nsec > NS then Carried(Timespec(t.sec + 1, t.nsec - NS)) else t
  }

  /** `b` milliseconds later. */
  function Add(a: Timespec, b: nat): Timespec {
    Carried(Timespec(a.sec + b / 1000, a.nsec + b % 1000 * 1_000_000))
  }

  lemma {:induction false} CarriedSame(t: Timespec)
    requires t.nsec >= 0
    ensures Nanos(Carried(t)) == Nanos(t) && 0 <= Carried(t).nsec <= NS && Carried(t).sec >= t.sec
    decreases t.nsec
  {
    if t.nsec > NS {
      CarriedSame(Timespec(t.sec + 1, t.nsec - NS));
    }
  }

  /** The sum is exact, and the nanoseconds may be a whole second. */
  lemma AddExact(a: Timespec, b: nat)
    requires Proper(a)
    ensures var r := Add(a, b); Nanos(r) == Nanos(a) + b * 1_000_000 && 0 <= r.nsec <= NS && r.sec >= a.sec
  {
    CarriedSame(Timespec(a.sec + b / 1000, a.nsec + b % 1000 * 1_000_000));
  }

  /** A whole second of nanoseconds stays exactly if it comes out even. */
  lemma AddWholeSecond(a: Timespec, b: nat)
    requires Proper(a)
    ensures Add(a, b).nsec == NS <==> a.nsec + b % 1000 * 1_000_000 == NS
  {
    var t := Timespec(a.sec + b / 1000, a.nsec + b % 1000 * 1_000_000);
    if t.nsec > NS {
      assert Carried(t) == Carried(Timespec(t.sec + 1, t.nsec - NS));
    }
  }

  /** Even so, the comparison of two sums is never wrong about which is later. */
  /** The comparison is a total order: its sign turns with its arguments, and only equal times compare equal. */
  lemma CompareOrders(a: Timespec, b: Timespec, c: Timespec)
    ensures Compare(a, b) == -Compare(b, a) && (Compare(a, b) == 0 <==> a == b)
    ensures Compare(a, b) >= 0 && Compare(b, c) >= 0 ==> Compare(a, c) >= 0
  {
  }

  lemma CompareSound(a: Timespec, b: Timespec)
    requires 0 <= a.nsec <= NS && 0 <= b.nsec <= NS
    ensures Compare(a, b) > 0 ==> Nanos(a) >= Nanos(b)
    ensures Compare(a, b) <= 0 ==> Nanos(a) <= Nanos(b)
  {
  }

  // ----- the loop of a call -----

  /** `final.sec == 0` marks that the last deadline has been set. */
  datatype Wait = Wait(final: Timespec, currTo: nat)

  function Start(now: Timespec, to: nat): Wait {
    Wait(Add(now, to), TO_MIN)
  }

  function Deadline(w: Wait, now: Timespec): Timespec {
    var next := Add(now, w.currTo);
    if Compare(next, w.final) > 0 then w.final else next
  }

  function Next(w: Wait, now: Timespec): Wait {
    var last := Compare(Add(now, w.currTo), w.final) > 0;
    Wait(if last then w.final.(sec := 0) else w.final, 2 * w.currTo)
  }

  /** The clock readings of the timed waits: each at or after the deadline of the wait before. */
  predicate IsTrace(w: Wait, from: int, nows: seq<Timespec>)
    decreases |nows|
  {
    nows == [] ||
    (&& w.final.sec != 0
     && Proper(nows[0]) && Nanos(nows[0]) >= from
     && IsTrace(Next(w, nows[0]), Nanos(Deadline(w, nows[0])), nows[1..]))
  }

  function Deadlines(w: Wait, nows: seq<Timespec>): (ds: seq<Timespec>)
    ensures |ds| == |nows|
    decreases |nows|
  {
    if nows == [] then [] else [Deadline(w, nows[0])] + Deadlines(Next(w, nows[0]), nows[1..])
  }

  function After(w: Wait, nows: seq<Timespec>): Wait
    decreases |nows|
  {
    if nows == [] then w else After(Next(w, nows[0]), nows[1..])
  }

  // ----- bounds -----

  function Pow2(k: nat): (p: nat)
    ensures p > 0
  {
    if k == 0 then 1 else 2 * Pow2(k - 1)
  }

  /** The largest `k` with `Pow2(k) <= n`. */
  function Log2(n: nat): nat
    requires n > 0
  {
    if n == 1 then 0 else 1 + Log2(n / 2)
  }

  lemma {:induction false} Log2Bound(n: nat, k: nat)
    requires n > 0
    ensures Pow2(k) <= n <==> k <= Log2(n)
    decreases n
  {
    if n == 1 {
      if k > 0 {
        assert Pow2(k) == 2 * Pow2(k - 1);
      }
    } else if k > 0 {
      Log2Bound(n / 2, k - 1);
    }
  }

  /** The state before wait `k`: all earlier deadlines were met, so `1000 * (2^k - 1)` ms have passed. */
  ghost predicate Before(w: Wait, k: nat, t0: Timespec, to: nat, from: int) {
    && w.currTo == TO_MIN * Pow2(k)
    && 0 <= w.final.nsec <= NS
    && Nanos(w.final) == Nanos(t0) + to * 1_000_000
    && from >= Nanos(t0) + (TO_MIN * Pow2(k) - TO_MIN) * 1_000_000
  }

  /** One wait: the deadline is not past the final one, and a wait that is not the last leaves room for it. */
  lemma OneWait(w: Wait, k: nat, t0: Timespec, to: nat, from: int, now: Timespec)
    requires Before(w, k, t0, to, from) && Proper(now) && Nanos(now) >= from
    ensures Nanos(Deadline(w, now)) <= Nanos(t0) + to * 1_000_000
    ensures Next(w, now).currTo == TO_MIN * Pow2(k + 1)
    ensures Next(w, now).final.sec != 0 ==>
              && Before(Next(w, now), k + 1, t0, to, Nanos(Deadline(w, now)))
              && TO_MIN * Pow2(k + 1) - TO_MIN <= to
  {
    AddExact(now, w.currTo);
    CompareSound(Add(now, w.currTo), w.final);
  }

  lemma {:induction false} WaitsFrom(w: Wait, k: nat, t0: Timespec, to: nat, from: int, nows: seq<Timespec>)
    requires Before(w, k, t0, to, from) && IsTrace(w, from, nows) && (k > 0 ==> TO_MIN * Pow2(k) - TO_MIN <= to)
    ensures forall i :: 0 <= i < |nows| ==> Nanos(Deadlines(w, nows)[i]) <= Nanos(t0) + to * 1_000_000
    ensures After(w, nows).currTo <= 2 * (to + TO_MIN)
    ensures |nows| > 0 ==> TO_MIN * Pow2(k + |nows| - 1) - TO_MIN <= to || |nows| == 1
    decreases |nows|
  {
    if nows != [] {
      var next := Next(w, nows[0]);
      OneWait(w, k, t0, to, from, nows[0]);
      if next.final.sec != 0 {
        WaitsFrom(next, k + 1, t0, to, Nanos(Deadline(w, nows[0])), nows[1..]);
      } else {
        assert nows[1..] == [];
      }
    }
  }

  /** A call with timeout `to` makes at most `floor(log2(to / 1000 + 1)) + 1` timed waits. */
  lemma WaitsBounded(now: Timespec, to: nat, nows: seq<Timespec>)
    requires Proper(now) && IsTrace(Start(now, to), Nanos(now), nows)
    ensures |nows| <= Log2(to / 1000 + 1) + 1
    ensures forall i :: 0 <= i < |nows| ==>
              Nanos(Deadlines(Start(now, to), nows)[i]) <= Nanos(now) + to * 1_000_000
    ensures After(Start(now, to), nows).currTo <= 2 * (to + TO_MIN)
  {
    AddExact(now, to);
    WaitsFrom(Start(now, to), 0, now, to, Nanos(now), nows);
    if |nows| > 1 {
      Log2Bound(to / 1000 + 1, |nows| - 1);
    }
  }

  lemma {:induction false} EndsAtFinal(w: Wait, nows: seq<Timespec>, from: int)
    requires w.final.sec != 0 && IsTrace(w, from, nows) && After(w, nows).final.sec == 0
    ensures nows != [] && Deadlines(w, nows)[|nows| - 1] == w.final
    decreases |nows|
  {
    var next := Next(w, nows[0]);
    if next.final.sec != 0 {
      EndsAtFinal(next, nows[1..], Nanos(Deadline(w, nows[0])));
    } else {
      assert nows[1..] == [];
    }
  }

  /** A call that gives up has waited for its whole timeout: its last deadline is the final one. */
  lemma GivesUpAtFinalDeadline(now: Timespec, to: nat, nows: seq<Timespec>)
    requires Proper(now) && IsTrace(Start(now, to), Nanos(now), nows) && After(Start(now, to), nows).final.sec == 0
    ensures nows != [] && Nanos(Deadlines(Start(now, to), nows)[|nows| - 1]) == Nanos(now) + to * 1_000_000
  {
    AddExact(now, to);
    EndsAtFinal(Start(now, to), nows, Nanos(now));
  }

  // ----- the bound is met -----

  lemma AddShape(a: Timespec, b: nat)
    requires Proper(a)
    ensures var n := a.nsec + b % 1000 * 1_000_000;
            Add(a, b) == if n > NS then Timespec(a.sec + b / 1000 + 1, n - NS) else Timespec(a.sec + b / 1000, n)
  {
    var t := Timespec(a.sec + b / 1000, a.nsec + b % 1000 * 1_000_000);
    if t.nsec > NS {
      assert Carried(t) == Carried(Timespec(t.sec + 1, t.nsec - NS));
    }
  }

  /** A clock on which every wait but the last ends just at its deadline: wait `k` starts after 2^k - 1 seconds. */
  function Punctual(now: Timespec, k: nat): Timespec {
    now.(sec := now.sec + Pow2(k) - 1)
  }

  lemma PunctualNext(now: Timespec, k: nat)
    requires Proper(now)
    ensures Proper(Punctual(now, k)) && Add(Punctual(now, k), TO_MIN * Pow2(k)) == Punctual(now, k + 1)
  {
    WholeSeconds(Punctual(now, k), TO_MIN * Pow2(k));
  }

  /** Wait `k` is the last exactly if 2^(k + 1) - 1 seconds are more than the timeout. */
  lemma LastWait(now: Timespec, to: nat, k: nat)
    requires Proper(now)
    ensures Compare(Punctual(now, k + 1), Add(now, to)) > 0 <==> k >= Log2(to / 1000 + 1)
  {
    AddShape(now, to);
    Log2Bound(to / 1000 + 1, k + 1);
  }

  function Clock(now: Timespec, k: nat, n: nat): seq<Timespec>
    decreases n - k
  {
    if k >= n then [] else [Punctual(now, k)] + Clock(now, k + 1, n)
  }

  lemma {:induction false} PunctualFrom(now: Timespec, to: nat, k: nat, w: Wait)
    requires Proper(now) && k <= Log2(to / 1000 + 1)
    requires w == Wait(Add(now, to), TO_MIN * Pow2(k))
    ensures var nows := Clock(now, k, Log2(to / 1000 + 1) + 1);
            && |nows| == Log2(to / 1000 + 1) + 1 - k
            && IsTrace(w, Nanos(Punctual(now, k)), nows) && After(w, nows).final.sec == 0
    decreases Log2(to / 1000 + 1) - k
  {
    var n := Log2(to / 1000 + 1) + 1;
    var nows := Clock(now, k, n);
    AddExact(now, to);
    PunctualNext(now, k);
    LastWait(now, to, k);
    assert nows[1..] == Clock(now, k + 1, n);
    if k < n - 1 {
      PunctualFrom(now, to, k + 1, Next(w, nows[0]));
    } else {
      assert nows[1..] == [];
    }
  }

  /** So a call that gets no reply makes just as many waits as the bound says, on such a clock. */
  lemma BoundIsMet(now: Timespec, to: nat)
    requires Proper(now)
    ensures exists nows :: |nows| == Log2(to / 1000 + 1) + 1 && IsTrace(Start(now, to), Nanos(now), nows)
                           && After(Start(now, to), nows).final.sec == 0
  {
    assert Punctual(now, 0) == now;
    PunctualFrom(now, to, 0, Start(now, to));
    var nows := Clock(now, 0, Log2(to / 1000 + 1) + 1);
    assert |nows| == Log2(to / 1000 + 1) + 1;
  }

  // ----- deadlines that the system refuses -----

  /** A timed wait refuses a deadline whose nanoseconds are not below a second. */
  predicate Refused(d: Timespec) {
    d.nsec >= NS
  }

  predicate SomeRefused(ds: seq<Timespec>) {
    ds != [] && (Refused(ds[0]) || SomeRefused(ds[1..]))
  }

  lemma WholeSeconds(now: Timespec, b: nat)
    requires Proper(now) && b % 1000 == 0
    ensures Add(now, b) == Timespec(now.sec + b / 1000, now.nsec)
  {
  }

  lemma {:induction false} RefusedFrom(w: Wait, from: int, nows: seq<Timespec>)
    requires IsTrace(w, from, nows) && w.final.sec != 0 && w.currTo % 1000 == 0
    ensures SomeRefused(Deadlines(w, nows)) <==> Refused(w.final) && After(w, nows).final.sec == 0
    decreases |nows|
  {
    if nows != [] {
      WholeSeconds(nows[0], w.currTo);
      var next := Next(w, nows[0]);
      assert Deadlines(w, nows)[1..] == Deadlines(next, nows[1..]);
      if next.final.sec != 0 {
        RefusedFrom(next, Nanos(Deadline(w, nows[0])), nows[1..]);
      } else {
        assert nows[1..] == [];
      }
    }
  }

  /** A wait is refused exactly if the call comes to its final deadline and the timeout fills up a second. */
  lemma RefusedIff(now: Timespec, to: nat, nows: seq<Timespec>)
    requires Proper(now) && IsTrace(Start(now, to), Nanos(now), nows)
    ensures SomeRefused(Deadlines(Start(now, to), nows)) <==>
            now.nsec + to % 1000 * 1_000_000 == NS && After(Start(now, to), nows).final.sec == 0
  {
    AddExact(now, to);
    AddWholeSecond(now, to);
    RefusedFrom(Start(now, to), Nanos(now), nows);
  }

  /** A clock reading and a timeout for which the only wait is refused. */
  lemma RefusalHappens()
    ensures var now, to := Timespec(1, 999_000_000), 1;
            && IsTrace(Start(now, to), Nanos(now), [now])
            && SomeRefused(Deadlines(Start(now, to), [now]))
  {
    var now, to := Timespec(1, 999_000_000), 1;
    AddWholeSecond(now, to);
    WholeSeconds(now, TO_MIN);
    assert Add(now, to) == Timespec(1, NS);
    assert Next(Start(now, to), now).final.sec == 0;
    assert [now][1..] == [];
    RefusedIff(now, to, [now]);
  }

  // ----- the loops themselves -----

  method AddTimespec(a: Timespec, b: nat) returns (result: Timespec)
    requires a.nsec >= 0
    ensures result == Add(a, b)
  {
    result := Timespec(a.sec + b / 1000, a.nsec + b % 1000 * 1_000_000);
    while result.nsec > NS
      invariant Carried(result) == Add(a, b)
      decreases result.nsec
    {
      result := Timespec(result.sec + 1, result.nsec - NS);
    }
  }

  /**
   * The waiting loop of `call1`, for a clock that reads `clock[k]` before wait `k`. A reply that comes
   * during wait `|clock| - 1` ends the loop. A refused deadline keeps the caller in that wait.
   */
  method WaitForReply(now: Timespec, to: nat, clock: seq<Timespec>)
      returns (waits: nat, deadlines: seq<Timespec>, refused: bool)
    requires Proper(now) && forall i :: 0 <= i < |clock| ==> Proper(clock[i])
    ensures waits <= |clock| && deadlines == Deadlines(Start(now, to), clock[..waits])
    ensures waits < |clock| ==> After(Start(now, to), clock[..waits]).final.sec == 0 || refused
    ensures refused <==> SomeRefused(deadlines)
    ensures IsTrace(Start(now, to), Nanos(now), clock[..waits]) ==>
              && waits <= Log2(to / 1000 + 1) + 1
              && (refused <==> now.nsec + to % 1000 * 1_000_000 == NS
                               && After(Start(now, to), clock[..waits]).final.sec == 0)
  {
    var final := AddTimespec(now, to);
    var currTo := TO_MIN;
    waits, deadlines, refused := 0, [], false;
    assert clock[..0] == [];
    while waits < |clock| && final.sec != 0 && !refused
      invariant waits <= |clock|
      invariant refused <==> SomeRefused(deadlines)
      invariant Wait(final, currTo) == After(Start(now, to), clock[..waits])
      invariant deadlines == Deadlines(Start(now, to), clock[..waits])
    {
      var next := AddTimespec(clock[waits], currTo);
      TraceAppend(Start(now, to), clock[..waits], clock[waits]);
      assert clock[..waits + 1] == clock[..waits] + [clock[waits]];
      if Compare(next, final) > 0 {
        next := final;
        final := final.(sec := 0);
      }
      RefusedAppend(deadlines, next);
      refused := Refused(next);
      deadlines := deadlines + [next];
      currTo := 2 * currTo;
      waits := waits + 1;
    }
    if IsTrace(Start(now, to), Nanos(now), clock[..waits]) {
      WaitsBounded(now, to, clock[..waits]);
      RefusedIff(now, to, clock[..waits]);
    }
  }

  lemma {:induction false} RefusedAppend(ds: seq<Timespec>, d: Timespec)
    ensures SomeRefused(ds + [d]) <==> SomeRefused(ds) || Refused(d)
    decreases |ds|
  {
    if ds == [] {
      assert ds + [d] == [d] && [d][1..] == [];
    } else {
      RefusedAppend(ds[1..], d);
      assert (ds + [d])[1..] == ds[1..] + [d];
    }
  }

  lemma {:induction false} TraceAppend(w: Wait, nows: seq<Timespec>, now: Timespec)
    ensures After(w, nows + [now]) == Next(After(w, nows), now)
    ensures Deadlines(w, nows + [now]) == Deadlines(w, nows) + [Deadline(After(w, nows), now)]
    decreases |nows|
  {
    if nows == [] {
      assert nows + [now] == [now];
    } else {
      TraceAppend(Next(w, nows[0]), nows[1..], now);
      assert (nows + [now])[1..] == nows[1..] + [now];
    }
  }
}
