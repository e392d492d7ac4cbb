/** A pool of workers on a bounded queue, and its destructor that drains it with one pill per worker. */
module ThreadPool {

  datatype Item = Job(id: nat) | Pill

  datatype Worker = Idle | Running(id: nat) | Exited

  /** `Closing` is the destructor: `pills` are in the queue or taken, `joined` workers have been joined. */
  datatype Phase = Open | Closing(pills: nat, joined: nat) | Destroyed

  datatype Pool = Pool(
    workers: seq<Worker>,
    queue: seq<Item>,
    phase: Phase,
    accepted: seq<nat>,   // jobs that `addJob` took, in order
    taken: seq<Item>,     // what the workers took, in order
    finished: seq<nat>    // jobs that returned
  )

  datatype Step =
    | AddJob(id: nat)
    | Take(w: nat)
    | Finish(w: nat)
    | Close
    | PutPill
    | Join
    | Destroy

  /** The queue's limit; no limit if it is zero. */
  function Max(p: Pool): nat {
    100 * |p.workers|
  }

  predicate HasSpace(p: Pool) {
    Max(p) == 0 || |p.queue| < Max(p)
  }

  predicate Enabled(p: Pool, step: Step) {
    var n := |p.workers|;
    match step
    case AddJob(_) => p.phase.Open? && HasSpace(p)
    case Take(w) => w < n && p.workers[w].Idle? && p.queue != [] && !p.phase.Destroyed?
    case Finish(w) => w < n && p.workers[w].Running?
    case Close => p.phase.Open?
    case PutPill => p.phase.Closing? && p.phase.pills < n && HasSpace(p)
    case Join => p.phase.Closing? && p.phase.pills == n && p.phase.joined < n && p.workers[p.phase.joined].Exited?
    case Destroy => p.phase.Closing? && p.phase.pills == n && p.phase.joined == n
  }

  function Apply(p: Pool, step: Step): Pool
    requires Enabled(p, step)
  {
    match step
    case AddJob(id) => p.(queue := p.queue + [Job(id)], accepted := p.accepted + [id])
    case Take(w) =>
      var j := p.queue[0];
      p.(queue := p.queue[1..], taken := p.taken + [j],
         workers := p.workers[w := if j.Pill? then Exited else Running(j.id)])
    case Finish(w) => p.(workers := p.workers[w := Idle], finished := p.finished + [p.workers[w].id])
    case Close => p.(phase := Closing(0, 0))
    case PutPill => p.(queue := p.queue + [Pill], phase := Closing(p.phase.pills + 1, p.phase.joined))
    case Join => p.(phase := Closing(p.phase.pills, p.phase.joined + 1))
    case Destroy => p.(phase := Destroyed)
  }

  predicate IsRun(p: Pool, run: seq<Step>)
    decreases |run|
  {
    run == [] || (Enabled(p, run[0]) && IsRun(Apply(p, run[0]), run[1..]))
  }

  function Exec(p: Pool, run: seq<Step>): Pool
    requires IsRun(p, run)
    decreases |run|
  {
    if run == [] then p else Exec(Apply(p, run[0]), run[1..])
  }

  function Fresh(n: nat): Pool {
    Pool(seq(n, _ => Idle), [], Open, [], [], [])
  }

  // ----- counting -----

  function Exits(ws: seq<Worker>): (k: nat)
    ensures k <= |ws|
  {
    if ws == [] then 0 else if ws[0].Exited? then 1 + Exits(ws[1..]) else Exits(ws[1..])
  }

  /** How many workers run the job. */
  function BusyWith(ws: seq<Worker>, id: nat): nat {
    if ws == [] then 0 else if ws[0] == Running(id) then 1 + BusyWith(ws[1..], id) else BusyWith(ws[1..], id)
  }

  lemma {:induction false} ExitsSet(ws: seq<Worker>, w: nat, x: Worker)
    requires w < |ws| && !ws[w].Exited?
    ensures Exits(ws[w := x]) == if x.Exited? then Exits(ws) + 1 else Exits(ws)
    decreases w
  {
    if w == 0 {
      assert ws[w := x][1..] == ws[1..];
    } else {
      ExitsSet(ws[1..], w - 1, x);
      assert ws[w := x][1..] == ws[1..][w - 1 := x];
    }
  }

  lemma {:induction false} BusyStart(ws: seq<Worker>, w: nat, x: Worker, id: nat)
    requires w < |ws| && ws[w] != Running(id)
    ensures BusyWith(ws[w := x], id) == if x == Running(id) then BusyWith(ws, id) + 1 else BusyWith(ws, id)
    decreases w
  {
    if w == 0 {
      assert ws[w := x][1..] == ws[1..];
    } else {
      BusyStart(ws[1..], w - 1, x, id);
      assert ws[w := x][1..] == ws[1..][w - 1 := x];
    }
  }

  lemma {:induction false} BusyStop(ws: seq<Worker>, w: nat, id: nat)
    requires w < |ws| && ws[w] == Running(id)
    ensures BusyWith(ws, id) == BusyWith(ws[w := Idle], id) + 1
    decreases w
  {
    if w == 0 {
      assert ws[w := Idle][1..] == ws[1..];
    } else {
      BusyStop(ws[1..], w - 1, id);
      assert ws[w := Idle][1..] == ws[1..][w - 1 := Idle];
    }
  }

  function Jobs(ids: seq<nat>): (r: seq<Item>)
    ensures |r| == |ids| && forall i :: 0 <= i < |ids| ==> r[i] == Job(ids[i])
  {
    seq(|ids|, i requires 0 <= i < |ids| => Job(ids[i]))
  }

  function Pills(n: nat): (r: seq<Item>)
    ensures |r| == n && forall i :: 0 <= i < n ==> r[i] == Pill
  {
    seq(n, _ => Pill)
  }

  /** The pills that the destructor has put in. */
  function PillsIn(p: Pool): nat {
    match p.phase
    case Open => 0
    case Closing(k, _) => k
    case Destroyed => |p.workers|
  }

  // ----- the invariant -----

  ghost predicate Inv(p: Pool) {
    // everything that went in is out or still queued, in order, the jobs before the pills
    && p.taken + p.queue == Jobs(p.accepted) + Pills(PillsIn(p))
    && Exits(p.workers) == Times(p.taken, Pill)
    && PillsIn(p) <= |p.workers|
    && (Max(p) > 0 ==> |p.queue| <= Max(p))
    && (forall id: nat :: Ledger(p.workers, p.taken, p.finished, id))
    && (p.phase.Closing? ==>
          p.phase.joined <= |p.workers| && forall i :: 0 <= i < p.phase.joined ==> p.workers[i].Exited?)
    && (p.phase.Closing? && p.phase.joined > 0 ==> p.phase.pills == |p.workers|)
    && (p.phase.Destroyed? ==> forall i :: 0 <= i < |p.workers| ==> p.workers[i].Exited?)
  }

  function Times<T(==)>(s: seq<T>, x: T): nat {
    if s == [] then 0
    else if s[|s| - 1] == x then 1 + Times(s[..|s| - 1], x)
    else Times(s[..|s| - 1], x)
  }

  lemma TimesAppend<T>(s: seq<T>, y: T, x: T)
    ensures Times(s + [y], x) == if x == y then Times(s, x) + 1 else Times(s, x)
  {
    assert (s + [y])[..|s|] == s;
  }

  /** A job that was taken is running or has returned. */
  predicate Ledger(workers: seq<Worker>, taken: seq<Item>, finished: seq<nat>, id: nat) {
    Times(finished, id) + BusyWith(workers, id) == Times(taken, Job(id))
  }

  lemma {:induction false} FreshWorkers(n: nat, id: nat)
    ensures Exits(seq(n, _ => Idle)) == 0 && BusyWith(seq(n, _ => Idle), id) == 0
    decreases n
  {
    if n > 0 {
      FreshWorkers(n - 1, id);
      assert seq(n, _ => Idle)[1..] == seq(n - 1, _ => Idle);
    }
  }

  lemma FreshInv(n: nat)
    ensures Inv(Fresh(n))
  {
    forall id: nat ensures Ledger(Fresh(n).workers, [], [], id) && Exits(Fresh(n).workers) == 0 {
      FreshWorkers(n, id);
    }
    FreshWorkers(n, 0);
  }

  lemma AddJobInv(p: Pool, id: nat)
    requires Inv(p) && Enabled(p, AddJob(id))
    ensures Inv(Apply(p, AddJob(id)))
  {
    assert Jobs(p.accepted + [id]) == Jobs(p.accepted) + [Job(id)];
    assert p.taken + (p.queue + [Job(id)]) == (p.taken + p.queue) + [Job(id)];
    assert Jobs(p.accepted) + Pills(0) + [Job(id)] == Jobs(p.accepted) + [Job(id)] + Pills(0);
  }

  lemma PutPillInv(p: Pool)
    requires Inv(p) && Enabled(p, PutPill)
    ensures Inv(Apply(p, PutPill))
  {
    var k := p.phase.pills;
    assert Pills(k + 1) == Pills(k) + [Pill];
    assert p.taken + (p.queue + [Pill]) == (p.taken + p.queue) + [Pill];
    assert Jobs(p.accepted) + Pills(k) + [Pill] == Jobs(p.accepted) + (Pills(k) + [Pill]);
  }

  lemma TakeLedger(p: Pool, w: nat, id: nat)
    requires Ledger(p.workers, p.taken, p.finished, id) && Enabled(p, Take(w))
    ensures var q := Apply(p, Take(w)); Ledger(q.workers, q.taken, q.finished, id)
  {
    var j := p.queue[0];
    BusyStart(p.workers, w, if j.Pill? then Exited else Running(j.id), id);
    TimesAppend(p.taken, j, Job(id));
  }

  lemma TakeInv(p: Pool, w: nat)
    requires Inv(p) && Enabled(p, Take(w))
    ensures Inv(Apply(p, Take(w)))
  {
    var j := p.queue[0];
    ExitsSet(p.workers, w, if j.Pill? then Exited else Running(j.id));
    TimesAppend(p.taken, j, Pill);
    assert (p.taken + [j]) + p.queue[1..] == p.taken + p.queue;
    var q := Apply(p, Take(w));
    forall id: nat ensures Ledger(q.workers, q.taken, q.finished, id) {
      TakeLedger(p, w, id);
    }
  }

  lemma FinishLedger(p: Pool, w: nat, id: nat)
    requires Ledger(p.workers, p.taken, p.finished, id) && Enabled(p, Finish(w))
    ensures var q := Apply(p, Finish(w)); Ledger(q.workers, q.taken, q.finished, id)
  {
    TimesAppend(p.finished, p.workers[w].id, id);
    if p.workers[w] == Running(id) {
      BusyStop(p.workers, w, id);
    } else {
      BusyStart(p.workers, w, Idle, id);
    }
  }

  lemma FinishInv(p: Pool, w: nat)
    requires Inv(p) && Enabled(p, Finish(w))
    ensures Inv(Apply(p, Finish(w)))
  {
    ExitsSet(p.workers, w, Idle);
    var q := Apply(p, Finish(w));
    forall id: nat ensures Ledger(q.workers, q.taken, q.finished, id) {
      FinishLedger(p, w, id);
    }
  }

  lemma StepInv(p: Pool, step: Step)
    requires Inv(p) && Enabled(p, step)
    ensures Inv(Apply(p, step))
  {
    match step
    case AddJob(id) => AddJobInv(p, id);
    case Take(w) => TakeInv(p, w);
    case Finish(w) => FinishInv(p, w);
    case Close =>
    case PutPill => PutPillInv(p);
    case Join =>
    case Destroy =>
  }

  lemma {:induction false} RunInv(p: Pool, run: seq<Step>)
    requires Inv(p) && IsRun(p, run)
    ensures Inv(Exec(p, run)) && |Exec(p, run).workers| == |p.workers|
    decreases |run|
  {
    if run != [] {
      StepInv(p, run[0]);
      RunInv(Apply(p, run[0]), run[1..]);
    }
  }

  // ----- main results -----

  lemma {:induction false} AllExited(ws: seq<Worker>)
    requires forall i :: 0 <= i < |ws| ==> ws[i].Exited?
    ensures Exits(ws) == |ws| && forall id: nat :: BusyWith(ws, id) == 0
    decreases |ws|
  {
    if ws != [] {
      AllExited(ws[1..]);
    }
  }

  lemma {:induction false} TimesOfPrefix(jobs: seq<Item>, k: nat, m: nat)
    requires (forall i :: 0 <= i < |jobs| ==> jobs[i] != Pill) && m <= |jobs| + k
    ensures Times((jobs + Pills(k))[..m], Pill) == if m <= |jobs| then 0 else m - |jobs|
    decreases m
  {
    var s := jobs + Pills(k);
    if m > 0 {
      TimesOfPrefix(jobs, k, m - 1);
      assert s[..m][..m - 1] == s[..m - 1];
      assert s[..m][m - 1] == s[m - 1];
    }
  }

  /** The queue of a pool with workers never exceeds its limit, and items leave it in the order they entered. */
  lemma QueueBoundedFifo(n: nat, run: seq<Step>)
    requires IsRun(Fresh(n), run)
    ensures var p := Exec(Fresh(n), run);
            && (n > 0 ==> |p.queue| <= 100 * n)
            && p.taken + p.queue == Jobs(p.accepted) + Pills(PillsIn(p))
  {
    FreshInv(n);
    RunInv(Fresh(n), run);
  }

  /** An open pool takes a job exactly while fewer than a hundred items per worker are queued, or if it has none. */
  lemma TakesJobIff(n: nat, run: seq<Step>, id: nat)
    requires IsRun(Fresh(n), run)
    ensures var p := Exec(Fresh(n), run);
            Enabled(p, AddJob(id)) <==> p.phase.Open? && (n == 0 || |p.queue| < 100 * n)
  {
    FreshInv(n);
    RunInv(Fresh(n), run);
  }

  /** When the destructor is done, every accepted job was taken and returned once, and nothing is left. */
  lemma DestroyedIsDrained(n: nat, run: seq<Step>)
    requires n > 0 && IsRun(Fresh(n), run) && Exec(Fresh(n), run).phase.Destroyed?
    ensures var p := Exec(Fresh(n), run);
            && p.queue == []
            && p.taken == Jobs(p.accepted) + Pills(n)
            && (forall w :: 0 <= w < |p.workers| ==> p.workers[w].Exited?)
            && (forall id: nat :: Times(p.finished, id) == Times(p.taken, Job(id)))
  {
    FreshInv(n);
    RunInv(Fresh(n), run);
    var p := Exec(Fresh(n), run);
    AllExited(p.workers);
    var s := Jobs(p.accepted) + Pills(n);
    assert p.taken == s[..|p.taken|];
    TimesOfPrefix(Jobs(p.accepted), n, |p.taken|);
    assert |p.taken| == |s|;
    forall id: nat ensures Times(p.finished, id) == Times(p.taken, Job(id)) {
      assert Ledger(p.workers, p.taken, p.finished, id);
    }
  }

  lemma {:induction false} NoWorkersTakeNothing(p: Pool, run: seq<Step>)
    requires p.workers == [] && IsRun(p, run)
    ensures Exec(p, run).taken == p.taken && Exec(p, run).finished == p.finished
    decreases |run|
  {
    if run != [] {
      NoWorkersTakeNothing(Apply(p, run[0]), run[1..]);
    }
  }

  /** The destructor leaves nothing behind exactly if there was a worker or no job; without workers it runs none. */
  lemma DrainedIffWorkers(n: nat, run: seq<Step>)
    requires IsRun(Fresh(n), run) && Exec(Fresh(n), run).phase.Destroyed?
    ensures var p := Exec(Fresh(n), run);
            && (p.queue == [] <==> n > 0 || p.accepted == [])
            && (n == 0 ==> p.finished == [] && p.queue == Jobs(p.accepted))
  {
    if n > 0 {
      DestroyedIsDrained(n, run);
    } else {
      QueueBoundedFifo(n, run);
      NoWorkersTakeNothing(Fresh(n), run);
      var p := Exec(Fresh(n), run);
      FreshInv(n);
      RunInv(Fresh(n), run);
      assert p.queue == [] + p.queue == Jobs(p.accepted) + [] == Jobs(p.accepted);
    }
  }

  /** A pool without workers accepts a job and loses it. */
  lemma NoWorkersLoseJobs()
    ensures exists run :: IsRun(Fresh(0), run) && Exec(Fresh(0), run).phase.Destroyed?
                          && Exec(Fresh(0), run).queue == [Job(7)]
  {
    var a, b, c := AddJob(7), Close, Destroy;
    var p0 := Fresh(0);
    var p1 := Apply(p0, a);
    var p2 := Apply(p1, b);
    var p3 := Apply(p2, c);
    FirstStep(p2, c, []);
    FirstStep(p1, b, [c]);
    FirstStep(p0, a, [b] + [c]);
    assert p3.queue == [Job(7)];
  }

  lemma FirstStep(p: Pool, step: Step, rest: seq<Step>)
    requires Enabled(p, step) && IsRun(Apply(p, step), rest)
    ensures IsRun(p, [step] + rest) && Exec(p, [step] + rest) == Exec(Apply(p, step), rest)
  {
    assert ([step] + rest)[1..] == rest;
  }

  // ----- the destructor always comes to its end -----

  lemma {:induction false} SomeWorkerLeft(ws: seq<Worker>) returns (w: nat)
    requires Exits(ws) < |ws|
    ensures w < |ws| && !ws[w].Exited?
    decreases |ws|
  {
    if ws[0].Exited? {
      w := SomeWorkerLeft(ws[1..]);
      w := w + 1;
    } else {
      w := 0;
    }
  }

  /** While the destructor runs, some step can be taken: it never hangs. */
  lemma ClosingCanMove(n: nat, run: seq<Step>)
    requires IsRun(Fresh(n), run) && Exec(Fresh(n), run).phase.Closing?
    ensures exists step :: Enabled(Exec(Fresh(n), run), step)
  {
    FreshInv(n);
    RunInv(Fresh(n), run);
    var p := Exec(Fresh(n), run);
    var s := Jobs(p.accepted) + Pills(p.phase.pills);
    assert p.taken == (p.taken + p.queue)[..|p.taken|] == s[..|p.taken|];
    TimesOfPrefix(Jobs(p.accepted), p.phase.pills, |p.taken|);
    if p.phase.pills < n && HasSpace(p) {
      assert Enabled(p, PutPill);
    } else if Exits(p.workers) < n {
      LiveWorkerCanMove(p);
    } else if p.phase.joined < n {
      AllExitsExited(p.workers, p.phase.joined);
      assert Enabled(p, Join);
    } else {
      assert Enabled(p, Destroy);
    }
  }

  lemma {:induction false} AllExitsExited(ws: seq<Worker>, i: nat)
    requires Exits(ws) == |ws| && i < |ws|
    ensures ws[i].Exited?
    decreases |ws|
  {
    if i > 0 {
      AllExitsExited(ws[1..], i - 1);
    }
  }

  lemma LiveWorkerCanMove(p: Pool)
    requires p.phase.Closing? && Exits(p.workers) < |p.workers| && p.queue != []
    ensures exists step :: Enabled(p, step)
  {
    var w := SomeWorkerLeft(p.workers);
    if p.workers[w].Idle? {
      assert Enabled(p, Take(w));
    } else {
      assert Enabled(p, Finish(w));
    }
  }

  function Runs(ws: seq<Worker>): nat {
    if ws == [] then 0 else if ws[0].Running? then 1 + Runs(ws[1..]) else Runs(ws[1..])
  }

  lemma {:induction false} RunsSet(ws: seq<Worker>, w: nat, x: Worker)
    requires w < |ws| && ws[w].Running? != x.Running?
    ensures Runs(ws[w := x]) == if x.Running? then Runs(ws) + 1 else Runs(ws) - 1
    decreases w
  {
    if w == 0 {
      assert ws[w := x][1..] == ws[1..];
    } else {
      RunsSet(ws[1..], w - 1, x);
      assert ws[w := x][1..] == ws[1..][w - 1 := x];
    }
  }

  lemma {:induction false} RunsSame(ws: seq<Worker>, w: nat, x: Worker)
    requires w < |ws| && !ws[w].Running? && !x.Running?
    ensures Runs(ws[w := x]) == Runs(ws)
    decreases w
  {
    if w == 0 {
      assert ws[w := x][1..] == ws[1..];
    } else {
      RunsSame(ws[1..], w - 1, x);
      assert ws[w := x][1..] == ws[1..][w - 1 := x];
    }
  }

  /** What the destructor still has to wait for. */
  function Left(p: Pool): nat {
    var n := |p.workers|;
    var work := 2 * |p.queue| + Runs(p.workers);
    match p.phase
    case Open => 0
    case Closing(pills, joined) =>
      if pills <= n && joined <= n then work + 3 * (n - pills) + (n - joined) + 1 else work
    case Destroyed => work
  }

  lemma StepUsesWork(p: Pool, step: Step)
    requires Inv(p) && p.phase.Closing? && Enabled(p, step)
    ensures Left(Apply(p, step)) < Left(p) && !Apply(p, step).phase.Open?
  {
    match step
    case Take(w) =>
      var j := p.queue[0];
      if j.Pill? {
        RunsSame(p.workers, w, Exited);
      } else {
        RunsSet(p.workers, w, Running(j.id));
      }
    case Finish(w) => RunsSet(p.workers, w, Idle);
    case PutPill =>
    case Join =>
    case Destroy =>
  }

  /** However the workers are scheduled, the destructor takes a bounded number of steps; none is left at the end. */
  lemma {:induction false} DestructorEnds(p: Pool, run: seq<Step>)
    requires Inv(p) && !p.phase.Open? && IsRun(p, run)
    ensures |run| <= Left(p)
    decreases |run|
  {
    if run != [] {
      StepInv(p, run[0]);
      assert p.phase.Closing?;
      StepUsesWork(p, run[0]);
      DestructorEnds(Apply(p, run[0]), run[1..]);
    }
  }

  // ----- the queue itself -----

  /** One attempt of `enq` and `deq` under the queue's mutex; a blocked caller tries again. */
  class Fifo {
    var q: seq<Item>
    const max: nat

    constructor (limit: nat)
      ensures q == [] && max == limit
    {
      q, max := [], limit;
    }

    method TryEnq(e: Item) returns (ok: bool)
      modifies this
      ensures ok == (max == 0 || |old(q)| < max)
      ensures q == if ok then old(q) + [e] else old(q)
      ensures max > 0 && |old(q)| <= max ==> |q| <= max
    {
      ok := max == 0 || |q| < max;
      if ok {
        q := q + [e];
      }
    }

    method TryDeq() returns (ok: bool, e: Item)
      modifies this
      ensures ok == (old(q) != [])
      ensures if ok then old(q) == [e] + q else q == old(q)
    {
      ok, e := q != [], Pill;
      if ok {
        e := q[0];
        q := q[1..];
      }
    }
  }
}
