/** `GlobalCommandQueue`: producers, one worker thread and the destructor, as interleaved steps.

    A push runs under the mutex and is one step; the worker is cut wherever another thread can come
    between.  The destructor sets its flag and notifies without the mutex. */
module CommandQueue {

  /** A null pointer can be pushed; it is taken from the queue and not run. */
  datatype Cmd = Null | Cmd(id: int)

  datatype Worker =
    | Locking                 // about to take the mutex
    | Checking                // holds the mutex, about to evaluate the predicate of the wait
    | Blocking                // holds the mutex, has found the predicate false
    | Blocked                 // waits without the mutex
    | Taking                  // holds the mutex, has found the predicate true
    | Executing(cmd: Cmd)     // holds no mutex, runs what it fetched
    | AtFlag                  // about to look at the exit flag
    | Exited

  datatype Destructor = NotCalled | FlagSet | Notified | Joined

  /** `pushed`, `fetched` and `run` are histories; `lateFetches` counts fetches after the flag was
      set, `missed` tells that the notification fell between predicate check and block. */
  datatype Queue = Queue(
    queue: seq<Cmd>, flag: bool, worker: Worker, destructor: Destructor,
    pushed: seq<Cmd>, fetched: seq<Cmd>, run: seq<Cmd>, lateFetches: nat, missed: bool)

  datatype Step = Push(cmd: Cmd) | Work | Spurious | SetFlag | Notify | Join

  function Init(): Queue { Queue([], false, Locking, NotCalled, [], [], [], 0, false) }

  predicate HoldsMutex(w: Worker) { w.Checking? || w.Blocking? || w.Taking? }

  /** Whether a step can be taken now. */
  predicate Enabled(q: Queue, s: Step) {
    match s
    case Push(_) => !HoldsMutex(q.worker) && q.destructor != Joined
    case Work => !q.worker.Blocked? && !q.worker.Exited?
    case Spurious => q.worker.Blocked?
    case SetFlag => q.destructor == NotCalled
    case Notify => q.destructor == FlagSet
    case Join => q.destructor == Notified && q.worker.Exited?
  }

  function Wake(w: Worker): Worker { if w.Blocked? then Locking else w }

  function Work(q: Queue): Queue {
    match q.worker
    case Locking => q.(worker := Checking)
    case Checking => q.(worker := if q.flag || q.queue != [] then Taking else Blocking)
    case Blocking => q.(worker := Blocked)
    case Taking =>
      if q.queue == [] then q.(worker := Executing(Null))
      else q.(queue := q.queue[1..], worker := Executing(q.queue[0]), fetched := q.fetched + [q.queue[0]],
              lateFetches := q.lateFetches + if q.flag then 1 else 0)
    case Executing(cmd) => q.(worker := AtFlag, run := if cmd == Null then q.run else q.run + [cmd])
    case AtFlag => q.(worker := if q.flag then Exited else Locking)
    case _ => q
  }

  function Take(q: Queue, s: Step): Queue {
    match s
    case Push(cmd) => q.(queue := q.queue + [cmd], pushed := q.pushed + [cmd], worker := Wake(q.worker))
    case Work => Work(q)
    case Spurious => q.(worker := Wake(q.worker))
    case SetFlag => q.(flag := true, destructor := FlagSet)
    case Notify => q.(destructor := Notified, worker := Wake(q.worker), missed := q.worker.Blocking?)
    case Join => q.(destructor := Joined)
  }

  ghost predicate Runs(q: Queue, ss: seq<Step>)
    decreases |ss|
  {
    ss == [] || (Enabled(q, ss[0]) && Runs(Take(q, ss[0]), ss[1..]))
  }

  function Exec(q: Queue, ss: seq<Step>): Queue
    decreases |ss|
  {
    if ss == [] then q else Exec(Take(q, ss[0]), ss[1..])
  }

  // ----- what is kept

  function Valid(s: seq<Cmd>): seq<Cmd>
    decreases |s|
  {
    if s == [] then []
    else
      var n := |s| - 1;
      if s[n] == Null then Valid(s[..n]) else Valid(s[..n]) + [s[n]]
  }

  lemma ValidAppend(s: seq<Cmd>, c: Cmd)
    ensures Valid(s + [c]) == if c == Null then Valid(s) else Valid(s) + [c]
  {
    assert (s + [c])[..|s|] == s;
  }

  /** The command in the worker's hands. */
  function InFlight(w: Worker): seq<Cmd> { if w.Executing? && w.cmd != Null then [w.cmd] else [] }

  /** First in, first out, each exactly once. */
  ghost predicate Conserved(q: Queue) {
    q.pushed == q.fetched + q.queue && Valid(q.fetched) == q.run + InFlight(q.worker)
  }

  ghost predicate Shutdown(q: Queue) {
    && (q.flag <==> q.destructor != NotCalled)
    && (q.lateFetches > 0 ==>
          q.flag && q.lateFetches == 1 && (q.worker.Executing? || q.worker.AtFlag? || q.worker.Exited?))
    && (q.worker.Exited? ==> q.flag)
    && (q.worker.Blocking? || q.worker.Blocked? ==> q.queue == [])
    && (q.destructor in {Notified, Joined} && (q.worker.Blocking? || q.worker.Blocked?) ==> q.missed)
    && (q.missed ==> q.destructor in {Notified, Joined})
    && (q.destructor == Joined ==> q.worker.Exited?)
  }

  ghost predicate Inv(q: Queue) { Conserved(q) && Shutdown(q) }

  lemma PushConserves(q: Queue, cmd: Cmd)
    requires Conserved(q)
    ensures Conserved(Take(q, Push(cmd)))
  {
    assert q.fetched + (q.queue + [cmd]) == q.fetched + q.queue + [cmd];
  }

  lemma FetchConserves(q: Queue)
    requires Conserved(q) && q.worker.Taking? && q.queue != []
    ensures Conserved(Work(q))
  {
    var c, rest, r := q.queue[0], q.queue[1..], Work(q);
    assert r.pushed == q.pushed && r.run == q.run && r.queue == rest && r.fetched == q.fetched + [c];
    assert r.fetched + r.queue == q.fetched + q.queue;
    ValidAppend(q.fetched, c);
    assert Valid(q.fetched) == q.run;
    assert InFlight(r.worker) == if c == Null then [] else [c];
  }

  lemma ExecuteConserves(q: Queue)
    requires Conserved(q) && q.worker.Executing?
    ensures Conserved(Work(q))
  {
    assert q.run + [] == q.run;
  }

  lemma TakeShutdown(q: Queue, s: Step)
    requires Shutdown(q) && Enabled(q, s)
    ensures Shutdown(Take(q, s))
  { }

  lemma TakeInv(q: Queue, s: Step)
    requires Inv(q) && Enabled(q, s)
    ensures Inv(Take(q, s))
  {
    TakeShutdown(q, s);
    if s.Push? {
      PushConserves(q, s.cmd);
    } else if s.Work? && q.worker.Taking? && q.queue != [] {
      FetchConserves(q);
    } else if s.Work? && q.worker.Executing? {
      ExecuteConserves(q);
    } else {
      SameHistories(q, Take(q, s));
    }
  }

  lemma SameHistories(q: Queue, r: Queue)
    requires Conserved(q) && r.pushed == q.pushed && r.fetched == q.fetched && r.queue == q.queue
    requires r.run == q.run && InFlight(r.worker) == InFlight(q.worker)
    ensures Conserved(r)
  { }

  lemma {:induction false} ExecInv(q: Queue, ss: seq<Step>)
    requires Inv(q) && Runs(q, ss)
    ensures Inv(Exec(q, ss))
    decreases |ss|
  {
    if ss != [] {
      TakeInv(q, ss[0]);
      ExecInv(Take(q, ss[0]), ss[1..]);
    }
  }

  /** In every reachable state what was pushed is what was fetched followed by what is queued, and
      what was run is, in order, exactly the fetched commands without the one in flight; after the
      exit flag is set at most one more is fetched. */
  lemma FirstInFirstOut(ss: seq<Step>)
    requires Runs(Init(), ss)
    ensures var q := Exec(Init(), ss);
      && q.pushed == q.fetched + q.queue
      && q.run + InFlight(q.worker) + Valid(q.queue) == Valid(q.pushed)
      && q.lateFetches <= 1
  {
    ExecInv(Init(), ss);
    var q := Exec(Init(), ss);
    ValidConcat(q.fetched, q.queue);
  }

  lemma {:induction false} ValidConcat(s: seq<Cmd>, t: seq<Cmd>)
    ensures Valid(s + t) == Valid(s) + Valid(t)
    decreases |t|
  {
    if t == [] {
      assert s + t == s;
    } else {
      var n := |t| - 1;
      ValidConcat(s, t[..n]);
      assert s + t == s + t[..n] + [t[n]] && t == t[..n] + [t[n]];
      ValidAppend(s + t[..n], t[n]);
      ValidAppend(t[..n], t[n]);
    }
  }

  // ----- commands get run

  function Works(q: Queue, n: nat): Queue
    decreases n
  {
    if n == 0 then q else Works(Work(q), n - 1)
  }

  /** Steps the worker needs at most before it fetches, if there is something to fetch. */
  function UntilFetch(w: Worker): nat {
    match w
    case Executing(_) => 5
    case AtFlag => 4
    case Locking => 3
    case Checking => 2
    case Taking => 1
    case _ => 0
  }

  lemma WorkTowardsFetch(q: Queue)
    requires Shutdown(q) && !q.flag && q.queue != []
    ensures Enabled(q, Step.Work)
    ensures var r := Work(q);
      if q.worker.Taking? then
        r.worker == Executing(q.queue[0]) && r.fetched == q.fetched + [q.queue[0]] && r.queue == q.queue[1..] && !r.flag
      else
        r.queue == q.queue && r.fetched == q.fetched && !r.flag && UntilFetch(r.worker) < UntilFetch(q.worker)
  { }

  ghost predicate Fetches(q: Queue, r: Queue)
    requires q.queue != []
  {
    && Inv(r) && !r.flag && r.worker == Executing(q.queue[0])
    && r.fetched == q.fetched + [q.queue[0]] && r.queue == q.queue[1..]
  }

  /** While nothing shuts down, what heads the queue is fetched within five steps of the worker. */
  lemma {:induction false} HeadIsFetched(q: Queue) returns (n: nat)
    requires Inv(q) && !q.flag && q.queue != []
    ensures n <= UntilFetch(q.worker) && Fetches(q, Works(q, n))
    decreases UntilFetch(q.worker)
  {
    WorkTowardsFetch(q);
    TakeInv(q, Step.Work);
    var q1 := Work(q);
    if q.worker.Taking? {
      n := 1;
      assert Works(q1, 0) == q1;
    } else {
      n := HeadIsFetched(q1);
      n := n + 1;
    }
  }

  /** And run one step later. */
  lemma HeadIsRun(q: Queue) returns (n: nat)
    requires Inv(q) && !q.flag && q.queue != []
    ensures n <= 6
    ensures var r := Works(q, n);
      r.queue == q.queue[1..] && r.run == Valid(q.fetched + [q.queue[0]]) && r.worker == AtFlag
  {
    n := HeadIsFetched(q);
    WorksNext(q, n);
    var r := Works(q, n);
    ExecuteConserves(r);
    assert Work(r).run + [] == Work(r).run;
    n := n + 1;
  }

  lemma {:induction false} WorksNext(q: Queue, n: nat)
    ensures Works(q, n + 1) == Work(Works(q, n))
    decreases n
  {
    if n > 0 { WorksNext(Work(q), n - 1); } else { assert Works(Work(q), 0) == Work(q); }
  }

  // ----- shutting down

  /** Steps the worker needs at most before it exits, once the flag is set. */
  function Left(w: Worker): nat {
    match w
    case Locking => 5
    case Checking => 4
    case Taking => 3
    case Executing(_) => 2
    case AtFlag => 1
    case Exited => 0
    case Blocking => 7
    case Blocked => 6
  }

  /** Worker and destructor wait for each other. */
  predicate Stuck(q: Queue) { q.destructor == Notified && q.worker.Blocked? }

  /** In every reachable state of a shutdown that has notified, the worker is stuck, or can take a
      step, and every step brings its exit or the stuck state nearer. */
  lemma ShutdownProceeds(q: Queue)
    requires Shutdown(q) && q.destructor == Notified && !q.worker.Exited?
    ensures Stuck(q) <==> forall s | Enabled(q, s) :: s.Push? || s.Spurious?
    ensures !Stuck(q) ==>
      && Enabled(q, Step.Work) && Left(Work(q).worker) < Left(q.worker)
      && Work(q).destructor == Notified && Work(q).missed == q.missed
      && (Work(q).worker.Blocked? <==> q.worker.Blocking?) && !Work(q).worker.Blocking?
  {
    assert q.worker.Blocked? <==> !Enabled(q, Step.Work);
  }

  /** A notified shutdown ends with the worker's exit within five of its steps, except exactly when
      the notification fell between its check of the predicate and its block: then it is stuck. */
  lemma {:induction false} ShutdownEnds(q: Queue) returns (n: nat)
    requires Shutdown(q) && q.destructor == Notified
    ensures n <= Left(q.worker)
    ensures var r := Works(q, n);
      if q.worker.Blocking? || q.worker.Blocked? then Stuck(r) && q.missed else r.worker.Exited?
    decreases Left(q.worker)
  {
    n := 0;
    if !q.worker.Exited? && !Stuck(q) {
      ShutdownProceeds(q);
      TakeShutdown(q, Step.Work);
      n := ShutdownEnds(Work(q));
      n := n + 1;
    }
  }

  /** Such a run exists: check, set, notify, block. */
  lemma LostWakeUp() returns (ss: seq<Step>)
    ensures Runs(Init(), ss) && Stuck(Exec(Init(), ss))
  {
    ss := [Step.Work, Step.Work, SetFlag, Notify, Step.Work];
    var q1 := Take(Init(), Step.Work);
    var q2 := Take(q1, Step.Work);
    var q3 := Take(q2, SetFlag);
    var q4 := Take(q3, Notify);
    assert q2.worker.Blocking? && Stuck(Take(q4, Step.Work));
    RunsOn(q4, ss[4..]);
    RunsOn(q3, ss[3..]);
    RunsOn(q2, ss[2..]);
    RunsOn(q1, ss[1..]);
    RunsOn(Init(), ss);
  }

  lemma RunsOn(q: Queue, ss: seq<Step>)
    requires ss != [] && Enabled(q, ss[0]) && Runs(Take(q, ss[0]), ss[1..])
    ensures Runs(q, ss) && Exec(q, ss) == Exec(Take(q, ss[0]), ss[1..])
  { }
}
