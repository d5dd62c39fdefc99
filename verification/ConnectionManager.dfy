/** src/server/connection_manager.cpp as a system of atomic steps: the calls that hold the lock,
    and the two counter updates of every connection thread, interleaved in any order. */
module ConnectionManager {

  const MAX_CLIENTS: nat := 100

  /** A connection thread: created, between the increment and the decrement of the counter,
      past the decrement, joined. All but the last are joinable. */
  datatype Thread = Created | Active | Finished | Joined

  /** `Stopping(n)`: stopAllConnections holds the lock and has joined the first n threads. */
  datatype Phase = Running | Stopping(joined: nat)

  /** `added` counts the addConnection calls that succeeded since the last stop. */
  datatype Manager = Manager(threads: seq<Thread>, active: int, phase: Phase, added: nat)

  datatype Action =
    | Add           // addConnection, in one step under the lock
    | Enter(i: nat) // active_connections++ of thread i
    | Leave(i: nat) // active_connections-- of thread i, its handler having returned or thrown
    | StopBegin     // stopAllConnections takes the lock
    | Join          // it joins its next thread, which waits for that thread to finish
    | StopEnd       // it clears the threads and the counter, and releases the lock

  /** `cleanupFinishedThreads` keeps the joinable threads. */
  function Joinable(threads: seq<Thread>): seq<Thread> {
    if threads == [] then []
    else Joinable(threads[..|threads| - 1]) + if threads[|threads| - 1].Joined? then [] else [threads[|threads| - 1]]
  }

  predicate Enabled(m: Manager, a: Action) {
    match a
    case Add => m.phase.Running?
    case Enter(i) => i < |m.threads| && m.threads[i].Created?
    case Leave(i) => i < |m.threads| && m.threads[i].Active?
    case StopBegin => m.phase.Running?
    case Join => m.phase.Stopping? && m.phase.joined < |m.threads|
                 && (m.threads[m.phase.joined].Finished? || m.threads[m.phase.joined].Joined?)
    case StopEnd => m.phase.Stopping? && m.phase.joined == |m.threads|
  }

  /** canAcceptNewConnection looks at the counter, not at the thread vector. */
  predicate CanAccept(m: Manager) {
    m.active < MAX_CLIENTS
  }

  /** addConnection throws when the thread vector is full. */
  predicate AddSucceeds(m: Manager) {
    |Joinable(m.threads)| < MAX_CLIENTS
  }

  function Step(m: Manager, a: Action): Manager
    requires Enabled(m, a)
  {
    match a
    case Add =>
      var kept := Joinable(m.threads);
      if AddSucceeds(m) then m.(threads := kept + [Created], added := m.added + 1) else m.(threads := kept)
    case Enter(i) => m.(threads := m.threads[i := Active], active := m.active + 1)
    case Leave(i) => m.(threads := m.threads[i := Finished], active := m.active - 1)
    case StopBegin => m.(phase := Stopping(0))
    case Join => m.(threads := m.threads[m.phase.joined := Joined], phase := Stopping(m.phase.joined + 1))
    case StopEnd => Manager([], 0, Running, 0)
  }

  const Initial: Manager := Manager([], 0, Running, 0)

  class ConnectionManager {
    var clientThreads: seq<Thread>
    var activeConnections: int
    ghost var phase: Phase
    ghost var added: nat

    ghost function State(): Manager
      reads this
    {
      Manager(clientThreads, activeConnections, phase, added)
    }

    constructor ()
      ensures State() == Initial
    {
      clientThreads, activeConnections, phase, added := [], 0, Running, 0;
    }

    method CleanupFinishedThreads()
      modifies this`clientThreads
      ensures clientThreads == Joinable(old(clientThreads))
    {
      var kept: seq<Thread> := [];
      for i := 0 to |clientThreads|
        invariant kept == Joinable(clientThreads[..i])
      {
        assert clientThreads[..i + 1][..i] == clientThreads[..i];
        if !clientThreads[i].Joined? {
          kept := kept + [clientThreads[i]];
        }
      }
      assert clientThreads[..|clientThreads|] == clientThreads;
      clientThreads := kept;
    }

    method AddConnection() returns (ok: bool)
      requires Enabled(State(), Add)
      modifies this
      ensures State() == Step(old(State()), Add)
      ensures ok == AddSucceeds(old(State()))
    {
      CleanupFinishedThreads();
      if |clientThreads| >= MAX_CLIENTS {
        return false;
      }
      clientThreads := clientThreads + [Created];
      added := added + 1;
      return true;
    }

    /** The connection thread, before its handler. */
    method ThreadEnters(i: nat)
      requires Enabled(State(), Enter(i))
      modifies this
      ensures State() == Step(old(State()), Enter(i))
    {
      activeConnections := activeConnections + 1;
      clientThreads := clientThreads[i := Active];
    }

    /** The connection thread, after its handler. */
    method ThreadLeaves(i: nat)
      requires Enabled(State(), Leave(i))
      modifies this
      ensures State() == Step(old(State()), Leave(i))
    {
      activeConnections := activeConnections - 1;
      clientThreads := clientThreads[i := Finished];
    }

    method CanAcceptNewConnection() returns (r: bool)
      ensures r == CanAccept(State())
    {
      return activeConnections < MAX_CLIENTS;
    }
  }

  // ----- what every interleaving keeps -----

  function CountActive(threads: seq<Thread>): nat {
    if threads == [] then 0
    else CountActive(threads[..|threads| - 1]) + if threads[|threads| - 1].Active? then 1 else 0
  }

  ghost predicate Invariant(m: Manager) {
    && m.active == CountActive(m.threads)
    && m.added == |m.threads| <= 100
    && (m.phase.Running? ==> forall k :: 0 <= k < |m.threads| ==> !m.threads[k].Joined?)
    && (m.phase.Stopping? ==>
          m.phase.joined <= |m.threads| &&
          forall k :: 0 <= k < |m.threads| ==> (m.threads[k].Joined? <==> k < m.phase.joined))
  }

  lemma {:induction false} CountActiveUpdate(threads: seq<Thread>, i: nat, t: Thread)
    requires i < |threads|
    ensures CountActive(threads[i := t])
         == CountActive(threads) + (if t.Active? then 1 else 0) - (if threads[i].Active? then 1 else 0)
    decreases |threads|
  {
    var n := |threads| - 1;
    if i < n {
      CountActiveUpdate(threads[..n], i, t);
      assert threads[i := t][..n] == threads[..n][i := t];
    } else {
      assert threads[i := t][..n] == threads[..n];
    }
  }

  lemma {:induction false} CountActiveBound(threads: seq<Thread>)
    ensures CountActive(threads) <= |threads|
    ensures (forall k :: 0 <= k < |threads| ==> !threads[k].Active?) ==> CountActive(threads) == 0
  {
    if threads != [] {
      CountActiveBound(threads[..|threads| - 1]);
    }
  }

  /** A thread that has finished is still joinable until someone joins it, so the cleanup before
      an addition finds nothing to remove. */
  lemma {:induction false} CleanupRemovesNothing(threads: seq<Thread>)
    requires forall k :: 0 <= k < |threads| ==> !threads[k].Joined?
    ensures Joinable(threads) == threads
  {
    if threads != [] {
      var n := |threads| - 1;
      CleanupRemovesNothing(threads[..n]);
      assert threads == threads[..n] + [threads[n]];
    }
  }

  lemma StepKeepsInvariant(m: Manager, a: Action)
    requires Invariant(m) && Enabled(m, a)
    ensures Invariant(Step(m, a))
  {
    match a
    case Add =>
      CleanupRemovesNothing(m.threads);
      assert (m.threads + [Created])[..|m.threads|] == m.threads;
    case Enter(i) => CountActiveUpdate(m.threads, i, Active);
    case Leave(i) => CountActiveUpdate(m.threads, i, Finished);
    case StopBegin =>
    case Join => CountActiveUpdate(m.threads, m.phase.joined, Joined);
    case StopEnd =>
  }

  ghost predicate Possible(m: Manager, run: seq<Action>)
    decreases |run|
  {
    run == [] || (Enabled(m, run[0]) && Possible(Step(m, run[0]), run[1..]))
  }

  function AfterRun(m: Manager, run: seq<Action>): Manager
    requires Possible(m, run)
    decreases |run|
  {
    if run == [] then m else AfterRun(Step(m, run[0]), run[1..])
  }

  lemma {:induction false} RunKeepsInvariant(m: Manager, run: seq<Action>)
    requires Invariant(m) && Possible(m, run)
    ensures Invariant(AfterRun(m, run))
    decreases |run|
  {
    if run != [] {
      StepKeepsInvariant(m, run[0]);
      RunKeepsInvariant(Step(m, run[0]), run[1..]);
    }
  }

  /** In every interleaving the counter is the number of threads between its increment and its
      decrement, which never exceeds the number of threads, nor that the limit; and when a stop
      comes to reset the counter it is 0 already. */
  lemma CounterIsExact(run: seq<Action>)
    requires Possible(Initial, run)
    ensures var m := AfterRun(Initial, run);
            && 0 <= m.active == CountActive(m.threads) <= |m.threads| <= 100
            && (Enabled(m, StopEnd) ==> m.active == 0)
  {
    RunKeepsInvariant(Initial, run);
    CountActiveBound(AfterRun(Initial, run).threads);
  }

  /** The additions of a run that succeed after its last completed stop. */
  function AddsSinceStop(m: Manager, run: seq<Action>, n: nat): nat
    requires Possible(m, run)
    decreases |run|
  {
    if run == [] then n
    else
      AddsSinceStop(Step(m, run[0]), run[1..],
        match run[0]
        case Add => if AddSucceeds(m) then n + 1 else n
        case StopEnd => 0
        case _ => n)
  }

  lemma {:induction false} AddedIsAddsSinceStop(m: Manager, run: seq<Action>)
    requires Possible(m, run)
    ensures AfterRun(m, run).added == AddsSinceStop(m, run, m.added)
    decreases |run|
  {
    if run != [] {
      AddedIsAddsSinceStop(Step(m, run[0]), run[1..]);
    }
  }

  /** An addition succeeds exactly when fewer than 100 succeeded since the last stop, no matter
      how many of those connections have long ended. */
  lemma HundredAdditionsBetweenStops(run: seq<Action>)
    requires Possible(Initial, run) && AfterRun(Initial, run).phase.Running?
    ensures AddSucceeds(AfterRun(Initial, run)) <==> AddsSinceStop(Initial, run, 0) < 100
    ensures AddsSinceStop(Initial, run, 0) <= 100
  {
    RunKeepsInvariant(Initial, run);
    AddedIsAddsSinceStop(Initial, run);
    CleanupRemovesNothing(AfterRun(Initial, run).threads);
  }

  /** The guard never turns away a client that an addition would take; it admits one that the
      addition then refuses exactly when the vector is full and some of its connections are not
      active, be it that they ended or that they have not started. */
  lemma GuardIsTooGenerous(run: seq<Action>)
    requires Possible(Initial, run) && AfterRun(Initial, run).phase.Running?
    ensures var m := AfterRun(Initial, run);
            && (AddSucceeds(m) ==> CanAccept(m))
            && (CanAccept(m) && !AddSucceeds(m) <==> m.active < |m.threads| == 100)
  {
    var m := AfterRun(Initial, run);
    RunKeepsInvariant(Initial, run);
    CountActiveBound(m.threads);
    CleanupRemovesNothing(m.threads);
  }

  function Additions(n: nat): seq<Action> {
    seq(n, _ => Add)
  }

  lemma {:induction false} AdditionsFill(m: Manager, n: nat)
    requires Invariant(m) && m.phase.Running? && |m.threads| + n <= 100
    ensures Possible(m, Additions(n))
    ensures var m' := AfterRun(m, Additions(n));
            m'.phase.Running? && m'.active == m.active && |m'.threads| == |m.threads| + n
    decreases n
  {
    if n > 0 {
      CleanupRemovesNothing(m.threads);
      StepKeepsInvariant(m, Add);
      assert Additions(n)[1..] == Additions(n - 1);
      AdditionsFill(Step(m, Add), n - 1);
    }
  }

  /** That happens: after 100 additions whose threads have not started the counter is still 0. */
  lemma GuardCanBeWrong()
    ensures Possible(Initial, Additions(100))
    ensures var m := AfterRun(Initial, Additions(100)); m.phase.Running? && CanAccept(m) && !AddSucceeds(m)
  {
    AdditionsFill(Initial, 100);
    GuardIsTooGenerous(Additions(100));
  }
}
