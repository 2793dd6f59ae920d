/**
 The threads that share the jobs of a batch (execute_batch_jobs of src/batch/batch_executor.rs) and the
 slots that the jobs write (src/commands/batch_read_command.rs), as a state machine: each locked access and
 each answer of a server is one step, and the steps of the threads interleave freely.
 */
module Jobs {
  import opened Options
  import opened Partitions
  import opened Routing

  datatype Concurrency = Sequential | Parallel | MaxThreads(max: nat)

  function ThreadCount(c: Concurrency, jobs: nat): nat
  {
    match c
    case Sequential => 1
    case Parallel => jobs
    case MaxThreads(max) => if max < jobs then max else jobs
  }

  datatype Worker =
    | Fetching
    | Running(job: nat)
    | Reporting(job: nat)
    | Draining
    | Stopped

  /** `offsets` holds the slots of each job; `next` is the position of the shared iterator. */
  datatype State = State(
    offsets: seq<seq<nat>>,
    next: nat,
    workers: seq<Worker>,
    lastErr: Option<nat>,
    // history
    taken: seq<nat>,
    taker: map<nat, nat>,
    succeeded: set<nat>,
    failed: set<nat>,
    writes: seq<(nat, nat)>)

  datatype Step =
    | Fetch(t: nat)
    | Write(t: nat, slot: nat)
    | Finish(t: nat, ok: bool)
    | Report(t: nat)
    | Drain(t: nat)

  function Initial(offsets: seq<seq<nat>>, threads: nat): State
  {
    State(offsets, 0, seq(threads, _ => Fetching), None, [], map[], {}, {}, [])
  }

  /** A server answers only for keys that it was asked for. */
  ghost predicate Enabled(s: State, e: Step)
  {
    && e.t < |s.workers|
    && match e
       case Fetch(t) => s.workers[t].Fetching?
       case Write(t, slot) =>
         s.workers[t].Running? && s.workers[t].job < |s.offsets| && slot in s.offsets[s.workers[t].job]
       case Finish(t, _) => s.workers[t].Running?
       case Report(t) => s.workers[t].Reporting?
       case Drain(t) => s.workers[t].Draining?
  }

  function After(s: State, e: Step): State
    requires Enabled(s, e)
  {
    match e
    case Fetch(t) =>
      if s.next < |s.offsets|
      then s.(next := s.next + 1, workers := s.workers[t := Running(s.next)],
              taken := s.taken + [s.next], taker := s.taker[s.next := t])
      else s.(workers := s.workers[t := Stopped])
    case Write(t, slot) => s.(writes := s.writes + [(s.workers[t].job, slot)])
    case Finish(t, ok) =>
      var j := s.workers[t].job;
      if ok then s.(workers := s.workers[t := Fetching], succeeded := s.succeeded + {j})
      else s.(workers := s.workers[t := Reporting(j)], failed := s.failed + {j})
    case Report(t) => s.(lastErr := Some(s.workers[t].job), workers := s.workers[t := Draining])
    case Drain(t) => s.(next := |s.offsets|, workers := s.workers[t := Fetching])
  }

  // ---------------------------------------------------------------------------------------------
  // The invariants

  /** Jobs are taken in order, each once. */
  ghost predicate TakenInOrder(s: State)
  {
    && s.next <= |s.offsets|
    && Increasing(s.taken)
    && (forall k :: 0 <= k < |s.taken| ==> s.taken[k] < s.next)
    && (forall j :: j in s.taker <==> j in s.taken)
    && (s.failed == {} ==> |s.taken| == s.next)
  }

  /** Each job that was taken runs on the thread that took it, or has succeeded, or has failed. */
  ghost predicate OneTaker(s: State)
  {
    && (forall j :: j in s.taker ==>
          s.taker[j] < |s.workers| && (j in s.succeeded || j in s.failed || s.workers[s.taker[j]] == Running(j)))
    && (forall t :: 0 <= t < |s.workers| && s.workers[t].Running? ==>
          && s.workers[t].job in s.taker && s.taker[s.workers[t].job] == t
          && s.workers[t].job !in s.succeeded && s.workers[t].job !in s.failed)
    && s.succeeded !! s.failed
    && (forall j :: j in s.succeeded || j in s.failed ==> j in s.taker)
  }

  /** A failure is reported, or is about to be. */
  ghost predicate Reported(s: State)
  {
    && (forall j :: j in s.failed ==>
          s.lastErr.Some? || (j in s.taker && s.taker[j] < |s.workers| && s.workers[s.taker[j]] == Reporting(j)))
    && (s.lastErr.Some? ==> s.lastErr.value in s.failed)
    && (forall t :: 0 <= t < |s.workers| ==>
          && (s.workers[t].Reporting? ==> s.workers[t].job in s.failed)
          && (s.workers[t].Draining? ==> s.lastErr.Some?)
          && (s.workers[t].Stopped? ==> s.next == |s.offsets|))
  }

  ghost predicate OwnSlots(s: State)
  {
    forall k :: 0 <= k < |s.writes| ==>
      s.writes[k].0 in s.taker && s.writes[k].0 < |s.offsets| && s.writes[k].1 in s.offsets[s.writes[k].0]
  }

  ghost predicate Invariant(s: State)
  {
    TakenInOrder(s) && OneTaker(s) && Reported(s) && OwnSlots(s)
  }

  lemma InitialInvariant(offsets: seq<seq<nat>>, threads: nat)
    ensures Invariant(Initial(offsets, threads))
  {
  }

  lemma OrderKept(s: State, e: Step)
    requires Enabled(s, e) && TakenInOrder(s) && Reported(s)
    ensures TakenInOrder(After(s, e))
  {
    if e.Fetch? && s.next < |s.offsets| {
      var t := After(s, e);
      assert t.taken[|s.taken|] == s.next;
    } else if e.Drain? {
      assert s.failed != {};
    }
  }

  lemma TakerKept(s: State, e: Step)
    requires Enabled(s, e) && TakenInOrder(s) && OneTaker(s)
    ensures OneTaker(After(s, e))
  {
    hide Increasing;
    if e.Fetch? {
      assert s.next !in s.taker;
    }
  }

  lemma ReportsKept(s: State, e: Step)
    requires Enabled(s, e) && TakenInOrder(s) && OneTaker(s) && Reported(s)
    ensures Reported(After(s, e))
  {
    hide Increasing;
    if e.Fetch? {
      assert s.next !in s.taker;
    }
  }

  lemma SlotsKept(s: State, e: Step)
    requires Enabled(s, e) && OneTaker(s) && OwnSlots(s)
    ensures OwnSlots(After(s, e))
  {
  }

  lemma InvariantKept(s: State, e: Step)
    requires Enabled(s, e) && Invariant(s)
    ensures Invariant(After(s, e))
    ensures After(s, e).offsets == s.offsets && |After(s, e).workers| == |s.workers|
  {
    OrderKept(s, e);
    TakerKept(s, e);
    ReportsKept(s, e);
    SlotsKept(s, e);
    hide TakenInOrder, OneTaker, Reported, OwnSlots;
  }

  ghost predicate Runs(s: State, steps: seq<Step>)
    decreases |steps|
  {
    steps == [] || (Enabled(s, steps[0]) && Runs(After(s, steps[0]), steps[1..]))
  }

  ghost function EndOf(s: State, steps: seq<Step>): State
    requires Runs(s, steps)
    decreases |steps|
  {
    if steps == [] then s else EndOf(After(s, steps[0]), steps[1..])
  }

  lemma {:induction false} RunInvariant(s: State, steps: seq<Step>)
    requires Invariant(s) && Runs(s, steps)
    ensures Invariant(EndOf(s, steps))
    ensures EndOf(s, steps).offsets == s.offsets && |EndOf(s, steps).workers| == |s.workers|
    decreases |steps|
  {
    hide Invariant, Enabled, After;
    if steps != [] {
      InvariantKept(s, steps[0]);
      RunInvariant(After(s, steps[0]), steps[1..]);
    }
  }

  /** The threads have come to the end of the scope. */
  ghost predicate AllStopped(s: State)
  {
    forall t :: 0 <= t < |s.workers| ==> s.workers[t].Stopped?
  }

  /** Whatever the threads do, no job is taken twice, or by two threads. */
  lemma EachJobOnce(offsets: seq<seq<nat>>, threads: nat, steps: seq<Step>)
    requires Runs(Initial(offsets, threads), steps)
    ensures var s := EndOf(Initial(offsets, threads), steps);
      && Increasing(s.taken)
      && (forall k :: 0 <= k < |s.taken| ==> s.taken[k] < |offsets|)
      && (forall t, u :: 0 <= t < u < |s.workers| && s.workers[t].Running? && s.workers[u].Running? ==>
            s.workers[t].job != s.workers[u].job)
  {
    InitialInvariant(offsets, threads);
    RunInvariant(Initial(offsets, threads), steps);
  }

  /** The call succeeds exactly if no job failed; then, if there is a thread at all, every job ran and succeeded. */
  lemma OkMeansAllSucceeded(offsets: seq<seq<nat>>, threads: nat, steps: seq<Step>)
    requires Runs(Initial(offsets, threads), steps) && AllStopped(EndOf(Initial(offsets, threads), steps))
    ensures var s := EndOf(Initial(offsets, threads), steps);
      && (s.lastErr.None? <==> s.failed == {})
      && (s.lastErr.None? && threads > 0 ==>
            |s.taken| == |offsets| && forall j: nat :: j in s.succeeded <==> j < |offsets|)
  {
    hide Runs, EndOf;
    InitialInvariant(offsets, threads);
    RunInvariant(Initial(offsets, threads), steps);
    var s := EndOf(Initial(offsets, threads), steps);
    if s.lastErr.None? && threads > 0 {
      assert s.workers[0].Stopped? && s.next == |offsets|;
      forall j: nat ensures j in s.succeeded <==> j < |offsets| {
        if j < |offsets| {
          FullRun(s.taken, j);
        }
      }
    }
  }

  /** Increasing numbers below a bound, as many as the bound, are all there are. */
  lemma FullRun(taken: seq<nat>, j: nat)
    requires Increasing(taken) && j < |taken| && forall k :: 0 <= k < |taken| ==> taken[k] < |taken|
    ensures taken[j] == j
  {
    AtLeast(taken, j);
    AtMost(taken, j);
  }

  lemma {:induction false} AtLeast(taken: seq<nat>, j: nat)
    requires Increasing(taken) && j < |taken|
    ensures taken[j] >= j
  {
    if j > 0 {
      AtLeast(taken, j - 1);
    }
  }

  lemma {:induction false} AtMost(taken: seq<nat>, j: nat)
    requires Increasing(taken) && j < |taken| && forall k :: 0 <= k < |taken| ==> taken[k] < |taken|
    ensures taken[j] <= j
    decreases |taken| - j
  {
    if j + 1 < |taken| {
      AtMost(taken, j + 1);
    }
  }

  /** A call that succeeds after `steps` has run every job, and every job has succeeded. */
  ghost predicate OkAfter(offsets: seq<seq<nat>>, threads: nat, steps: seq<Step>)
  {
    && Runs(Initial(offsets, threads), steps)
    && AllStopped(EndOf(Initial(offsets, threads), steps))
    && EndOf(Initial(offsets, threads), steps).lastErr.None?
  }

  ghost predicate OkMeansAllRan(offsets: seq<seq<nat>>, threads: nat)
  {
    forall steps :: OkAfter(offsets, threads, steps) ==>
      forall j: nat :: j < |offsets| ==> j in EndOf(Initial(offsets, threads), steps).succeeded
  }

  /** Success means that every job has run and succeeded, exactly unless there are jobs and the policy allows no thread. */
  lemma OkMeansAllRanExactly(offsets: seq<seq<nat>>, c: Concurrency)
    ensures OkMeansAllRan(offsets, ThreadCount(c, |offsets|)) <==> offsets == [] || c != MaxThreads(0)
  {
    hide Runs, EndOf;
    var threads := ThreadCount(c, |offsets|);
    if threads > 0 {
      forall steps | OkAfter(offsets, threads, steps)
        ensures forall j: nat :: j < |offsets| ==> j in EndOf(Initial(offsets, threads), steps).succeeded
      {
        OkMeansAllSucceeded(offsets, threads, steps);
      }
    } else if offsets != [] {
      NothingRuns(offsets);
      var first: nat := 0;
      assert first !in EndOf(Initial(offsets, threads), []).succeeded && first < |offsets|;
    }
  }

  /** With no thread the call succeeds at once, without having run a job. */
  lemma NothingRuns(offsets: seq<seq<nat>>)
    ensures var s := Initial(offsets, 0);
      && OkAfter(offsets, 0, []) && EndOf(s, []) == s && s.taken == [] && s.succeeded == {}
  {
  }

  // ---------------------------------------------------------------------------------------------
  // The jobs of a batch

  ghost predicate DisjointSlots(offsets: seq<seq<nat>>)
  {
    forall j, k, slot :: 0 <= j < |offsets| && 0 <= k < |offsets| && slot in offsets[j] && slot in offsets[k] ==> j == k
  }

  /** If servers answer only what they were asked for, two jobs never write the same slot. */
  lemma NoSharedSlot(offsets: seq<seq<nat>>, threads: nat, steps: seq<Step>)
    requires Runs(Initial(offsets, threads), steps) && DisjointSlots(offsets)
    ensures var w := EndOf(Initial(offsets, threads), steps).writes;
      forall a, b :: 0 <= a < |w| && 0 <= b < |w| && w[a].1 == w[b].1 ==> w[a].0 == w[b].0
  {
    InitialInvariant(offsets, threads);
    RunInvariant(Initial(offsets, threads), steps);
  }

  /** The jobs of a batch: the groups of its nodes, in the order in which the map is drained. */
  function JobsOf(route: seq<Node>, nodes: seq<Node>): seq<seq<nat>>
    requires forall k :: 0 <= k < |nodes| ==> nodes[k] in route
  {
    seq(|nodes|, k requires 0 <= k < |nodes| => Groups(route)[nodes[k]])
  }

  lemma InGroup(route: seq<Node>, node: Node, slot: nat)
    requires node in route
    ensures slot in Groups(route)[node] <==> slot < |route| && route[slot] == node
  {
    ListCounts(route, node, slot);
    var g := Groups(route)[node];
    assert slot in g <==> slot in multiset(g);
  }

  lemma JobsAreDisjoint(route: seq<Node>, nodes: seq<Node>)
    requires forall k :: 0 <= k < |nodes| ==> nodes[k] in route
    requires forall j, k :: 0 <= j < k < |nodes| ==> nodes[j] != nodes[k]
    ensures DisjointSlots(JobsOf(route, nodes))
  {
    hide Groups;
    var offsets := JobsOf(route, nodes);
    forall j, k, slot | 0 <= j < |offsets| && 0 <= k < |offsets| && slot in offsets[j] && slot in offsets[k] ensures j == k {
      InGroup(route, nodes[j], slot);
      InGroup(route, nodes[k], slot);
    }
  }

  /** A job that succeeded asked the node of key `i` for it. */
  ghost predicate Served(s: State, route: seq<Node>, nodes: seq<Node>, i: nat)
    requires i < |route| && |s.offsets| == |nodes|
  {
    exists j :: 0 <= j < |nodes| && nodes[j] == route[i] && i in s.offsets[j] && j in s.succeeded
  }

  /**
   The batch.  The jobs ask disjoint sets of keys, and a batch that succeeds has run, for each of its keys,
   the job of the key's node.
   */
  lemma BatchCovers(route: seq<Node>, nodes: seq<Node>, threads: nat, steps: seq<Step>)
    requires forall k :: 0 <= k < |nodes| ==> nodes[k] in route
    requires forall j, k :: 0 <= j < k < |nodes| ==> nodes[j] != nodes[k]
    requires forall i :: 0 <= i < |route| ==> route[i] in nodes
    requires Runs(Initial(JobsOf(route, nodes), threads), steps) && threads > 0
    requires AllStopped(EndOf(Initial(JobsOf(route, nodes), threads), steps))
    requires EndOf(Initial(JobsOf(route, nodes), threads), steps).lastErr.None?
    ensures DisjointSlots(JobsOf(route, nodes))
    ensures var s := EndOf(Initial(JobsOf(route, nodes), threads), steps);
      s.offsets == JobsOf(route, nodes) && forall i: nat :: i < |route| ==> Served(s, route, nodes, i)
  {
    hide Runs, EndOf, Groups, Invariant, DisjointSlots;
    var offsets := JobsOf(route, nodes);
    JobsAreDisjoint(route, nodes);
    InitialInvariant(offsets, threads);
    RunInvariant(Initial(offsets, threads), steps);
    OkMeansAllSucceeded(offsets, threads, steps);
    var s := EndOf(Initial(offsets, threads), steps);
    forall i: nat | i < |route| ensures Served(s, route, nodes, i) {
      var j :| 0 <= j < |nodes| && nodes[j] == route[i];
      InGroup(route, nodes[j], i);
      assert j in s.succeeded;
    }
  }
}
