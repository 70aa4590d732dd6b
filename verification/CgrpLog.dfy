/**
 What a consumer group says to the rest of the client and what it hears back, in order, and
 the discipline a good conversation keeps.
 */
module CgrpLog {
  datatype Partition = Partition(topic: string, id: int)

  datatype Event =
    | Started(p: Partition)                 // fetcher started
    | Seeked(p: Partition)                  // running fetcher given a new offset
    | StopSent(p: Partition)                // fetcher told to stop, answer expected
    | Stopped(p: Partition)                 // answer: FETCH_STOP
    | Halted(p: Partition)                  // fetcher told to stop, no answer expected
    | OffsetsAsked(ps: seq<Partition>)      // OffsetFetch request
    | CommitSent                            // OffsetCommit request
    | CommitDone                            // its final answer
    | Joined(p: Partition)                  // PARTITION_JOIN
    | Left(p: Partition)                    // PARTITION_LEAVE
    | Delegated(ps: seq<Partition>)         // rebalance op for the application
    | LeaveSent                             // LeaveGroup request
    | Accepted                              // terminate request taken
    | Refused                               // terminate request answered "in progress"
    | Terminated                            // state TERM entered
    | Answered                              // reply to the accepted terminate request

  /** The outside world as a log shows it; `ok` says that every rule was kept. */
  datatype World = World(running: set<Partition>, stopping: set<Partition>, commits: int,
                         joined: set<Partition>, accepted: nat, answered: nat,
                         terminated: bool, late: bool, ok: bool)

  /** `late` records a fetcher that was started, moved or stopped after TERM. */
  function Step(w: World, e: Event): World {
    match e
    case Started(p) => w.(running := w.running + {p}, late := w.late || w.terminated,
                          ok := w.ok && w.stopping == {} && p !in w.running)
    case Seeked(p) => w.(late := w.late || w.terminated, ok := w.ok && w.stopping == {} && p in w.running)
    case StopSent(p) => w.(stopping := w.stopping + {p}, late := w.late || w.terminated,
                           ok := w.ok && p in w.running && p !in w.stopping)
    case Stopped(p) => w.(running := w.running - {p}, stopping := w.stopping - {p}, ok := w.ok && p in w.stopping)
    case CommitSent => w.(commits := w.commits + 1)
    case CommitDone => w.(commits := w.commits - 1, ok := w.ok && w.commits > 0)
    case Joined(p) => w.(joined := w.joined + {p}, ok := w.ok && p !in w.joined)
    case Left(p) => w.(joined := w.joined - {p}, ok := w.ok && p in w.joined)
    case Accepted => w.(accepted := w.accepted + 1, ok := w.ok && w.accepted == 0)
    case Refused => w.(ok := w.ok && w.accepted > w.answered)
    case Terminated => w.(terminated := true,
                          ok := w.ok && !w.terminated && w.accepted == 1 && w.stopping == {} && w.commits == 0
                                && w.joined == {})
    case Answered => w.(answered := w.answered + 1, ok := w.ok && w.terminated && w.answered == 0)
    case Halted(_) => w
    case OffsetsAsked(_) => w
    case Delegated(_) => w
    case LeaveSent => w
  }

  const QUIET := World({}, {}, 0, {}, 0, 0, false, false, true)

  function Replay(log: seq<Event>): World {
    if log == [] then QUIET else Step(Replay(log[..|log| - 1]), log[|log| - 1])
  }

  lemma ReplayPush(log: seq<Event>, e: Event)
    ensures Replay(log + [e]) == Step(Replay(log), e)
  {
    assert (log + [e])[..|log|] == log;
  }

  lemma StepOk(w: World, e: Event)
    ensures Step(w, e).ok ==> w.ok
  {
  }

  /** A rule broken once stays broken. */
  lemma {:induction false} PrefixOk(log: seq<Event>, i: nat)
    requires i <= |log| && Replay(log).ok
    ensures Replay(log[..i]).ok
  {
    hide Step;
    if i < |log| {
      StepOk(Replay(log[..|log| - 1]), log[|log| - 1]);
      assert log[..|log| - 1][..i] == log[..i];
      PrefixOk(log[..|log| - 1], i);
    } else {
      assert log[..i] == log;
    }
  }

  lemma {:induction false} Unanswered(log: seq<Event>, p: Partition, j: nat)
    requires j < |log| && log[j] == StopSent(p) && forall k :: j < k < |log| ==> log[k] != Stopped(p)
    ensures p in Replay(log).stopping
  {
    var rest := log[..|log| - 1];
    if j < |log| - 1 {
      assert forall k :: 0 <= k < |rest| ==> rest[k] == log[k];
      Unanswered(rest, p, j);
    }
  }

  ghost predicate SinceAt(log: seq<Event>, i: int, on: Event, off: Event) {
    0 <= i < |log| && log[i] == on && off !in log[i + 1..]
  }

  /** `on` has happened, and `off` has not happened since. */
  ghost predicate Since(log: seq<Event>, on: Event, off: Event) {
    exists i :: SinceAt(log, i, on, off)
  }

  lemma SinceAtPush(log: seq<Event>, e: Event, i: int, on: Event, off: Event)
    ensures SinceAt(log + [e], i, on, off) <==> (i == |log| && e == on) || (SinceAt(log, i, on, off) && e != off)
  {
    if 0 <= i < |log| {
      assert (log + [e])[i + 1..] == log[i + 1..] + [e];
    }
  }

  lemma SincePush(log: seq<Event>, e: Event, on: Event, off: Event)
    ensures Since(log + [e], on, off) <==> e == on || (Since(log, on, off) && e != off)
  {
    hide SinceAt;
    SinceAtPush(log, e, |log|, on, off);
    if i :| SinceAt(log, i, on, off) {
      SinceAtPush(log, e, i, on, off);
    }
    if i :| SinceAt(log + [e], i, on, off) {
      SinceAtPush(log, e, i, on, off);
    }
  }

  lemma StepSets(w: World, e: Event, p: Partition)
    ensures p in Step(w, e).running <==> e == Started(p) || (p in w.running && e != Stopped(p))
    ensures p in Step(w, e).stopping <==> e == StopSent(p) || (p in w.stopping && e != Stopped(p))
    ensures p in Step(w, e).joined <==> e == Joined(p) || (p in w.joined && e != Left(p))
  {
  }

  /** A fetcher runs from its start to its answered stop, a stop is outstanding until it is answered. */
  lemma {:induction false} ReplaySets(log: seq<Event>, p: Partition)
    ensures p in Replay(log).running <==> Since(log, Started(p), Stopped(p))
    ensures p in Replay(log).stopping <==> Since(log, StopSent(p), Stopped(p))
    ensures p in Replay(log).joined <==> Since(log, Joined(p), Left(p))
  {
    hide Step;
    if log != [] {
      var n := |log| - 1;
      ReplaySets(log[..n], p);
      StepSets(Replay(log[..n]), log[n], p);
      assert log == log[..n] + [log[n]];
      hide Since;
      SincePush(log[..n], log[n], Started(p), Stopped(p));
      SincePush(log[..n], log[n], StopSent(p), Stopped(p));
      SincePush(log[..n], log[n], Joined(p), Left(p));
    }
  }

  lemma StartNeedsQuiet(w: World, e: Event)
    requires Step(w, e).ok && (e.Started? || e.Seeked?)
    ensures w.stopping == {}
  {
  }

  /** Drain before start: when a fetcher is started or moved, every stop sent before has been answered. */
  lemma DrainBeforeStart(log: seq<Event>, j: nat, i: nat, p: Partition)
    requires Replay(log).ok
    requires j < i < |log| && log[j] == StopSent(p) && (log[i].Started? || log[i].Seeked?)
    ensures exists k :: j < k < i && log[k] == Stopped(p)
  {
    hide Step;
    var now, before := log[..i + 1], log[..i];
    PrefixOk(log, i + 1);
    assert now[..i] == before;
    StartNeedsQuiet(Replay(before), log[i]);
    if forall k :: j < k < i ==> log[k] != Stopped(p) {
      Unanswered(before, p, j);
      assert false;
    }
  }

  function Count(log: seq<Event>, e: Event): nat {
    if log == [] then 0 else Count(log[..|log| - 1], e) + (if log[|log| - 1] == e then 1 else 0)
  }

  /** 1 for the event counted, 0 for any other. */
  function Tick(e: Event, counted: Event): nat { if e == counted then 1 else 0 }

  lemma StepTallies(w: World, e: Event)
    ensures Step(w, e).commits == w.commits + Tick(e, CommitSent) - Tick(e, CommitDone)
    ensures Step(w, e).accepted == w.accepted + Tick(e, Accepted) && Step(w, e).answered == w.answered + Tick(e, Answered)
    ensures Step(w, e).terminated <==> w.terminated || e == Terminated
    ensures Step(w, e).ok && e == Terminated ==>
      w.ok && !w.terminated && w.accepted == 1 && w.commits == 0 && w.stopping == {} && w.joined == {}
    ensures Step(w, e).ok && e == Answered ==> w.terminated && w.answered == 0
    ensures Step(w, e).ok && e == Accepted ==> w.accepted == 0
    ensures Step(w, e).ok ==> w.ok
  {
  }

  /** The counters of the world are the counts of the log; at most one termination, one answer, one acceptance. */
  lemma {:induction false} ReplayCounts(log: seq<Event>)
    ensures Replay(log).commits == Count(log, CommitSent) - Count(log, CommitDone)
    ensures Replay(log).accepted == Count(log, Accepted) && Replay(log).answered == Count(log, Answered)
    ensures Replay(log).terminated <==> Count(log, Terminated) > 0
    ensures Replay(log).ok ==> Count(log, Answered) <= Count(log, Terminated) <= Count(log, Accepted) <= 1
  {
    hide Step;
    if log != [] {
      ReplayCounts(log[..|log| - 1]);
      StepTallies(Replay(log[..|log| - 1]), log[|log| - 1]);
    }
  }

  /** Single termination: when TERM is entered, for the only time, nothing sent is outstanding. */
  lemma TerminatesDrained(log: seq<Event>, i: nat, p: Partition)
    requires Replay(log).ok && i < |log| && log[i] == Terminated
    ensures Count(log[..i], CommitSent) == Count(log[..i], CommitDone)
    ensures Count(log[..i], Accepted) == 1 && Count(log[..i], Terminated) == 0
    ensures forall j :: 0 <= j < i && log[j] == StopSent(p) ==> exists k :: j < k < i && log[k] == Stopped(p)
  {
    hide Step, Count;
    var now, before := log[..i + 1], log[..i];
    PrefixOk(log, i + 1);
    assert now[..i] == before && now[i] == Terminated;
    StepTallies(Replay(before), Terminated);
    ReplayCounts(before);
    forall j | 0 <= j < i && log[j] == StopSent(p)
      ensures exists k :: j < k < i && log[k] == Stopped(p)
    {
      if forall k :: j < k < i ==> log[k] != Stopped(p) {
        Unanswered(before, p, j);
        assert false;
      }
    }
  }
}
