/**
 The consumer group: assigning, revoking, committing and terminating (rdkafka_cgrp.c).
 Every handler runs on one thread, so each is one step.
 */
module Cgrp {
  import opened CgrpLog
  import opened Splice

  datatype State = Init | Term | QueryCoord | WaitCoord | WaitBroker | WaitBrokerTransport | Up
  datatype JoinState = JoinInit | WaitJoin | WaitMetadata | WaitSync | WaitUnassign | WaitRebalanceCb | Assigned
  datatype Coordinator = NoBroker | InternalBroker | RealBroker
  datatype CommitError = NoError | InProgress | Destroy | Failed
  datatype Assignment = None | Some(parts: seq<Partition>)

  ghost function Elems(ps: seq<Partition>): set<Partition> {
    set p | p in ps
  }

  ghost function Parts(a: Assignment): set<Partition> {
    if a.None? then {} else Elems(a.parts)
  }

  lemma ElemsPush(ps: seq<Partition>, i: nat)
    requires i < |ps|
    ensures Elems(ps[..i + 1]) == Elems(ps[..i]) + {ps[i]}
  {
    assert ps[..i + 1] == ps[..i] + [ps[i]];
  }

  lemma {:induction false} ElemsSize(ps: seq<Partition>)
    ensures |Elems(ps)| <= |ps|
  {
    if ps == [] {
    } else {
      var n := |ps| - 1;
      ElemsSize(ps[..n]);
      ElemsPush(ps, n);
      assert ps[..n + 1] == ps;
    }
  }

  lemma Within(a: set<Partition>, ps: seq<Partition>)
    requires a <= Elems(ps)
    ensures |a| <= |ps|
  {
    ElemsSize(ps);
    Smaller(a, Elems(ps));
  }

  lemma Smaller(a: set<Partition>, b: set<Partition>)
    requires a <= b
    ensures |a| <= |b|
    ensures a == {} <==> |a| == 0
  {
    assert b == a + (b - a);
  }

  /** What starting the fetchers of `ps` says: one event each, a start for those not running. */
  ghost function StartEvents(running: set<Partition>, ps: seq<Partition>): seq<Event> {
    if ps == [] then []
    else
      var n := |ps| - 1;
      StartEvents(running, ps[..n])
      + [if ps[n] in running + Elems(ps[..n]) then Seeked(ps[n]) else Started(ps[n])]
  }

  lemma StartNothing(running: set<Partition>, ps: seq<Partition>)
    ensures StartEvents(running, ps[..0]) == [] && Elems(ps[..0]) == {}
  {
  }

  lemma StartEventsPush(running: set<Partition>, ps: seq<Partition>, i: nat)
    requires i < |ps|
    ensures StartEvents(running, ps[..i + 1]) == StartEvents(running, ps[..i])
      + [if ps[i] in running + Elems(ps[..i]) then Seeked(ps[i]) else Started(ps[i])]
  {
    assert ps[..i + 1][..i] == ps[..i];
  }

  lemma {:induction false} StartEventsCount(running: set<Partition>, ps: seq<Partition>)
    ensures |StartEvents(running, ps)| == |ps|
  {
    if ps != [] {
      StartEventsCount(running, ps[..|ps| - 1]);
    }
  }

  /** The j-th event is about the j-th partition: a start when it neither ran before nor is listed earlier. */
  lemma {:induction false} StartEventsAt(running: set<Partition>, ps: seq<Partition>, j: nat)
    requires j < |ps|
    ensures |StartEvents(running, ps)| == |ps|
    ensures StartEvents(running, ps)[j] == if ps[j] in running || ps[j] in ps[..j] then Seeked(ps[j]) else Started(ps[j])
  {
    var n := |ps| - 1;
    StartEventsCount(running, ps);
    StartEventsCount(running, ps[..n]);
    if j < n {
      StartEventsAt(running, ps[..n], j);
      assert ps[..n][..j] == ps[..j];
    }
  }

  ghost function Among(flagged: set<Partition>, ps: seq<Partition>): set<Partition> {
    flagged * Elems(ps)
  }

  ghost predicate Meet(a: set<Partition>, b: set<Partition>) {
    exists p :: p in a && p in b
  }

  lemma AmongNothing(flagged: set<Partition>, was: set<Partition>, ps: seq<Partition>)
    ensures Among(flagged, ps[..0]) == {} && !Meet(was, {})
  {
  }

  lemma AmongPush(flagged: set<Partition>, ps: seq<Partition>, i: nat)
    requires i < |ps|
    ensures Among(flagged, ps[..i + 1]) == Among(flagged, ps[..i]) + if ps[i] in flagged then {ps[i]} else {}
  {
    hide Elems;
    ElemsPush(ps, i);
  }

  /** How many entries of the list are flagged. */
  ghost function Hits(flagged: set<Partition>, ps: seq<Partition>): nat {
    if ps == [] then 0 else Hits(flagged, ps[..|ps| - 1]) + if ps[|ps| - 1] in flagged then 1 else 0
  }

  ghost function HitsOf(flagged: set<Partition>, a: Assignment): nat {
    if a.None? then 0 else Hits(flagged, a.parts)
  }

  /** No flagged partition is listed twice. */
  ghost predicate OnceEach(flagged: set<Partition>, ps: seq<Partition>) {
    forall i, j :: 0 <= i < j < |ps| && ps[i] == ps[j] ==> ps[i] !in flagged
  }

  /** What telling the flagged entries to stop says. */
  ghost function StopEvents(flagged: set<Partition>, ps: seq<Partition>): seq<Event> {
    if ps == [] then []
    else StopEvents(flagged, ps[..|ps| - 1]) + if ps[|ps| - 1] in flagged then [StopSent(ps[|ps| - 1])] else []
  }

  /** One stop for each flagged entry, in the order of the list. */
  lemma {:induction false} StopEventsSplit(flagged: set<Partition>, ps: seq<Partition>, qs: seq<Partition>)
    ensures StopEvents(flagged, ps + qs) == StopEvents(flagged, ps) + StopEvents(flagged, qs)
    ensures forall p :: StopEvents(flagged, [p]) == if p in flagged then [StopSent(p)] else []
  {
    assert forall p :: StopEvents(flagged, [p][..0]) == [];
    assert forall p: Partition :: [p][..|[p]| - 1] == [p][..0];
    if qs == [] {
      assert ps + qs == ps;
    } else {
      var n := |qs| - 1;
      StopEventsSplit(flagged, ps, qs[..n]);
      assert (ps + qs)[..|ps + qs| - 1] == ps + qs[..n];
    }
  }

  lemma StopEventsPush(flagged: set<Partition>, ps: seq<Partition>, i: nat)
    requires i < |ps|
    ensures StopEvents(flagged, ps[..i + 1]) ==
      StopEvents(flagged, ps[..i]) + if ps[i] in flagged then [StopSent(ps[i])] else []
  {
    assert ps[..i + 1][..i] == ps[..i];
  }

  lemma StopNothing(flagged: set<Partition>, ps: seq<Partition>)
    ensures StopEvents(flagged, ps[..0]) == []
  {
  }

  lemma HitsNothing(flagged: set<Partition>, ps: seq<Partition>)
    ensures Hits(flagged, ps[..0]) == 0 && OnceEach(flagged, ps[..0])
  {
  }

  lemma HitsPush(flagged: set<Partition>, ps: seq<Partition>, i: nat)
    requires i < |ps|
    ensures Hits(flagged, ps[..i + 1]) == Hits(flagged, ps[..i]) + if ps[i] in flagged then 1 else 0
    ensures OnceEach(flagged, ps[..i + 1]) <==>
      OnceEach(flagged, ps[..i]) && !(ps[i] in flagged && ps[i] in Among(flagged, ps[..i]))
  {
    assert ps[..i + 1][..i] == ps[..i];
    OncePush(flagged, ps[..i], ps[i]);
    assert ps[..i + 1] == ps[..i] + [ps[i]];
  }

  lemma OncePush(flagged: set<Partition>, ps: seq<Partition>, p: Partition)
    ensures OnceEach(flagged, ps) && !(p in flagged && p in Among(flagged, ps)) ==> OnceEach(flagged, ps + [p])
    ensures !OnceEach(flagged, ps) ==> !OnceEach(flagged, ps + [p])
    ensures p in flagged && p in Among(flagged, ps) ==> !OnceEach(flagged, ps + [p])
  {
    var now := ps + [p];
    if j, k :| 0 <= j < k < |ps| && ps[j] == ps[k] && ps[j] in flagged {
      assert now[j] == now[k] && now[j] in flagged;
    }
    if p in flagged && p in Among(flagged, ps) {
      var j :| 0 <= j < |ps| && ps[j] == p;
      assert now[j] == now[|ps|] && now[j] in flagged;
    }
  }

  lemma OnceDistinct(ps: seq<Partition>)
    ensures OnceEach(Elems(ps), ps) <==> Distinct(ps)
    ensures OnceEach({}, ps)
  {
    assert forall i :: 0 <= i < |ps| ==> ps[i] in Elems(ps);
  }

  lemma OnceApart(flagged: set<Partition>, ps: seq<Partition>)
    requires flagged * Elems(ps) == {}
    ensures OnceEach(flagged, ps)
  {
    assert forall i :: 0 <= i < |ps| && ps[i] in flagged ==> ps[i] in flagged * Elems(ps);
  }

  lemma {:induction false} HitsAre(flagged: set<Partition>, ps: seq<Partition>)
    ensures |Among(flagged, ps)| <= Hits(flagged, ps)
    ensures OnceEach(flagged, ps) ==> Hits(flagged, ps) == |Among(flagged, ps)|
    ensures Hits(flagged, ps) == 0 ==> Among(flagged, ps) == {} && OnceEach(flagged, ps)
  {
    hide Among, OnceEach, Hits;
    var n := |ps|;
    assert ps[..n] == ps;
    HitsNothing(flagged, ps);
    AmongNothing(flagged, {}, ps);
    if n > 0 {
      HitsAre(flagged, ps[..n - 1]);
      HitsPush(flagged, ps, n - 1);
      AmongPush(flagged, ps, n - 1);
      OneMoreOrNot(Among(flagged, ps[..n - 1]), if ps[n - 1] in flagged then {ps[n - 1]} else {}, ps[n - 1]);
    }
  }

  lemma OneMoreOrNot(a: set<Partition>, one: set<Partition>, p: Partition)
    requires one <= {p}
    ensures |a + one| <= |a| + |one| <= |a| + 1 && (p in one && p !in a ==> |a + one| == |a| + 1)
    ensures p !in one ==> a + one == a && |one| == 0
  {
    if p in one {
      assert one == {p};
      assert p in a ==> a + one == a;
    } else {
      assert one == {};
      assert a + one == a;
    }
  }

  lemma MeetPush(was: set<Partition>, before: set<Partition>, one: set<Partition>, p: Partition)
    requires one <= {p}
    ensures (was + before) + one == was + (before + one)
    ensures Meet(was, before + one) <==> Meet(was, before) || (p in one && p in was)
  {
  }

  lemma All(ps: seq<Partition>)
    ensures ps[..|ps|] == ps
  {
  }

  /** What a revocation depends on. */
  datatype Snapshot = Snapshot(state: State, coordinator: Coordinator, join: JoinState, assignment: Assignment,
                               flagged: set<Partition>, waitUnassignCnt: int, waitCommitCnt: int)

  class Group {
    const brokerStore: bool       // offset.store.method is broker
    const autoCommit: bool        // enable.auto.commit
    const rebalanceCb: bool       // the application handles rebalances
    var state: State
    var join: JoinState
    var terminate: bool           // RD_KAFKA_CGRP_F_TERMINATE
    var waitUnassign: bool        // RD_KAFKA_CGRP_F_WAIT_UNASSIGN
    var leaveOnUnassign: bool     // RD_KAFKA_CGRP_F_LEAVE_ON_UNASSIGN
    var subscribed: bool          // RD_KAFKA_CGRP_F_SUBSCRIPTION
    var assignment: Assignment
    var flagged: set<Partition>   // those with rktp_assigned set
    var assignedCnt: int
    var waitUnassignCnt: int
    var waitCommitCnt: int
    var toppars: set<Partition>
    var replyPending: bool        // rkcg_reply_rko is set
    var coordinator: Coordinator  // rkcg_rkb
    var log: seq<Event>
    ghost var stopping: set<Partition>

    ghost predicate Late() reads `log { Replay(log).late }

    /** The fields say what the log says; `extra` commits have been counted but not yet sent or are being answered. */
    ghost predicate Books(extra: int)
      reads `state, `terminate, `flagged, `assignedCnt, `waitCommitCnt, `toppars, `replyPending, `log, `stopping
    {
      var w := Replay(log);
      && flagged == w.running && assignedCnt == |flagged|
      && stopping == w.stopping && stopping <= flagged
      && waitCommitCnt == w.commits + extra && w.commits >= 0
      && toppars == w.joined
      && w.accepted == (if terminate then 1 else 0)
      && w.answered == (if state == Term then 1 else 0)
      && (w.terminated <==> state == Term)
      && (replyPending <==> terminate && state != Term)
      && (state == Term ==> terminate)
      && (w.late ==> w.terminated)
    }

    /** Every rule of the log was kept and the stop counter is the number of outstanding stops. */
    ghost predicate Counted()
      reads `waitUnassignCnt, `log, `stopping
    {
      Replay(log).ok && waitUnassignCnt == |stopping|
    }

    /** Flagged partitions are the stopping ones plus a part of the assignment; in state assigned none is stopping. */
    ghost predicate Placed()
      reads `flagged, `stopping, `assignment, `join
    {
      && flagged - stopping <= Parts(assignment)
      && (join == Assigned ==> stopping == {} && assignment.Some?)
    }

    ghost predicate Valid()
      reads `state, `terminate, `flagged, `assignedCnt, `waitCommitCnt, `toppars, `replyPending, `log, `stopping
      reads `waitUnassignCnt, `assignment, `join
    {
      Books(0) && Counted() && Placed()
    }

    lemma FlaggedCount(extra: int)
      requires Books(extra)
      ensures assignedCnt == |flagged|
    {
      hide Replay;
    }

    constructor (brokerStore: bool, autoCommit: bool, rebalanceCb: bool)
      ensures Valid() && state == Init && join == JoinInit && assignment == None && log == [] && !terminate
      ensures this.brokerStore == brokerStore && this.autoCommit == autoCommit && this.rebalanceCb == rebalanceCb
      ensures flagged == toppars == {} && !subscribed && !waitUnassign && !leaveOnUnassign && coordinator == NoBroker
      ensures waitUnassignCnt == waitCommitCnt == 0 && !replyPending
    {
      this.brokerStore, this.autoCommit, this.rebalanceCb := brokerStore, autoCommit, rebalanceCb;
      state, join, assignment, coordinator := Init, JoinInit, None, NoBroker;
      terminate, waitUnassign, leaveOnUnassign, subscribed, replyPending := false, false, false, false, false;
      flagged, stopping, toppars, log := {}, {}, {}, [];
      assignedCnt, waitUnassignCnt, waitCommitCnt := 0, 0, 0;
    }

    method Emit(e: Event)
      modifies `log
      ensures log == old(log) + [e] && Replay(log) == Step(old(Replay(log)), e)
    {
      ReplayPush(log, e);
      log := log + [e];
    }

    /** rd_kafka_cgrp_try_terminate fires exactly then. */
    ghost predicate Drained()
      reads `terminate, `toppars, `waitUnassignCnt, `waitCommitCnt, `waitUnassign
    {
      DrainedBut(0)
    }

    ghost predicate DrainedBut(commits: int)
      reads `terminate, `toppars, `waitUnassignCnt, `waitCommitCnt, `waitUnassign
    {
      terminate && toppars == {} && waitUnassignCnt == 0 && waitCommitCnt == commits && !waitUnassign
    }

    /** rd_kafka_cgrp_terminated; it can run again in state TERM, with nothing left to do. */
    method EnterTerm()
      requires Books(0) && Counted() && Drained()
      modifies `state, `log, `coordinator, `replyPending
      ensures Books(0) && Counted() && state == Term && !replyPending && coordinator == NoBroker
      ensures log == old(log) + (if old(state) == Term then [] else [Terminated, Answered])
      ensures Late() == old(Late())
    {
      hide Replay;
      assert waitUnassignCnt == 0 && waitCommitCnt == 0 && !waitUnassign;
      Smaller(stopping, stopping);
      if state != Term {
        state := Term;
        Emit(Terminated);
      }
      coordinator := NoBroker;
      if replyPending {
        replyPending := false;
        Emit(Answered);
      }
    }

    method TryTerminate() returns (done: bool)
      requires Books(0) && Counted()
      modifies `state, `log, `coordinator, `replyPending
      ensures Books(0) && Counted() && done == old(Drained())
      ensures done ==> state == Term && !replyPending && coordinator == NoBroker
      ensures done ==> log == old(log) + (if old(state) == Term then [] else [Terminated, Answered])
      ensures !done ==> unchanged(`state, `log, `coordinator, `replyPending)
      ensures Late() == old(Late())
    {
      hide Replay, Books, Counted;
      done := terminate && toppars == {} && waitUnassignCnt == 0 && waitCommitCnt == 0 && !waitUnassign;
      if done {
        EnterTerm();
      }
    }

    method AskOffsets(ps: seq<Partition>)
      requires Books(0) && Counted()
      modifies `log
      ensures Books(0) && Counted() && Late() == old(Late())
      ensures log == old(log) + if state == Up && coordinator != NoBroker then [OffsetsAsked(ps)] else []
    {
      hide Replay;
      if state == Up && coordinator != NoBroker {
        Emit(OffsetsAsked(ps));
      }
    }

    /** The body of the loop at lines 701-735. */
    method StartOrSeek(p: Partition)
      requires Books(0) && Counted() && stopping == {}
      modifies `log, `flagged, `assignedCnt
      ensures Books(0) && Counted() && flagged == old(flagged) + {p} && assignedCnt == |flagged|
      ensures log == old(log) + [if p in old(flagged) then Seeked(p) else CgrpLog.Started(p)]
      ensures Late() <==> old(Late()) || state == Term
    {
      hide Replay;
      if p !in flagged {
        flagged := flagged + {p};
        assignedCnt := assignedCnt + 1;
        Emit(CgrpLog.Started(p));
      } else {
        Emit(Seeked(p));
      }
    }

    ghost predicate StartedUpTo(i: nat, ps: seq<Partition>, was: set<Partition>, before: seq<Event>)
      requires i <= |ps|
      reads `flagged, `log
    {
      flagged == was + Elems(ps[..i]) && log == before + StartEvents(was, ps[..i])
    }

    lemma StartedNone(ps: seq<Partition>)
      ensures StartedUpTo(0, ps, flagged, log)
    {
      StartNothing(flagged, ps);
    }

    lemma StartedAll(ps: seq<Partition>, was: set<Partition>, before: seq<Event>)
      requires StartedUpTo(|ps|, ps, was, before)
      ensures flagged == was + Elems(ps) && log == before + StartEvents(was, ps)
    {
      hide Elems, StartEvents;
      All(ps);
    }

    method StartNext(ps: seq<Partition>, i: nat, ghost was: set<Partition>, ghost before: seq<Event>)
      requires Books(0) && Counted() && stopping == {}
      requires i < |ps| && StartedUpTo(i, ps, was, before)
      modifies `log, `flagged, `assignedCnt
      ensures Books(0) && Counted() && StartedUpTo(i + 1, ps, was, before)
      ensures Late() <==> old(Late()) || state == Term
    {
      hide Books, Counted, Elems, StartEvents, Replay;
      ElemsPush(ps, i);
      StartEventsPush(was, ps, i);
      StartOrSeek(ps[i]);
    }

    /**
     rd_kafka_cgrp_partitions_fetch_start. `within` is the assertion at its end (line 738).
     With the broker's offset store and no usable offsets the offsets are asked for first, and
     the answer comes to OffsetFetchReply.
     */
    method FetchStart(ps: seq<Partition>, usableOffsets: bool) returns (within: bool)
      requires Books(0) && Counted() && stopping == {}
      modifies `log, `flagged, `assignedCnt
      ensures Books(0) && Counted()
      ensures var direct := usableOffsets || !brokerStore;
        && flagged == (if direct then old(flagged) + Elems(ps) else old(flagged))
        && log == old(log) + (if direct then StartEvents(old(flagged), ps)
                              else if ps != [] && state == Up && coordinator != NoBroker then [OffsetsAsked(ps)] else [])
      ensures within <==> ps == [] || |flagged| <= if assignment.Some? then |assignment.parts| else 0
      ensures Late() <==> old(Late()) || (state == Term && ps != [] && (usableOffsets || !brokerStore))
    {
      hide *;
      FlaggedCount(0);
      if ps == [] {
        StartNothing(flagged, ps);
        assert ps[..0] == ps;
        return true;
      }
      if !usableOffsets && brokerStore {
        AskOffsets(ps);
      } else {
        StartedNone(ps);
        var i := 0;
        while i < |ps|
          invariant 0 <= i <= |ps|
          invariant Books(0) && Counted() && StartedUpTo(i, ps, old(flagged), old(log))
          invariant Late() <==> old(Late()) || (state == Term && i > 0)
        {
          StartNext(ps, i, old(flagged), old(log));
          i := i + 1;
        }
        StartedAll(ps, old(flagged), old(log));
        FlaggedCount(0);
      }
      within := assignedCnt <= if assignment.Some? then |assignment.parts| else 0;
    }

    /** rd_kafka_cgrp_check_unassign_done goes on exactly then. */
    ghost predicate Settled()
      reads `waitUnassignCnt, `assignedCnt, `waitCommitCnt, `waitUnassign
    {
      SettledBut(0)
    }

    ghost predicate SettledBut(commits: int)
      reads `waitUnassignCnt, `assignedCnt, `waitCommitCnt, `waitUnassign
    {
      waitUnassignCnt <= 0 && assignedCnt <= 0 && waitCommitCnt <= commits && !waitUnassign
    }

    lemma SettledButIs(commits: int)
      ensures SettledBut(commits) <==>
        waitUnassignCnt <= 0 && assignedCnt <= 0 && waitCommitCnt <= commits && !waitUnassign
    {
    }

    lemma SettledMeansStopped()
      requires Books(0) && Counted() && Settled()
      ensures flagged == {} && stopping == {} && waitUnassignCnt == 0 && waitCommitCnt == 0
    {
      hide Replay;
      Smaller(flagged, flagged);
      Smaller(stopping, stopping);
    }

    lemma NoParts()
      ensures assignment.Some? ==> Parts(assignment) == Elems(assignment.parts) == {} + Elems(assignment.parts)
      ensures assignment.None? ==> Parts(assignment) == {}
    {
    }

    lemma NewlyPlaced()
      requires assignment.Some? ==> flagged <= Elems(assignment.parts)
      requires assignment.None? ==> flagged == {}
      requires join == (if assignment.Some? then Assigned else JoinInit) && stopping == {}
      ensures Placed()
      ensures assignment.Some? ==> |flagged| <= |assignment.parts|
    {
      if assignment.Some? {
        Within(flagged, assignment.parts);
      }
    }

    method Leave()
      requires Books(0) && Counted()
      modifies `log, `leaveOnUnassign
      ensures Books(0) && Counted() && !leaveOnUnassign && Late() == old(Late())
      ensures log == old(log) + if old(leaveOnUnassign) && state == Up then [LeaveSent] else []
    {
      hide Replay;
      if leaveOnUnassign {
        if state == Up {
          Emit(LeaveSent);
        }
        leaveOnUnassign := false;
      }
    }

    /** Taking up an assignment starts a fetcher, if none is running. */
    predicate Starts(a: Assignment) {
      a.Some? && a.parts != [] && !brokerStore
    }

    /** What taking it up then says. */
    ghost function Beginning(a: Assignment): seq<Event>
      reads `state, `coordinator
    {
      if a.None? then []
      else if !brokerStore then StartEvents({}, a.parts)
      else if a.parts != [] && state == Up && coordinator != NoBroker then [OffsetsAsked(a.parts)] else []
    }

    lemma BeginningIs(a: Assignment)
      ensures a.None? ==> Beginning(a) == [] && log + Beginning(a) == log
      ensures a.Some? ==> Beginning(a) == if !brokerStore then StartEvents({}, a.parts)
        else if a.parts != [] && state == Up && coordinator != NoBroker then [OffsetsAsked(a.parts)] else []
      ensures Starts(a) <==> a.Some? && a.parts != [] && !brokerStore
      ensures log + [] == log
    {
    }

    /** What a group that has nothing to wait for says; `ends` says that a termination is complete. */
    ghost function Onward(leaves: bool, ends: bool): seq<Event>
      reads `state, `coordinator, `assignment
    {
      (if leaves && state == Up then [LeaveSent] else [])
      + Beginning(assignment) + if ends && state != Term then [Terminated, Answered] else []
    }

    /** A LeaveGroup request, then the new assignment, and then the answer to the termination. */
    lemma OnwardIs(before: seq<Event>, leaves: bool, ends: bool)
      ensures before + Onward(leaves, ends) == before
        + (if leaves && state == Up then [LeaveSent] else [])
        + (if assignment.None? then []
           else if !brokerStore then StartEvents({}, assignment.parts)
           else if assignment.parts != [] && state == Up && coordinator != NoBroker then [OffsetsAsked(assignment.parts)]
           else [])
        + (if ends && state != Term then [Terminated, Answered] else [])
    {
      hide StartEvents;
    }

    /** rd_kafka_cgrp_unassign_done: on to the new assignment, or back to the start. */
    method UnassignDone()
      requires Books(0) && Counted() && Settled()
      requires assignment.Some? ==> state != Term
      modifies `state, `log, `coordinator, `replyPending, `flagged, `assignedCnt, `join, `leaveOnUnassign
      ensures Books(0) && Counted() && Placed() && Late() == old(Late())
      ensures join == (if assignment.Some? then Assigned else JoinInit) && !leaveOnUnassign
      ensures log == old(log)
        + (if old(leaveOnUnassign) && old(state) == Up then [LeaveSent] else [])
        + (if assignment.None? then []
           else if !brokerStore then StartEvents({}, assignment.parts)
           else if assignment.parts != [] && old(state) == Up && old(coordinator) != NoBroker
           then [OffsetsAsked(assignment.parts)] else [])
        + (if old(Drained()) && old(state) != Term then [Terminated, Answered] else [])
      ensures log == old(log) + old(Onward(leaveOnUnassign, Drained()))
      ensures flagged == if brokerStore then {} else Parts(assignment)
      ensures state == if old(Drained()) then Term else old(state)
      ensures state != Term ==> coordinator == old(coordinator)
    {
      hide *;
      OnwardIs(log, leaveOnUnassign, Drained());
      BeginningIs(assignment);
      SettledMeansStopped();
      Leave();
      MoveOn();
      var _ := TryTerminate();
    }

    method MoveOn()
      requires Books(0) && Counted() && flagged == stopping == {}
      requires assignment.Some? ==> state != Term
      modifies `log, `flagged, `assignedCnt, `join
      ensures Books(0) && Counted() && Placed() && Late() == old(Late())
      ensures join == (if assignment.Some? then Assigned else JoinInit)
      ensures log == old(log) + Beginning(assignment)
      ensures flagged == if brokerStore then {} else Parts(assignment)
    {
      hide *;
      BeginningIs(assignment);
      NoParts();
      if assignment.Some? {
        join := Assigned;
        var within := FetchStart(assignment.parts, false);
        NewlyPlaced();
        assert within;
      } else {
        join := JoinInit;
        NewlyPlaced();
      }
    }

    lemma NotSettled()
      ensures Settled() <==> !(waitUnassignCnt > 0 || assignedCnt > 0 || waitCommitCnt > 0 || waitUnassign)
    {
    }

    method CheckUnassignDone()
      requires Books(0) && Counted() && (Placed() || (Settled() && assignment.None?))
      requires state == Term ==> assignment.None?
      modifies `state, `log, `coordinator, `replyPending, `flagged, `assignedCnt, `join, `leaveOnUnassign
      ensures Books(0) && Counted() && Placed() && Late() == old(Late())
      ensures old(Settled()) ==>
        && join == (if assignment.Some? then Assigned else JoinInit) && !leaveOnUnassign
        && flagged == (if brokerStore then {} else Parts(assignment))
        && old(flagged) == {} && stopping == {}
        && log == old(log) + old(Onward(leaveOnUnassign, Drained()))
        && state == if old(Drained()) then Term else old(state)
      ensures assignment.None? ==> flagged == old(flagged) && (Settled() <==> old(Settled()))
      ensures state != Term ==> coordinator == old(coordinator)
      ensures !old(Settled()) ==>
        unchanged(`state, `log, `coordinator, `replyPending, `flagged, `assignedCnt, `join, `leaveOnUnassign)
    {
      hide Replay, Books, Counted, Drained, Placed, Settled, SettledBut, Onward;
      NotSettled();
      if waitUnassignCnt > 0 || assignedCnt > 0 || waitCommitCnt > 0 || waitUnassign {
        return;
      }
      SettledMeansStopped();
      NoParts();
      UnassignDone();
      if assignment.None? {
        FlaggedCount(0);
        Smaller(flagged, {});
        NotSettled();
      }
    }

    /** rd_kafka_cgrp_handle_OffsetCommit, after the offsets themselves. */
    method HandleOffsetCommit()
      requires Books(0) && Counted() && Placed()
      requires state == Term ==> assignment.None?
      modifies `state, `log, `coordinator, `replyPending, `flagged, `assignedCnt, `join, `leaveOnUnassign
      ensures Books(0) && Counted() && Placed() && Late() == old(Late())
      ensures state == if old(Drained()) then Term else old(state)
      ensures join == if !old(Drained()) && old(join) == WaitUnassign && old(Settled())
                      then (if assignment.Some? then Assigned else JoinInit) else old(join)
      ensures flagged == if !old(Drained()) && old(join) == WaitUnassign && old(Settled()) && !brokerStore
                         then Parts(assignment) else old(flagged)
      ensures state != Term ==> coordinator == old(coordinator)
      ensures leaveOnUnassign == (old(leaveOnUnassign)
                                  && !(!old(Drained()) && old(join) == WaitUnassign && old(Settled())))
      ensures log == old(log)
        + if old(Drained()) then if old(state) == Term then [] else [Terminated, Answered]
          else if old(join) == WaitUnassign && old(Settled()) then old(Onward(leaveOnUnassign, false)) else []
    {
      hide Replay, Books, Counted, Drained, Settled, Onward;
      var done := TryTerminate();
      if done {
        return;
      }
      if join == WaitUnassign {
        CheckUnassignDone();
      }
    }

    lemma OneLess(commits: int)
      requires Books(1) && waitCommitCnt == commits
      ensures Replay(log).commits == commits - 1 && commits > 0
    {
      hide Replay;
    }

    /**
     rd_kafka_cgrp_op_handle_OffsetCommit, after an answer or when nothing could be sent.
     A retried request stays outstanding.
     */
    method OpHandleOffsetCommit(err: CommitError)
      requires Books(if err == InProgress then 0 else 1) && Counted() && Placed()
      requires state == Term ==> assignment.None?
      modifies `waitCommitCnt
      modifies `state, `log, `coordinator, `replyPending, `flagged, `assignedCnt, `join, `leaveOnUnassign
      ensures Books(0) && Counted() && Placed() && Late() == old(Late())
      ensures waitCommitCnt == old(waitCommitCnt) - if err == InProgress then 0 else 1
      ensures err == InProgress ==> log == old(log)
      ensures state != Term ==> coordinator == old(coordinator)
      ensures var told := err == NoError || err == Failed;
        var settles := told && !old(DrainedBut(1)) && old(join) == WaitUnassign && old(SettledBut(1));
        && state == (if told && old(DrainedBut(1)) then Term else old(state))
        && join == (if settles then if assignment.Some? then Assigned else JoinInit else old(join))
        && flagged == (if settles && !brokerStore then Parts(assignment) else old(flagged))
        && leaveOnUnassign == (old(leaveOnUnassign) && !settles)
        && log == old(log) + if told && old(DrainedBut(1)) then if old(state) == Term then [] else [Terminated, Answered]
                             else if settles then old(Onward(leaveOnUnassign, false)) else []
    {
      hide Replay, Counted, Placed, Parts, Onward;
      if err == InProgress {
        return;
      }
      OneLess(waitCommitCnt);
      assert waitCommitCnt > 0;
      waitCommitCnt := waitCommitCnt - 1;
      if err == Destroy {
        return;
      }
      HandleOffsetCommit();
    }

    method EmitCommit()
      requires Books(1) && Counted()
      modifies `log
      ensures Books(0) && Counted() && Late() == old(Late()) && log == old(log) + [CommitSent]
    {
      hide Replay;
      Emit(CommitSent);
    }

    /** rd_kafka_cgrp_offsets_commit; `valid` says whether any offset of the list is worth committing. */
    method OffsetsCommit(payload: bool, silentEmpty: bool, valid: bool)
      requires Books(0) && Counted() && Placed()
      requires state != Term
      modifies `waitCommitCnt
      modifies `state, `log, `coordinator, `replyPending, `flagged, `assignedCnt, `join, `leaveOnUnassign
      ensures Books(0) && Counted() && Placed() && Late() == old(Late())
      ensures state != Term ==> coordinator == old(coordinator)
      ensures var offsets := payload || assignment.Some?;
        var reachable := old(state) == Up && old(coordinator) == RealBroker;
        var sent := reachable && offsets && valid;
        var told := !sent && !(silentEmpty && (reachable || !offsets));
        var settles := told && !old(Drained()) && old(join) == WaitUnassign && old(Settled());
        && waitCommitCnt == old(waitCommitCnt) + (if sent then 1 else 0)
        && state == (if told && old(Drained()) then Term else old(state))
        && join == (if settles then if assignment.Some? then Assigned else JoinInit else old(join))
        && flagged == (if settles && !brokerStore then Parts(assignment) else old(flagged))
        && leaveOnUnassign == (old(leaveOnUnassign) && !settles)
        && log == old(log) + if sent then [CommitSent] else if told && old(Drained()) then [Terminated, Answered]
                             else if settles then old(Onward(leaveOnUnassign, false)) else []
    {
      hide Replay, Counted, Placed, Parts, Onward;
      var offsets := payload || assignment.Some?;
      if !offsets && silentEmpty {
        return;
      }
      waitCommitCnt := waitCommitCnt + 1;
      if state != Up || coordinator != RealBroker {
        OpHandleOffsetCommit(Failed);
      } else if !offsets || !valid {
        if silentEmpty {
          waitCommitCnt := waitCommitCnt - 1;
          return;
        }
        OpHandleOffsetCommit(Failed);
      } else {
        EmitCommit();
      }
    }

    ghost function Now(): Snapshot
      reads `state, `coordinator, `join, `assignment, `flagged, `waitUnassignCnt, `waitCommitCnt
    {
      Snapshot(state, coordinator, join, assignment, flagged, waitUnassignCnt, waitCommitCnt)
    }

    /** The commit that precedes a revocation cannot be sent. */
    ghost predicate CommitFails(was: Snapshot) {
      && brokerStore && autoCommit && was.assignment.Some? && !(was.state == Up && was.coordinator == RealBroker)
    }

    /** What a revocation does to the counters. */
    ghost predicate Counts(was: Snapshot, valid: bool)
      reads `waitUnassignCnt, `waitCommitCnt, `waitUnassign
    {
      && !waitUnassign && waitUnassignCnt == was.waitUnassignCnt + HitsOf(was.flagged, was.assignment)
      && waitCommitCnt == was.waitCommitCnt
           + (if brokerStore && autoCommit && was.assignment.Some? && !CommitFails(was) && valid then 1 else 0)
    }

    lemma CountsAre(was: Snapshot, valid: bool)
      requires Counts(was, valid)
      ensures !waitUnassign && waitUnassignCnt == was.waitUnassignCnt + HitsOf(was.flagged, was.assignment)
      ensures waitCommitCnt == was.waitCommitCnt
        + if (brokerStore && autoCommit && was.assignment.Some? && was.state == Up && was.coordinator == RealBroker
              && valid) then 1 else 0
    {
    }

    /** When the commit failed, a terminating group had nothing else to wait for. */
    ghost predicate FailedLast(was: Snapshot)
      reads `terminate, `toppars
    {
      terminate && toppars == {} && CommitFails(was) && was.waitUnassignCnt == 0 && was.waitCommitCnt == 0
    }

    /**
     And to the state: TERM is entered when nothing is left to wait for, and also when nothing
     was at the moment the commit failed.
     */
    ghost predicate Closed(was: Snapshot, valid: bool)
      reads `state, `coordinator, `terminate, `toppars, `waitUnassignCnt, `waitCommitCnt, `waitUnassign
    {
      && Counts(was, valid) && (state == Term <==> Drained() || FailedLast(was))
      && (state != Term ==> state == was.state && coordinator == was.coordinator)
    }

    /** Everything flagged is stopping, and the join state says what comes next. */
    ghost predicate GivenUp(was: Snapshot)
      reads `join, `assignment, `flagged, `assignedCnt, `stopping, `waitUnassignCnt, `waitCommitCnt, `waitUnassign
    {
      && assignment == None && flagged == was.flagged == stopping
      && join == if Settled() then JoinInit else if was.assignment.Some? then WaitUnassign else was.join
    }

    /** A revocation has been carried out. */
    ghost predicate Revoked(was: Snapshot, valid: bool)
      reads `state, `coordinator, `terminate, `toppars, `waitUnassignCnt, `waitCommitCnt, `waitUnassign
      reads `join, `assignment, `flagged, `assignedCnt, `stopping
    {
      Closed(was, valid) && GivenUp(was)
    }

    lemma RevokedIs(was: Snapshot, valid: bool)
      ensures Revoked(was, valid) <==> Closed(was, valid) && GivenUp(was)
      ensures Closed(was, valid) <==>
        && Counts(was, valid) && (state == Term <==> Drained() || FailedLast(was))
        && (state != Term ==> state == was.state && coordinator == was.coordinator)
    {
      hide Counts, GivenUp, Drained, FailedLast;
    }

    /**
     One assignment has replaced another: what was fetched is stopping, and the new partitions
     are started at once only when there was nothing to stop.
     */
    ghost predicate Replaced(was: Snapshot, a: Assignment, valid: bool)
      reads `state, `coordinator, `terminate, `toppars, `waitUnassignCnt, `waitCommitCnt, `waitUnassign
      reads `join, `assignment, `flagged, `stopping
    {
      && assignment == a && stopping == was.flagged
      && (a.Some? && was.flagged == {} ==> join == Assigned && flagged == if brokerStore then {} else Parts(a))
      && (a.None? || was.flagged != {} ==> flagged == was.flagged && join != Assigned)
      && (was.assignment.Some? ==> Closed(was, valid))
      && (was.assignment.None? && was.flagged != {} ==> join == was.join)
      && (was.assignment.None? ==>
            && state == was.state && coordinator == was.coordinator
            && waitUnassignCnt == was.waitUnassignCnt && waitCommitCnt == was.waitCommitCnt)
    }

    /** With nothing left to wait for, a terminating group is in TERM. */
    ghost predicate Concluded()
      reads `state, `terminate, `toppars, `waitUnassignCnt, `waitCommitCnt, `waitUnassign
    {
      Drained() ==> state == Term
    }

    /** No partition about to be revoked still has a stop outstanding, or is listed twice. */
    ghost predicate Revocable()
      reads `flagged, `stopping, `assignment
    {
      flagged * stopping * Parts(assignment) == {} && (assignment.Some? ==> OnceEach(flagged, assignment.parts))
    }

    /** Revoking now would first fail a commit, with every other reason not to terminate gone. */
    ghost predicate CommitFailsFirst()
      reads `state, `coordinator, `assignment, `toppars, `waitUnassignCnt, `waitCommitCnt, `flagged
    {
      && brokerStore && autoCommit && !(state == Up && coordinator == RealBroker)
      && toppars == {} && waitUnassignCnt == 0 && waitCommitCnt == 0
      && flagged * Parts(assignment) != {}
    }

    /** When terminating, that failure enters TERM before the fetchers are told to stop. */
    ghost predicate StopsTooLate()
      reads `state, `coordinator, `assignment, `terminate, `toppars, `waitUnassignCnt, `waitCommitCnt, `flagged
    {
      terminate && CommitFailsFirst()
    }

    method StopOne(p: Partition)
      requires Books(0)
      modifies `log, `waitUnassignCnt, `stopping
      ensures Books(0)
      ensures stopping == old(stopping) + (if p in flagged then {p} else {})
      ensures waitUnassignCnt == old(waitUnassignCnt) + if p in flagged then 1 else 0
      ensures Replay(log).ok <==> old(Replay(log).ok) && !(p in flagged && p in old(stopping))
      ensures Late() <==> old(Late()) || (state == Term && p in flagged)
      ensures log == old(log) + if p in flagged then [StopSent(p)] else []
    {
      hide Replay;
      if p in flagged {
        stopping := stopping + {p};
        Emit(StopSent(p));
        waitUnassignCnt := waitUnassignCnt + 1;
      }
    }

    ghost predicate StoppedUpTo(i: nat, ps: seq<Partition>, was: set<Partition>, count: int, late: bool,
                                before: seq<Event>)
      requires i <= |ps|
      reads `flagged, `stopping, `waitUnassignCnt, `log, `state
    {
      var stops := Among(flagged, ps[..i]);
      && stopping == was + stops && waitUnassignCnt == count + Hits(flagged, ps[..i])
      && (Replay(log).ok <==> !Meet(was, stops) && OnceEach(flagged, ps[..i]))
      && (Late() <==> late || (state == Term && stops != {}))
      && log == before + StopEvents(flagged, ps[..i])
    }

    lemma StoppedNone(ps: seq<Partition>)
      requires Replay(log).ok
      ensures StoppedUpTo(0, ps, stopping, waitUnassignCnt, Late(), log)
    {
      hide Replay, Hits, OnceEach;
      StopNothing(flagged, ps);
      AmongNothing(flagged, stopping, ps);
      HitsNothing(flagged, ps);
    }

    lemma StoppedThem(ps: seq<Partition>, was: set<Partition>, count: int, late: bool, before: seq<Event>)
      requires StoppedUpTo(|ps|, ps, was, count, late, before)
      ensures log == before + StopEvents(flagged, ps)
      ensures stopping == was + Among(flagged, ps) && waitUnassignCnt == count + Hits(flagged, ps)
      ensures Replay(log).ok <==> !Meet(was, Among(flagged, ps)) && OnceEach(flagged, ps)
      ensures Late() <==> late || (state == Term && Among(flagged, ps) != {})
    {
      hide Replay, Among, Meet, Hits, OnceEach, StopEvents;
      All(ps);
    }

    method StopNext(ps: seq<Partition>, i: nat, ghost was: set<Partition>, ghost count: int, ghost late: bool,
                    ghost before: seq<Event>)
      requires Books(0) && i < |ps| && StoppedUpTo(i, ps, was, count, late, before)
      modifies `log, `waitUnassignCnt, `stopping
      ensures Books(0) && StoppedUpTo(i + 1, ps, was, count, late, before)
    {
      hide Books, Replay, Among, Meet, Hits, OnceEach, StopEvents;
      StopEventsPush(flagged, ps, i);
      HitsPush(flagged, ps, i);
      AmongPush(flagged, ps, i);
      MeetPush(was, Among(flagged, ps[..i]), if ps[i] in flagged then {ps[i]} else {}, ps[i]);
      StopOne(ps[i]);
    }

    /** The loop at lines 1065-1088. */
    method StopAll(ps: seq<Partition>)
      requires Books(0) && Counted()
      modifies `log, `waitUnassignCnt, `stopping
      ensures Books(0)
      ensures stopping == old(stopping) + Among(flagged, ps)
      ensures waitUnassignCnt == old(waitUnassignCnt) + Hits(flagged, ps)
      ensures Replay(log).ok <==> !Meet(old(stopping), Among(flagged, ps)) && OnceEach(flagged, ps)
      ensures Late() <==> old(Late()) || (state == Term && Among(flagged, ps) != {})
      ensures log == old(log) + StopEvents(flagged, ps)
    {
      hide *;
      CountedOk();
      StoppedNone(ps);
      var i := 0;
      while i < |ps|
        invariant 0 <= i <= |ps| && Books(0)
        invariant StoppedUpTo(i, ps, old(stopping), old(waitUnassignCnt), old(Late()), old(log))
      {
        StopNext(ps, i, old(stopping), old(waitUnassignCnt), old(Late()), old(log));
        i := i + 1;
      }
      StoppedThem(ps, old(stopping), old(waitUnassignCnt), old(Late()), old(log));
    }

    lemma CountedOk()
      requires Counted()
      ensures Replay(log).ok
    {
    }

    /** What the commit that precedes a revocation says, when no revocation is waited for. */
    ghost function Committing(valid: bool, leaves: bool, ends: bool): seq<Event>
      reads `state, `coordinator, `assignment, `waitUnassignCnt, `waitCommitCnt, `assignedCnt
    {
      if assignment.None? || !brokerStore || !autoCommit then []
      else if state == Up && coordinator == RealBroker then if valid then [CommitSent] else []
      else if ends && waitUnassignCnt == 0 && waitCommitCnt == 0 then [Terminated, Answered]
      else if waitUnassignCnt <= 0 && assignedCnt <= 0 && waitCommitCnt <= 0 then Onward(leaves, false) else []
    }

    /** Nothing is left to wait for once the partitions of the assignment have been told to stop. */
    ghost predicate NothingRuns(valid: bool)
      reads `state, `coordinator, `assignment, `flagged, `waitCommitCnt
    {
      && flagged == {} && waitCommitCnt == 0
      && !(assignment.Some? && brokerStore && autoCommit && (valid || !(state == Up && coordinator == RealBroker)))
    }

    /** What a revocation says; `leaves` asks for a LeaveGroup request and `ends` for the end of a termination. */
    ghost function Revoking(valid: bool, leaves: bool, ends: bool): seq<Event>
      reads `state, `coordinator, `assignment, `flagged, `waitUnassignCnt, `waitCommitCnt, `assignedCnt
    {
      Committing(valid, leaves, ends) + (if assignment.Some? then StopEvents(flagged, assignment.parts) else [])
      + if !NothingRuns(valid) then []
        else (if leaves && state == Up then [LeaveSent] else [])
             + if ends then [Terminated, Answered] else []
    }

    /**
     The commit, then the stops, and with nothing to wait for the LeaveGroup request and the
     answer to a termination.
     */
    lemma RevokingIs(valid: bool, leaves: bool, ends: bool)
      requires assignment.None? || !brokerStore || !autoCommit || (state == Up && coordinator == RealBroker)
      ensures var commit := if assignment.Some? && brokerStore && autoCommit && valid then [CommitSent] else [];
        var stops := if assignment.Some? then StopEvents(flagged, assignment.parts) else [];
        var left := if leaves && state == Up then [LeaveSent] else [];
        var ended := if ends then [Terminated, Answered] else [];
        Revoking(valid, leaves, ends) ==
          commit + stops + if flagged == {} && waitCommitCnt == 0 && commit == [] then left + ended else []
    {
      hide StopEvents;
    }

    /**
     A commit that fails at once ends a termination that waits for nothing else, before the stops,
     and lets a group that fetches nothing move on, to the assignment it is about to lose.
     */
    lemma RevokingFails(valid: bool, leaves: bool, ends: bool)
      requires Books(0) && Counted()
      requires assignment.Some? && brokerStore && autoCommit && !(state == Up && coordinator == RealBroker)
      ensures var stops := StopEvents(flagged, assignment.parts);
        var left := if leaves && state == Up then [LeaveSent] else [];
        var asked := if assignment.parts != [] && state == Up && coordinator != NoBroker
                     then [OffsetsAsked(assignment.parts)] else [];
        Revoking(valid, leaves, ends) ==
          (if waitUnassignCnt == 0 && waitCommitCnt == 0 && ends then [Terminated, Answered]
           else if flagged == {} && waitCommitCnt == 0 then left + asked else []) + stops
    {
      hide *;
      CommittingIs(valid, leaves, ends);
      RunsIs(valid);
      FlaggedCount(0);
      Smaller(flagged, flagged);
      OnwardThere(leaves);
      RevokingThere(valid, leaves, ends);
    }

    lemma OnwardThere(leaves: bool)
      requires assignment.Some? && brokerStore
      ensures Onward(leaves, false) ==
        (if leaves && state == Up then [LeaveSent] else [])
        + if assignment.parts != [] && state == Up && coordinator != NoBroker then [OffsetsAsked(assignment.parts)] else []
    {
    }

    lemma RevokingThere(valid: bool, leaves: bool, ends: bool)
      requires assignment.Some? && !NothingRuns(valid)
      ensures Revoking(valid, leaves, ends) == Committing(valid, leaves, ends) + StopEvents(flagged, assignment.parts)
    {
      hide Committing, StopEvents, NothingRuns;
    }

    lemma CommittingIs(valid: bool, leaves: bool, ends: bool)
      ensures Committing(valid, leaves, ends) ==
        if assignment.None? || !brokerStore || !autoCommit then []
        else if state == Up && coordinator == RealBroker then if valid then [CommitSent] else []
        else if ends && waitUnassignCnt == 0 && waitCommitCnt == 0 then [Terminated, Answered]
        else if waitUnassignCnt <= 0 && assignedCnt <= 0 && waitCommitCnt <= 0 then Onward(leaves, false) else []
    {
      hide Onward;
    }

    lemma RevokingParts(before: seq<Event>, valid: bool, leaves: bool, ends: bool)
      ensures before + Revoking(valid, leaves, ends) ==
        before + Committing(valid, leaves, ends)
        + (if assignment.Some? then StopEvents(flagged, assignment.parts) else [])
        + if !NothingRuns(valid) then []
          else (if leaves && state == Up then [LeaveSent] else [])
               + if ends then [Terminated, Answered] else []
      ensures assignment.None? ==> Committing(valid, leaves, ends) == []
    {
      hide StopEvents, NothingRuns, Onward;
    }

    lemma RunsIs(valid: bool)
      requires Books(0) && Counted()
      ensures NothingRuns(valid) <==>
        (&& flagged == {} && waitCommitCnt == 0
         && !(assignment.Some? && brokerStore && autoCommit && (valid || !(state == Up && coordinator == RealBroker))))
      ensures flagged == {} ==> waitUnassignCnt == 0 && assignedCnt == 0 && HitsOf(flagged, assignment) == 0
      ensures waitUnassignCnt >= 0 && assignedCnt >= 0 && waitCommitCnt >= 0
    {
      hide Replay, Parts;
      if flagged == {} && assignment.Some? {
        HitsNone(assignment.parts);
      }
      Smaller(stopping, flagged);
    }

    /** Lines 1054-1062: the commit that precedes a revocation. */
    method CommitAssigned(valid: bool)
      requires Books(0) && Counted() && Placed() && state != Term && assignment.Some? && !waitUnassign
      modifies `waitCommitCnt
      modifies `state, `log, `coordinator, `replyPending, `flagged, `assignedCnt, `join, `leaveOnUnassign
      ensures Books(0) && Counted() && flagged == old(flagged) && Late() == old(Late())
      ensures state == Term <==>
        (&& brokerStore && autoCommit && !(old(state) == Up && old(coordinator) == RealBroker)
         && terminate && toppars == {} && waitUnassignCnt == 0 && old(waitCommitCnt) == 0)
      ensures state != Term ==> state == old(state) && coordinator == old(coordinator)
      ensures waitCommitCnt == old(waitCommitCnt)
        + if brokerStore && autoCommit && old(state) == Up && old(coordinator) == RealBroker && valid then 1 else 0
      ensures join == WaitUnassign || (join == Assigned && Settled())
      ensures join == Assigned <==>
        (&& brokerStore && autoCommit && !(old(state) == Up && old(coordinator) == RealBroker) && state != Term
         && old(waitUnassignCnt) <= 0 && old(assignedCnt) <= 0 && old(waitCommitCnt) <= 0)
      ensures leaveOnUnassign == (old(leaveOnUnassign) && join == WaitUnassign)
      ensures log == old(log) + old(Committing(valid, leaveOnUnassign, terminate && toppars == {}))
    {
      hide *;
      CommittingIs(valid, leaveOnUnassign, terminate && toppars == {});
      DrainedIs();
      NotSettled();
      Unjoined();
      join := WaitUnassign;
      Rejoined();
      if brokerStore && autoCommit {
        if waitUnassignCnt <= 0 && assignedCnt <= 0 && waitCommitCnt <= 0 {
          SettledMeansStopped();
        }
        OffsetsCommit(false, true, valid);
        if join == Assigned {
          NoneFlagged();
        }
      }
    }

    lemma NoneFlagged()
      requires Books(0) && Counted() && waitUnassignCnt <= 0 && waitCommitCnt <= 0 && !waitUnassign && flagged == {}
      ensures Settled()
    {
      hide Replay;
    }

    /** Before a revocation: every flagged partition is stopping or about to be told. */
    lemma AboutToStop()
      requires Placed() && Books(0) && assignment.Some?
      ensures flagged == stopping + Among(flagged, assignment.parts)
      ensures !Meet(stopping, Among(flagged, assignment.parts)) && OnceEach(flagged, assignment.parts) <==> Revocable()
      ensures Among(flagged, assignment.parts) == flagged * Parts(assignment)
    {
      hide Replay, OnceEach;
      var s := Among(flagged, assignment.parts);
      assert flagged * stopping * Parts(assignment) == stopping * s;
      if p :| p in stopping && p in s {
        assert p in stopping * s;
      }
    }

    lemma {:induction false} HitsNone(ps: seq<Partition>)
      ensures Hits({}, ps) == 0
    {
      if ps != [] {
        HitsNone(ps[..|ps| - 1]);
      }
    }

    /** In a group whose every flagged partition is stopping, and that has no assignment. */
    lemma PlacedNowhere()
      requires assignment.None? && flagged == stopping && join != Assigned
      ensures Placed()
    {
    }

    lemma CountedWhen(before: int, ps: seq<Partition>, was: set<Partition>)
      requires before == |was| && waitUnassignCnt == before + Hits(flagged, ps) && stopping == was + Among(flagged, ps)
      requires Replay(log).ok <==> !Meet(was, Among(flagged, ps)) && OnceEach(flagged, ps)
      ensures Counted() <==> !Meet(was, Among(flagged, ps)) && OnceEach(flagged, ps)
      ensures waitUnassignCnt == 0 ==> Counted()
    {
      hide Replay, Hits, OnceEach, Among;
      var stops := Among(flagged, ps);
      HitsAre(flagged, ps);
      if !Meet(was, stops) {
        assert was !! stops;
        assert |was + stops| == |was| + |stops|;
      }
      Smaller(was, was);
    }

    lemma CountOf(cnt: int)
      requires Counted() && cnt == waitUnassignCnt
      ensures cnt == |stopping| && (cnt == 0 ==> stopping == {})
    {
      hide Replay;
      Smaller(stopping, stopping);
    }

    lemma AllStopping()
      requires Placed() && Books(0) && assignment.None?
      ensures flagged == stopping && Revocable() && !StopsTooLate() && flagged * Parts(assignment) == {}
    {
      hide Replay;
      assert flagged * Parts(assignment) == {};
      assert flagged == (flagged - stopping) + stopping;
    }

    method StopThem(ps: seq<Partition>, ghost stops: set<Partition>)
      requires Books(0) && Counted() && stops == Among(flagged, ps)
      requires flagged == stopping + stops && waitUnassignCnt == |stopping|
      modifies `log, `waitUnassignCnt, `stopping
      ensures Books(0) && flagged == stopping
      ensures waitUnassignCnt == old(waitUnassignCnt) + Hits(flagged, ps) && waitUnassignCnt >= 0
      ensures Counted() <==> !Meet(old(stopping), stops) && OnceEach(flagged, ps)
      ensures waitUnassignCnt == 0 ==> Counted()
      ensures Late() <==> old(Late()) || (state == Term && stops != {})
      ensures old(Settled()) ==> Settled()
      ensures log == old(log) + StopEvents(flagged, ps)
    {
      hide *;
      NotSettled();
      if !(waitUnassignCnt > 0 || assignedCnt > 0 || waitCommitCnt > 0 || waitUnassign) {
        SettledMeansStopped();
        HitsNone(ps);
      }
      StopAll(ps);
      NotSettled();
      CountedWhen(old(waitUnassignCnt), ps, old(stopping));
    }

    /** A revocation up to the check whether it is already done. */
    method Revoke(valid: bool)
      requires Books(0) && Counted() && Placed() && state != Term && assignment.Some? && !waitUnassign
      modifies `waitCommitCnt, `assignment, `waitUnassignCnt, `stopping
      modifies `state, `log, `coordinator, `replyPending, `flagged, `assignedCnt, `join, `leaveOnUnassign
      ensures Books(0) && (Counted() <==> old(Revocable())) && (waitUnassignCnt == 0 ==> Counted()) && waitUnassignCnt >= 0
      ensures assignment == None && flagged == old(flagged) == stopping
      ensures waitUnassignCnt == old(waitUnassignCnt) + old(HitsOf(flagged, assignment))
      ensures Late() <==> old(StopsTooLate())
      ensures state == Term <==>
        (&& brokerStore && autoCommit && !(old(state) == Up && old(coordinator) == RealBroker)
         && terminate && toppars == {} && old(waitUnassignCnt) == 0 && old(waitCommitCnt) == 0)
      ensures state != Term ==> state == old(state) && coordinator == old(coordinator)
      ensures waitCommitCnt == old(waitCommitCnt)
        + if brokerStore && autoCommit && old(state) == Up && old(coordinator) == RealBroker && valid then 1 else 0
      ensures join == WaitUnassign || (join == Assigned && Settled())
      ensures join == Assigned <==>
        (&& brokerStore && autoCommit && !(old(state) == Up && old(coordinator) == RealBroker) && state != Term
         && old(waitUnassignCnt) <= 0 && old(assignedCnt) <= 0 && old(waitCommitCnt) <= 0)
      ensures leaveOnUnassign == (old(leaveOnUnassign) && join == WaitUnassign)
      ensures log == old(log) + old(Committing(valid, leaveOnUnassign, terminate && toppars == {}))
        + old(StopEvents(flagged, assignment.parts))
    {
      hide *;
      ghost var stops := Among(flagged, assignment.parts);
      BeforeRevoke(stops);
      CommitAssigned(valid);
      StopThem(assignment.parts, stops);
      assignment := None;
    }

    lemma BeforeRevoke(stops: set<Partition>)
      requires Books(0) && Counted() && Placed() && state != Term && assignment.Some?
      requires stops == Among(flagged, assignment.parts)
      ensures !Late() && waitUnassignCnt == |stopping|
      ensures flagged == stopping + stops && HitsOf(flagged, assignment) == Hits(flagged, assignment.parts)
      ensures !Meet(stopping, stops) && OnceEach(flagged, assignment.parts) <==> Revocable()
      ensures StopsTooLate() <==>
        (&& brokerStore && autoCommit && !(state == Up && coordinator == RealBroker)
         && terminate && toppars == {} && waitUnassignCnt == 0 && waitCommitCnt == 0 && stops != {})
    {
      hide *;
      NotLateYet();
      AboutToStop();
      CountOf(waitUnassignCnt);
      TooLate();
      HitsOfParts(flagged, assignment);
    }

    lemma HitsOfParts(f: set<Partition>, a: Assignment)
      ensures HitsOf(f, a) == if a.None? then 0 else Hits(f, a.parts)
    {
    }

    lemma TooLate()
      requires Placed() && Books(0) && assignment.Some?
      ensures StopsTooLate() <==>
        (&& brokerStore && autoCommit && !(state == Up && coordinator == RealBroker)
         && terminate && toppars == {} && waitUnassignCnt == 0 && waitCommitCnt == 0
         && Among(flagged, assignment.parts) != {})
    {
      hide Replay;
      assert flagged * Parts(assignment) == Among(flagged, assignment.parts);
    }

    /**
     rd_kafka_cgrp_unassign. The stop counter stays right exactly when no partition is told
     to stop twice.
     */
    method Unassign(valid: bool)
      requires Books(0) && Counted() && Placed() && state != Term
      modifies `waitCommitCnt, `waitUnassign, `assignment, `waitUnassignCnt, `stopping
      modifies `state, `log, `coordinator, `replyPending, `flagged, `assignedCnt, `join, `leaveOnUnassign
      ensures Books(0) && Placed() && (Counted() <==> old(Revocable()))
      ensures Revoked(old(Now()), valid)
      ensures assignment == None && !waitUnassign && flagged == old(flagged) == stopping
      ensures waitUnassignCnt == old(waitUnassignCnt) + old(HitsOf(flagged, assignment))
      ensures Late() <==> old(StopsTooLate())
      ensures leaveOnUnassign == (old(leaveOnUnassign) && !Settled())
      ensures log == old(log) + old(Revoking(valid, leaveOnUnassign, terminate && toppars == {}))
    {
      hide *;
      ghost var was := Now();
      NowIs();
      waitUnassign := false;
      if assignment.None? {
        UnassignNothing(was, valid);
      } else {
        UnassignSome(was, valid);
      }
    }

    method UnassignSome(ghost was: Snapshot, valid: bool)
      requires Books(0) && Counted() && Placed() && state != Term && assignment.Some? && !waitUnassign && was == Now()
      modifies `waitCommitCnt, `assignment, `waitUnassignCnt, `stopping
      modifies `state, `log, `coordinator, `replyPending, `flagged, `assignedCnt, `join, `leaveOnUnassign
      ensures Books(0) && Placed() && (Counted() <==> old(Revocable())) && Revoked(was, valid)
      ensures assignment == None && flagged == old(flagged) == stopping
      ensures waitUnassignCnt == old(waitUnassignCnt) + old(HitsOf(flagged, assignment))
      ensures Late() <==> old(StopsTooLate())
      ensures leaveOnUnassign == (old(leaveOnUnassign) && !Settled())
      ensures log == old(log) + old(Revoking(valid, leaveOnUnassign, terminate && toppars == {}))
    {
      hide *;
      NowIs();
      RunsIs(valid);
      RevokingParts(log, valid, leaveOnUnassign, terminate && toppars == {});
      Revoke(valid);
      if join != Assigned {
        PlacedNowhere();
      }
      FinishRevoking();
      DrainedIs();
      RevokedNow(was, valid);
    }

    /** Lines 1092-1094: when nothing had to be stopped. */
    method FinishRevoking()
      requires Books(0) && waitUnassignCnt >= 0 && (waitUnassignCnt == 0 ==> Counted())
      requires assignment.None? && !waitUnassign && flagged == stopping
      requires Placed() || Settled()
      modifies `state, `log, `coordinator, `replyPending, `flagged, `assignedCnt, `join, `leaveOnUnassign
      ensures Books(0) && Placed() && Late() == old(Late()) && (Counted() <==> old(Counted()))
      ensures flagged == old(flagged) && (Settled() <==> old(Settled()))
      ensures Settled() <==> waitUnassignCnt == 0 && flagged == {} && waitCommitCnt == 0
      ensures state == if Drained() then Term else old(state)
      ensures state != Term ==> coordinator == old(coordinator)
      ensures join == if Settled() then JoinInit else old(join)
      ensures leaveOnUnassign == (old(leaveOnUnassign) && !Settled())
      ensures log == old(log) + if !Settled() then [] else
          (if old(leaveOnUnassign) && old(state) == Up then [LeaveSent] else [])
          + if terminate && toppars == {} && old(state) != Term then [Terminated, Answered] else []
    {
      hide *;
      NotSettled();
      DrainedIs();
      FlaggedCount(0);
      Smaller(flagged, flagged);
      OutstandingCommits();
      if waitUnassignCnt == 0 {
        OnwardIs(log, leaveOnUnassign, Drained());
        SettledWhenDrained();
        CheckUnassignDone();
      }
    }

    /** Without an assignment there is only the check whether the group can move on. */
    method UnassignNothing(ghost was: Snapshot, ghost valid: bool)
      requires Books(0) && Counted() && Placed() && state != Term && assignment.None? && !waitUnassign && was == Now()
      modifies `state, `log, `coordinator, `replyPending, `flagged, `assignedCnt, `join, `leaveOnUnassign
      ensures Books(0) && Placed() && Counted() && old(Revocable()) && Revoked(was, valid)
      ensures flagged == old(flagged) == stopping && HitsOf(was.flagged, was.assignment) == 0
      ensures !Late() && !old(StopsTooLate()) && leaveOnUnassign == (old(leaveOnUnassign) && !Settled())
      ensures log == old(log) + old(Revoking(valid, leaveOnUnassign, terminate && toppars == {}))
    {
      hide *;
      NowIs();
      NotLateYet();
      AllStopping();
      CountOf(waitUnassignCnt);
      NothingFlagged(was);
      RevokingParts(log, valid, leaveOnUnassign, terminate && toppars == {});
      RunsIs(valid);
      FinishRevoking();
      DrainedIs();
      RevokedNow(was, valid);
    }

    lemma NowIs()
      ensures Now() == Snapshot(state, coordinator, join, assignment, flagged, waitUnassignCnt, waitCommitCnt)
    {
    }

    lemma NothingFlagged(was: Snapshot)
      requires was.assignment.None?
      ensures HitsOf(was.flagged, was.assignment) == 0
    {
    }

    lemma DrainedIs()
      ensures Drained() <==> terminate && toppars == {} && waitUnassignCnt == 0 && waitCommitCnt == 0 && !waitUnassign
    {
    }

    /** With every flagged partition stopping, nothing left to wait for means nothing left to stop. */
    lemma SettledWhenDrained()
      requires Books(0) && Counted() && flagged == stopping
      ensures Drained() ==> Settled()
    {
      hide Replay;
      Smaller(stopping, stopping);
    }

    lemma GivenUpHas(was: Snapshot)
      requires GivenUp(was)
      ensures assignment == None && flagged == was.flagged == stopping
      ensures join == if Settled() then JoinInit else if was.assignment.Some? then WaitUnassign else was.join
    {
    }

    lemma ClosedHas(was: Snapshot, valid: bool)
      requires Closed(was, valid)
      ensures !waitUnassign && waitUnassignCnt == was.waitUnassignCnt + HitsOf(was.flagged, was.assignment)
      ensures !brokerStore ==> waitCommitCnt == was.waitCommitCnt && (state == Term <==> Drained())
      ensures state != Term ==> state == was.state && coordinator == was.coordinator
    {
      hide Drained, Parts;
    }

    lemma RevokedNow(was: Snapshot, valid: bool)
      requires !waitUnassign && waitUnassignCnt == was.waitUnassignCnt + HitsOf(was.flagged, was.assignment)
      requires waitCommitCnt == was.waitCommitCnt
        + (if was.assignment.Some? && brokerStore && autoCommit && was.state == Up && was.coordinator == RealBroker && valid
           then 1 else 0)
      requires state == Term <==>
        Drained() || (&& was.assignment.Some? && brokerStore && autoCommit
                      && !(was.state == Up && was.coordinator == RealBroker)
                      && terminate && toppars == {} && was.waitUnassignCnt == 0 && was.waitCommitCnt == 0)
      requires state != Term ==> state == was.state && coordinator == was.coordinator
      requires assignment == None && flagged == was.flagged == stopping
      requires join == if Settled() then JoinInit else if was.assignment.Some? then WaitUnassign else was.join
      ensures Revoked(was, valid)
    {
      hide Drained, Settled, Parts;
    }

    lemma NotLateYet()
      requires Books(0) && state != Term
      ensures !Late()
    {
      hide Replay;
    }

    lemma StartsSome(a: Assignment)
      ensures Starts(a) <==> a.Some? && !brokerStore && Parts(a) != {}
    {
      assert a.Some? && a.parts != [] ==> a.parts[0] in Parts(a);
    }

    /** Replacing the assignment first enters TERM and then starts fetchers. */
    ghost predicate StartsTooLate(a: Assignment)
      reads `terminate, `toppars, `waitCommitCnt, `assignment, `flagged
    {
      terminate && toppars == {} && waitCommitCnt == 0 && assignment.Some? && flagged == {} && Starts(a)
    }

    /** rd_kafka_cgrp_assign, from the decision what to do with the new assignment on. */
    method Adopt(a: Assignment)
      requires Books(0) && Counted() && Placed()
      requires flagged == stopping
      requires a.Some? || assignment.None?
      modifies `assignment, `join, `log, `flagged, `assignedCnt
      ensures Valid() && assignment == a
      ensures a.Some? && old(flagged) == {} ==>
        join == Assigned && flagged == if brokerStore then {} else Parts(a)
      ensures a.None? || old(flagged) != {} ==> flagged == old(flagged) && join == old(join) && log == old(log)
      ensures log == old(log) + if old(flagged) == {} then Beginning(a) else []
      ensures Late() <==> old(Late()) || (state == Term && old(flagged) == {} && Starts(a))
    {
      hide *;
      BeginningIs(a);
      CountOf(waitUnassignCnt);
      JoinedOnly();
      if a.Some? {
        if waitUnassignCnt == 0 {
          join := Assigned;
        }
      }
      assignment := a;
      if join == Assigned && assignment.Some? {
        NoParts();
        var within := FetchStart(assignment.parts, false);
        NewlyPlaced();
        assert within;
      } else {
        PlacedStopping();
      }
      AllValid();
    }

    lemma JoinedOnly()
      requires Placed()
      ensures join == Assigned ==> stopping == {} && assignment.Some?
    {
    }

    lemma PlacedStopping()
      requires flagged == stopping && join != Assigned
      ensures Placed()
    {
    }

    lemma AllValid()
      requires Books(0) && Counted() && Placed()
      ensures Valid()
    {
    }

    lemma Nowhere()
      requires Valid() && assignment.None?
      ensures flagged == stopping && Books(0) && Counted() && Placed() && !StopsTooLate() && join != Assigned
    {
      hide Replay;
      AllStopping();
    }

    /** An assignment can be revoked while it shares nothing with what is stopping and fetches nothing twice. */
    lemma RevocableWhen(was: set<Partition>)
      requires stopping == was && (was == {} || flagged == was)
      requires was == {} && assignment.Some? ==> flagged == if brokerStore then {} else Parts(assignment)
      ensures Revocable() <==>
        was * Parts(assignment) == {} && (was == {} && Starts(assignment) ==> Distinct(assignment.parts))
    {
      if assignment.Some? {
        OnceDistinct(assignment.parts);
        if was != {} {
          assert flagged * stopping * Parts(assignment) == was * Parts(assignment);
          if was * Parts(assignment) == {} {
            OnceApart(flagged, assignment.parts);
          }
        }
      }
    }

    /** A stop or start after TERM needs a termination left unanswered, or a revocation waited for. */
    lemma TooLateOnlyUnanswered(a: Assignment)
      requires Valid() && state != Term && (StopsTooLate() || StartsTooLate(a))
      ensures !Concluded() || waitUnassign
    {
      hide Replay, Starts, Parts;
      if flagged == {} {
        assert stopping == {};
      }
    }

    /**
     rd_kafka_cgrp_assign. Everything fetched before is told to stop; the new partitions are
     started at once only when there was nothing to stop, and else by the last stop. The new
     assignment can be revoked in turn, before the stops are answered, exactly when it shares
     no partition with what was fetched before and, if started at once, lists none twice.
     */
    method Assign(a: Assignment, valid: bool)
      requires Valid() && state != Term && Revocable()
      modifies `waitCommitCnt, `waitUnassign, `assignment, `waitUnassignCnt, `stopping
      modifies `state, `log, `coordinator, `replyPending, `flagged, `assignedCnt, `join, `leaveOnUnassign
      ensures Valid() && Replaced(old(Now()), a, valid)
      ensures Revocable() <==> old(flagged) * Parts(a) == {} && (old(flagged) == {} && Starts(a) ==> Distinct(a.parts))
      ensures Late() <==> old(StopsTooLate()) || old(StartsTooLate(a))
      ensures old(assignment).None? ==> waitUnassign == old(waitUnassign)
      ensures leaveOnUnassign ==
        (old(leaveOnUnassign) && (old(assignment).None? || old(flagged) != {} || waitCommitCnt != 0))
      ensures log == old(log)
        + (if old(assignment).Some? then old(Revoking(valid, leaveOnUnassign, terminate && toppars == {})) else [])
        + if old(flagged) == {} then Beginning(a) else []
      ensures old(Concluded()) ==> Concluded()
    {
      hide *;
      ghost var was := Now();
      NowIs();
      TooLateToStart(a);
      GiveUp(valid);
      NeverTerm();
      CountOf(waitUnassignCnt);
      Adopt(a);
      ValidParts();
      JoinedOnly();
      RevocableWhen(old(flagged));
      ReplacedNow(was, a, valid);
    }

    lemma ReplacedNow(was: Snapshot, a: Assignment, valid: bool)
      requires assignment == a && stopping == was.flagged
      requires a.Some? && was.flagged == {} ==> join == Assigned && flagged == if brokerStore then {} else Parts(a)
      requires a.None? || was.flagged != {} ==> flagged == was.flagged && join != Assigned
      requires was.assignment.Some? ==> Closed(was, valid)
      requires was.assignment.None? && was.flagged != {} ==> join == was.join
      requires was.assignment.None? ==>
        && state == was.state && coordinator == was.coordinator
        && waitUnassignCnt == was.waitUnassignCnt && waitCommitCnt == was.waitCommitCnt
      ensures Replaced(was, a, valid)
    {
    }

    lemma ReplacedHas(was: Snapshot, a: Assignment, valid: bool)
      requires Replaced(was, a, valid)
      ensures assignment == a && stopping == was.flagged
      ensures a.Some? && was.flagged == {} ==> join == Assigned && flagged == if brokerStore then {} else Parts(a)
      ensures a.None? || was.flagged != {} ==> flagged == was.flagged && join != Assigned
      ensures was.assignment.None? && was.flagged != {} ==> join == was.join
      ensures was.assignment.None? ==>
        && state == was.state && coordinator == was.coordinator
        && waitUnassignCnt == was.waitUnassignCnt && waitCommitCnt == was.waitCommitCnt
    {
    }

    /** The first half of it: what is assigned, if anything, is revoked. */
    method GiveUp(valid: bool)
      requires Valid() && state != Term && Revocable()
      modifies `waitCommitCnt, `waitUnassign, `assignment, `waitUnassignCnt, `stopping
      modifies `state, `log, `coordinator, `replyPending, `flagged, `assignedCnt, `join, `leaveOnUnassign
      ensures Books(0) && Counted() && Placed() && assignment.None? && flagged == stopping == old(flagged)
      ensures Late() <==> old(StopsTooLate())
      ensures old(assignment).Some? ==> Closed(old(Now()), valid)
      ensures old(assignment).None? ==>
        && unchanged(`state, `coordinator, `replyPending, `waitUnassign, `waitUnassignCnt, `waitCommitCnt, `leaveOnUnassign)
        && join == old(join)
      ensures log == old(log)
        + if old(assignment).Some? then old(Revoking(valid, leaveOnUnassign, terminate && toppars == {})) else []
      ensures leaveOnUnassign ==
        (old(leaveOnUnassign) && (old(assignment).None? || old(flagged) != {} || waitCommitCnt != 0))
      ensures !brokerStore && flagged == {} ==>
        (state == Term <==> terminate && toppars == {} && old(waitCommitCnt) == 0 && old(assignment).Some?)
      ensures old(Concluded()) ==> Concluded()
    {
      hide *;
      ValidParts();
      if assignment.None? {
        Nowhere();
        NotLateYet();
        return;
      }
      ghost var was := Now();
      NowIs();
      Unassign(valid);
      RevokedClosed(was, valid);
      CountOf(waitUnassignCnt);
      SettledWhenStopped();
      DrainedIs();
      ConcludedIs();
    }

    /** With every flagged partition stopping only these and the commits are waited for. */
    lemma SettledWhenStopped()
      requires Books(0) && Counted() && flagged == stopping && !waitUnassign
      ensures Settled() <==> flagged == {} && waitCommitCnt == 0
    {
      hide Replay;
      Smaller(flagged, flagged);
    }

    lemma ConcludedIs()
      ensures Concluded() <==> (Drained() ==> state == Term)
    {
    }

    lemma TooLateToStart(a: Assignment)
      ensures StartsTooLate(a) <==>
        terminate && toppars == {} && waitCommitCnt == 0 && assignment.Some? && flagged == {} && Starts(a)
      ensures Starts(a) ==> a.Some? && !brokerStore
    {
    }

    /** TERM after a revocation. */
    lemma RevokedClosed(was: Snapshot, valid: bool)
      requires Revoked(was, valid)
      ensures Closed(was, valid) && !waitUnassign
      ensures !brokerStore ==> waitCommitCnt == was.waitCommitCnt && (state == Term <==> Drained())
      ensures Drained() ==> state == Term
    {
      hide Drained, Settled, Parts;
    }

    lemma ValidParts()
      requires Valid()
      ensures Books(0) && Counted() && Placed()
    {
    }

    lemma NoStops()
      requires Valid() && join == Assigned
      ensures stopping == {} && assignment.Some? && (Distinct(assignment.parts) ==> Revocable())
    {
      hide Replay;
      assert flagged * stopping == {};
    }

    lemma CommitFailsFirstIs()
      ensures CommitFailsFirst() <==>
        && brokerStore && autoCommit && !(state == Up && coordinator == RealBroker)
        && toppars == {} && waitUnassignCnt == 0 && waitCommitCnt == 0 && flagged * Parts(assignment) != {}
    {
    }

    lemma LateMeansTerm()
      requires Books(0) && Late()
      ensures state == Term
    {
      hide Replay;
    }

    lemma AllRevocable()
      requires assignment.None?
      ensures Revocable()
    {
      assert flagged * stopping * Parts(assignment) == {};
    }

    lemma NothingToRevoke()
      requires flagged == {}
      ensures Revocable()
    {
    }

    /** TERM is entered only on request. */
    lemma NeverTerm()
      requires Books(0)
      ensures state == Term ==> terminate
    {
      hide Replay;
    }

    method EmitPlain(e: Event)
      requires Books(0) && Counted()
      requires e.Delegated? || e.Halted?
      modifies `log
      ensures Books(0) && Counted() && log == old(log) + [e] && Late() == old(Late())
    {
      hide Replay;
      Emit(e);
    }

    /**
     rd_kafka_rebalance_op: with a rebalance callback and an assignment the application is
     asked and answers with an assign op; without, the change is made here.
     */
    method RebalanceOp(assign: bool, a: Assignment, valid: bool)
      requires Books(0) && Counted() && Placed() && state != Term && Revocable()
      modifies `waitCommitCnt, `waitUnassign, `assignment, `waitUnassignCnt, `stopping
      modifies `state, `log, `coordinator, `replyPending, `flagged, `assignedCnt, `join, `leaveOnUnassign
      ensures Valid()
      ensures rebalanceCb && a.Some? ==> Asks(a.parts, old(log)) && unchanged(`flagged, `stopping, `assignment, `state,
        `coordinator, `replyPending, `waitUnassign, `waitUnassignCnt, `waitCommitCnt, `leaveOnUnassign)
      ensures !(rebalanceCb && a.Some?) && assign ==>
        && Replaced(old(Now()), a, valid) && (Late() <==> old(StopsTooLate()) || old(StartsTooLate(a)))
        && (old(assignment).None? ==> waitUnassign == old(waitUnassign))
        && leaveOnUnassign == (old(leaveOnUnassign) && (old(assignment).None? || old(flagged) != {} || waitCommitCnt != 0))
        && log == old(log)
             + (if old(assignment).Some? then old(Revoking(valid, leaveOnUnassign, terminate && toppars == {})) else [])
             + if old(flagged) == {} then Beginning(a) else []
      ensures !(rebalanceCb && a.Some?) && !assign ==>
        && Revoked(old(Now()), valid) && (Late() <==> old(StopsTooLate()))
        && log == old(log) + old(Revoking(valid, leaveOnUnassign, terminate && toppars == {}))
        && leaveOnUnassign == (old(leaveOnUnassign) && !Settled())
      ensures old(Concluded()) ==> Concluded()
    {
      hide *;
      NotLateYet();
      AllValid();
      ConcludedIs();
      DrainedIs();
      if !rebalanceCb || a.None? {
        if assign {
          Assign(a, valid);
        } else {
          ghost var was := Now();
          Unassign(valid);
          AllValid();
          RevokedClosed(was, valid);
          ConcludedIs();
        }
        return;
      }
      Delegate(a.parts);
    }

    ghost predicate Asks(ps: seq<Partition>, before: seq<Event>)
      reads `join, `log
    {
      join == WaitRebalanceCb && log == before + [Delegated(ps)] && !Late()
    }

    lemma AsksIs(ps: seq<Partition>, before: seq<Event>)
      ensures Asks(ps, before) <==> join == WaitRebalanceCb && log == before + [Delegated(ps)] && !Late()
    {
      hide Replay;
    }

    method Delegate(ps: seq<Partition>)
      requires Books(0) && Counted() && Placed() && state != Term
      modifies `join, `log
      ensures Valid() && Asks(ps, old(log))
    {
      hide Books, Counted, Placed, PlacedAnyhow, Replay;
      NotLateYet();
      Unjoined();
      join := WaitRebalanceCb;
      Rejoined();
      EmitPlain(Delegated(ps));
      AllValid();
    }

    /** What Placed says without the join state. */
    ghost predicate PlacedAnyhow()
      reads `flagged, `stopping, `assignment
    {
      flagged - stopping <= Parts(assignment)
    }

    lemma Unjoined()
      requires Placed()
      ensures PlacedAnyhow()
    {
    }

    lemma Rejoined()
      requires PlacedAnyhow() && join != Assigned
      ensures Placed()
    {
    }

    /** The part shared by a fatal heartbeat error and an unsubscription: one revocation at a time. */
    method RevokeOnce(valid: bool)
      requires Valid() && state != Term && Revocable()
      modifies `waitCommitCnt, `waitUnassign, `assignment, `waitUnassignCnt, `stopping
      modifies `state, `log, `coordinator, `replyPending, `flagged, `assignedCnt, `join, `leaveOnUnassign
      ensures Valid() && Concluded()
      ensures old(waitUnassign) ==> !Late() && unchanged(`log, `join, `assignment, `flagged, `stopping, `state,
        `coordinator, `waitUnassign, `waitUnassignCnt, `waitCommitCnt)
      ensures !old(waitUnassign) && !(rebalanceCb && old(assignment).Some?) ==>
        && Revoked(old(Now()), valid) && (Late() <==> old(StopsTooLate()))
        && log == old(log) + old(Revoking(valid, leaveOnUnassign, terminate && toppars == {}))
      ensures !old(waitUnassign) && rebalanceCb && old(assignment).Some? ==>
        && waitUnassign && Asks(old(assignment).parts, old(log)) && unchanged(`assignment, `stopping, `flagged, `state,
        `coordinator, `waitUnassignCnt, `waitCommitCnt)
      ensures leaveOnUnassign == (old(leaveOnUnassign) && (old(waitUnassign) || waitUnassign || !Settled()))
    {
      hide *;
      ValidParts();
      NotLateYet();
      DrainedIs();
      if !waitUnassign {
        ghost var was := Now();
        waitUnassign := true;
        DrainedIs();
        ConcludedIs();
        RebalanceOp(false, assignment, valid);
        if !(rebalanceCb && old(assignment).Some?) {
          RevokedClosed(was, valid);
        }
        DrainedIs();
      }
      ConcludedIs();
    }

    /** rd_kafka_cgrp_handle_heartbeat_error; the other errors change nothing here. */
    method HeartbeatError(fatal: bool, valid: bool)
      requires Valid() && state != Term && Revocable()
      modifies `waitCommitCnt, `waitUnassign, `assignment, `waitUnassignCnt, `stopping
      modifies `state, `log, `coordinator, `replyPending, `flagged, `assignedCnt, `join, `leaveOnUnassign
      ensures Valid() && (fatal || old(Concluded()) ==> Concluded())
      ensures fatal && !old(waitUnassign) && !(rebalanceCb && old(assignment).Some?) ==>
        && Revoked(old(Now()), valid) && (Late() <==> old(StopsTooLate()))
        && log == old(log) + old(Revoking(valid, leaveOnUnassign, terminate && toppars == {}))
      ensures fatal && !old(waitUnassign) && rebalanceCb && old(assignment).Some? ==>
        waitUnassign && Asks(old(assignment).parts, old(log))
      ensures !fatal || old(waitUnassign) ==> unchanged(`log, `join, `assignment, `flagged, `stopping, `state,
        `coordinator, `waitUnassign, `waitUnassignCnt, `waitCommitCnt)
      ensures leaveOnUnassign == (old(leaveOnUnassign) && (!fatal || old(waitUnassign) || waitUnassign || !Settled()))
    {
      hide *;
      if fatal {
        RevokeOnce(valid);
      }
    }

    method Unsubscribe(leaveGroup: bool, valid: bool)
      requires Valid() && state != Term && Revocable()
      modifies `subscribed
      modifies `waitCommitCnt, `waitUnassign, `assignment, `waitUnassignCnt, `stopping
      modifies `state, `log, `coordinator, `replyPending, `flagged, `assignedCnt, `join, `leaveOnUnassign
      ensures Valid() && !subscribed && Concluded()
      ensures !old(waitUnassign) && !(rebalanceCb && old(assignment).Some?) ==>
        && Revoked(old(Now()), valid) && (Late() <==> old(StopsTooLate()))
        && log == old(log) + old(Revoking(valid, leaveGroup || leaveOnUnassign, terminate && toppars == {}))
      ensures !old(waitUnassign) && rebalanceCb && old(assignment).Some? ==>
        && waitUnassign && Asks(old(assignment).parts, old(log)) && unchanged(`assignment, `stopping, `flagged, `state,
        `coordinator, `waitUnassignCnt, `waitCommitCnt)
      ensures old(waitUnassign) ==> !Late() && unchanged(`log, `join, `assignment, `flagged, `stopping, `state,
        `coordinator, `waitUnassign, `waitUnassignCnt, `waitCommitCnt)
      ensures leaveOnUnassign == ((leaveGroup || old(leaveOnUnassign))
                                  && (old(waitUnassign) || waitUnassign || !Settled()))
    {
      hide *;
      if leaveGroup {
        leaveOnUnassign := true;
      }
      RevokeOnce(valid);
      subscribed := false;
    }

    /** rd_kafka_cgrp_join: a JoinGroup request, when there is a coordinator and no join under way. */
    method JoinGroup()
      requires Valid()
      modifies `join
      ensures Valid() && join == if state == Up && old(join) == JoinInit then WaitJoin else old(join)
    {
      hide *;
      ValidParts();
      if state == Up && join == JoinInit {
        Unjoined();
        join := WaitJoin;
        Rejoined();
        AllValid();
      }
    }

    /** rd_kafka_cgrp_subscribe; `topics` says whether a subscription is given. */
    method Subscribe(topics: bool, assignors: bool, valid: bool) returns (accepted: bool)
      requires Valid() && state != Term && Revocable()
      modifies `subscribed
      modifies `waitCommitCnt, `waitUnassign, `assignment, `waitUnassignCnt, `stopping
      modifies `state, `log, `coordinator, `replyPending, `flagged, `assignedCnt, `join, `leaveOnUnassign
      ensures Valid() && accepted == assignors && (accepted || old(Concluded()) ==> Concluded())
      ensures subscribed == if accepted then topics else old(subscribed)
      ensures accepted && !old(waitUnassign) && !(rebalanceCb && old(assignment).Some?) ==>
        && Closed(old(Now()), valid) && assignment == None && flagged == stopping == old(flagged)
        && (Late() <==> old(StopsTooLate()))
        && log == old(log) + old(Revoking(valid, leaveOnUnassign, terminate && toppars == {}))
      ensures accepted && !old(waitUnassign) && rebalanceCb && old(assignment).Some? ==>
        waitUnassign && Asks(old(assignment).parts, old(log)) && assignment == old(assignment)
      ensures accepted && topics ==> !(state == Up && join == JoinInit)
      ensures var revoked := accepted && !old(waitUnassign) && !(rebalanceCb && old(assignment).Some?);
        var asked := accepted && !old(waitUnassign) && rebalanceCb && old(assignment).Some?;
        var left := if asked then WaitRebalanceCb else if !revoked then old(join) else if Settled() then JoinInit
                    else if old(assignment).Some? then WaitUnassign else old(join);
        join == if accepted && topics && state == Up && left == JoinInit then WaitJoin else left
      ensures leaveOnUnassign == (old(leaveOnUnassign) && (!accepted || old(waitUnassign) || waitUnassign || !Settled()))
      ensures !accepted || old(waitUnassign) ==> unchanged(`log, `assignment, `flagged, `stopping, `state,
        `coordinator, `waitUnassign, `waitUnassignCnt, `waitCommitCnt)
      ensures !accepted ==> join == old(join)
    {
      hide *;
      if !assignors {
        return false;
      }
      EndOld(valid);
      Rejoin(topics);
      if old(assignment).Some? {
        AsksIs(old(assignment).parts, old(log));
      }
      accepted := true;
    }

    /** The old subscription ends. */
    method EndOld(valid: bool)
      requires Valid() && state != Term && Revocable()
      modifies `subscribed
      modifies `waitCommitCnt, `waitUnassign, `assignment, `waitUnassignCnt, `stopping
      modifies `state, `log, `coordinator, `replyPending, `flagged, `assignedCnt, `join, `leaveOnUnassign
      ensures Valid() && Concluded() && !subscribed
      ensures !old(waitUnassign) && !(rebalanceCb && old(assignment).Some?) ==>
        && Closed(old(Now()), valid) && assignment == None && flagged == stopping == old(flagged)
        && (Late() <==> old(StopsTooLate()))
        && log == old(log) + old(Revoking(valid, leaveOnUnassign, terminate && toppars == {}))
        && join == if Settled() then JoinInit else if old(assignment).Some? then WaitUnassign else old(join)
      ensures !old(waitUnassign) && rebalanceCb && old(assignment).Some? ==>
        && waitUnassign && join == WaitRebalanceCb && log == old(log) + [Delegated(old(assignment).parts)] && !Late()
        && assignment == old(assignment)
      ensures leaveOnUnassign == (old(leaveOnUnassign) && (old(waitUnassign) || waitUnassign || !Settled()))
      ensures old(waitUnassign) ==> unchanged(`log, `join, `assignment, `flagged, `stopping, `state,
        `coordinator, `waitUnassign, `waitUnassignCnt, `waitCommitCnt)
    {
      hide *;
      ghost var was := Now();
      NowIs();
      Unsubscribe(false, valid);
      if old(assignment).Some? {
        AsksIs(old(assignment).parts, old(log));
      }
      if !old(waitUnassign) && !(rebalanceCb && old(assignment).Some?) {
        RevokedClosed(was, valid);
        RevokedIs(was, valid);
        GivenUpHas(was);
      }
    }

    method Rejoin(topics: bool)
      requires Valid() && !subscribed
      modifies `subscribed, `join
      ensures Valid() && subscribed == topics
      ensures join == if topics && state == Up && old(join) == JoinInit then WaitJoin else old(join)
    {
      hide *;
      if topics {
        subscribed := true;
        JoinGroup();
      }
    }

    method Accept()
      requires Books(0) && Counted() && state != Term && !replyPending
      modifies `terminate, `replyPending, `log
      ensures Books(0) && Counted() && terminate && replyPending && log == old(log) + [Accepted] && !Late()
    {
      hide Replay;
      terminate := true;
      replyPending := true;
      Emit(Accepted);
    }

    method Refuse()
      requires Books(0) && Counted() && state != Term && replyPending
      modifies `log
      ensures terminate
      ensures Books(0) && Counted() && log == old(log) + [Refused] && !Late()
    {
      hide Replay;
      Emit(Refused);
    }

    lemma LateWhenTerminating()
      requires terminate
      ensures StopsTooLate() <==> CommitFailsFirst()
    {
    }

    /**
     rd_kafka_cgrp_terminate0. A second request is answered "in progress". TERM is entered at
     once when nothing is left to wait for.
     */
    method Terminate(valid: bool)
      requires Valid() && state != Term && Revocable()
      modifies `terminate, `subscribed
      modifies `waitCommitCnt, `waitUnassign, `assignment, `waitUnassignCnt, `stopping
      modifies `state, `log, `coordinator, `replyPending, `flagged, `assignedCnt, `join, `leaveOnUnassign
      ensures Valid() && terminate && (!old(replyPending) || old(Concluded()) ==> Concluded())
      ensures old(replyPending) ==> !Late() && log == old(log) + [Refused] && unchanged(`terminate, `subscribed, `join,
        `assignment, `flagged, `stopping, `state, `coordinator, `replyPending, `waitUnassign, `waitUnassignCnt,
        `waitCommitCnt, `leaveOnUnassign)
      ensures !old(replyPending) ==> !subscribed && (replyPending <==> state != Term)
      ensures !old(replyPending) ==>
        leaveOnUnassign == ((old(subscribed) || old(leaveOnUnassign))
                            && (old(waitUnassign) || waitUnassign || !Settled()))
      ensures var asked := old(subscribed) && rebalanceCb && old(assignment).Some?;
        !old(replyPending) ==>
          && (old(waitUnassign) ==> !Late() && unchanged(`join, `assignment, `flagged, `stopping, `state,
                                      `coordinator, `waitUnassign, `waitUnassignCnt, `waitCommitCnt))
          && (!old(waitUnassign) && asked ==>
                waitUnassign && Asks(old(assignment).parts, old(log) + [Accepted]) && unchanged(`assignment, `stopping,
                  `flagged, `state, `coordinator, `waitUnassignCnt, `waitCommitCnt))
          && (old(waitUnassign) ==> log == old(log) + [Accepted])
          && (!old(waitUnassign) && !asked ==>
                && Revoked(old(Now()), valid) && (Late() <==> old(CommitFailsFirst()))
                && log == old(log) + [Accepted] + old(Revoking(valid, subscribed || leaveOnUnassign, toppars == {})))
    {
      hide *;
      ValidParts();
      if replyPending {
        ConcludedIs();
        DrainedIs();
        Refuse();
        AllValid();
        ConcludedIs();
        DrainedIs();
        return;
      }
      StartTerminating(valid);
    }

    /** The first request. */
    method StartTerminating(valid: bool)
      requires Valid() && state != Term && Revocable() && !replyPending
      modifies `terminate, `subscribed
      modifies `waitCommitCnt, `waitUnassign, `assignment, `waitUnassignCnt, `stopping
      modifies `state, `log, `coordinator, `replyPending, `flagged, `assignedCnt, `join, `leaveOnUnassign
      ensures Valid() && terminate && Concluded() && !subscribed && (replyPending <==> state != Term)
      ensures leaveOnUnassign == ((old(subscribed) || old(leaveOnUnassign))
                                  && (old(waitUnassign) || waitUnassign || !Settled()))
      ensures old(waitUnassign) ==> !Late() && unchanged(`join, `assignment, `flagged, `stopping, `state,
                                      `coordinator, `waitUnassign, `waitUnassignCnt, `waitCommitCnt)
      ensures var asked := old(subscribed) && rebalanceCb && old(assignment).Some?;
        && (!old(waitUnassign) && asked ==>
              waitUnassign && Asks(old(assignment).parts, old(log) + [Accepted]) && unchanged(`assignment, `stopping,
                `flagged, `state, `coordinator, `waitUnassignCnt, `waitCommitCnt))
        && (old(waitUnassign) ==> log == old(log) + [Accepted])
        && (!old(waitUnassign) && !asked ==>
              && Revoked(old(Now()), valid) && (Late() <==> old(CommitFailsFirst()))
              && log == old(log) + [Accepted] + old(Revoking(valid, subscribed || leaveOnUnassign, toppars == {})))
    {
      hide *;
      ValidParts();
      Accept();
      AllValid();
      LateWhenTerminating();
      NotLateYet();
      DrainedIs();
      ConcludedIs();
      ghost var was := Now();
      EndSubscription(valid);
      if old(assignment).Some? {
        AsksIs(old(assignment).parts, old(log) + [Accepted]);
      }
      Conclude(was, valid);
      if old(assignment).Some? {
        AsksIs(old(assignment).parts, old(log) + [Accepted]);
      }
    }

    method Conclude(ghost was: Snapshot, ghost valid: bool)
      requires Valid() && Concluded()
      modifies `state, `log, `coordinator, `replyPending
      ensures Valid() && Concluded() && Late() == old(Late()) && state == old(state)
      ensures replyPending <==> terminate && state != Term
      ensures log == old(log) && (state != Term ==> unchanged(`coordinator))
      ensures old(Revoked(was, valid)) ==> Revoked(was, valid)
    {
      hide *;
      ConcludedIs();
      ValidParts();
      RevokedIs(was, valid);
      var _ := TryTerminate();
      ReplyIs();
      ConcludedIs();
      AllValid();
      RevokedIs(was, valid);
    }

    /** A subscription ends with a LeaveGroup, and an assignment without one is revoked. */
    method EndSubscription(valid: bool)
      requires Valid() && state != Term && Revocable() && terminate
      modifies `subscribed
      modifies `waitCommitCnt, `waitUnassign, `assignment, `waitUnassignCnt, `stopping
      modifies `state, `log, `coordinator, `replyPending, `flagged, `assignedCnt, `join, `leaveOnUnassign
      ensures Valid() && Concluded() && !subscribed
      ensures leaveOnUnassign == ((old(subscribed) || old(leaveOnUnassign))
                                  && (old(waitUnassign) || waitUnassign || !Settled()))
      ensures var asked := old(subscribed) && rebalanceCb && old(assignment).Some?;
        && (old(waitUnassign) ==> !Late() && unchanged(`join, `assignment, `flagged, `stopping, `state,
                                    `coordinator, `waitUnassign, `waitUnassignCnt, `waitCommitCnt))
        && (!old(waitUnassign) && asked ==>
              waitUnassign && Asks(old(assignment).parts, old(log)) && unchanged(`assignment, `stopping,
                `flagged, `state, `coordinator, `waitUnassignCnt, `waitCommitCnt))
        && (old(waitUnassign) ==> log == old(log))
        && (!old(waitUnassign) && !asked ==>
              && Revoked(old(Now()), valid) && (Late() <==> old(StopsTooLate()))
              && log == old(log) + old(Revoking(valid, subscribed || leaveOnUnassign, toppars == {})))
    {
      hide *;
      ValidParts();
      NotLateYet();
      DrainedIs();
      ConcludedIs();
      if subscribed {
        Unsubscribe(true, valid);
      } else if !waitUnassign {
        ghost var was := Now();
        Unassign(valid);
        AllValid();
        RevokedClosed(was, valid);
        ConcludedIs();
      }
    }

    lemma InStopping(p: Partition)
      requires Books(0) && Counted() && p in stopping
      ensures p in flagged && assignedCnt > 0 && waitUnassignCnt > 0
    {
      hide Replay;
      Smaller(flagged, flagged);
      Smaller(stopping, stopping);
    }

    method TakeStopped(p: Partition)
      requires Books(0) && Counted() && Placed() && p in stopping && state != Term
      modifies `waitUnassignCnt, `flagged, `assignedCnt, `stopping, `log
      ensures Books(0) && Counted() && Placed() && !Late()
      ensures waitUnassignCnt == old(waitUnassignCnt) - 1 && assignedCnt == old(assignedCnt) - 1
      ensures flagged == old(flagged) - {p} && stopping == old(stopping) - {p}
      ensures log == old(log) + [Stopped(p)]
    {
      hide Replay;
      waitUnassignCnt := waitUnassignCnt - 1;
      flagged := flagged - {p};
      assignedCnt := assignedCnt - 1;
      stopping := stopping - {p};
      Emit(Stopped(p));
    }

    /** A termination waits for one stop and nothing else. */
    ghost predicate WaitsForStop()
      reads `terminate, `toppars, `waitUnassignCnt, `waitCommitCnt, `waitUnassign
    {
      terminate && toppars == {} && waitUnassignCnt == 1 && waitCommitCnt == 0 && !waitUnassign
    }

    lemma WaitsForStopIs()
      ensures WaitsForStop()
        <==> terminate && toppars == {} && waitUnassignCnt == 1 && waitCommitCnt == 0 && !waitUnassign
    {
    }

    lemma OutstandingCommits()
      requires Books(0)
      ensures waitCommitCnt >= 0
    {
      hide Replay;
    }

    lemma ReplyIs()
      requires Books(0)
      ensures replyPending == (terminate && state != Term)
    {
      hide Replay;
    }

    /**
     The FETCH_STOP branch of rd_kafka_cgrp_op_serve. The asserts are the source's (lines
     1491-1497). The last stop of a revocation, with no commit outstanding, moves the group to
     its new assignment, or to the start. When a termination waits for it, TERM is entered right
     behind that, and exactly then with fetchers running, just started.
     */
    method FetchStopped(p: Partition)
      requires Valid() && state != Term && p in stopping
      modifies `waitUnassignCnt, `stopping
      modifies `state, `log, `coordinator, `replyPending, `flagged, `assignedCnt, `join, `leaveOnUnassign
      ensures Valid() && !Late() && stopping == old(stopping) - {p} && waitUnassignCnt == old(waitUnassignCnt) - 1
      ensures var last := old(waitUnassignCnt) == 1 && old(join) == WaitUnassign
                && old(assignedCnt) == 1 && old(waitCommitCnt) == 0 && !waitUnassign;
        && (last ==>
             && join == (if assignment.Some? then Assigned else JoinInit)
             && flagged == (if brokerStore then {} else Parts(assignment))
             && log == old(log) + [Stopped(p)]
                  + (if old(leaveOnUnassign) && old(state) == Up then [LeaveSent] else [])
                  + (if assignment.None? then []
                     else if !brokerStore then StartEvents({}, assignment.parts)
                     else if assignment.parts != [] && old(state) == Up && old(coordinator) != NoBroker
                     then [OffsetsAsked(assignment.parts)] else [])
                  + (if terminate && toppars == {} then [Terminated, Answered] else []))
        && (!last ==> flagged == old(flagged) - {p} && log == old(log) + [Stopped(p)] && join == old(join))
        && leaveOnUnassign == (old(leaveOnUnassign) && !last)
      ensures Concluded() <==> !(old(WaitsForStop()) && !(old(join) == WaitUnassign && old(assignedCnt) == 1))
      ensures state == if old(WaitsForStop()) && old(join) == WaitUnassign && old(assignedCnt) == 1 then Term else old(state)
      ensures state == Term && flagged != {} <==>
        old(WaitsForStop()) && old(join) == WaitUnassign && old(assignedCnt) == 1 && Starts(assignment)
      ensures Drained() <==> old(WaitsForStop())
      ensures state != Term ==> coordinator == old(coordinator)
      ensures replyPending <==> terminate && state != Term
    {
      hide *;
      ValidParts();
      StartsSome(assignment);
      InStopping(p);
      assert waitUnassignCnt > 0;
      assert p in flagged && assignedCnt > 0;
      WaitsForStopIs();
      TakeStopped(p);
      OnwardIs(log, leaveOnUnassign, Drained());
      NoParts();
      DrainedIs();
      AllValid();
      AfterStop();
      ReplyIs();
      ConcludedIs();
    }

    method AfterStop()
      requires Valid() && !Late() && state != Term
      modifies `state, `log, `coordinator, `replyPending, `flagged, `assignedCnt, `join, `leaveOnUnassign
      ensures Valid() && Books(0) && !Late() && (state != Term ==> coordinator == old(coordinator))
      ensures var last := waitUnassignCnt == 0 && old(join) == WaitUnassign
                && old(assignedCnt) == 0 && waitCommitCnt == 0 && !waitUnassign;
        && state == (if last && old(Drained()) then Term else old(state))
        && (last ==>
              && join == (if assignment.Some? then Assigned else JoinInit)
              && flagged == (if brokerStore then {} else Parts(assignment))
              && log == old(log) + old(Onward(leaveOnUnassign, Drained())) && !leaveOnUnassign)
        && (!last ==>
              unchanged(`state, `log, `coordinator, `replyPending, `flagged, `assignedCnt, `join, `leaveOnUnassign))
    {
      hide *;
      ValidParts();
      NotSettled();
      CountOf(waitUnassignCnt);
      FlaggedCount(0);
      OutstandingCommits();
      if waitUnassignCnt > 0 {
        return;
      }
      if join == WaitUnassign {
        CheckUnassignDone();
        AllValid();
      }
    }

    /** PARTITION_JOIN; while terminating the partition is told to leave again. */
    method PartitionJoin(p: Partition)
      requires Valid() && state != Term && p !in toppars
      modifies `toppars, `log
      ensures Valid() && !Late() && Concluded() && toppars == old(toppars) + {p}
      ensures log == old(log) + [Joined(p)] + if terminate then [Halted(p)] else []
    {
      hide Replay;
      toppars := toppars + {p};
      Emit(Joined(p));
      if terminate {
        EmitPlain(Halted(p));
      }
    }

    method TakeLeft(p: Partition)
      requires Books(0) && Counted() && p in toppars && state != Term
      modifies `toppars, `log
      ensures Books(0) && Counted() && !Late() && toppars == old(toppars) - {p} && log == old(log) + [Left(p)]
    {
      hide Replay;
      toppars := toppars - {p};
      Emit(Left(p));
    }

    /** PARTITION_LEAVE; the last one can complete a termination. */
    method PartitionLeave(p: Partition)
      requires Valid() && state != Term && p in toppars
      modifies `toppars, `state, `log, `coordinator, `replyPending
      ensures Valid() && !Late() && Concluded() && toppars == old(toppars) - {p}
      ensures log == old(log) + [Left(p)] + if Drained() then [Terminated, Answered] else []
      ensures state == if Drained() then Term else old(state)
    {
      hide *;
      ValidParts();
      TakeLeft(p);
      var _ := TryTerminate();
      ConcludedIs();
      AllValid();
    }

    /** The OFFSET_COMMIT op, and the commit timer (`timer`), which says nothing when there is nothing to commit. */
    method CommitOffsets(payload: bool, timer: bool, valid: bool)
      requires Valid() && state != Term
      modifies `waitCommitCnt
      modifies `state, `log, `coordinator, `replyPending, `flagged, `assignedCnt, `join, `leaveOnUnassign
      ensures Valid() && !Late() && (old(Concluded()) ==> Concluded())
      ensures state != Term ==> coordinator == old(coordinator)
      ensures var offsets := payload || assignment.Some?;
        var reachable := old(state) == Up && old(coordinator) == RealBroker;
        var sent := reachable && offsets && valid;
        var told := !sent && !(timer && (reachable || !offsets));
        var settles := told && !old(Drained()) && old(join) == WaitUnassign && old(Settled());
        && waitCommitCnt == old(waitCommitCnt) + (if sent then 1 else 0)
        && state == (if told && old(Drained()) then Term else old(state))
        && join == (if settles then if assignment.Some? then Assigned else JoinInit else old(join))
        && flagged == (if settles && !brokerStore then Parts(assignment) else old(flagged))
        && leaveOnUnassign == (old(leaveOnUnassign) && !settles)
        && log == old(log) + if sent then [CommitSent] else if told && old(Drained()) then [Terminated, Answered]
                             else if settles then old(Onward(leaveOnUnassign, false)) else []
    {
      hide *;
      ValidParts();
      NotLateYet();
      DrainedIs();
      ConcludedIs();
      OffsetsCommit(payload, timer, valid);
      AllValid();
      DrainedIs();
      ConcludedIs();
    }

    method TakeCommitDone()
      requires Books(0) && Counted() && Replay(log).commits > 0 && state != Term
      modifies `log
      ensures Books(1) && Counted() && !Late() && log == old(log) + [CommitDone]
    {
      hide Replay;
      Emit(CommitDone);
    }

    /** The answer to an OffsetCommit request; one being retried stays outstanding. */
    method CommitReply(err: CommitError)
      requires Valid() && state != Term && Replay(log).commits > 0
      modifies `waitCommitCnt
      modifies `state, `log, `coordinator, `replyPending, `flagged, `assignedCnt, `join, `leaveOnUnassign
      ensures Valid() && !Late() && (err == InProgress && old(Concluded()) ==> Concluded())
      ensures err != InProgress ==> (Concluded() <==> !(err == Destroy && old(DrainedBut(1))))
      ensures state != Term ==> coordinator == old(coordinator)
      ensures err == InProgress ==> log == old(log) && waitCommitCnt == old(waitCommitCnt) && join == old(join)
      ensures err != InProgress ==> waitCommitCnt == old(waitCommitCnt) - 1
      ensures var told := err == NoError || err == Failed;
        var settles := told && !old(DrainedBut(1)) && old(join) == WaitUnassign && old(SettledBut(1));
        && state == (if told && old(DrainedBut(1)) then Term else old(state))
        && join == (if settles then if assignment.Some? then Assigned else JoinInit else old(join))
        && flagged == (if settles && !brokerStore then Parts(assignment) else old(flagged))
        && leaveOnUnassign == (old(leaveOnUnassign) && !settles)
        && (err != InProgress && !settles ==>
              log == old(log) + [CommitDone] + if told && old(DrainedBut(1)) then [Terminated, Answered] else [])
        && (settles ==>
              log == old(log) + [CommitDone]
                + (if old(leaveOnUnassign) && old(state) == Up then [LeaveSent] else [])
                + (if assignment.None? then []
                   else if !brokerStore then StartEvents({}, assignment.parts)
                   else if assignment.parts != [] && old(state) == Up && old(coordinator) != NoBroker
                   then [OffsetsAsked(assignment.parts)] else []))
    {
      hide *;
      OnwardIs(log + [CommitDone], leaveOnUnassign, false);
      ValidParts();
      NotLateYet();
      DrainedIs();
      DrainedButOne();
      ConcludedIs();
      if err != InProgress {
        TakeCommitDone();
      }
      OpHandleOffsetCommit(err);
      AllValid();
      DrainedIs();
      ConcludedIs();
    }

    lemma DrainedButOne()
      ensures DrainedBut(1) <==> terminate && toppars == {} && waitUnassignCnt == 0 && waitCommitCnt == 1 && !waitUnassign
    {
    }

    /**
     rd_kafka_cgrp_offsets_fetch_response. The reply keeps the group in order exactly when it is
     not stale: it failed, arrives in another join state, or names partitions of the assignment.
     `within` is the assertion at line 738.
     */
    method OffsetFetchReply(failed: bool, ps: seq<Partition>) returns (within: bool)
      requires Valid() && state != Term
      modifies `log, `flagged, `assignedCnt
      ensures Books(0) && Counted() && !Late() && (old(Concluded()) ==> Concluded())
      ensures Placed() <==> failed || join != Assigned || Elems(ps) <= Parts(assignment)
      ensures Placed() ==> within
      ensures flagged == if !failed && join == Assigned then old(flagged) + Elems(ps) else old(flagged)
      ensures log == old(log) + if !failed && join == Assigned then StartEvents(old(flagged), ps) else []
    {
      hide *;
      ValidParts();
      NotLateYet();
      JoinedOnly();
      NoParts();
      if !failed && join == Assigned {
        AssignedPlaced();
        within := FetchStart(ps, true);
        AssignedPlaced();
        if Placed() {
          Within(flagged, assignment.parts);
        }
      } else {
        within := true;
        assert log + [] == log;
      }
    }

    lemma AssignedPlaced()
      requires join == Assigned && stopping == {} && assignment.Some?
      ensures Placed() <==> flagged <= Elems(assignment.parts)
    {
      assert flagged - stopping == flagged;
    }

    /** Queries, coordinator changes and broker reassignment: any state but TERM and up. */
    method CoordinatorChange(to: State, rkb: Coordinator)
      requires Valid() && state != Term && to != Term && to != Up
      modifies `state, `coordinator
      ensures Valid() && state == to && coordinator == rkb && (old(Concluded()) ==> Concluded())
    {
      state, coordinator := to, rkb;
    }

    /** rd_kafka_cgrp_serve when the coordinator's transport is up. */
    method TransportUp()
      requires Valid() && state == WaitBrokerTransport
      modifies `state, `log, `flagged, `assignedCnt
      ensures Valid() && state == Up && !Late() && (old(Concluded()) ==> Concluded())
      ensures flagged == if join == Assigned && !brokerStore then Parts(assignment) else old(flagged)
      ensures join != Assigned ==> log == old(log)
      ensures join == Assigned ==>
        assignment.Some? && log == old(log)
          + if !brokerStore then StartEvents(old(flagged), assignment.parts)
            else if assignment.parts != [] && coordinator != NoBroker then [OffsetsAsked(assignment.parts)] else []
    {
      hide *;
      ValidParts();
      NotLateYet();
      JoinedOnly();
      NoParts();
      ConcludedIs();
      DrainedIs();
      BecomeUp();
      ConcludedIs();
      DrainedIs();
      if assignment.Some? && join == Assigned {
        AssignedPlaced();
        var within := FetchStart(assignment.parts, false);
        AssignedPlaced();
        Within(flagged, assignment.parts);
        assert within;
        Union(old(flagged), Elems(assignment.parts));
      }
      AllValid();
    }

    lemma Union(a: set<Partition>, b: set<Partition>)
      ensures a <= b ==> a + b == b
    {
    }

    method BecomeUp()
      requires Books(0) && Counted() && state == WaitBrokerTransport
      modifies `state
      ensures Books(0) && Counted() && state == Up
    {
      hide Replay;
      state := Up;
    }

    /** JoinGroup, metadata and SyncGroup handling short of an assignment. */
    method JoinProgress(to: JoinState)
      requires Valid() && to in {JoinInit, WaitJoin, WaitMetadata, WaitSync}
      modifies `join
      ensures Valid() && join == to
    {
      hide Replay;
      join := to;
    }

    /** The SyncGroup reply that carries an assignment. */
    method SyncGroupReply(ps: seq<Partition>, valid: bool)
      requires Valid() && state != Term && Revocable()
      modifies `waitCommitCnt, `waitUnassign, `assignment, `waitUnassignCnt, `stopping
      modifies `state, `log, `coordinator, `replyPending, `flagged, `assignedCnt, `join, `leaveOnUnassign
      ensures Valid() && (old(Concluded()) ==> Concluded())
      ensures rebalanceCb ==> Asks(ps, old(log)) && unchanged(`flagged, `stopping, `assignment, `state, `coordinator,
        `waitUnassign, `waitUnassignCnt, `waitCommitCnt, `leaveOnUnassign)
      ensures !rebalanceCb ==>
        && Replaced(old(Now()), Some(ps), valid) && (Late() <==> old(StopsTooLate()) || old(StartsTooLate(Some(ps))))
        && (old(assignment).None? ==> waitUnassign == old(waitUnassign))
        && leaveOnUnassign == (old(leaveOnUnassign) && (old(assignment).None? || old(flagged) != {} || waitCommitCnt != 0))
        && log == old(log)
             + (if old(assignment).Some? then old(Revoking(valid, leaveOnUnassign, terminate && toppars == {})) else [])
             + if old(flagged) == {} then Beginning(Some(ps)) else []
    {
      hide *;
      ValidParts();
      RebalanceOp(true, Some(ps), valid);
    }

    /** The ASSIGN op: no new assignment while terminating. */
    method AssignOp(a: Assignment, valid: bool) returns (accepted: bool)
      requires Valid() && state != Term && Revocable()
      modifies `waitCommitCnt, `waitUnassign, `assignment, `waitUnassignCnt, `stopping
      modifies `state, `log, `coordinator, `replyPending, `flagged, `assignedCnt, `join, `leaveOnUnassign
      ensures Valid() && accepted == (a.None? || !terminate) && (old(Concluded()) ==> Concluded())
      ensures accepted ==> Replaced(old(Now()), a, valid) && (Late() <==> old(StopsTooLate()))
      ensures accepted ==>
        (Revocable() <==> old(flagged) * Parts(a) == {} && (old(flagged) == {} && Starts(a) ==> Distinct(a.parts)))
      ensures accepted ==>
        && (old(assignment).None? ==> waitUnassign == old(waitUnassign))
        && leaveOnUnassign == (old(leaveOnUnassign) && (old(assignment).None? || old(flagged) != {} || waitCommitCnt != 0))
      ensures accepted ==>
        log == old(log)
          + (if old(assignment).Some? then old(Revoking(valid, leaveOnUnassign, terminate && toppars == {})) else [])
          + if old(flagged) == {} then Beginning(a) else []
      ensures !accepted ==> unchanged(`log, `join, `assignment, `flagged, `stopping, `state,
        `coordinator, `waitUnassign, `waitUnassignCnt, `waitCommitCnt, `leaveOnUnassign)
    {
      hide *;
      if a.Some? && terminate {
        return false;
      }
      TooLateToStart(a);
      Assign(a, valid);
      accepted := true;
    }
  }

  /** A new group that has found its coordinator. */
  method GroupUp(brokerStore: bool, autoCommit: bool) returns (g: Group)
    ensures fresh(g) && g.Valid() && g.state == Up && g.coordinator == RealBroker && !g.terminate && !g.waitUnassign
    ensures g.flagged == g.toppars == {} && g.assignment == None && g.waitUnassignCnt == g.waitCommitCnt == 0
    ensures g.brokerStore == brokerStore && g.autoCommit == autoCommit && !g.rebalanceCb && g.log == [] && !g.subscribed
  {
    hide *;
    g := new Group(brokerStore, autoCommit, false);
    g.CoordinatorChange(WaitBrokerTransport, RealBroker);
    g.TransportUp();
  }

  /** A group with a coordinator and a subscription, waiting for the JoinGroup reply. */
  method Subscribed() returns (g: Group)
    ensures fresh(g) && g.Valid() && g.state == Up && g.subscribed && !g.terminate && !g.waitUnassign
    ensures g.flagged == g.toppars == {} && g.assignment == None && g.waitUnassignCnt == g.waitCommitCnt == 0
    ensures !g.brokerStore && !g.autoCommit && !g.rebalanceCb && g.join != JoinInit
  {
    hide *;
    g := GroupUp(false, false);
    g.NothingToRevoke();
    g.NowIs();
    ghost var was := g.Now();
    var _ := g.Subscribe(true, true, true);
    g.ClosedHas(was, true);
    g.NothingFlagged(was);
    g.DrainedIs();
  }

  /** The application assigns a partition to it and closes the consumer: one stop is outstanding. */
  method ClosingGroup(p: Partition) returns (g: Group)
    ensures fresh(g) && g.Valid() && g.state == Up && g.WaitsForStop() && g.join == WaitUnassign && g.replyPending
    ensures g.flagged == g.stopping == {p} && g.assignedCnt == 1 && g.assignment == None
    ensures !g.brokerStore && !g.rebalanceCb
  {
    hide *;
    OnlyOne(p);
    g := Subscribed();
    AssignOne(g, p);
    CloseOne(g, p);
  }

  method AssignOne(g: Group, p: Partition)
    requires g.Valid() && g.state == Up && !g.terminate && g.flagged == {} && g.assignment == None
    modifies g`waitCommitCnt, g`waitUnassign, g`assignment, g`waitUnassignCnt, g`stopping
    modifies g`state, g`log, g`coordinator, g`replyPending, g`flagged, g`assignedCnt, g`join, g`leaveOnUnassign
    ensures g.Valid() && g.join == Assigned && g.assignment == Some([p]) && g.stopping == {}
    ensures g.flagged == if g.brokerStore then {} else {p}
    ensures g.waitUnassign == old(g.waitUnassign) && g.waitUnassignCnt == old(g.waitUnassignCnt)
    ensures g.waitCommitCnt == old(g.waitCommitCnt) && g.state == old(g.state) && g.coordinator == old(g.coordinator)
    ensures g.log == old(g.log) + old(g.Beginning(Some([p])))
  {
    hide *;
    OnlyOne(p);
    g.NothingToRevoke();
    g.NowIs();
    ghost var was := g.Now();
    var _ := g.AssignOp(Some([p]), true);
    g.ReplacedHas(was, Some([p]), true);
  }

  method CloseOne(g: Group, p: Partition)
    requires g.Valid() && g.state == Up && !g.terminate && !g.waitUnassign && g.toppars == {} && g.flagged == {p}
    requires g.assignment == Some([p]) && g.join == Assigned && g.waitUnassignCnt == g.waitCommitCnt == 0
    requires !g.brokerStore && !g.rebalanceCb
    modifies g`terminate, g`subscribed
    modifies g`waitCommitCnt, g`waitUnassign, g`assignment, g`waitUnassignCnt, g`stopping
    modifies g`state, g`log, g`coordinator, g`replyPending, g`flagged, g`assignedCnt, g`join, g`leaveOnUnassign
    ensures g.Valid() && g.state == Up && g.WaitsForStop() && g.join == WaitUnassign && g.replyPending
    ensures g.flagged == g.stopping == {p} && g.assignedCnt == 1 && g.assignment == None
  {
    hide *;
    OnlyOne(p);
    g.NoStops();
    g.NowIs();
    ghost var was := g.Now();
    g.ValidParts();
    g.ReplyIs();
    g.Terminate(true);
    g.RevokedIs(was, true);
    g.ClosedHas(was, true);
    g.GivenUpHas(was);
    g.NotSettled();
    g.DrainedIs();
    g.WaitsForStopIs();
    g.ValidParts();
    g.FlaggedCount(0);
  }

  /**
   A JoinGroup reply that arrives while a terminating group waits for its last stop moves the
   join state; the stop is then answered, nothing is outstanding, and the terminate request is
   not answered.
   */
  method UnansweredTermination(p: Partition) returns (g: Group)
    ensures fresh(g) && g.Valid() && g.Drained() && g.replyPending && g.state == Up && !g.Concluded()
    ensures g.flagged == {} && g.assignment == None && !g.brokerStore && !g.rebalanceCb
  {
    hide *;
    OnlyOne(p);
    g := ClosingGroup(p);
    g.JoinProgress(JoinInit);
    g.WaitsForStopIs();
    g.FetchStopped(p);
    g.ConcludedIs();
  }

  /**
   Two assignments reach such a group, the first of them empty. Revoking the empty one enters
   TERM, and then the fetcher of the second is started.
   */
  method StartedTooLate(p: Partition) returns (g: Group)
    ensures fresh(g) && g.Valid() && g.Late()
  {
    hide *;
    OnlyOne(p);
    g := UnansweredTermination(p);
    g.DrainedIs();
    g.NothingToRevoke();
    g.NowIs();
    ghost var was := g.Now();
    g.SyncGroupReply([], true);
    g.ReplacedHas(was, Some([]), true);
    g.NothingToRevoke();
    g.TooLateToStart(Some([p]));
    g.BeginningIs(Some([p]));
    g.SyncGroupReply([p], true);
  }

  /** Offsets are stored with the broker; it has answered the question for them, and a fetcher runs. */
  method FetchingGroup(p: Partition) returns (g: Group)
    ensures fresh(g) && g.Valid() && g.state == Up && !g.terminate && !g.waitUnassign && !g.subscribed
    ensures g.flagged == {p} && g.assignment == Some([p]) && g.join == Assigned && g.toppars == {}
    ensures g.waitUnassignCnt == g.waitCommitCnt == 0 && g.brokerStore && g.autoCommit && !g.rebalanceCb
    ensures g.log == [OffsetsAsked([p]), CgrpLog.Started(p)]
  {
    hide *;
    OnlyOne(p);
    g := GroupUp(true, true);
    g.BeginningIs(Some([p]));
    AssignOne(g, p);
    FirstStart(p);
    assert g.log == [OffsetsAsked([p])];
    var _ := g.OffsetFetchReply(false, [p]);
    g.AllValid();
  }

  lemma FirstStart(p: Partition)
    ensures StartEvents({}, [p]) == [CgrpLog.Started(p)]
  {
    assert [p][..0] == [];
    assert StartEvents({}, []) == [] && Elems([]) == {};
  }

  /**
   Offsets are stored with the broker, the coordinator is lost, and the consumer is closed: the
   commit fails and enters TERM before the fetcher is told to stop.
   */
  method StoppedTooLate(p: Partition) returns (g: Group)
    ensures fresh(g) && g.Late() && g.state == Term
  {
    hide *;
    OnlyOne(p);
    g := FetchingGroup(p);
    g.CoordinatorChange(WaitCoord, NoBroker);
    g.NoStops();
    g.CommitFailsFirstIs();
    g.ValidParts();
    g.ReplyIs();
    g.Terminate(true);
    g.ValidParts();
    g.LateMeansTerm();
  }

  /**
   A partition taken away, given back and taken away again before its first stop was answered
   is told to stop twice, and the counters no longer match the flags.
   */
  method RevokedTwice(p: Partition) returns (g: Group)
    ensures fresh(g) && !g.Counted() && g.flagged == g.stopping == {p} && g.waitUnassignCnt == 2
  {
    hide *;
    OnlyOne(p);
    g := GroupUp(false, false);
    AssignOne(g, p);
    g.NoStops();
    TakeAwayAndGiveBack(g, p);
    g.ValidParts();
    g.CountOf(g.waitUnassignCnt);
    g.Unassign(true);
  }

  /** So is a partition that an assignment lists twice, when it is taken away for the first time. */
  method ListedTwice(p: Partition) returns (g: Group)
    ensures fresh(g) && !g.Counted() && g.flagged == g.stopping == {p} && g.waitUnassignCnt == 2
  {
    hide *;
    OnlyOne(p);
    OnlyOneTwice(p);
    g := GroupUp(false, false);
    g.NothingToRevoke();
    ghost var was := g.Now();
    g.NowIs();
    g.BeginningIs(Some([p, p]));
    var _ := g.AssignOp(Some([p, p]), true);
    g.ReplacedHas(was, Some([p, p]), true);
    g.ValidParts();
    g.CountOf(g.waitUnassignCnt);
    g.Unassign(true);
  }

  /**
   A new assignment reaches a group that is terminating while it waits for its last stop. The
   stop starts the new fetcher, and TERM is entered behind it.
   */
  method TerminatedFetching(p: Partition, q: Partition) returns (g: Group)
    ensures fresh(g) && g.Valid() && g.state == Term && g.flagged != {} && !g.Late()
  {
    hide *;
    OnlyOne(p);
    g := ClosingGroup(p);
    g.NowIs();
    ghost var was := g.Now();
    g.WaitsForStopIs();
    g.AllRevocable();
    g.SyncGroupReply([q], true);
    g.ReplacedHas(was, Some([q]), true);
    g.WaitsForStopIs();
    g.ValidParts();
    g.FlaggedCount(0);
    g.BeginningIs(Some([q]));
    g.FetchStopped(p);
  }

  method TakeAwayAndGiveBack(g: Group, p: Partition)
    requires g.Valid() && g.state == Up && !g.terminate && g.Revocable() && g.flagged == {p} && g.assignment == Some([p])
    modifies g`waitCommitCnt, g`waitUnassign, g`assignment, g`waitUnassignCnt, g`stopping
    modifies g`state, g`log, g`coordinator, g`replyPending, g`flagged, g`assignedCnt, g`join, g`leaveOnUnassign
    ensures g.Valid() && !g.Revocable() && g.state != Term && g.flagged == g.stopping == {p} && g.assignment == Some([p])
  {
    hide *;
    OnlyOne(p);
    ghost var was := g.Now();
    g.NowIs();
    var _ := g.AssignOp(None, true);
    g.ReplacedHas(was, None, true);
    g.ValidParts();
    g.NeverTerm();
    was := g.Now();
    g.NowIs();
    var _ := g.AssignOp(Some([p]), true);
    g.ReplacedHas(was, Some([p]), true);
    g.ValidParts();
    g.NeverTerm();
  }

  lemma OnlyOne(p: Partition)
    ensures Elems([p]) == {p} && Distinct<Partition>([]) && Parts(Some([])) == {}
    ensures Distinct([p]) && Parts(Some([p])) == {p} && Parts(None) == {} && {p} * {} == {}
    ensures |{p}| == 1 && {p} * {p} == {p} != {} && HitsOf({p}, Some([p])) == 1
  {
    assert [p][..0] == [];
    assert Hits({p}, []) == 0;
  }

  lemma OnlyOneTwice(p: Partition)
    ensures Parts(Some([p, p])) == {p} && !Distinct([p, p]) && HitsOf({p}, Some([p, p])) == 2
  {
    OnlyOne(p);
    assert [p, p][..1] == [p];
    assert [p, p][0] == [p, p][1];
  }
}
