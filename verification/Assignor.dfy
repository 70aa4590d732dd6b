/**
 Mapping the cluster's topics to the members' subscriptions, with its early exit:
 rd_kafka_member_subscriptions_map and rd_kafka_member_subscription_match.
 */
module Assignor {
  import opened Splice

  /** A topic of the cluster and the members, by index, that subscribe to it. */
  datatype Eligible = Eligible(topic: string, members: seq<nat>)

  /** The regular expression engine, and the topic blacklist. */
  datatype Env = Env(regex: (string, string) -> bool, blacklisted: string -> bool)

  predicate IsRegex(pattern: string) {
    pattern != "" && pattern[0] == '^'
  }

  /** rd_kafka_topic_partition_match. */
  predicate Matches(env: Env, pattern: string, topic: string) {
    if IsRegex(pattern) then env.regex(pattern, topic) else pattern == topic
  }

  /** How many entries of a subscription match a topic. */
  function MatchCount(env: Env, sub: seq<string>, topic: string): nat {
    if sub == [] then 0
    else MatchCount(env, sub[..|sub| - 1], topic) + if Matches(env, sub[|sub| - 1], topic) then 1 else 0
  }

  /** How many of them are regular expressions. */
  function RegexCount(env: Env, sub: seq<string>, topic: string): nat {
    if sub == [] then 0
    else
      RegexCount(env, sub[..|sub| - 1], topic)
      + if IsRegex(sub[|sub| - 1]) && Matches(env, sub[|sub| - 1], topic) then 1 else 0
  }

  /** The topics a member is eligible for, one entry per matching subscription entry. */
  function EligibleOf(env: Env, sub: seq<string>, topics: seq<string>): seq<string> {
    if topics == [] then []
    else
      var t := topics[|topics| - 1];
      EligibleOf(env, sub, topics[..|topics| - 1])
      + if env.blacklisted(t) then [] else seq(MatchCount(env, sub, t), _ => t)
  }

  /** The members a topic is for. */
  function Subscribers(env: Env, subs: seq<seq<string>>, topic: string): (ms: seq<nat>)
    ensures forall i :: 0 <= i < |ms| ==> ms[i] < |subs|
  {
    if subs == [] then []
    else
      Subscribers(env, subs[..|subs| - 1], topic)
      + if MatchCount(env, subs[|subs| - 1], topic) > 0 then [|subs| - 1] else []
  }

  /** The topics that are for somebody, each with its members: the scan without early exit. */
  function EligibleTopics(env: Env, subs: seq<seq<string>>, topics: seq<string>): seq<Eligible> {
    if topics == [] then []
    else
      var t := topics[|topics| - 1];
      EligibleTopics(env, subs, topics[..|topics| - 1])
      + if Wanted(env, subs, t) then [Eligible(t, Subscribers(env, subs, t))] else []
  }

  predicate Wanted(env: Env, subs: seq<seq<string>>, topic: string) {
    !env.blacklisted(topic) && Subscribers(env, subs, topic) != []
  }

  /** What rd_kafka_member_subscription_match returns for a topic after which `scanned` have been seen. */
  predicate Complete(env: Env, sub: seq<string>, scanned: seq<string>, topic: string) {
    RegexCount(env, sub, topic) == 0 && |EligibleOf(env, sub, scanned)| == |sub|
  }

  /** A pattern is a regular expression when it starts with a caret, and otherwise a name to be met exactly. */
  lemma MatchesIs(env: Env, pattern: string, topic: string)
    ensures Matches(env, pattern, topic) <==>
      if |pattern| > 0 && pattern[0] == '^' then env.regex(pattern, topic) else pattern == topic
  {
  }

  lemma {:induction false} MatchCountSplit(env: Env, a: seq<string>, b: seq<string>, topic: string)
    ensures MatchCount(env, a + b, topic) == MatchCount(env, a, topic) + MatchCount(env, b, topic)
    ensures forall p :: MatchCount(env, [p], topic) == if Matches(env, p, topic) then 1 else 0
  {
    hide Matches;
    assert forall p: string :: MatchCount(env, [p][..0], topic) == 0;
    assert forall p: string :: [p][..|[p]| - 1] == [p][..0];
    if b == [] {
      assert a + b == a;
    } else {
      assert (a + b)[..|a + b| - 1] == a + b[..|b| - 1];
      MatchCountSplit(env, a, b[..|b| - 1], topic);
    }
  }

  lemma SubscribersPush(env: Env, subs: seq<seq<string>>, topic: string)
    requires subs != []
    ensures var n := |subs| - 1;
      Subscribers(env, subs, topic)
        == Subscribers(env, subs[..n], topic) + if MatchCount(env, subs[n], topic) > 0 then [n] else []
  {
  }

  /** The members of a topic come in the order of the members. */
  lemma {:induction false} SubscribersAscend(env: Env, subs: seq<seq<string>>, topic: string, i: nat, j: nat)
    requires i < j < |Subscribers(env, subs, topic)|
    ensures Subscribers(env, subs, topic)[i] < Subscribers(env, subs, topic)[j]
  {
    var n := |subs| - 1;
    var init := Subscribers(env, subs[..n], topic);
    if j < |init| {
      SubscribersAscend(env, subs[..n], topic, i, j);
    }
  }

  /** And are those with an entry that matches it. */
  lemma {:induction false} SubscribersExact(env: Env, subs: seq<seq<string>>, topic: string, m: nat)
    requires m < |subs|
    ensures m in Subscribers(env, subs, topic) <==> exists k :: 0 <= k < |subs[m]| && Matches(env, subs[m][k], topic)
  {
    hide Matches, MatchCount, Subscribers;
    var n := |subs| - 1;
    SubscribersPush(env, subs, topic);
    if m < n {
      SubscribersExact(env, subs[..n], topic, m);
      assert subs[..n][m] == subs[m];
    } else {
      MatchedSome(env, subs[n], topic);
    }
  }

  /** The topics that are for somebody, once for each time they are listed, in that order. */
  lemma {:induction false} EligibleSplit(env: Env, subs: seq<seq<string>>, a: seq<string>, b: seq<string>)
    ensures EligibleTopics(env, subs, a + b) == EligibleTopics(env, subs, a) + EligibleTopics(env, subs, b)
    ensures forall t :: Wanted(env, subs, t) ==>
      EligibleTopics(env, subs, [t]) == [Eligible(t, Subscribers(env, subs, t))]
    ensures forall t :: !Wanted(env, subs, t) ==> EligibleTopics(env, subs, [t]) == []
    ensures forall t :: Wanted(env, subs, t) <==> !env.blacklisted(t) && Subscribers(env, subs, t) != []
  {
    hide Subscribers;
    assert forall t: string :: EligibleTopics(env, subs, [t][..0]) == [];
    assert forall t: string :: [t][..|[t]| - 1] == [t][..0];
    if b == [] {
      assert a + b == a;
    } else {
      assert (a + b)[..|a + b| - 1] == a + b[..|b| - 1];
      EligibleSplit(env, subs, a, b[..|b| - 1]);
    }
  }

  /** The early exit is taken after topic `n`. */
  ghost predicate Exit(env: Env, subs: seq<seq<string>>, topics: seq<string>, n: nat)
    requires n < |topics|
  {
    Wanted(env, subs, topics[n])
    && forall i :: 0 <= i < |subs| ==> Complete(env, subs[i], topics[..n + 1], topics[n])
  }

  /** How many topics the scan looks at from `n` on: up to the first that takes the early exit, or all. */
  ghost function ScanEnd(env: Env, subs: seq<seq<string>>, topics: seq<string>, n: nat): (end: nat)
    requires n <= |topics|
    ensures n <= end <= |topics|
    decreases |topics| - n
  {
    if n == |topics| then n
    else if Exit(env, subs, topics, n) then n + 1
    else ScanEnd(env, subs, topics, n + 1)
  }

  lemma {:induction false} ScanEndIs(env: Env, subs: seq<seq<string>>, topics: seq<string>, n: nat, end: nat)
    requires n <= end <= |topics| && (n < |topics| ==> n < end)
    requires forall k :: n <= k < end - 1 ==> !Exit(env, subs, topics, k)
    requires end < |topics| ==> Exit(env, subs, topics, end - 1)
    ensures ScanEnd(env, subs, topics, n) == end
    decreases end - n
  {
    hide Exit;
    if n < end - 1 {
      ScanEndIs(env, subs, topics, n + 1, end);
    }
  }

  /** rd_kafka_member_subscription_match. */
  method SubscriptionMatch(env: Env, sub: seq<string>, topic: string, eligible: seq<string>)
    returns (more: seq<string>, matched: nat, complete: bool)
    ensures matched == MatchCount(env, sub, topic) && more == eligible + seq(matched, _ => topic)
    ensures complete <==> RegexCount(env, sub, topic) == 0 && |more| == |sub|
  {
    more, matched := eligible, 0;
    var regexes := 0;
    var i := 0;
    while i < |sub|
      invariant 0 <= i <= |sub|
      invariant matched == MatchCount(env, sub[..i], topic) && regexes == RegexCount(env, sub[..i], topic)
      invariant more == eligible + seq(matched, _ => topic)
    {
      assert sub[..i + 1][..i] == sub[..i];
      if Matches(env, sub[i], topic) {
        more := more + [topic];
        matched := matched + 1;
        if IsRegex(sub[i]) {
          regexes := regexes + 1;
        }
      }
      i := i + 1;
    }
    assert sub[..|sub|] == sub;
    complete := regexes == 0 && |more| == |sub|;
  }

  /** The eligible lists after some topics, and one more for the first `i` members. */
  ghost predicate Listed(env: Env, subs: seq<seq<string>>, lists: seq<seq<string>>, before: seq<string>,
                         after: seq<string>, i: nat)
  {
    |lists| == |subs| && forall j :: 0 <= j < |subs| ==>
      lists[j] == EligibleOf(env, subs[j], if j < i then after else before)
  }

  ghost predicate AllComplete(env: Env, subs: seq<seq<string>>, scanned: seq<string>, topic: string, i: nat)
    requires i <= |subs|
  {
    forall j :: 0 <= j < i ==> Complete(env, subs[j], scanned, topic)
  }

  lemma ListedNext(env: Env, subs: seq<seq<string>>, lists: seq<seq<string>>, topics: seq<string>, n: nat, i: nat,
                   more: seq<string>)
    requires n < |topics| && i < |subs| && !env.blacklisted(topics[n])
    requires Listed(env, subs, lists, topics[..n], topics[..n + 1], i)
    requires |lists| == |subs| && more == lists[i] + seq(MatchCount(env, subs[i], topics[n]), _ => topics[n])
    ensures more == EligibleOf(env, subs[i], topics[..n + 1])
    ensures Listed(env, subs, lists[i := more], topics[..n], topics[..n + 1], i + 1)
  {
    assert topics[..n + 1][..n] == topics[..n];
  }

  lemma SubscribersNext(env: Env, subs: seq<seq<string>>, topic: string, i: nat)
    requires i < |subs|
    ensures Subscribers(env, subs[..i + 1], topic)
         == Subscribers(env, subs[..i], topic) + if MatchCount(env, subs[i], topic) > 0 then [i] else []
  {
    assert subs[..i + 1][..i] == subs[..i];
  }

  /** The inner loop: one topic against every member. */
  method MatchMembers(env: Env, subs: seq<seq<string>>, topics: seq<string>, n: nat, eligible: array<seq<string>>)
    returns (members: seq<nat>, complete: nat)
    requires n < |topics| && !env.blacklisted(topics[n])
    requires Listed(env, subs, eligible[..], topics[..n], topics[..n + 1], 0) && eligible.Length == |subs|
    modifies eligible
    ensures Listed(env, subs, eligible[..], topics[..n], topics[..n + 1], |subs|)
    ensures members == Subscribers(env, subs, topics[n]) && complete <= |subs|
    ensures complete == |subs| <==> AllComplete(env, subs, topics[..n + 1], topics[n], |subs|)
  {
    hide Listed, Subscribers, MatchCount, EligibleOf, RegexCount;
    members, complete := [], 0;
    var i := 0;
    Nobody(env, subs, topics[n]);
    while i < |subs|
      invariant 0 <= i <= |subs| && complete <= i
      invariant Listed(env, subs, eligible[..], topics[..n], topics[..n + 1], i)
      invariant members == Subscribers(env, subs[..i], topics[n])
      invariant complete == i <==> AllComplete(env, subs, topics[..n + 1], topics[n], i)
    {
      SubscribersNext(env, subs, topics[n], i);
      ghost var lists := eligible[..];
      var more, matched, whole := SubscriptionMatch(env, subs[i], topics[n], eligible[i]);
      ListedNext(env, subs, lists, topics, n, i, more);
      eligible[i] := more;
      assert eligible[..] == lists[i := more];
      if matched > 0 {
        members := members + [i];
      }
      if whole {
        complete := complete + 1;
      }
      i := i + 1;
    }
    assert subs[..|subs|] == subs;
  }

  lemma Nobody(env: Env, subs: seq<seq<string>>, topic: string)
    ensures Subscribers(env, subs[..0], topic) == []
  {
  }

  lemma ListedAll(env: Env, subs: seq<seq<string>>, lists: seq<seq<string>>, topics: seq<string>, n: nat)
    requires n < |topics| && Listed(env, subs, lists, topics[..n], topics[..n + 1], |subs|)
    ensures Listed(env, subs, lists, topics[..n + 1], if n + 1 < |topics| then topics[..n + 2] else [], 0)
  {
  }

  /** A topic nobody may or wants to read changes nothing. */
  lemma Skipped(env: Env, subs: seq<seq<string>>, lists: seq<seq<string>>, topics: seq<string>, n: nat)
    requires n < |topics| && env.blacklisted(topics[n])
    requires Listed(env, subs, lists, topics[..n], topics[..n + 1], 0)
    ensures Listed(env, subs, lists, topics[..n], topics[..n + 1], |subs|)
  {
    assert topics[..n + 1][..n] == topics[..n];
  }

  lemma TopicsNext(env: Env, subs: seq<seq<string>>, topics: seq<string>, n: nat)
    requires n < |topics|
    ensures EligibleTopics(env, subs, topics[..n + 1]) == EligibleTopics(env, subs, topics[..n])
      + if Wanted(env, subs, topics[n]) then [Eligible(topics[n], Subscribers(env, subs, topics[n]))] else []
  {
    assert topics[..n + 1][..n] == topics[..n];
  }

  /**
   rd_kafka_member_subscriptions_map: what a scan of the first topics gives, which are all of
   them or end with the first one that takes the early exit. The others lose nothing exactly
   when none of them is wanted.
   */
  method MapSubscriptions(env: Env, subs: seq<seq<string>>, topics: seq<string>, eligible: array<seq<string>>)
    returns (eligibleTopics: seq<Eligible>, scanned: nat)
    requires eligible.Length == |subs| && forall i :: 0 <= i < |subs| ==> eligible[i] == []
    modifies eligible
    ensures scanned == ScanEnd(env, subs, topics, 0) && eligibleTopics == EligibleTopics(env, subs, topics[..scanned])
    ensures forall i :: 0 <= i < |subs| ==> eligible[i] == EligibleOf(env, subs[i], topics[..scanned])
    ensures scanned < |topics| ==> scanned > 0 && Exit(env, subs, topics, scanned - 1)
    ensures forall n :: 0 <= n < scanned - 1 ==> !Exit(env, subs, topics, n)
    ensures SameAsFull(env, subs, topics, ScanEnd(env, subs, topics, 0))
       <==> forall j :: ScanEnd(env, subs, topics, 0) <= j < |topics| ==> !Wanted(env, subs, topics[j])
    ensures AllExact(subs) && Distinct(topics) ==> SameAsFull(env, subs, topics, scanned)
  {
    hide ScanEnd, Listed, Subscribers, MatchCount, EligibleOf, RegexCount, EligibleTopics, Complete, SameAsFull, AllExact;
    eligibleTopics, scanned := [], 0;
    Unlisted(env, subs, eligible[..], topics);
    while scanned < |topics|
      invariant 0 <= scanned <= |topics| && eligibleTopics == EligibleTopics(env, subs, topics[..scanned])
      invariant Listed(env, subs, eligible[..], topics[..scanned],
                       if scanned < |topics| then topics[..scanned + 1] else [], 0)
      invariant forall n :: 0 <= n < scanned ==> !Exit(env, subs, topics, n)
    {
      TopicsNext(env, subs, topics, scanned);
      if env.blacklisted(topics[scanned]) {
        Skipped(env, subs, eligible[..], topics, scanned);
        ListedAll(env, subs, eligible[..], topics, scanned);
        scanned := scanned + 1;
        continue;
      }
      var members, complete := MatchMembers(env, subs, topics, scanned, eligible);
      ListedAll(env, subs, eligible[..], topics, scanned);
      scanned := scanned + 1;
      if members == [] {
        continue;
      }
      eligibleTopics := eligibleTopics + [Eligible(topics[scanned - 1], members)];
      if complete == |subs| {
        break;
      }
    }
    EachListed(env, subs, eligible[..], topics, scanned);
    ScanEndIs(env, subs, topics, 0, scanned);
    NothingMissed(env, subs, topics, scanned);
    if AllExact(subs) && Distinct(topics) && scanned < |topics| {
      EarlyExitExact(env, subs, topics, scanned - 1);
    }
  }

  lemma Unlisted(env: Env, subs: seq<seq<string>>, lists: seq<seq<string>>, topics: seq<string>)
    requires |lists| == |subs| && forall i :: 0 <= i < |subs| ==> lists[i] == []
    ensures Listed(env, subs, lists, topics[..0], if 0 < |topics| then topics[..1] else [], 0)
    ensures EligibleTopics(env, subs, topics[..0]) == []
  {
  }

  lemma EachListed(env: Env, subs: seq<seq<string>>, lists: seq<seq<string>>, topics: seq<string>, n: nat)
    requires n <= |topics| && Listed(env, subs, lists, topics[..n], if n < |topics| then topics[..n + 1] else [], 0)
    ensures |lists| == |subs| && forall i :: 0 <= i < |subs| ==> lists[i] == EligibleOf(env, subs[i], topics[..n])
  {
  }

  /** Stopping after `n` topics gives the same lists as scanning all of them. */
  ghost predicate SameAsFull(env: Env, subs: seq<seq<string>>, topics: seq<string>, n: nat)
    requires n <= |topics|
  {
    && EligibleTopics(env, subs, topics[..n]) == EligibleTopics(env, subs, topics)
    && forall i :: 0 <= i < |subs| ==> EligibleOf(env, subs[i], topics[..n]) == EligibleOf(env, subs[i], topics)
  }

  lemma {:induction false} SubscribersAre(env: Env, subs: seq<seq<string>>, topic: string, i: nat)
    requires i < |subs|
    ensures MatchCount(env, subs[i], topic) > 0 ==> Subscribers(env, subs, topic) != []
    ensures Subscribers(env, subs, topic) != [] ==> exists j :: 0 <= j < |subs| && MatchCount(env, subs[j], topic) > 0
  {
    hide MatchCount;
    var n := |subs| - 1;
    var init := subs[..n];
    if n > 0 {
      SubscribersAre(env, init, topic, if i < n then i else 0);
      assert i < n ==> init[i] == subs[i];
    }
    if Subscribers(env, subs, topic) != [] && MatchCount(env, subs[n], topic) == 0 {
      assert Subscribers(env, init, topic) != [];
      assert exists j :: 0 <= j < |init| && MatchCount(env, init[j], topic) > 0;
      var j :| 0 <= j < |init| && MatchCount(env, init[j], topic) > 0;
      assert subs[j] == init[j];
    }
  }

  lemma Unwanted(env: Env, subs: seq<seq<string>>, topics: seq<string>, n: nat, i: nat)
    requires n < |topics| && i < |subs| && !Wanted(env, subs, topics[n])
    ensures EligibleOf(env, subs[i], topics[..n + 1]) == EligibleOf(env, subs[i], topics[..n])
  {
    SubscribersAre(env, subs, topics[n], i);
    assert topics[..n + 1][..n] == topics[..n];
  }

  lemma {:induction false} Longer(env: Env, subs: seq<seq<string>>, topics: seq<string>, n: nat, m: nat)
    requires n <= m <= |topics|
    ensures |EligibleTopics(env, subs, topics[..n])| <= |EligibleTopics(env, subs, topics[..m])|
  {
    hide EligibleTopics;
    if n < m {
      Longer(env, subs, topics, n, m - 1);
      TopicsNext(env, subs, topics, m - 1);
    }
  }

  /** Stopping early loses nothing exactly when none of the topics left is wanted. */
  lemma {:induction false} NothingMissed(env: Env, subs: seq<seq<string>>, topics: seq<string>, n: nat)
    requires n <= |topics|
    ensures SameAsFull(env, subs, topics, n) <==> forall j :: n <= j < |topics| ==> !Wanted(env, subs, topics[j])
    decreases |topics| - n
  {
    hide EligibleTopics, EligibleOf, Wanted;
    if n == |topics| {
      assert topics[..n] == topics;
    } else {
      NothingMissed(env, subs, topics, n + 1);
      TopicsNext(env, subs, topics, n);
      if Wanted(env, subs, topics[n]) {
        Longer(env, subs, topics, n + 1, |topics|);
        assert topics[..|topics|] == topics;
      } else {
        forall i | 0 <= i < |subs|
          ensures EligibleOf(env, subs[i], topics[..n + 1]) == EligibleOf(env, subs[i], topics[..n])
        {
          Unwanted(env, subs, topics, n, i);
        }
      }
    }
  }

  predicate ExactNames(sub: seq<string>) {
    forall k :: 0 <= k < |sub| ==> !IsRegex(sub[k])
  }

  predicate AllExact(subs: seq<seq<string>>) {
    forall i :: 0 <= i < |subs| ==> ExactNames(subs[i])
  }

  /** How often a name occurs among the topics that are not blacklisted. */
  function Occurs(env: Env, name: string, topics: seq<string>): nat {
    if topics == [] then 0
    else
      var t := topics[|topics| - 1];
      Occurs(env, name, topics[..|topics| - 1]) + if t == name && !env.blacklisted(t) then 1 else 0
  }

  function OccurAll(env: Env, sub: seq<string>, topics: seq<string>): nat {
    if sub == [] then 0
    else OccurAll(env, sub[..|sub| - 1], topics) + Occurs(env, sub[|sub| - 1], topics)
  }

  lemma {:induction false} OccursOnce(env: Env, name: string, topics: seq<string>)
    requires Distinct(topics)
    ensures Occurs(env, name, topics) <= 1
    ensures name !in topics ==> Occurs(env, name, topics) == 0
  {
    if topics != [] {
      var n := |topics| - 1;
      OccursOnce(env, name, topics[..n]);
      assert topics[n] !in topics[..n];
    }
  }

  lemma {:induction false} OccurAllPush(env: Env, sub: seq<string>, topics: seq<string>, t: string)
    ensures OccurAll(env, sub, topics + [t]) == OccurAll(env, sub, topics) + OccurAll(env, sub, [t])
  {
    if sub != [] {
      OccurAllPush(env, sub[..|sub| - 1], topics, t);
      var name := sub[|sub| - 1];
      assert (topics + [t])[..|topics|] == topics && [t][..0] == [];
      assert Occurs(env, name, [t]) == Occurs(env, name, []) + if t == name && !env.blacklisted(t) then 1 else 0;
    }
  }

  lemma {:induction false} OccurOne(env: Env, sub: seq<string>, t: string)
    requires ExactNames(sub)
    ensures OccurAll(env, sub, [t]) == if env.blacklisted(t) then 0 else MatchCount(env, sub, t)
  {
    if sub != [] {
      var n := |sub| - 1;
      assert forall k :: 0 <= k < n ==> sub[..n][k] == sub[k];
      OccurOne(env, sub[..n], t);
      assert [t][..0] == [];
      assert Occurs(env, sub[n], [t]) == Occurs(env, sub[n], []) + if t == sub[n] && !env.blacklisted(t) then 1 else 0;
    }
  }

  lemma {:induction false} NothingOccurs(env: Env, sub: seq<string>)
    ensures OccurAll(env, sub, []) == 0
  {
    if sub != [] {
      NothingOccurs(env, sub[..|sub| - 1]);
    }
  }

  /** With exact names, a member's list is as long as its entries occur among the topics. */
  lemma {:induction false} ListLength(env: Env, sub: seq<string>, topics: seq<string>)
    requires ExactNames(sub)
    ensures |EligibleOf(env, sub, topics)| == OccurAll(env, sub, topics)
  {
    if topics == [] {
      NothingOccurs(env, sub);
    } else {
      var n := |topics| - 1;
      ListLength(env, sub, topics[..n]);
      OccurAllPush(env, sub, topics[..n], topics[n]);
      OccurOne(env, sub, topics[n]);
      assert topics[..n] + [topics[n]] == topics;
    }
  }

  /** If every entry has been found, each one has. */
  lemma {:induction false} AllFound(env: Env, sub: seq<string>, topics: seq<string>, k: nat)
    requires Distinct(topics) && OccurAll(env, sub, topics) >= |sub| && k < |sub|
    ensures sub[k] in topics
  {
    var n := |sub| - 1;
    OccursOnce(env, sub[n], topics);
    AtMostAll(env, sub[..n], topics);
    if k < n {
      AllFound(env, sub[..n], topics, k);
    }
  }

  lemma {:induction false} AtMostAll(env: Env, sub: seq<string>, topics: seq<string>)
    requires Distinct(topics)
    ensures OccurAll(env, sub, topics) <= |sub|
  {
    if sub != [] {
      AtMostAll(env, sub[..|sub| - 1], topics);
      OccursOnce(env, sub[|sub| - 1], topics);
    }
  }

  lemma {:induction false} MatchedSome(env: Env, sub: seq<string>, topic: string)
    ensures MatchCount(env, sub, topic) > 0 <==> exists k :: 0 <= k < |sub| && Matches(env, sub[k], topic)
  {
    if sub != [] {
      var n := |sub| - 1;
      MatchedSome(env, sub[..n], topic);
      assert forall k :: 0 <= k < n ==> sub[..n][k] == sub[k];
      if MatchCount(env, sub[..n], topic) > 0 {
        var k :| 0 <= k < n && Matches(env, sub[..n][k], topic);
        assert Matches(env, sub[k], topic);
      }
    }
  }

  /** A complete member with exact names has no use for a topic further on. */
  lemma CompleteIsDone(env: Env, sub: seq<string>, topics: seq<string>, n: nat, j: nat)
    requires n < j < |topics| && Distinct(topics) && ExactNames(sub)
    requires |EligibleOf(env, sub, topics[..n + 1])| == |sub|
    ensures MatchCount(env, sub, topics[j]) == 0
  {
    hide EligibleOf, OccurAll;
    ListLength(env, sub, topics[..n + 1]);
    MatchedSome(env, sub, topics[j]);
    if k :| 0 <= k < |sub| && Matches(env, sub[k], topics[j]) {
      AllFound(env, sub, topics[..n + 1], k);
      assert false;
    }
  }

  /** With exact names and distinct topics the early exit loses nothing. */
  lemma EarlyExitExact(env: Env, subs: seq<seq<string>>, topics: seq<string>, n: nat)
    requires n < |topics| && Exit(env, subs, topics, n)
    requires Distinct(topics) && AllExact(subs)
    ensures SameAsFull(env, subs, topics, n + 1)
  {
    hide SameAsFull, Subscribers, EligibleOf, MatchCount;
    NothingMissed(env, subs, topics, n + 1);
    forall j | n + 1 <= j < |topics|
      ensures !Wanted(env, subs, topics[j])
    {
      forall i | 0 <= i < |subs|
        ensures MatchCount(env, subs[i], topics[j]) == 0
      {
        assert Complete(env, subs[i], topics[..n + 1], topics[n]);
        CompleteIsDone(env, subs[i], topics, n, j);
      }
      NoSubscribers(env, subs, topics[j]);
    }
  }

  lemma {:induction false} NoSubscribers(env: Env, subs: seq<seq<string>>, topic: string)
    requires forall i :: 0 <= i < |subs| ==> MatchCount(env, subs[i], topic) == 0
    ensures Subscribers(env, subs, topic) == []
  {
    if subs != [] {
      SubscribersAre(env, subs, topic, 0);
    }
  }

  lemma {:induction false} RegexOnly(env: Env, sub: seq<string>, topic: string)
    requires forall k :: 0 <= k < |sub| ==> IsRegex(sub[k])
    ensures RegexCount(env, sub, topic) == MatchCount(env, sub, topic)
  {
    if sub != [] {
      assert forall k :: 0 <= k < |sub| - 1 ==> sub[..|sub| - 1][k] == sub[k];
      RegexOnly(env, sub[..|sub| - 1], topic);
    }
  }

  /** With regular expressions only, the early exit is never taken. */
  lemma RegexNeverExits(env: Env, subs: seq<seq<string>>, topics: seq<string>, n: nat)
    requires n < |topics| && forall i, k :: 0 <= i < |subs| && 0 <= k < |subs[i]| ==> IsRegex(subs[i][k])
    ensures !Exit(env, subs, topics, n)
  {
    hide EligibleOf, Subscribers, RegexCount, MatchCount;
    if Exit(env, subs, topics, n) {
      var t := topics[n];
      assert subs != [] by {
        if subs == [] {
          NoSubscribers(env, subs, t);
        }
      }
      SubscribersAre(env, subs, t, 0);
      var i :| 0 <= i < |subs| && MatchCount(env, subs[i], t) > 0;
      RegexOnly(env, subs[i], t);
      assert false;
    }
  }

  /**
   With both kinds the exit can come too soon: one member wants every topic that begins with
   "a", another one "b", and the scan of a1, b, a2 ends at b.
   */
  lemma MixedExitsTooSoon(env: Env)
    requires !env.blacklisted("a1") && !env.blacklisted("b") && !env.blacklisted("a2")
    requires env.regex("^a", "a1") && !env.regex("^a", "b") && env.regex("^a", "a2")
    ensures var subs, topics := [["^a"], ["b"]], ["a1", "b", "a2"];
      Exit(env, subs, topics, 1) && !SameAsFull(env, subs, topics, 2)
  {
    var subs, topics := [["^a"], ["b"]], ["a1", "b", "a2"];
    MixedCounts(env);
    hide EligibleOf, Subscribers, MatchCount, RegexCount, SameAsFull;
    NothingMissed(env, subs, topics, 2);
    assert topics[..2] == ["a1", "b"];
    SubscribersAre(env, subs, "b", 1);
    SubscribersAre(env, subs, "a2", 0);
    assert Wanted(env, subs, topics[2]);
  }

  lemma MixedCounts(env: Env)
    requires !env.blacklisted("a1") && !env.blacklisted("b") && !env.blacklisted("a2")
    requires env.regex("^a", "a1") && !env.regex("^a", "b") && env.regex("^a", "a2")
    ensures MatchCount(env, ["b"], "b") > 0 && MatchCount(env, ["^a"], "a2") > 0
    ensures RegexCount(env, ["b"], "b") == 0 && RegexCount(env, ["^a"], "b") == 0
    ensures |EligibleOf(env, ["^a"], ["a1", "b"])| == 1 && |EligibleOf(env, ["b"], ["a1", "b"])| == 1
  {
    var topics := ["a1", "b"];
    assert topics[..1] == ["a1"] && ["a1"][..0] == [];
    assert ["b"][..0] == [] && ["^a"][..0] == [];
    CountOne(env, "^a", "a1");
    CountOne(env, "^a", "b");
    CountOne(env, "^a", "a2");
    CountOne(env, "b", "a1");
    CountOne(env, "b", "b");
    assert "^a"[0] == '^' && "b"[0] == 'b';
    assert "b" != "a1" by { assert |"b"| != |"a1"|; }
    TwoTopics(env, ["^a"]);
    TwoTopics(env, ["b"]);
  }

  lemma TwoTopics(env: Env, sub: seq<string>)
    requires !env.blacklisted("a1") && !env.blacklisted("b")
    ensures |EligibleOf(env, sub, ["a1", "b"])| == MatchCount(env, sub, "a1") + MatchCount(env, sub, "b")
  {
    assert ["a1", "b"][..1] == ["a1"] && ["a1"][..0] == [];
    assert |EligibleOf(env, sub, ["a1"])| == |EligibleOf(env, sub, [])| + MatchCount(env, sub, "a1");
    assert |EligibleOf(env, sub, ["a1", "b"])| == |EligibleOf(env, sub, ["a1"])| + MatchCount(env, sub, "b");
  }

  lemma CountOne(env: Env, pattern: string, topic: string)
    ensures MatchCount(env, [pattern], topic) == if Matches(env, pattern, topic) then 1 else 0
    ensures RegexCount(env, [pattern], topic) == if IsRegex(pattern) && Matches(env, pattern, topic) then 1 else 0
  {
    assert [pattern][..0] == [];
    assert MatchCount(env, [], topic) == 0 && RegexCount(env, [], topic) == 0;
  }
}
