/** The Fetch request on the wire, and a decoder for it. */
module FetchFormat {
  import opened Bytes
  import opened WriteBuffer

  /** A topic object; `id` is its address, which the builder compares. */
  datatype Topic = Topic(id: nat, name: KString)

  datatype Toppar = Toppar(topic: Topic, partition: int, offset: int)

  /** Neighbouring partitions of one topic. */
  datatype Run = Run(topic: Topic, parts: seq<Toppar>)

  /** One more partition: to the last run if it is of the same topic, else a run of its own. */
  function Extend(rs: seq<Run>, p: Toppar): (r: seq<Run>)
    ensures r != [] && r[|r| - 1].topic == p.topic
  {
    if rs != [] && rs[|rs| - 1].topic == p.topic then
      rs[..|rs| - 1] + [Run(p.topic, rs[|rs| - 1].parts + [p])]
    else rs + [Run(p.topic, [p])]
  }

  /** The longest runs of a list of partitions. */
  function Runs(ps: seq<Toppar>): seq<Run> {
    if ps == [] then [] else Extend(Runs(ps[..|ps| - 1]), ps[|ps| - 1])
  }

  function Flatten(rs: seq<Run>): seq<Toppar> {
    if rs == [] then [] else Flatten(rs[..|rs| - 1]) + rs[|rs| - 1].parts
  }

  lemma FlattenPush(rs: seq<Run>, r: Run)
    ensures Flatten(rs + [r]) == Flatten(rs) + r.parts
  {
    assert (rs + [r])[..|rs|] == rs;
  }

  /** Runs are not empty, hold one topic, and neighbours differ. */
  predicate Grouped(rs: seq<Run>) {
    && (forall i :: 0 <= i < |rs| ==> rs[i].parts != [])
    && (forall i, j :: 0 <= i < |rs| && 0 <= j < |rs[i].parts| ==> rs[i].parts[j].topic == rs[i].topic)
    && (forall i :: 0 < i < |rs| ==> rs[i - 1].topic != rs[i].topic)
  }

  lemma ExtendFlatten(rs: seq<Run>, p: Toppar)
    ensures Flatten(Extend(rs, p)) == Flatten(rs) + [p]
    ensures |rs| <= |Extend(rs, p)| <= |rs| + 1
  {
    if rs != [] && rs[|rs| - 1].topic == p.topic {
      var m := |rs| - 1;
      assert rs[..m] + [rs[m]] == rs;
      FlattenPush(rs[..m], rs[m]);
      FlattenPush(rs[..m], Run(p.topic, rs[m].parts + [p]));
    } else {
      FlattenPush(rs, Run(p.topic, [p]));
    }
  }

  lemma ExtendGrouped(rs: seq<Run>, p: Toppar)
    requires Grouped(rs)
    ensures Grouped(Extend(rs, p))
  {
    var es := Extend(rs, p);
    var m := |es| - 1;
    assert forall i :: 0 <= i < m ==> es[i] == rs[i];
    assert forall j :: 0 <= j < |es[m].parts| ==> es[m].parts[j].topic == p.topic;
  }

  /** Grouping neither loses, repeats nor reorders a partition. */
  lemma {:induction false} RunsFlatten(ps: seq<Toppar>)
    ensures Flatten(Runs(ps)) == ps && Grouped(Runs(ps)) && |Runs(ps)| <= |ps|
  {
    hide Extend, Grouped, Flatten;
    if ps == [] {
      NoRuns();
    } else {
      var n := |ps| - 1;
      RunsFlatten(ps[..n]);
      assert ps[..n] + [ps[n]] == ps;
      ExtendFlatten(Runs(ps[..n]), ps[n]);
      ExtendGrouped(Runs(ps[..n]), ps[n]);
    }
  }

  lemma NoRuns()
    ensures Flatten([]) == [] && Grouped([])
  {
  }

  function PartOctets(p: Toppar, maxBytes: int): (s: seq<byte>)
    ensures |s| == 16
  {
    EncodeInt(p.partition, 4) + EncodeInt(p.offset, 8) + EncodeInt(maxBytes, 4)
  }

  function PartsOctets(ps: seq<Toppar>, maxBytes: int): seq<byte> {
    if ps == [] then [] else PartOctets(ps[0], maxBytes) + PartsOctets(ps[1..], maxBytes)
  }

  lemma {:induction false} PartsPush(ps: seq<Toppar>, p: Toppar, maxBytes: int)
    ensures PartsOctets(ps + [p], maxBytes) == PartsOctets(ps, maxBytes) + PartOctets(p, maxBytes)
  {
    hide PartOctets;
    if ps != [] {
      PartsPush(ps[1..], p, maxBytes);
      assert (ps + [p])[1..] == ps[1..] + [p];
    } else {
      assert ([] + [p])[1..] == [];
    }
  }

  /** A topic with the partition count as given. */
  function RunOctets(r: Run, count: int, maxBytes: int): seq<byte> {
    KStringOctets(r.topic.name) + EncodeInt(count, 4) + PartsOctets(r.parts, maxBytes)
  }

  function RunsOctets(rs: seq<Run>, maxBytes: int): seq<byte> {
    if rs == [] then []
    else RunOctets(rs[0], |rs[0].parts|, maxBytes) + RunsOctets(rs[1..], maxBytes)
  }

  lemma {:induction false} RunsPush(rs: seq<Run>, r: Run, maxBytes: int)
    ensures RunsOctets(rs + [r], maxBytes) == RunsOctets(rs, maxBytes) + RunOctets(r, |r.parts|, maxBytes)
  {
    hide RunOctets;
    if rs != [] {
      RunsPush(rs[1..], r, maxBytes);
      assert (rs + [r])[1..] == rs[1..] + [r];
    } else {
      assert ([] + [r])[1..] == [];
    }
  }

  function FetchHead(maxWait: int, minBytes: int, topics: int): (s: seq<byte>)
    ensures |s| == 16
  {
    EncodeInt(-1, 4) + EncodeInt(maxWait, 4) + EncodeInt(minBytes, 4) + EncodeInt(topics, 4)
  }

  function FetchOctets(maxWait: int, minBytes: int, maxBytes: int, rs: seq<Run>): seq<byte> {
    FetchHead(maxWait, minBytes, |rs|) + RunsOctets(rs, maxBytes)
  }

  datatype WirePart = WirePart(partition: int, offset: int, maxBytes: int)
  datatype WireTopic = WireTopic(name: KString, parts: seq<WirePart>)
  datatype WireFetch = WireFetch(replicaId: int, maxWait: int, minBytes: int, topics: seq<WireTopic>)

  function Wire(p: Toppar, maxBytes: int): WirePart { WirePart(p.partition, p.offset, maxBytes) }

  function WireParts(ps: seq<Toppar>, maxBytes: int): seq<WirePart> {
    if ps == [] then [] else [Wire(ps[0], maxBytes)] + WireParts(ps[1..], maxBytes)
  }

  function WireTopics(rs: seq<Run>, maxBytes: int): seq<WireTopic> {
    if rs == [] then []
    else [WireTopic(rs[0].topic.name, WireParts(rs[0].parts, maxBytes))] + WireTopics(rs[1..], maxBytes)
  }

  // The decoder reads the counts and then as many items; None stands for a short or malformed request.

  function DecodeParts(s: seq<byte>, n: nat): Option<(seq<WirePart>, seq<byte>)> {
    if n == 0 then Some(([], s))
    else if |s| < 16 then None
    else
      var p := WirePart(DecodeInt(s[..4]), DecodeInt(s[4..12]), DecodeInt(s[12..16]));
      var rest := DecodeParts(s[16..], n - 1);
      if rest.None? then None else Some(([p] + rest.value.0, rest.value.1))
  }

  function DecodeKString(s: seq<byte>): Option<(KString, seq<byte>)> {
    if |s| < 2 then None
    else
      var len := DecodeInt(s[..2]);
      if len == -1 then Some((None, s[2..]))
      else if len < 0 || |s| < 2 + len then None
      else Some((Some(s[2..2 + len]), s[2 + len..]))
  }

  function DecodeTopics(s: seq<byte>, n: nat): Option<(seq<WireTopic>, seq<byte>)>
    decreases n
  {
    if n == 0 then Some(([], s))
    else
      var name := DecodeKString(s);
      if name.None? || |name.value.1| < 4 then None
      else
        var count := DecodeInt(name.value.1[..4]);
        if count < 0 then None
        else
          var parts := DecodeParts(name.value.1[4..], count);
          if parts.None? then None
          else
            var rest := DecodeTopics(parts.value.1, n - 1);
            if rest.None? then None
            else Some(([WireTopic(name.value.0, parts.value.0)] + rest.value.0, rest.value.1))
  }

  /** A whole request body: nothing may be left over. */
  function DecodeFetch(s: seq<byte>): Option<WireFetch> {
    if |s| < 16 || DecodeInt(s[12..16]) < 0 then None
    else
      var topics := DecodeTopics(s[16..], DecodeInt(s[12..16]));
      if topics.None? || topics.value.1 != [] then None
      else Some(WireFetch(DecodeInt(s[..4]), DecodeInt(s[4..8]), DecodeInt(s[8..12]), topics.value.0))
  }

  predicate PartFits(p: Toppar) {
    FitsInt(p.partition, 4) && FitsInt(p.offset, 8) && (p.topic.name.Some? ==> |p.topic.name.value| <= 0x7fff)
  }

  predicate PartsFit(ps: seq<Toppar>) {
    forall i :: 0 <= i < |ps| ==> PartFits(ps[i])
  }

  lemma DecodePart(p: Toppar, maxBytes: int, rest: seq<byte>)
    requires PartFits(p) && FitsInt(maxBytes, 4)
    ensures var s := PartOctets(p, maxBytes) + rest;
      && |s| >= 16 && s[16..] == rest
      && WirePart(DecodeInt(s[..4]), DecodeInt(s[4..12]), DecodeInt(s[12..16])) == Wire(p, maxBytes)
  {
    hide EncodeInt, DecodeInt;
    IntRoundTrip(p.partition, 4);
    IntRoundTrip(p.offset, 8);
    IntRoundTrip(maxBytes, 4);
    var s := PartOctets(p, maxBytes) + rest;
    assert s[..4] == EncodeInt(p.partition, 4) && s[4..12] == EncodeInt(p.offset, 8);
    assert s[12..16] == EncodeInt(maxBytes, 4);
  }

  lemma {:induction false} DecodePartsOf(ps: seq<Toppar>, maxBytes: int, rest: seq<byte>)
    requires PartsFit(ps) && FitsInt(maxBytes, 4)
    ensures DecodeParts(PartsOctets(ps, maxBytes) + rest, |ps|) == Some((WireParts(ps, maxBytes), rest))
  {
    hide PartOctets, DecodeInt, PartFits, FitsInt;
    if ps == [] {
      assert [] + rest == rest;
    } else {
      var tail := PartsOctets(ps[1..], maxBytes) + rest;
      assert PartsOctets(ps, maxBytes) + rest == PartOctets(ps[0], maxBytes) + tail;
      DecodePart(ps[0], maxBytes, tail);
      assert forall i :: 0 <= i < |ps| - 1 ==> ps[1..][i] == ps[i + 1];
      DecodePartsOf(ps[1..], maxBytes, rest);
    }
  }

  lemma DecodeName(k: KString, rest: seq<byte>)
    requires k.Some? ==> |k.value| <= 0x7fff
    ensures DecodeKString(KStringOctets(k) + rest) == Some((k, rest))
  {
    Widths();
    hide EncodeInt, DecodeInt;
    var len := if k.None? then -1 else |k.value|;
    IntRoundTrip(len, 2);
    var s := KStringOctets(k) + rest;
    assert s[..2] == EncodeInt(len, 2);
    if k.Some? {
      assert s[2..2 + len] == k.value && s[2 + len..] == rest;
    } else {
      assert s[2..] == rest;
    }
  }

  predicate RunFits(r: Run) {
    PartsFit(r.parts) && |r.parts| <= INT32_MAX && (r.topic.name.Some? ==> |r.topic.name.value| <= 0x7fff)
  }

  predicate RunsFit(rs: seq<Run>) {
    forall i :: 0 <= i < |rs| ==> RunFits(rs[i])
  }

  lemma DecodeCount(n: nat, rest: seq<byte>)
    requires n <= INT32_MAX
    ensures var s := EncodeInt(n, 4) + rest;
      |s| >= 4 && DecodeInt(s[..4]) == n && s[4..] == rest
  {
    Widths();
    hide EncodeInt, DecodeInt;
    IntRoundTrip(n, 4);
    assert (EncodeInt(n, 4) + rest)[..4] == EncodeInt(n, 4);
  }

  lemma {:induction false} DecodeTopicsOf(rs: seq<Run>, maxBytes: int, rest: seq<byte>)
    requires RunsFit(rs) && FitsInt(maxBytes, 4)
    ensures DecodeTopics(RunsOctets(rs, maxBytes) + rest, |rs|) == Some((WireTopics(rs, maxBytes), rest))
  {
    hide DecodeParts, DecodeKString, DecodeInt, EncodeInt, KStringOctets, PartsOctets, FitsInt, PartsFit;
    if rs == [] {
      assert [] + rest == rest;
    } else {
      var r := rs[0];
      var tail := RunsOctets(rs[1..], maxBytes) + rest;
      var s2 := PartsOctets(r.parts, maxBytes) + tail;
      var s1 := EncodeInt(|r.parts|, 4) + s2;
      assert RunsOctets(rs, maxBytes) + rest == KStringOctets(r.topic.name) + s1;
      DecodeName(r.topic.name, s1);
      DecodeCount(|r.parts|, s2);
      DecodePartsOf(r.parts, maxBytes, tail);
      assert forall i :: 0 <= i < |rs| - 1 ==> rs[1..][i] == rs[i + 1];
      DecodeTopicsOf(rs[1..], maxBytes, rest);
    }
  }

  lemma ReplicaFits()
    ensures FitsInt(-1, 4)
  {
    Widths();
  }

  /** Where each field of the fixed part lies; a client's ReplicaId is -1. */
  lemma FetchHeadLayout(maxWait: int, minBytes: int, topics: int)
    requires FitsInt(maxWait, 4) && FitsInt(minBytes, 4) && FitsInt(topics, 4)
    ensures var h := FetchHead(maxWait, minBytes, topics);
      && DecodeInt(h[..4]) == -1 && DecodeInt(h[4..8]) == maxWait && DecodeInt(h[8..12]) == minBytes
      && DecodeInt(h[12..]) == topics
  {
    hide EncodeInt, DecodeInt, FitsInt;
    ReplicaFits();
    IntRoundTrip(-1, 4);
    IntRoundTrip(maxWait, 4);
    IntRoundTrip(minBytes, 4);
    IntRoundTrip(topics, 4);
    var h := FetchHead(maxWait, minBytes, topics);
    assert h[..4] == EncodeInt(-1, 4) && h[4..8] == EncodeInt(maxWait, 4);
    assert h[8..12] == EncodeInt(minBytes, 4) && h[12..] == EncodeInt(topics, 4);
  }

  /** And of a partition. */
  lemma PartLayout(p: Toppar, maxBytes: int)
    requires PartFits(p) && FitsInt(maxBytes, 4)
    ensures var s := PartOctets(p, maxBytes);
      DecodeInt(s[..4]) == p.partition && DecodeInt(s[4..12]) == p.offset && DecodeInt(s[12..16]) == maxBytes
  {
    hide EncodeInt, DecodeInt, PartOctets;
    DecodePart(p, maxBytes, []);
    assert PartOctets(p, maxBytes) + [] == PartOctets(p, maxBytes);
  }

  /** Decoding what was built gives the topics, partitions and offsets, and leaves nothing over. */
  lemma RoundTrip(maxWait: int, minBytes: int, maxBytes: int, rs: seq<Run>)
    requires FitsInt(maxWait, 4) && FitsInt(minBytes, 4) && FitsInt(maxBytes, 4) && RunsFit(rs) && |rs| <= INT32_MAX
    ensures DecodeFetch(FetchOctets(maxWait, minBytes, maxBytes, rs))
         == Some(WireFetch(-1, maxWait, minBytes, WireTopics(rs, maxBytes)))
  {
    hide EncodeInt, DecodeInt, RunsOctets, DecodeTopics, WireTopics, FitsInt, RunsFit;
    var s := FetchOctets(maxWait, minBytes, maxBytes, rs);
    var body := RunsOctets(rs, maxBytes);
    IntRoundTrip(maxWait, 4);
    IntRoundTrip(minBytes, 4);
    ReplicaFits();
    IntRoundTrip(-1, 4);
    DecodeCount(|rs|, []);
    assert s[..4] == EncodeInt(-1, 4);
    assert (EncodeInt(|rs|, 4) + [])[..4] == EncodeInt(|rs|, 4);
    assert s[4..8] == EncodeInt(maxWait, 4) && s[8..12] == EncodeInt(minBytes, 4) && s[12..16] == EncodeInt(|rs|, 4);
    assert s[16..] == body == body + [];
    DecodeTopicsOf(rs, maxBytes, []);
  }

  /** What a request asks for, partition by partition. */
  function Asked(topics: seq<WireTopic>): seq<(KString, WirePart)> {
    if topics == [] then [] else AskedOf(topics[0].name, topics[0].parts) + Asked(topics[1..])
  }

  function AskedOf(name: KString, parts: seq<WirePart>): seq<(KString, WirePart)> {
    if parts == [] then [] else [(name, parts[0])] + AskedOf(name, parts[1..])
  }

  function Asking(ps: seq<Toppar>, maxBytes: int): seq<(KString, WirePart)> {
    if ps == [] then [] else [(ps[0].topic.name, Wire(ps[0], maxBytes))] + Asking(ps[1..], maxBytes)
  }

  /** The i-th entry is the i-th partition: its topic's name, its number, its offset, and the most octets to send. */
  lemma {:induction false} AskingAt(ps: seq<Toppar>, maxBytes: int, i: nat)
    requires i < |ps|
    ensures |Asking(ps, maxBytes)| == |ps|
    ensures Asking(ps, maxBytes)[i] == (ps[i].topic.name, WirePart(ps[i].partition, ps[i].offset, maxBytes))
  {
    if |ps| > 1 {
      AskingAt(ps[1..], maxBytes, if i > 0 then i - 1 else 0);
    }
  }

  lemma {:induction false} AskingConcat(a: seq<Toppar>, b: seq<Toppar>, maxBytes: int)
    ensures Asking(a + b, maxBytes) == Asking(a, maxBytes) + Asking(b, maxBytes)
  {
    if a == [] {
      assert [] + b == b;
    } else {
      assert (a + b)[1..] == a[1..] + b;
      AskingConcat(a[1..], b, maxBytes);
    }
  }

  lemma {:induction false} AskingRun(topic: Topic, ps: seq<Toppar>, maxBytes: int)
    requires forall j :: 0 <= j < |ps| ==> ps[j].topic == topic
    ensures AskedOf(topic.name, WireParts(ps, maxBytes)) == Asking(ps, maxBytes)
  {
    if ps != [] {
      AskingRun(topic, ps[1..], maxBytes);
    }
  }

  lemma {:induction false} FlattenFront(r: Run, rs: seq<Run>)
    ensures Flatten([r] + rs) == r.parts + Flatten(rs)
  {
    hide Flatten;
    if rs == [] {
      FlattenPush([], r);
      assert [] + [r] == [r] + [];
      NothingFlattened(r);
    } else {
      var n := |rs| - 1;
      FlattenFront(r, rs[..n]);
      FlattenPush([r] + rs[..n], rs[n]);
      FlattenPush(rs[..n], rs[n]);
      assert [r] + rs[..n] + [rs[n]] == [r] + rs && rs[..n] + [rs[n]] == rs;
    }
  }

  lemma NothingFlattened(r: Run)
    ensures Flatten([]) == [] && [] + r.parts == r.parts == r.parts + []
  {
  }

  predicate OneTopicEach(rs: seq<Run>) {
    forall i :: 0 <= i < |rs| ==> forall j :: 0 <= j < |rs[i].parts| ==> rs[i].parts[j].topic == rs[i].topic
  }

  lemma {:induction false} AskedTopics(rs: seq<Run>, maxBytes: int)
    requires OneTopicEach(rs)
    ensures Asked(WireTopics(rs, maxBytes)) == Asking(Flatten(rs), maxBytes)
  {
    hide Flatten, Asking, AskedOf, WireParts;
    if rs == [] {
      NothingAsked(maxBytes);
    } else {
      assert rs == [rs[0]] + rs[1..];
      FlattenFront(rs[0], rs[1..]);
      AskingRun(rs[0].topic, rs[0].parts, maxBytes);
      AskingConcat(rs[0].parts, Flatten(rs[1..]), maxBytes);
      assert forall i :: 0 <= i < |rs| - 1 ==> rs[1..][i] == rs[i + 1];
      AskedTopics(rs[1..], maxBytes);
    }
  }

  lemma NothingAsked(maxBytes: int)
    ensures Asking(Flatten([]), maxBytes) == []
  {
  }

  lemma GroupedTopics(rs: seq<Run>)
    requires Grouped(rs)
    ensures OneTopicEach(rs)
  {
  }

  lemma {:induction false} FlattenHas(rs: seq<Run>, i: nat)
    requires i < |rs|
    ensures |rs[i].parts| <= |Flatten(rs)| && forall p :: p in rs[i].parts ==> p in Flatten(rs)
  {
    var n := |rs| - 1;
    if i < n {
      FlattenHas(rs[..n], i);
    }
  }

  lemma RunsFitToo(ps: seq<Toppar>)
    requires PartsFit(ps) && |ps| <= INT32_MAX
    ensures RunsFit(Runs(ps)) && |Runs(ps)| <= INT32_MAX
  {
    hide PartFits, Flatten, Runs;
    RunsFlatten(ps);
    var rs := Runs(ps);
    forall i | 0 <= i < |rs|
      ensures RunFits(rs[i])
    {
      FlattenHas(rs, i);
      forall j | 0 <= j < |rs[i].parts|
        ensures PartFits(rs[i].parts[j])
      {
        assert rs[i].parts[j] in ps;
      }
      TopicNameFits(rs[i]);
    }
  }

  lemma TopicNameFits(r: Run)
    requires r.parts != [] && r.parts[0].topic == r.topic && PartFits(r.parts[0])
    ensures r.topic.name.Some? ==> |r.topic.name.value| <= 0x7fff
  {
  }

  /** A request built for a list of partitions asks for exactly these, in this order. */
  lemma AsksForAll(maxWait: int, minBytes: int, maxBytes: int, ps: seq<Toppar>)
    requires FitsInt(maxWait, 4) && FitsInt(minBytes, 4) && FitsInt(maxBytes, 4) && PartsFit(ps) && |ps| <= INT32_MAX
    ensures var d := DecodeFetch(FetchOctets(maxWait, minBytes, maxBytes, Runs(ps)));
      d.Some? && Asked(d.value.topics) == Asking(ps, maxBytes)
  {
    hide *;
    RunsFitToo(ps);
    RunsFlatten(ps);
    GroupedTopics(Runs(ps));
    RoundTrip(maxWait, minBytes, maxBytes, Runs(ps));
    AskedTopics(Runs(ps), maxBytes);
  }
}
