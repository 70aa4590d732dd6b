/**
 The deployment protocol: the controller's cache of publications (DeployCtrl.py) and the agent
 that keeps its modules up to date (UpdateModuleMgr.cpp, DownloadThread.cpp).
 */
module Deploy {
  import opened Bytes

  datatype Key = Key(project: string, mod: string)
  datatype Pair = Pair(version: string, hash: string)

  /** `at` stands for the publish time, whose text orders like an integer. */
  datatype Publication = Publication(key: Key, pair: Pair, url: string, code: string, at: int, indexes: set<int>)

  datatype Check = Check(rid: string, key: Key, pair: Pair)
  datatype Update = Update(rid: string, key: Key, pair: Pair, url: string, code: string)

  /** A managed server; it has no deploy record before its activation succeeded. */
  datatype Server = Server(deploy: Option<map<Key, Pair>>)

  /** What the cache holds for a module after some publications have been dealt with. */
  function Kept(ps: seq<Publication>, key: Key): Option<Publication> {
    if ps == [] then None
    else
      var kept, p := Kept(ps[..|ps| - 1], key), ps[|ps| - 1];
      if p.key != key || (kept.Some? && kept.value.at > p.at) then kept else Some(p)
  }

  /** What loading the cache from the database does: only a newer one replaces the one found first. */
  function Loaded(ps: seq<Publication>, key: Key): Option<Publication> {
    if ps == [] then None
    else
      var kept, p := Loaded(ps[..|ps| - 1], key), ps[|ps| - 1];
      if p.key != key || (kept.Some? && kept.value.at >= p.at) then kept else Some(p)
  }

  /** `r` is a publication of the module, and none of them is newer. */
  ghost predicate Newest(ps: seq<Publication>, key: Key, r: Option<Publication>) {
    && (r.Some? ==> r.value in ps && r.value.key == key)
    && (forall p :: p in ps && p.key == key ==> r.Some? && p.at <= r.value.at)
  }

  lemma {:induction false} KeptIsNewest(ps: seq<Publication>, key: Key)
    ensures Newest(ps, key, Kept(ps, key)) && Newest(ps, key, Loaded(ps, key))
  {
    if ps != [] {
      KeptIsNewest(ps[..|ps| - 1], key);
      assert ps == ps[..|ps| - 1] + [ps[|ps| - 1]];
    }
  }

  /** No two publications of a module at one time. */
  ghost predicate DistinctTimes(ps: seq<Publication>, key: Key) {
    forall p, q :: p in ps && q in ps && p.key == q.key == key && p.at == q.at ==> p == q
  }

  ghost predicate IsNewest(ps: seq<Publication>, key: Key, p: Publication) {
    p in ps && p.key == key && forall q :: q in ps && q.key == key ==> q.at <= p.at
  }

  /** At most one publication of the module has the newest time. */
  ghost predicate OneNewest(ps: seq<Publication>, key: Key) {
    forall p, q :: IsNewest(ps, key, p) && IsNewest(ps, key, q) ==> p == q
  }

  lemma DistinctTimesSuffice(ps: seq<Publication>, key: Key)
    requires DistinctTimes(ps, key)
    ensures OneNewest(ps, key)
  {
  }

  ghost predicate SameElements(ps: seq<Publication>, qs: seq<Publication>) {
    forall p :: p in ps <==> p in qs
  }

  ghost predicate Rearranged(ps: seq<Publication>, qs: seq<Publication>) {
    multiset(ps) == multiset(qs)
  }

  lemma RearrangedSame(ps: seq<Publication>, qs: seq<Publication>)
    requires Rearranged(ps, qs)
    ensures SameElements(ps, qs)
  {
    assert forall p :: p in ps <==> p in multiset(ps);
    assert forall p :: p in qs <==> p in multiset(qs);
  }

  /** With one newest publication neither order nor repetition matters, dealing with them or loading them. */
  lemma OneNewestKept(ps: seq<Publication>, qs: seq<Publication>, key: Key)
    requires OneNewest(ps, key) && SameElements(ps, qs)
    ensures Kept(ps, key) == Kept(qs, key) == Loaded(qs, key)
  {
    hide Kept, Loaded;
    KeptIsNewest(ps, key);
    KeptIsNewest(qs, key);
    assert Kept(qs, key).Some? ==> IsNewest(ps, key, Kept(qs, key).value);
    assert Loaded(qs, key).Some? ==> IsNewest(ps, key, Loaded(qs, key).value);
    assert Kept(ps, key).Some? ==> IsNewest(ps, key, Kept(ps, key).value);
  }

  /** A newest publication is kept when it comes last, and loaded when it comes first. */
  lemma LastKept(ps: seq<Publication>, k: nat, key: Key)
    requires k < |ps| && IsNewest(ps, key, ps[k])
    ensures var qs := ps[..k] + ps[k + 1..] + [ps[k]];
      Rearranged(ps, qs) && Kept(qs, key) == Some(ps[k])
  {
    var rest := ps[..k] + ps[k + 1..];
    assert ps == ps[..k] + [ps[k]] + ps[k + 1..];
    assert (rest + [ps[k]])[..|rest|] == rest;
    KeptIsNewest(rest, key);
    assert forall p :: p in rest ==> p in ps;
  }

  lemma FirstLoaded(ps: seq<Publication>, k: nat, key: Key)
    requires k < |ps| && IsNewest(ps, key, ps[k])
    ensures var qs := [ps[k]] + (ps[..k] + ps[k + 1..]);
      Rearranged(ps, qs) && Loaded(qs, key) == Some(ps[k])
  {
    var rest := ps[..k] + ps[k + 1..];
    assert ps == ps[..k] + [ps[k]] + ps[k + 1..];
    assert forall p :: p in rest ==> p in ps;
    LoadedStays(ps[k], rest);
  }

  lemma {:induction false} LoadedStays(p: Publication, rest: seq<Publication>)
    requires forall q :: q in rest && q.key == p.key ==> q.at <= p.at
    ensures Loaded([p] + rest, p.key) == Some(p)
  {
    if rest == [] {
      JustOne(p);
      assert [p] + rest == [p];
    } else {
      var n := |rest| - 1;
      LoadedStays(p, rest[..n]);
      assert ([p] + rest)[..n + 1] == [p] + rest[..n];
    }
  }

  /**
   The cache is the same whatever the order of arrival, and however often a publication
   arrives, exactly when the module has one newest publication; and then exactly does loading
   the stored publications, in whatever order, bring back the cache.
   */
  lemma ArrivalOrder(ps: seq<Publication>, key: Key)
    ensures OneNewest(ps, key) <==> forall qs :: SameElements(ps, qs) ==> Kept(qs, key) == Kept(ps, key)
    ensures OneNewest(ps, key) <==> forall qs :: Rearranged(ps, qs) ==> Kept(qs, key) == Kept(ps, key)
    ensures OneNewest(ps, key) <==> forall qs :: Rearranged(ps, qs) ==> Loaded(qs, key) == Kept(ps, key)
  {
    hide Kept, Loaded, Rearranged, SameElements, IsNewest;
    forall qs | Rearranged(ps, qs)
      ensures SameElements(ps, qs)
    {
      RearrangedSame(ps, qs);
    }
    if OneNewest(ps, key) {
      forall qs | SameElements(ps, qs)
        ensures Kept(ps, key) == Kept(qs, key) == Loaded(qs, key)
      {
        OneNewestKept(ps, qs, key);
      }
    } else {
      var p, q :| IsNewest(ps, key, p) && IsNewest(ps, key, q) && p != q;
      OrderMatters(ps, key, p);
      OrderMatters(ps, key, q);
    }
  }

  lemma OrderMatters(ps: seq<Publication>, key: Key, p: Publication)
    requires IsNewest(ps, key, p)
    ensures exists qs :: Rearranged(ps, qs) && Kept(qs, key) == Some(p)
    ensures exists qs :: Rearranged(ps, qs) && Loaded(qs, key) == Some(p)
  {
    hide Kept, Loaded, Rearranged;
    var k :| 0 <= k < |ps| && ps[k] == p;
    LastKept(ps, k, key);
    FirstLoaded(ps, k, key);
  }

  /** Of two publications at one time the last arrival is kept, and the first one found is loaded. */
  lemma SameTimeLastWins(p: Publication, q: Publication)
    requires p.key == q.key && p.at == q.at
    ensures Kept([p, q], p.key) == Some(q) && Kept([q, p], p.key) == Some(p)
    ensures Loaded([p, q], p.key) == Some(p) && Loaded([q, p], p.key) == Some(q)
  {
    JustOne(p);
    JustOne(q);
    assert [p, q][..1] == [p] && [q, p][..1] == [q];
  }

  lemma JustOne(p: Publication)
    ensures Kept([p], p.key) == Loaded([p], p.key) == Some(p)
  {
    assert [p][..0] == [];
    assert Kept([], p.key) == Loaded([], p.key) == None;
  }

  ghost function Backwards(ps: seq<Publication>): seq<Publication> {
    if ps == [] then [] else [ps[|ps| - 1]] + Backwards(ps[..|ps| - 1])
  }

  lemma {:induction false} KeptBehind(p: Publication, ps: seq<Publication>, key: Key)
    ensures var kept := Kept(ps, key);
      Kept([p] + ps, key) == if p.key == key && (kept.None? || p.at > kept.value.at) then Some(p) else kept
  {
    if ps == [] {
      assert [p] + ps == [p];
      assert [p][..0] == [];
    } else {
      var n := |ps| - 1;
      KeptBehind(p, ps[..n], key);
      assert ([p] + ps)[..n + 1] == [p] + ps[..n];
    }
  }

  /** Loading gives the cache of one that heard the stored publications in the opposite order. */
  lemma {:induction false} LoadedIsKept(ps: seq<Publication>, key: Key)
    ensures Loaded(ps, key) == Kept(Backwards(ps), key)
  {
    if ps != [] {
      LoadedIsKept(ps[..|ps| - 1], key);
      KeptBehind(ps[|ps| - 1], Backwards(ps[..|ps| - 1]), key);
    }
  }

  lemma {:induction false} BackwardsSame(ps: seq<Publication>)
    ensures forall p :: p in Backwards(ps) <==> p in ps
  {
    if ps != [] {
      BackwardsSame(ps[..|ps| - 1]);
      assert ps == ps[..|ps| - 1] + [ps[|ps| - 1]];
    }
  }

  class Controller {
    const index: int
    var publish: map<Key, Publication>
    var srvs: map<string, Server>
    ghost var heard: seq<Publication>  // those addressed to this controller

    ghost predicate Valid()
      reads `publish, `heard
    {
      && (forall k :: k in publish ==> Kept(heard, k) == Some(publish[k]))
      && (forall k :: Kept(heard, k).Some? ==> k in publish)
    }

    constructor (index: int)
      ensures Valid() && publish == map[] && srvs == map[] && heard == []
    {
      this.index := index;
      publish, srvs, heard := map[], map[], [];
    }

    /** The cache holds the newest publication of each module this controller has heard of. */
    lemma HoldsNewest(k: Key)
      requires Valid()
      ensures Newest(heard, k, if k in publish then Some(publish[k]) else None)
    {
      hide Kept, Newest;
      KeptIsNewest(heard, k);
    }

    /**
     __dealPublish: an older publication is ignored, any other replaces what the cache has and
     is sent to every server.
     */
    method DealPublish(p: Publication) returns (updates: set<Update>)
      requires Valid()
      modifies `publish, `heard
      ensures Valid() && heard == old(heard) + if index in p.indexes then [p] else []
      ensures var ignored := index !in p.indexes || (p.key in old(publish) && old(publish)[p.key].at > p.at);
        && publish == (if ignored then old(publish) else old(publish)[p.key := p])
        && updates == if ignored then {} else set rid | rid in srvs.Keys :: Update(rid, p.key, p.pair, p.url, p.code)
      ensures forall u :: u in updates ==> u.key == p.key && u.pair == p.pair
    {
      hide Kept;
      updates := {};
      if index !in p.indexes {
        return;
      }
      HeardOne(p);
      heard := heard + [p];
      if p.key in publish && publish[p.key].at > p.at {
        return;
      }
      publish := publish[p.key := p];
      updates := ToEveryServer(p);
    }

    method ToEveryServer(p: Publication) returns (updates: set<Update>)
      ensures updates == set rid | rid in srvs.Keys :: Update(rid, p.key, p.pair, p.url, p.code)
      ensures forall u :: u in updates ==> u.key == p.key && u.pair == p.pair
    {
      updates := {};
      var todo := srvs.Keys;
      while todo != {}
        invariant todo <= srvs.Keys
        invariant updates == set rid | rid in srvs.Keys - todo :: Update(rid, p.key, p.pair, p.url, p.code)
        decreases |todo|
      {
        var rid :| rid in todo;
        updates := updates + {Update(rid, p.key, p.pair, p.url, p.code)};
        todo := todo - {rid};
      }
      assert srvs.Keys - todo == srvs.Keys;
    }

    lemma HeardOne(p: Publication)
      ensures forall k :: Kept(heard + [p], k) ==
                (if p.key != k || (Kept(heard, k).Some? && Kept(heard, k).value.at > p.at) then Kept(heard, k)
                 else Some(p))
    {
      assert (heard + [p])[..|heard|] == heard;
    }

    /** The check comes from an activated server and does not agree with the cache. */
    predicate Answers(c: Check)
      reads `srvs, `publish
    {
      && c.rid in srvs && srvs[c.rid].deploy.Some?
      && c.key in publish && publish[c.key].pair != c.pair
    }

    lemma AnswersWhen(c: Check)
      ensures Answers(c) <==> c.rid in srvs && srvs[c.rid].deploy.Some? && c.key in publish && publish[c.key].pair != c.pair
    {
    }

    /**
     __dealUpdateCheck: remember what the server runs, and answer exactly when the cache has
     something else for the module. A server that was never activated is an error inside.
     */
    method DealUpdateCheck(c: Check) returns (reply: Option<Update>)
      requires Valid()
      modifies `srvs
      ensures Valid() && srvs.Keys == old(srvs.Keys)
      ensures var known := c.rid in old(srvs) && old(srvs)[c.rid].deploy.Some?;
        && srvs == (if known then old(srvs)[c.rid := Server(Some(old(srvs)[c.rid].deploy.value[c.key := c.pair]))]
                    else old(srvs))
        && reply == if old(Answers(c))
                    then Some(Update(c.rid, c.key, publish[c.key].pair, publish[c.key].url, publish[c.key].code)) else None
    {
      reply := None;
      if c.rid !in srvs || srvs[c.rid].deploy.None? {
        return;
      }
      var deploy := srvs[c.rid].deploy.value;
      if c.key !in deploy || deploy[c.key] != c.pair {
        deploy := deploy[c.key := c.pair];
      }
      assert deploy == srvs[c.rid].deploy.value[c.key := c.pair];
      srvs := srvs[c.rid := Server(Some(deploy))];
      if c.key in publish {
        var p := publish[c.key];
        if p.pair != c.pair {
          reply := Some(Update(c.rid, c.key, p.pair, p.url, p.code));
        }
      }
    }

    /**
     InitDb: the servers as stored, and the loop over the stored publications in whatever order the
     database lists them. The cache is then that of a controller that has heard of all of these.
     */
    method InitDb(known: map<string, Server>, stored: seq<Publication>)
      modifies `srvs, `publish, `heard
      ensures srvs == known
      ensures Valid() && heard == Backwards(stored) && forall p :: p in heard <==> p in stored
      ensures forall k :: k in publish <==> Loaded(stored, k).Some?
      ensures forall k :: k in publish ==> Some(publish[k]) == Loaded(stored, k)
    {
      srvs, publish := known, map[];
      var i := 0;
      while i < |stored|
        invariant 0 <= i <= |stored| && srvs == known
        invariant forall k :: k in publish <==> Loaded(stored[..i], k).Some?
        invariant forall k :: k in publish ==> Some(publish[k]) == Loaded(stored[..i], k)
      {
        var p := stored[i];
        assert stored[..i + 1][..i] == stored[..i];
        if p.key !in publish || publish[p.key].at < p.at {
          publish := publish[p.key := p];
        }
        i := i + 1;
      }
      assert stored[..|stored|] == stored;
      heard := Backwards(stored);
      LoadedValid(stored);
      BackwardsSame(stored);
    }

    lemma LoadedValid(stored: seq<Publication>)
      requires heard == Backwards(stored)
      requires forall k :: k in publish <==> Loaded(stored, k).Some?
      requires forall k :: k in publish ==> Some(publish[k]) == Loaded(stored, k)
      ensures Valid()
    {
      hide Kept, Loaded, Backwards;
      forall k
        ensures Loaded(stored, k) == Kept(heard, k)
      {
        LoadedIsKept(stored, k);
      }
    }

    /** What the cache holds has been heard of. */
    lemma CacheHeard()
      requires Valid()
      ensures CacheFrom((set p | p in heard), publish)
    {
      hide Kept;
      forall k | k in publish
        ensures publish[k] in heard && publish[k].key == k
      {
        KeptIsNewest(heard, k);
      }
    }
  }

  /** A managed module as the agent knows it: what is installed, where, and how it is restarted. */
  datatype Module = Module(pair: Pair, workDir: string, command: string)

  datatype Task = Task(key: Key, pair: Pair, url: string, code: string, file: nat)

  datatype Outcome = Success | DownloadFailed | SaveFailed | CheckFailed | UnzipFailed | RunFailed

  /** One try of a download: the file may not open, the transfer may fail, or some content arrives. */
  datatype Try = NoFile | NoTransfer | Got(content: seq<byte>)

  /** Three tries at most; a wrong hash is final. */
  function Fetched(tries: seq<Try>, hash: string, hashOf: seq<byte> -> string): Outcome
    requires |tries| == 3
  {
    if exists i :: 0 <= i < 3 && tries[i].Got? then
      if hashOf(tries[FirstGot(tries, 0)].content) == hash then Success else CheckFailed
    else if tries[2].NoFile? then SaveFailed else DownloadFailed
  }

  function FirstGot(tries: seq<Try>, i: nat): (k: nat)
    requires i <= |tries| && exists j :: i <= j < |tries| && tries[j].Got?
    ensures i <= k < |tries| && tries[k].Got? && forall j :: i <= j < k ==> !tries[j].Got?
    decreases |tries| - i
  {
    if tries[i].Got? then i else FirstGot(tries, i + 1)
  }

  /** The retry loop of CDownloadThread::Run; `kept` is the decrypted file whose hash was right. */
  method Download(tries: seq<Try>, hash: string, hashOf: seq<byte> -> string)
    returns (outcome: Outcome, kept: Option<seq<byte>>)
    requires |tries| == 3
    ensures outcome == Fetched(tries, hash, hashOf)
    ensures forall k :: 0 <= k < 3 && tries[k].Got? && (forall j :: 0 <= j < k ==> !tries[j].Got?) ==>
      if hashOf(tries[k].content) == hash then outcome == Success && kept == Some(tries[k].content)
      else outcome == CheckFailed && kept == None
    ensures (forall j :: 0 <= j < 3 ==> !tries[j].Got?) ==>
      kept == None && outcome == if tries[2].NoFile? then SaveFailed else DownloadFailed
  {
    outcome, kept := SaveFailed, None;
    var n := 0;
    while n < 3
      invariant 0 <= n <= 3 && kept == None && forall i :: 0 <= i < n ==> !tries[i].Got?
      invariant n > 0 ==> outcome == if tries[n - 1].NoFile? then SaveFailed else DownloadFailed
    {
      match tries[n] {
        case NoFile =>
          outcome := SaveFailed;
        case NoTransfer =>
          outcome := DownloadFailed;
        case Got(content) =>
          outcome := if hashOf(content) == hash then Success else CheckFailed;
          if outcome == Success {
            kept := Some(content);
          }
          assert FirstGot(tries, 0) == n;
          return;
      }
      n := n + 1;
    }
  }

  /** What happens to a fetched file: the archive may not open, unpacking or the restart may fail. */
  datatype Install = Install(opens: bool, unpacks: bool, restarts: bool)

  class Agent {
    const rid: string
    var modules: map<Key, Module>
    var saved: map<Key, Module>    // data/aodsumi.db
    var updateTimes: nat

    constructor (rid: string, saved: map<Key, Module>)
      ensures this.rid == rid && this.saved == saved && modules == saved
    {
      this.rid, this.saved, this.modules, this.updateTimes := rid, saved, saved, 0;
    }

    /** StartUmiSyn: reload the configuration and ask about every module in it. */
    method StartUmiSyn(readable: bool) returns (checks: set<Check>)
      modifies `modules
      ensures modules == if readable then saved else old(modules)
      ensures checks == if readable then set k | k in saved.Keys :: Check(rid, k, saved[k].pair) else {}
    {
      checks := {};
      if !readable {
        return;
      }
      modules := saved;
      var todo := modules.Keys;
      while todo != {}
        invariant todo <= saved.Keys && modules == saved
        invariant checks == set k | k in saved.Keys - todo :: Check(rid, k, saved[k].pair)
        decreases |todo|
      {
        var k :| k in todo;
        checks := checks + {Check(rid, k, modules[k].pair)};
        todo := todo - {k};
      }
      assert saved.Keys - todo == saved.Keys;
    }

    /** OnRecvUmi: a forced update of a managed module becomes a download. */
    method OnRecvUmi(u: Update, force: bool) returns (task: Option<Task>)
      modifies `updateTimes
      ensures task == if u.key in modules && force then Some(Task(u.key, u.pair, u.url, u.code, old(updateTimes))) else None
      ensures updateTimes == old(updateTimes) + if task.Some? then 1 else 0
    {
      task := None;
      if u.key !in modules {
        return;
      }
      if force {
        task := Some(Task(u.key, u.pair, u.url, u.code, updateTimes));
        updateTimes := updateTimes + 1;
      }
    }

    /**
     OnDownloadResult. The module is installed unless fetching or unpacking failed: a failed
     restart still counts. `self` says that the module is the agent itself, whose restart comes
     last; `writable` that the configuration file could be written.
     */
    method OnDownloadResult(t: Task, fetched: Outcome, how: Install, self: bool, writable: bool)
      returns (report: Option<Outcome>)
      requires fetched != UnzipFailed && fetched != RunFailed
      modifies `modules, `saved
      ensures var installed := fetched == Success && t.key in old(modules) && how.opens && how.unpacks;
        && modules == (if installed then old(modules)[t.key := old(modules)[t.key].(pair := t.pair)] else old(modules))
        && saved == (if installed && writable then modules else old(saved))
        && (installed <==> report == Some(Success) || report == Some(RunFailed))
        && report == if fetched != Success then Some(fetched)
                     else if t.key !in old(modules) || !how.opens then None
                     else if !how.unpacks then Some(UnzipFailed)
                     else if old(modules)[t.key].command != "" && !self && !how.restarts then Some(RunFailed)
                     else Some(Success)
    {
      report := None;
      if fetched != Success {
        report := Some(fetched);
        return;
      }
      if t.key !in modules || !how.opens {
        return;
      }
      var outcome := if how.unpacks then Success else UnzipFailed;
      if modules[t.key].command != "" && outcome == Success {
        if self {
          Record(t);
          Save(writable);
          report := Some(Success);
          return;
        }
        outcome := if how.restarts then Success else RunFailed;
      }
      if outcome == Success || outcome == RunFailed {
        Record(t);
        Save(writable);
      }
      report := Some(outcome);
    }

    method Record(t: Task)
      requires t.key in modules
      modifies `modules
      ensures modules == old(modules)[t.key := old(modules)[t.key].(pair := t.pair)]
    {
      modules := modules[t.key := modules[t.key].(pair := t.pair)];
    }

    method Save(writable: bool)
      modifies `saved
      ensures saved == if writable then modules else old(saved)
    {
      if writable {
        saved := modules;
      }
    }
  }

  ghost predicate Offered(published: set<Publication>, key: Key, pair: Pair) {
    exists p :: p in published && p.key == key && p.pair == pair
  }

  ghost predicate PubsFrom(published: set<Publication>, pubs: multiset<Publication>) {
    forall p :: p in pubs ==> p in published
  }

  /** No publication of the module is on its way. */
  ghost predicate NonePending(pubs: multiset<Publication>, key: Key) {
    forall p :: p in pubs ==> p.key != key
  }

  lemma PubsChange(published: set<Publication>, pubs: multiset<Publication>, p: Publication, key: Key)
    requires PubsFrom(published, pubs)
    ensures p in pubs ==> p in published
    ensures PubsFrom(published, pubs - multiset{p}) && PubsFrom(published + {p}, pubs + multiset{p})
    ensures NonePending(pubs, key) ==> NonePending(pubs - multiset{p}, key)
    ensures NonePending(pubs, key) && key != p.key ==> NonePending(pubs + multiset{p}, key)
  {
    assert forall q :: q in pubs - multiset{p} ==> q in pubs;
    assert forall q :: q in pubs + multiset{p} ==> q in pubs || q == p;
  }

  ghost predicate UpdatesFrom(published: set<Publication>, updates: multiset<Update>) {
    forall u :: u in updates ==> Offered(published, u.key, u.pair)
  }

  ghost predicate TasksFrom(published: set<Publication>, tasks: multiset<Task>) {
    forall t :: t in tasks ==> Offered(published, t.key, t.pair)
  }

  ghost predicate CacheFrom(published: set<Publication>, cache: map<Key, Publication>) {
    forall k :: k in cache ==> cache[k] in published && cache[k].key == k
  }

  ghost predicate ModulesFrom(published: set<Publication>, initial: map<Key, Module>, modules: map<Key, Module>) {
    forall k :: k in modules ==>
      Offered(published, k, modules[k].pair) || (k in initial && initial[k].pair == modules[k].pair)
  }

  lemma MorePublished(before: set<Publication>, after: set<Publication>, updates: multiset<Update>, tasks: multiset<Task>,
                      cache: map<Key, Publication>, initial: map<Key, Module>, modules: map<Key, Module>)
    requires before <= after && UpdatesFrom(before, updates) && TasksFrom(before, tasks) && CacheFrom(before, cache)
    requires ModulesFrom(before, initial, modules)
    ensures UpdatesFrom(after, updates) && TasksFrom(after, tasks) && CacheFrom(after, cache)
    ensures ModulesFrom(after, initial, modules)
  {
    assert forall k, q :: Offered(before, k, q) ==> Offered(after, k, q);
  }

  /** All updates and downloads under way for a module bring one pair. */
  ghost predicate Bring(updates: multiset<Update>, tasks: multiset<Task>, key: Key, pair: Pair) {
    && (forall u :: u in updates && u.key == key ==> u.pair == pair)
    && (forall t :: t in tasks && t.key == key ==> t.pair == pair)
  }

  /** The updates meant for one server. */
  function Addressed(us: set<Update>, rid: string): (mine: set<Update>)
    ensures forall u :: u in mine ==> u in us
  {
    set u | u in us && u.rid == rid
  }

  lemma CacheNext(published: set<Publication>, cache: map<Key, Publication>, p: Publication)
    requires CacheFrom(published, cache) && p in published
    ensures CacheFrom(published, cache[p.key := p])
  {
  }

  lemma MoreUpdates(published: set<Publication>, updates: multiset<Update>, mine: set<Update>, p: Publication)
    requires UpdatesFrom(published, updates) && p in published
    requires forall u :: u in mine ==> u.key == p.key && u.pair == p.pair
    ensures UpdatesFrom(published, updates + multiset(mine))
  {
    assert forall u :: u in updates + multiset(mine) ==> u in updates || u in mine;
  }

  lemma OthersBring(updates: multiset<Update>, tasks: multiset<Task>, mine: set<Update>, key: Key, k: Key, pair: Pair)
    requires k != key && forall u :: u in mine ==> u.key == key
    ensures Bring(updates + multiset(mine), tasks, k, pair) <==> Bring(updates, tasks, k, pair)
  {
    assert forall u :: u in updates ==> u in updates + multiset(mine);
    assert forall u :: u in updates + multiset(mine) ==> u in updates || u in mine;
  }

  ghost predicate Matches(cache: map<Key, Publication>, modules: map<Key, Module>, saved: map<Key, Module>, key: Key) {
    && key in cache && key in modules && modules[key].pair == cache[key].pair
    && key in saved && saved[key].pair == cache[key].pair
  }

  ghost predicate Report(checks: multiset<Check>, key: Key, pair: Pair) {
    forall c :: c in checks && c.key == key ==> c.pair == pair
  }

  /** The checks for a configuration. */
  function Asked(rid: string, saved: map<Key, Module>): set<Check> {
    set k | k in saved.Keys :: Check(rid, k, saved[k].pair)
  }

  /** One controller, one agent, and everything under way between them, in no order. */
  class Deployment {
    const controller: Controller
    const agent: Agent
    var pubs: multiset<Publication>
    var checks: multiset<Check>
    var updates: multiset<Update>
    var tasks: multiset<Task>
    ghost var published: set<Publication>
    ghost const initial: map<Key, Module>

    /** Everything on its way and everything installed was published, or was there from the start. */
    ghost predicate Valid()
      reads `pubs, `updates, `tasks, `published, controller`publish, controller`heard, agent`modules, agent`saved
    {
      && controller.Valid() && PubsFrom(published, pubs)
      && CacheFrom(published, controller.publish)
      && UpdatesFrom(published, updates) && TasksFrom(published, tasks)
      && ModulesFrom(published, initial, agent.modules) && ModulesFrom(published, initial, agent.saved)
    }

    /** No publication of the module is on its way, and no update but that of the cache. */
    ghost predicate Settled(key: Key)
      reads `pubs, `updates, `tasks, controller`publish
    {
      && NonePending(pubs, key) && key in controller.publish
      && Bring(updates, tasks, key, controller.publish[key].pair)
    }

    /** Moreover the agent has installed, and saved, what the cache holds. */
    ghost predicate UpToDate(key: Key)
      reads `pubs, `updates, `tasks, controller`publish, agent`modules, agent`saved
    {
      Settled(key) && Matches(controller.publish, agent.modules, agent.saved, key)
    }

    /** And no check from before is on its way. */
    ghost predicate Quiet(key: Key)
      reads `pubs, `checks, `updates, `tasks, controller`publish, agent`modules, agent`saved
    {
      UpToDate(key) && key in controller.publish && Report(checks, key, controller.publish[key].pair)
    }

    /** The controller may have loaded its cache; nothing is on its way yet. */
    constructor (controller: Controller, agent: Agent)
      requires controller.Valid() && agent.saved == agent.modules
      ensures Valid() && this.controller == controller && this.agent == agent && initial == agent.modules
      ensures pubs == multiset{} && checks == multiset{} && updates == multiset{} && tasks == multiset{}
      ensures published == (set p | p in controller.heard) && forall k :: k in controller.publish ==> Settled(k)
    {
      this.controller, this.agent := controller, agent;
      pubs, checks, updates, tasks := multiset{}, multiset{}, multiset{}, multiset{};
      published := set p | p in controller.heard;
      initial := agent.modules;
      new;
      controller.CacheHeard();
    }

    method Publish(p: Publication, ghost key: Key)
      requires Valid()
      modifies `pubs, `published
      ensures Valid() && pubs == old(pubs) + multiset{p} && published == old(published) + {p}
      ensures key != p.key ==> (old(Settled(key)) ==> Settled(key)) && (old(UpToDate(key)) ==> UpToDate(key))
      ensures key != p.key && old(Quiet(key)) ==> Quiet(key)
    {
      hide UpdatesFrom, TasksFrom, ModulesFrom, CacheFrom, Controller.Valid, Bring, PubsFrom, NonePending, Matches, Report;
      PubsChange(published, pubs, p, key);
      MorePublished(published, published + {p}, updates, tasks, controller.publish, initial, agent.modules);
      MorePublished(published, published + {p}, updates, tasks, controller.publish, initial, agent.saved);
      pubs := pubs + multiset{p};
      published := published + {p};
    }

    /** A publication reaches the controller. */
    method HearPublish(p: Publication, ghost key: Key)
      requires Valid() && p in pubs
      modifies `pubs, `updates, controller`publish, controller`heard
      ensures Valid() && pubs == old(pubs) - multiset{p}
      ensures controller.heard == old(controller.heard) + if controller.index in p.indexes then [p] else []
      ensures key != p.key ==> (old(Settled(key)) ==> Settled(key)) && (old(UpToDate(key)) ==> UpToDate(key))
      ensures key != p.key && old(Quiet(key)) ==> Quiet(key)
    {
      hide *;
      UpToDateIs(key);
      QuietIs(key);
      PubsThen(p, key);
      pubs := pubs - multiset{p};
      ghost var cache := controller.publish;
      var mine := Broadcast(p);
      MoreUpdates(published, updates, mine, p);
      if key != p.key && key in cache {
        OthersBring(updates, tasks, mine, p.key, key, cache[key].pair);
      }
      updates := updates + multiset(mine);
      ValidIs();
      SettledIs(key);
      if key != p.key && key in cache {
        OtherMatches(cache, controller.publish, agent.modules, agent.saved, key);
      }
      UpToDateIs(key);
      QuietIs(key);
    }

    lemma PubsThen(p: Publication, key: Key)
      requires Valid()
      ensures p in pubs ==> p in published
      ensures PubsFrom(published, pubs - multiset{p}) && (NonePending(pubs, key) ==> NonePending(pubs - multiset{p}, key))
      ensures controller.Valid() && CacheFrom(published, controller.publish) && UpdatesFrom(published, updates)
      ensures TasksFrom(published, tasks) && ModulesFrom(published, initial, agent.modules)
      ensures ModulesFrom(published, initial, agent.saved)
      ensures Settled(key) ==> NonePending(pubs, key) && key in controller.publish
                               && Bring(updates, tasks, key, controller.publish[key].pair)
    {
      hide UpdatesFrom, TasksFrom, ModulesFrom, CacheFrom, Controller.Valid, Bring, PubsFrom, NonePending;
      PubsChange(published, pubs, p, key);
    }

    lemma ValidIs()
      requires controller.Valid() && PubsFrom(published, pubs) && CacheFrom(published, controller.publish)
      requires UpdatesFrom(published, updates) && TasksFrom(published, tasks)
      requires ModulesFrom(published, initial, agent.modules) && ModulesFrom(published, initial, agent.saved)
      ensures Valid()
    {
    }

    lemma SettledIs(key: Key)
      ensures Settled(key) <==> NonePending(pubs, key) && key in controller.publish
                                && Bring(updates, tasks, key, controller.publish[key].pair)
    {
    }

    method Broadcast(p: Publication) returns (mine: set<Update>)
      requires controller.Valid() && CacheFrom(published, controller.publish) && p in published
      modifies controller`publish, controller`heard
      ensures controller.Valid() && CacheFrom(published, controller.publish)
      ensures controller.heard == old(controller.heard) + if controller.index in p.indexes then [p] else []
      ensures forall u :: u in mine ==> u.key == p.key && u.pair == p.pair
      ensures controller.publish == old(controller.publish) || controller.publish == old(controller.publish)[p.key := p]
    {
      hide CacheFrom, Controller.Valid, Addressed;
      CacheNext(published, controller.publish, p);
      var us := controller.DealPublish(p);
      mine := Addressed(us, agent.rid);
    }

    /** The agent's timer: it reloads its configuration and asks about every module. */
    method Sync(readable: bool, ghost key: Key)
      requires Valid()
      modifies `checks, agent`modules
      ensures Valid() && (old(Settled(key)) ==> Settled(key)) && (old(UpToDate(key)) ==> UpToDate(key))
      ensures old(Quiet(key)) ==> Quiet(key)
      ensures agent.modules == if readable then agent.saved else old(agent.modules)
      ensures checks == old(checks) + multiset(if readable then Asked(agent.rid, agent.saved) else {})
    {
      hide UpdatesFrom, TasksFrom, ModulesFrom, CacheFrom, Controller.Valid, Bring, PubsFrom, NonePending;
      var asked := agent.StartUmiSyn(readable);
      checks := checks + multiset(asked);
    }

    /** A check reaches the controller; an answer is on its way exactly when the cache has something else. */
    method HearCheck(c: Check, ghost key: Key)
      requires Valid() && c in checks
      modifies `checks, `updates, controller`srvs
      ensures Valid() && checks == old(checks) - multiset{c}
      ensures old(Settled(key)) ==> Settled(key)
      ensures old(UpToDate(key)) ==> UpToDate(key)
      ensures old(Quiet(key)) ==> Quiet(key) && (c.key == key ==> updates == old(updates))
      ensures old(controller.Answers(c)) && c.rid == agent.rid ==>
        exists u :: u in updates && u.key == c.key && u.pair == controller.publish[c.key].pair
    {
      hide *;
      ValidHas();
      SettledIs(key);
      UpToDateIs(key);
      QuietIs(key);
      controller.AnswersWhen(c);
      if key in controller.publish {
        ReportLess(checks, c, key, controller.publish[key].pair);
      }
      checks := checks - multiset{c};
      var reply := controller.DealUpdateCheck(c);
      if reply.Some? && reply.value.rid == agent.rid {
        CacheOffers(published, controller.publish, c.key);
        OneUpdate(published, updates, tasks, reply.value, key, controller.publish);
        updates := updates + multiset{reply.value};
        assert reply.value in updates;
      }
      ValidIs();
      SettledIs(key);
      UpToDateIs(key);
      QuietIs(key);
    }

    lemma UpToDateIs(key: Key)
      ensures UpToDate(key) <==> Settled(key) && Matches(controller.publish, agent.modules, agent.saved, key)
    {
      hide Settled, Matches;
    }

    lemma QuietIs(key: Key)
      ensures Quiet(key)
        <==> UpToDate(key) && key in controller.publish && Report(checks, key, controller.publish[key].pair)
    {
      hide UpToDate, Report;
    }

    lemma ValidHas()
      requires Valid()
      ensures controller.Valid() && PubsFrom(published, pubs) && CacheFrom(published, controller.publish)
      ensures UpdatesFrom(published, updates) && TasksFrom(published, tasks)
      ensures ModulesFrom(published, initial, agent.modules) && ModulesFrom(published, initial, agent.saved)
    {
    }

    /** An update gives way to the download it causes, if any. */
    method Replace(u: Update, task: Option<Task>, ghost key: Key)
      requires Valid() && u in updates && (task.Some? ==> task.value.key == u.key && task.value.pair == u.pair)
      modifies `updates, `tasks
      ensures Valid() && (old(Settled(key)) ==> Settled(key)) && (old(UpToDate(key)) ==> UpToDate(key))
      ensures old(Quiet(key)) ==> Quiet(key)
      ensures updates == old(updates) - multiset{u}
      ensures tasks == if task.Some? then old(tasks) + multiset{task.value} else old(tasks)
    {
      hide *;
      ValidHas();
      SettledIs(key);
      UpToDateIs(key);
      QuietIs(key);
      HandedFrom(published, updates, tasks, u, task);
      if key in controller.publish {
        Handed(updates, tasks, u, task, key, controller.publish[key].pair);
      }
      updates := updates - multiset{u};
      if task.Some? {
        tasks := tasks + multiset{task.value};
      }
      ValidIs();
      SettledIs(key);
      UpToDateIs(key);
      QuietIs(key);
    }

    /** An update reaches the agent. */
    method HearUpdate(u: Update, ghost key: Key)
      requires Valid() && u in updates
      modifies `updates, `tasks, agent`updateTimes
      ensures Valid() && (old(Settled(key)) ==> Settled(key)) && (old(UpToDate(key)) ==> UpToDate(key))
      ensures old(Quiet(key)) ==> Quiet(key)
      ensures updates == old(updates) - multiset{u}
      ensures u.key in agent.modules ==> exists t :: t in tasks && t.key == u.key && t.pair == u.pair
    {
      hide *;
      var task := agent.OnRecvUmi(u, true);
      Replace(u, task, key);
      assert task.Some? ==> task.value in tasks;
    }

    method DropTask(t: Task, ghost key: Key)
      requires Valid() && t in tasks
      modifies `tasks
      ensures Valid() && (old(Settled(key)) ==> Settled(key)) && (old(UpToDate(key)) ==> UpToDate(key))
      ensures old(Quiet(key)) ==> Quiet(key)
      ensures Offered(published, t.key, t.pair)
      ensures old(Settled(key)) && t.key == key ==> key in controller.publish && t.pair == controller.publish[key].pair
      ensures tasks == old(tasks) - multiset{t}
    {
      hide *;
      ValidHas();
      SettledIs(key);
      UpToDateIs(key);
      QuietIs(key);
      TaskFrom(published, tasks, t);
      if key in controller.publish {
        TaskGone(updates, tasks, t, key, controller.publish[key].pair);
      }
      tasks := tasks - multiset{t};
      ValidIs();
      SettledIs(key);
      UpToDateIs(key);
      QuietIs(key);
    }

    /** The agent deals with the result of a download that is no longer counted as under way. */
    method Conclude(t: Task, outcome: Outcome, how: Install, self: bool, writable: bool, ghost key: Key)
      requires Valid() && Offered(published, t.key, t.pair) && outcome != UnzipFailed && outcome != RunFailed
      modifies agent`modules, agent`saved
      ensures Valid() && (old(Settled(key)) ==> Settled(key))
      ensures var good := t.key != key || (key in controller.publish && t.pair == controller.publish[key].pair);
        && (good && old(UpToDate(key)) ==> UpToDate(key)) && (good && old(Quiet(key)) ==> Quiet(key))
        && ((good && old(Settled(key)) && t.key == key && key in old(agent.modules) && writable && outcome == Success
             && how.opens && how.unpacks) ==> UpToDate(key))
    {
      hide *;
      ValidHas();
      SettledIs(key);
      UpToDateIs(key);
      QuietIs(key);
      InstalledFrom(published, initial, agent.modules, t);
      if t.key in agent.modules {
        InstalledMatches(controller.publish, agent.modules, agent.saved, t, key);
      }
      var _ := agent.OnDownloadResult(t, outcome, how, self, writable);
      ValidIs();
      SettledIs(key);
      UpToDateIs(key);
      QuietIs(key);
    }

    /**
     A download ends and its result is dealt with. If it was fetched, unpacked and recorded, the
     module is up to date once everything under way is the cache's.
     */
    method Finish(t: Task, tries: seq<Try>, hashOf: seq<byte> -> string, how: Install, self: bool, writable: bool,
                  ghost key: Key)
      requires Valid() && t in tasks && |tries| == 3
      modifies `tasks, agent`modules, agent`saved
      ensures Valid() && (old(Settled(key)) ==> Settled(key)) && (old(UpToDate(key)) ==> UpToDate(key))
      ensures old(Quiet(key)) ==> Quiet(key)
      ensures tasks == old(tasks) - multiset{t}
      ensures (&& old(Settled(key)) && t.key == key && key in old(agent.modules) && writable
               && Fetched(tries, t.pair.hash, hashOf) == Success && how.opens && how.unpacks) ==> UpToDate(key)
    {
      hide *;
      FetchedIs(tries, t.pair.hash, hashOf);
      UpToDateIs(key);
      QuietIs(key);
      var outcome, _ := Download(tries, t.pair.hash, hashOf);
      DropTask(t, key);
      Conclude(t, outcome, how, self, writable, key);
    }

    /**
     Convergence: when no publication and no other update is under way, one check of an activated
     agent, and one successful update if the check asks for one, bring the agent up to date; and
     no check leads to another update from then on exactly when no stale check was on its way.
     */
    method OneRound(key: Key, tries: seq<Try>, hashOf: seq<byte> -> string, how: Install, self: bool)
      requires Valid() && Settled(key) && key in agent.saved && key in controller.publish
      requires agent.rid in controller.srvs && controller.srvs[agent.rid].deploy.Some?
      requires |tries| == 3 && how.opens && how.unpacks
      requires Fetched(tries, controller.publish[key].pair.hash, hashOf) == Success
      modifies `checks, `updates, `tasks, controller`srvs, agent`modules, agent`saved, agent`updateTimes
      ensures Valid() && UpToDate(key) && controller.publish == old(controller.publish)
      ensures Quiet(key) <==> Report(old(checks), key, controller.publish[key].pair)
    {
      hide *;
      UpToDateIs(key);
      QuietIs(key);
      var u := Ask(key);
      if u.Some? {
        CarryOut(u.value, tries, hashOf, how, self, key);
      }
      UpToDateIs(key);
      QuietIs(key);
    }

    /** The agent asks, and its question about the module reaches the controller if it leads to an update. */
    method Ask(key: Key) returns (u: Option<Update>)
      requires Valid() && Settled(key) && key in agent.saved && key in controller.publish
      requires agent.rid in controller.srvs && controller.srvs[agent.rid].deploy.Some?
      modifies `checks, `updates, controller`srvs, agent`modules
      ensures Valid() && Settled(key) && key in agent.modules
      ensures u.None? ==> Matches(controller.publish, agent.modules, agent.saved, key)
      ensures u.Some? ==> u.value in updates && u.value.key == key && u.value.pair == controller.publish[key].pair
      ensures Report(checks, key, controller.publish[key].pair)
        <==> Report(old(checks), key, controller.publish[key].pair)
    {
      hide *;
      u := None;
      Heard(checks, agent.rid, agent.saved, key, controller.publish[key].pair);
      Sync(true, key);
      MatchesWhen(controller.publish, agent.modules, key);
      var c := Check(agent.rid, key, agent.saved[key].pair);
      if c.pair != controller.publish[key].pair {
        controller.AnswersWhen(c);
        HearCheck(c, key);
        var v :| v in updates && v.key == key && v.pair == controller.publish[key].pair;
        u := Some(v);
      }
    }

    /** An update of the module is fetched and installed. */
    method CarryOut(u: Update, tries: seq<Try>, hashOf: seq<byte> -> string, how: Install, self: bool, key: Key)
      requires Valid() && Settled(key) && key in agent.modules && key in controller.publish
      requires u in updates && u.key == key && u.pair == controller.publish[key].pair
      requires |tries| == 3 && how.opens && how.unpacks && Fetched(tries, u.pair.hash, hashOf) == Success
      modifies `updates, `tasks, agent`modules, agent`saved, agent`updateTimes
      ensures Valid() && UpToDate(key)
    {
      hide *;
      HearUpdate(u, key);
      var t :| t in tasks && t.key == key && t.pair == u.pair;
      Finish(t, tries, hashOf, how, self, true, key);
    }
  }

  /**
   A controller that has loaded its database, and an agent whose server it finds there: one
   round brings the agent the newest stored publication, and no further update follows.
   */
  method FromDatabase(index: int, known: map<string, Server>, stored: seq<Publication>, rid: string,
                      saved: map<Key, Module>, key: Key, tries: seq<Try>, hashOf: seq<byte> -> string, how: Install,
                      self: bool) returns (d: Deployment)
    requires rid in known && known[rid].deploy.Some? && key in saved && Loaded(stored, key).Some?
    requires |tries| == 3 && how.opens && how.unpacks
    requires Fetched(tries, Loaded(stored, key).value.pair.hash, hashOf) == Success
    ensures fresh(d) && d.Valid() && d.Quiet(key)
    ensures key in d.agent.saved && d.agent.saved[key].pair == Loaded(stored, key).value.pair
    ensures Newest(stored, key, Loaded(stored, key))
  {
    hide *;
    KeptIsNewest(stored, key);
    var controller := new Controller(index);
    controller.InitDb(known, stored);
    var agent := new Agent(rid, saved);
    d := new Deployment(controller, agent);
    NoReport(key, controller.publish[key].pair);
    d.OneRound(key, tries, hashOf, how, self);
    d.QuietIs(key);
    d.UpToDateIs(key);
    MatchesHas(controller.publish, agent.modules, agent.saved, key);
  }

  lemma ReportLess(checks: multiset<Check>, c: Check, key: Key, pair: Pair)
    requires c in checks
    ensures Report(checks, key, pair) ==> Report(checks - multiset{c}, key, pair) && (c.key == key ==> c.pair == pair)
  {
    assert forall d :: d in checks - multiset{c} ==> d in checks;
  }

  lemma NoReport(key: Key, pair: Pair)
    ensures Report(multiset{}, key, pair)
  {
  }

  lemma MatchesHas(cache: map<Key, Publication>, modules: map<Key, Module>, saved: map<Key, Module>, key: Key)
    requires Matches(cache, modules, saved, key)
    ensures key in cache && key in saved && saved[key].pair == cache[key].pair
  {
  }

  lemma OtherMatches(before: map<Key, Publication>, after: map<Key, Publication>, modules: map<Key, Module>,
                     saved: map<Key, Module>, key: Key)
    requires key in before && key in after && after[key] == before[key]
    ensures Matches(after, modules, saved, key) <==> Matches(before, modules, saved, key)
  {
  }

  /** The agent's own question, once it has been heard, leaves only the checks from before. */
  lemma Heard(checks: multiset<Check>, rid: string, saved: map<Key, Module>, key: Key, pair: Pair)
    requires key in saved
    ensures var c := Check(rid, key, saved[key].pair);
      && c in checks + multiset(Asked(rid, saved))
      && (c.pair == pair ==> (Report(checks + multiset(Asked(rid, saved)), key, pair) <==> Report(checks, key, pair)))
      && (Report(checks + multiset(Asked(rid, saved)) - multiset{c}, key, pair) <==> Report(checks, key, pair))
  {
    var c, asked := Check(rid, key, saved[key].pair), Asked(rid, saved);
    assert c in asked;
    var after := checks + multiset(asked);
    assert forall d :: d in after ==> d in checks || d in asked;
    assert forall d :: d in checks ==> d in after && d in after - multiset{c};
    assert after[c] == checks[c] + 1;
    assert forall d :: d in after - multiset{c} && d.key == key ==> d in checks;
  }

  lemma CacheOffers(published: set<Publication>, cache: map<Key, Publication>, key: Key)
    requires CacheFrom(published, cache) && key in cache
    ensures Offered(published, key, cache[key].pair)
  {
  }

  lemma OneUpdate(published: set<Publication>, updates: multiset<Update>, tasks: multiset<Task>, u: Update, key: Key,
                  cache: map<Key, Publication>)
    requires UpdatesFrom(published, updates) && Offered(published, u.key, u.pair)
    requires u.key in cache && u.pair == cache[u.key].pair
    ensures UpdatesFrom(published, updates + multiset{u})
    ensures key in cache && Bring(updates, tasks, key, cache[key].pair) ==>
      Bring(updates + multiset{u}, tasks, key, cache[key].pair)
  {
    assert forall v :: v in updates + multiset{u} ==> v in updates || v == u;
  }

  lemma Handed(updates: multiset<Update>, tasks: multiset<Task>, u: Update, task: Option<Task>, key: Key, pair: Pair)
    requires u in updates && (task.Some? ==> task.value.key == u.key && task.value.pair == u.pair)
    ensures Bring(updates, tasks, key, pair) ==>
      Bring(updates - multiset{u}, if task.Some? then tasks + multiset{task.value} else tasks, key, pair)
  {
    assert forall v :: v in updates - multiset{u} ==> v in updates;
    assert task.Some? ==> forall t :: t in tasks + multiset{task.value} ==> t in tasks || t == task.value;
  }

  lemma HandedFrom(published: set<Publication>, updates: multiset<Update>, tasks: multiset<Task>, u: Update,
                   task: Option<Task>)
    requires u in updates && UpdatesFrom(published, updates) && TasksFrom(published, tasks)
    requires task.Some? ==> task.value.key == u.key && task.value.pair == u.pair
    ensures UpdatesFrom(published, updates - multiset{u})
    ensures TasksFrom(published, if task.Some? then tasks + multiset{task.value} else tasks)
  {
    hide Offered;
    assert forall v :: v in updates - multiset{u} ==> v in updates;
    assert task.Some? ==> forall t :: t in tasks + multiset{task.value} ==> t in tasks || t == task.value;
  }

  lemma InstalledMatches(cache: map<Key, Publication>, modules: map<Key, Module>, saved: map<Key, Module>, t: Task,
                         key: Key)
    requires t.key in modules
    ensures var after := modules[t.key := modules[t.key].(pair := t.pair)];
      && (Matches(cache, modules, saved, key) && (t.key == key ==> key in cache && t.pair == cache[key].pair) ==>
            Matches(cache, after, saved, key) && Matches(cache, after, after, key))
      && (t.key == key && key in cache && t.pair == cache[key].pair ==> Matches(cache, after, after, key))
  {
  }

  lemma TaskGone(updates: multiset<Update>, tasks: multiset<Task>, t: Task, key: Key, pair: Pair)
    requires t in tasks
    ensures Bring(updates, tasks, key, pair) ==>
      Bring(updates, tasks - multiset{t}, key, pair) && (t.key == key ==> t.pair == pair)
  {
    assert forall s :: s in tasks - multiset{t} ==> s in tasks;
  }

  lemma TaskFrom(published: set<Publication>, tasks: multiset<Task>, t: Task)
    requires t in tasks && TasksFrom(published, tasks)
    ensures TasksFrom(published, tasks - multiset{t}) && Offered(published, t.key, t.pair)
  {
    assert forall s :: s in tasks - multiset{t} ==> s in tasks;
  }

  lemma InstalledFrom(published: set<Publication>, initial: map<Key, Module>, modules: map<Key, Module>, t: Task)
    requires ModulesFrom(published, initial, modules) && Offered(published, t.key, t.pair)
    ensures t.key in modules ==>
      ModulesFrom(published, initial, modules[t.key := modules[t.key].(pair := t.pair)])
  {
  }

  /** The first content that arrives decides; without any, the last try does. */
  lemma FirstDecides(tries: seq<Try>, hash: string, hashOf: seq<byte> -> string)
    requires |tries| == 3
    ensures Fetched(tries, hash, hashOf) ==
      if tries[0].Got? then if hashOf(tries[0].content) == hash then Success else CheckFailed
      else if tries[1].Got? then if hashOf(tries[1].content) == hash then Success else CheckFailed
      else match tries[2]
           case Got(content) => if hashOf(content) == hash then Success else CheckFailed
           case NoFile => SaveFailed
           case NoTransfer => DownloadFailed
  {
    assert tries[2].Got? ==> exists i :: 0 <= i < 3 && tries[i].Got?;
  }

  lemma FetchedIs(tries: seq<Try>, hash: string, hashOf: seq<byte> -> string)
    requires |tries| == 3
    ensures Fetched(tries, hash, hashOf) != UnzipFailed && Fetched(tries, hash, hashOf) != RunFailed
  {
  }

  lemma MatchesWhen(cache: map<Key, Publication>, modules: map<Key, Module>, key: Key)
    requires key in cache && key in modules
    ensures Matches(cache, modules, modules, key) <==> modules[key].pair == cache[key].pair
  {
  }
}
