/** What the main loop of a fresh run keeps, over the rows of that run. */
module RunSpec {
  import opened Models
  import opened GitOps
  import opened Ledger
  import opened QueueSpec
  import opened DependencyGraph
  import opened Trace

  /** The rows of the run are the bundle: one per ordered spec, at its position, with its dependencies, and
      independent only without any. */
  ghost predicate IsBundle(T: map<Key, Task>, run: string, g: Graph, order: seq<string>) {
    && (forall i :: 0 <= i < |order| ==>
          && order[i] in g && Key(run, order[i]) in T
          && var t := T[Key(run, order[i])];
             t.buildOrder == i && t.dependsOn == g[order[i]] && (t.independent ==> t.dependsOn == []))
    && forall k :: k in T && k.run == run ==> k.slug in order
  }

  /** Between tasks every row of the run is queued or finished. */
  ghost predicate Settled(T: map<Key, Task>, run: string) {
    forall k :: k in T && k.run == run ==> T[k].status == Queued || Terminal(T[k].status)
  }

  /** A queued row that depends on something only waits for rows that are queued or committed. */
  ghost predicate Safe(T: map<Key, Task>, run: string) {
    forall k, d :: k in T && k.run == run && T[k].status == Queued && !T[k].independent
                   && d in T[k].dependsOn && Key(run, d) in T ==>
                     T[Key(run, d)].status in {Queued, Committed}
  }

  function Slugs(rs: seq<HaltRecord>): seq<string> { seq(|rs|, i requires 0 <= i < |rs| => rs[i].slug) }

  /** The report so far names every finished row of the run once, in the list of its status. */
  ghost predicate Reported(T: map<Key, Task>, run: string, committed: seq<string>, parked: seq<string>,
                           halted: seq<string>)
  {
    && NoDups(committed) && NoDups(parked) && NoDups(halted)
    && (forall s :: s in committed <==> Key(run, s) in T && T[Key(run, s)].status == Committed)
    && (forall s :: s in parked <==> Key(run, s) in T && T[Key(run, s)].status == Parked)
    && (forall s :: s in halted <==> Key(run, s) in T && T[Key(run, s)].status == DependentHalted)
  }

  function QueuedKeys(T: map<Key, Task>, run: string): set<Key> {
    set k | k in T && k.run == run && T[k].status == Queued
  }

  /** A claim, with every row as it was when the claim was made. */
  datatype Claim = Claim(key: Key, tasks: map<Key, Task>)

  /** Every in-bundle dependency of the claimed task was committed. */
  ghost predicate SafeClaim(c: Claim) {
    && c.key in c.tasks
    && forall d :: d in c.tasks[c.key].dependsOn && Key(c.key.run, d) in c.tasks ==>
         c.tasks[Key(c.key.run, d)].status == Committed
  }

  function ClaimedKeys(cs: seq<Claim>): seq<Key> { seq(|cs|, i requires 0 <= i < |cs| => cs[i].key) }

  lemma ClaimedKeysMore(cs: seq<Claim>, c: Claim)
    ensures ClaimedKeys(cs + [c]) == ClaimedKeys(cs) + [c.key]
  {
  }

  lemma NoClaims()
    ensures ClaimedKeys([]) == []
  {
  }

  // ------------------------------------------------------------------ the write log

  /** Between two positions of the log the row was written as committed. */
  ghost predicate CommitLogged(log: seq<WriteEntry>, from: nat, to: nat, k: Key) {
    exists j :: from <= j < to <= |log| && log[j] == Updated(k, Committed)
  }

  /** The key claimed at a position of the log is in the bundle, and each of its dependencies in the bundle was
      written as committed before. */
  ghost predicate ClaimFollows(log: seq<WriteEntry>, from: nat, i: nat, run: string, g: Graph)
    requires i < |log| && log[i].Claimed?
  {
    && log[i].key.run == run && log[i].key.slug in g
    && forall d :: d in g[log[i].key.slug] && d in g ==> CommitLogged(log, from, i, Key(run, d))
  }

  ghost predicate ClaimsFollow(log: seq<WriteEntry>, from: nat, run: string, g: Graph) {
    forall i :: from <= i < |log| && log[i].Claimed? ==> ClaimFollows(log, from, i, run, g)
  }

  /** What has been logged since `base`: claims follow the commits they need, and the committed rows of the bundle are
      among what was written. */
  ghost predicate Told(base: seq<WriteEntry>, log: seq<WriteEntry>, T: map<Key, Task>, run: string, g: Graph) {
    && base <= log && ClaimsFollow(log, |base|, run, g)
    && forall k :: k in T && k.run == run && k.slug in g && T[k].status == Committed ==>
         CommitLogged(log, |base|, |log|, k)
  }

  /** Every dependency of the key inside the bundle is a committed row. */
  ghost predicate DepsCommitted(T: map<Key, Task>, g: Graph, key: Key) {
    && key.slug in g
    && forall d :: d in g[key.slug] && d in g ==>
         Key(key.run, d) in T && T[Key(key.run, d)].status == Committed
  }

  lemma ToldAtStart(log: seq<WriteEntry>, T: map<Key, Task>, run: string, g: Graph)
    requires CommittedListed(T, run, [])
    ensures Told(log, log, T, run, g)
  {
  }

  lemma ToldMeans(base: seq<WriteEntry>, log: seq<WriteEntry>, T: map<Key, Task>, run: string, g: Graph)
    requires Told(base, log, T, run, g)
    ensures base <= log && ClaimsFollow(log, |base|, run, g)
  {
  }

  /** Where nothing was claimed there is nothing to follow. */
  lemma NothingFollows(log: seq<WriteEntry>, log': seq<WriteEntry>, run: string, g: Graph)
    requires log <= log' && ClaimLog(log) == ClaimLog(log')
    ensures ClaimsFollow(log', |log|, run, g)
  {
    hide ClaimLog, ClaimFollows;
    assert log'[..|log|] == log;
    forall i | |log| <= i < |log'| ensures !log'[i].Claimed? { NoClaimAfter(log', |log|, i); }
  }

  lemma CommitLoggedLater(log: seq<WriteEntry>, log': seq<WriteEntry>, from: nat, from': nat, to: nat, to': nat, k: Key)
    requires CommitLogged(log, from, to, k) && log <= log' && from' <= from && to <= to' <= |log'|
    ensures CommitLogged(log', from', to', k)
  {
    var j :| from <= j < to <= |log| && log[j] == Updated(k, Committed);
    assert log'[j] == log[j];
  }

  lemma ClaimFollowsLater(log: seq<WriteEntry>, log': seq<WriteEntry>, from: nat, from': nat, i: nat, run: string,
                          g: Graph)
    requires i < |log| && log[i].Claimed? && log <= log' && from' <= from && ClaimFollows(log, from, i, run, g)
    ensures log'[i].Claimed? && ClaimFollows(log', from', i, run, g)
  {
    hide CommitLogged;
    assert log'[i] == log[i];
    forall d | d in g[log[i].key.slug] && d in g ensures CommitLogged(log', from', i, Key(run, d)) {
      CommitLoggedLater(log, log', from, from', i, i, Key(run, d));
    }
  }

  /** Entries after a prefix with the same claims are no claims. */
  lemma {:induction false} NoClaimAfter(log: seq<WriteEntry>, n: nat, i: nat)
    requires n <= i < |log| && |ClaimLog(log)| <= |ClaimLog(log[..n])|
    ensures !log[i].Claimed?
  {
    var last := |log| - 1;
    ClaimLogGrows(log, n);
    if i < last {
      assert log[..last][..n] == log[..n];
      NoClaimAfter(log[..last], n, i);
    } else {
      ClaimLogGrows(log[..last], n);
      assert log[..last][..n] == log[..n];
    }
  }

  lemma {:induction false} ClaimLogGrows(log: seq<WriteEntry>, n: nat)
    requires n <= |log|
    ensures |ClaimLog(log[..n])| <= |ClaimLog(log)|
  {
    if n < |log| {
      var last := |log| - 1;
      ClaimLogGrows(log[..last], n);
      assert log[..last][..n] == log[..n];
    } else {
      assert log[..n] == log;
    }
  }

  /** Writes that claim nothing keep it, if they say what they commit. */
  lemma ToldGrows(base: seq<WriteEntry>, log: seq<WriteEntry>, log': seq<WriteEntry>, T: map<Key, Task>,
                  T': map<Key, Task>, run: string, g: Graph)
    requires Told(base, log, T, run, g) && log <= log' && ClaimLog(log') == ClaimLog(log)
    requires forall k :: k in T' && k.run == run && T'[k].status == Committed ==>
               (k in T && T[k].status == Committed) || CommitLogged(log', |log|, |log'|, k)
    ensures Told(base, log', T', run, g)
  {
    hide CommitLogged, ClaimFollows, ClaimLog;
    assert log'[..|log|] == log;
    forall i | |base| <= i < |log'| && log'[i].Claimed? ensures ClaimFollows(log', |base|, i, run, g) {
      if i < |log| { ClaimFollowsLater(log, log', |base|, |base|, i, run, g); } else { NoClaimAfter(log', |log|, i); }
    }
    forall k | k in T' && k.run == run && k.slug in g && T'[k].status == Committed
      ensures CommitLogged(log', |base|, |log'|, k)
    {
      if CommitLogged(log', |log|, |log'|, k) {
        CommitLoggedLater(log', log', |log|, |base|, |log'|, |log'|, k);
      } else {
        CommitLoggedLater(log, log', |base|, |base|, |log|, |log'|, k);
      }
    }
  }

  /** A status write keeps it, and so does a refused one. */
  lemma ToldMove(base: seq<WriteEntry>, log: seq<WriteEntry>, log': seq<WriteEntry>, T: map<Key, Task>,
                 T': map<Key, Task>, run: string, g: Graph, key: Key, status: TaskStatus)
    requires Told(base, log, T, run, g) && Touched(T, T', key)
    requires (T' == T && log' == log) || (log' == log + [Updated(key, status)] && T'[key].status == status)
    ensures Told(base, log', T', run, g)
  {
    if log' == log {
      assert log' == log + [];
    } else {
      ClaimLogSnoc(log, Updated(key, status));
      if status == Committed { assert log'[|log|] == Updated(key, Committed); }
      ToldGrows(base, log, log', T, T', run, g);
    }
  }

  /** Parking and halting commit nothing. */
  lemma ToldPark(base: seq<WriteEntry>, log: seq<WriteEntry>, log': seq<WriteEntry>, T: map<Key, Task>,
                 T': map<Key, Task>, run: string, g: Graph, key: Key, d: Disposition)
    requires Told(base, log, T, run, g) && Disposed(T, T', key, d) && d.ParkedFor?
    requires log <= log' && ClaimLog(log') == ClaimLog(log)
    ensures Told(base, log', T', run, g)
  {
    forall k | k in T' && T'[k].status == Committed ensures k in T && T[k].status == Committed {
      assert T'[k] == T[key := T'[key]][k];
    }
    hide Disposed, Told;
    ToldGrows(base, log, log', T, T', run, g);
  }

  /** A claim keeps it where the dependencies are committed rows. */
  lemma ToldClaim(base: seq<WriteEntry>, log: seq<WriteEntry>, T: map<Key, Task>, T': map<Key, Task>, g: Graph,
                  key: Key)
    requires Told(base, log, T, key.run, g) && DepsCommitted(T, g, key) && Touched(T, T', key)
    requires T'[key].status != Committed
    ensures Told(base, log + [Claimed(key)], T', key.run, g)
  {
    hide CommitLogged;
    var log' := log + [Claimed(key)];
    forall i | |base| <= i < |log'| && log'[i].Claimed? ensures ClaimFollows(log', |base|, i, key.run, g) {
      if i < |log| {
        ClaimFollowsLater(log, log', |base|, |base|, i, key.run, g);
      } else {
        forall d | d in g[key.slug] && d in g ensures CommitLogged(log', |base|, i, Key(key.run, d)) {
          CommitLoggedLater(log, log', |base|, |base|, |log|, i, Key(key.run, d));
        }
      }
    }
    forall k | k in T' && k.run == key.run && k.slug in g && T'[k].status == Committed
      ensures CommitLogged(log', |base|, |log'|, k)
    {
      CommitLoggedLater(log, log', |base|, |base|, |log|, |log'|, k);
    }
  }

  /** What holds since a later position also holds since an earlier one, if nothing was claimed in between. */
  lemma ClaimsFollowEarlier(start: seq<WriteEntry>, base: seq<WriteEntry>, log: seq<WriteEntry>, run: string, g: Graph)
    requires start <= base <= log && ClaimLog(start) == ClaimLog(base) && ClaimsFollow(log, |base|, run, g)
    ensures ClaimsFollow(log, |start|, run, g)
  {
    hide CommitLogged, ClaimFollows, ClaimLog;
    assert base[..|start|] == start;
    forall i | |start| <= i < |log| && log[i].Claimed? ensures ClaimFollows(log, |start|, i, run, g) {
      if i < |base| {
        assert log[i] == base[i];
        NoClaimAfter(base, |start|, i);
      } else {
        ClaimFollowsLater(log, log, |base|, |start|, i, run, g);
      }
    }
  }

  /** The bundle's rows have the bundle's dependencies, so a safe claim finds them committed. */
  lemma NextDepsCommitted(T: map<Key, Task>, run: string, g: Graph, order: seq<string>, key: Key)
    requires IsBundle(T, run, g, order) && SafeClaim(Claim(key, T)) && key.run == run
    requires forall s :: s in order <==> s in g
    ensures DepsCommitted(T, g, key)
  {
  }

  /** The list names every committed row of the run. */
  ghost predicate CommittedListed(T: map<Key, Task>, run: string, committed: seq<string>) {
    forall k :: k in T && k.run == run && T[k].status == Committed ==> k.slug in committed
  }

  lemma NothingListed(T: map<Key, Task>, run: string)
    requires forall k :: k in T ==> k.run != run
    ensures CommittedListed(T, run, [])
  {
  }

  lemma TouchedLists(T: map<Key, Task>, T': map<Key, Task>, run: string, committed: seq<string>, key: Key)
    requires CommittedListed(T, run, committed) && Touched(T, T', key) && T'[key].status != Committed
    ensures CommittedListed(T', run, committed)
  {
  }

  /** The queued row of lowest build order has nothing left to wait for. */
  lemma NextIsSafe(T: map<Key, Task>, run: string, g: Graph, order: seq<string>, key: Key)
    requires IsBundle(T, run, g, order) && Safe(T, run) && DepsFirst(g, order) && NoDups(order)
    requires IsNext(T, run, key)
    ensures SafeClaim(Claim(key, T))
  {
    forall d | d in T[key].dependsOn && Key(run, d) in T ensures T[Key(run, d)].status == Committed {
      var i :| 0 <= i < |order| && order[i] == key.slug;
      assert Key(run, order[i]) == key;
      var j :| 0 <= j < |order| && order[j] == Key(run, d).slug;
      assert d in g && d in order[..i];
      var m :| 0 <= m < i && order[m] == d;
      assert m == j;
      assert T[Key(run, order[j])].buildOrder == j;
    }
  }

  lemma CommitKeepsSafe(T: map<Key, Task>, T': map<Key, Task>, run: string, key: Key, sha: Commit)
    requires Safe(T, run) && Disposed(T, T', key, CommittedAt(sha))
    ensures Safe(T', run)
  {
  }

  /** Parking leaves no queued dependent behind: whoever waited, directly or not, has been halted. */
  lemma ParkKeepsSafe(T: map<Key, Task>, T': map<Key, Task>, run: string, key: Key, reason: string,
                      halts: seq<HaltRecord>)
    requires Safe(T, run) && key.run == run && key in T && T[key].status == Queued
    requires Disposed(T, T', key, ParkedFor(reason, halts))
    ensures Safe(T', run)
  {
    var P := T[key := T'[key]];
    var h := HaltSet(P, run, key.slug);
    forall k, d | k in T' && k.run == run && T'[k].status == Queued && !T'[k].independent
                  && d in T'[k].dependsOn && Key(run, d) in T'
      ensures T'[Key(run, d)].status in {Queued, Committed}
    {
      var dk := Key(run, d);
      assert k !in h && k != key && P[k] == T[k];
      if dk == key || dk in h {
        assert Feeds(P, run, d, k);
        if dk in h { HaltSetMembers(P, run, key.slug, dk); }
        HaltPathSnoc(P, run, key.slug, d, k);
        assert false;
      }
      assert P[dk] == T[dk];
    }
  }

  lemma DisposedKeepsBundle(T: map<Key, Task>, T': map<Key, Task>, run: string, g: Graph, order: seq<string>,
                            key: Key, d: Disposition)
    requires IsBundle(T, run, g, order) && Settled(T, run) && Disposed(T, T', key, d)
    ensures IsBundle(T', run, g, order) && Settled(T', run)
  {
  }

  lemma DisposedKeepsOthers(T: map<Key, Task>, T': map<Key, Task>, key: Key, d: Disposition)
    requires Disposed(T, T', key, d)
    ensures OthersSame(T, T', key.run)
  {
    if d.ParkedFor? {
      forall k | k in T' && k.run != key.run ensures T'[k] == T[k] {
        var P := T[key := T'[key]];
        if k in HaltSet(P, key.run, key.slug) { HaltSetMembers(P, key.run, key.slug, k); }
      }
    }
  }

  lemma DisposedShrinksQueue(T: map<Key, Task>, T': map<Key, Task>, run: string, key: Key, d: Disposition)
    requires key.run == run && key in T && T[key].status == Queued && Disposed(T, T', key, d)
    ensures QueuedKeys(T', run) < QueuedKeys(T, run)
  {
    assert key in QueuedKeys(T, run) && key !in QueuedKeys(T', run);
    forall k | k in QueuedKeys(T', run) ensures k in QueuedKeys(T, run) {
      if d.ParkedFor? { assert T'[k] == T[key := T'[key]][k]; }
    }
  }

  lemma CommitKeepsReported(T: map<Key, Task>, T': map<Key, Task>, run: string, key: Key,
                          committed: seq<string>, parked: seq<string>, halted: seq<string>, sha: Commit)
    requires Reported(T, run, committed, parked, halted) && key.run == run && key in T && T[key].status == Queued
    requires Disposed(T, T', key, CommittedAt(sha))
    ensures Reported(T', run, committed + [key.slug], parked, halted)
  {
    assert Key(run, key.slug) == key;
    NoDupsSnoc(committed, key.slug);
  }

  lemma {:induction false} ParkKeepsReported(T: map<Key, Task>, T': map<Key, Task>, run: string, key: Key,
                        committed: seq<string>, parked: seq<string>, halted: seq<string>,
                        reason: string, halts: seq<HaltRecord>)
    requires Reported(T, run, committed, parked, halted) && key.run == run && key in T && T[key].status == Queued
    requires Settled(T, run) && Disposed(T, T', key, ParkedFor(reason, halts))
    ensures Reported(T', run, committed, parked + [key.slug], halted + Slugs(halts))
  {
    var P := T[key := T'[key]];
    var h := HaltSet(P, run, key.slug);
    assert Key(run, key.slug) == key;
    NoDupsSnoc(parked, key.slug);
    HaltSlugs(P, run, key.slug, halts, h);
    forall s | s in Slugs(halts) ensures s !in halted {
      HaltSetMembers(P, run, key.slug, Key(run, s));
    }
    NoDupsJoin(halted, Slugs(halts));
    forall s ensures s in halted + Slugs(halts) <==> Key(run, s) in T' && T'[Key(run, s)].status == DependentHalted {
      if Key(run, s) in T' && Key(run, s) !in h { assert T'[Key(run, s)] == P[Key(run, s)]; }
    }
    forall s ensures s in committed <==> Key(run, s) in T' && T'[Key(run, s)].status == Committed {
      if Key(run, s) in h { HaltSetMembers(P, run, key.slug, Key(run, s)); }
    }
    forall s ensures s in parked + [key.slug] <==> Key(run, s) in T' && T'[Key(run, s)].status == Parked {
      if Key(run, s) in h { HaltSetMembers(P, run, key.slug, Key(run, s)); }
    }
  }

  lemma HaltSlugs(T: map<Key, Task>, run: string, root: string, halts: seq<HaltRecord>, h: set<Key>)
    requires Records(T, run, root, halts, h)
    ensures NoDups(Slugs(halts)) && forall s :: s in Slugs(halts) <==> Key(run, s) in h
  {
    forall s | Key(run, s) in h ensures s in Slugs(halts) {
      var i :| 0 <= i < |halts| && halts[i].slug == Key(run, s).slug;
      assert Slugs(halts)[i] == s;
    }
  }

  lemma NoDupsJoin(a: seq<string>, b: seq<string>)
    requires NoDups(a) && NoDups(b) && forall s :: s in b ==> s !in a
    ensures NoDups(a + b)
  {
    forall i, j | 0 <= i < j < |a + b| ensures (a + b)[i] != (a + b)[j] {
      if i < |a| <= j { assert (a + b)[j] == b[j - |a|] && b[j - |a|] in b && a[i] in a; }
    }
  }

  /** Everything the main loop keeps about the rows and its lists, between two tasks. */
  ghost predicate Between(T: map<Key, Task>, run: string, g: Graph, order: seq<string>,
                          committed: seq<string>, parked: seq<string>, halted: seq<HaltRecord>) {
    && IsBundle(T, run, g, order) && Settled(T, run) && Safe(T, run)
    && Reported(T, run, committed, parked, Slugs(halted))
  }

  /** Rows of other runs are as they were. */
  ghost predicate OthersSame(T: map<Key, Task>, T': map<Key, Task>, run: string) {
    forall k: Key :: k.run != run ==> ((k in T <==> k in T') && (k in T ==> T'[k] == T[k]))
  }

  lemma BetweenLists(T: map<Key, Task>, run: string, g: Graph, order: seq<string>,
                     committed: seq<string>, parked: seq<string>, halted: seq<HaltRecord>)
    requires Between(T, run, g, order, committed, parked, halted)
    ensures CommittedListed(T, run, committed)
  {
    hide IsBundle, Safe, Settled;
    forall k | k in T && k.run == run && T[k].status == Committed ensures k.slug in committed {
      assert Key(run, k.slug) == k;
    }
  }

  lemma OthersSameTwice(T: map<Key, Task>, T': map<Key, Task>, T'': map<Key, Task>, run: string)
    requires OthersSame(T, T', run) && OthersSame(T', T'', run)
    ensures OthersSame(T, T'', run)
  {
  }

  lemma TouchedSamesOthers(T: map<Key, Task>, T': map<Key, Task>, key: Key)
    requires Touched(T, T', key)
    ensures OthersSame(T, T', key.run)
  {
  }

  /** Disposing of one queued task keeps all of it, with the lists extended, and shrinks the queue. */
  lemma DisposeKeeps(T: map<Key, Task>, T': map<Key, Task>, run: string, g: Graph, order: seq<string>,
                     committed: seq<string>, parked: seq<string>, halted: seq<HaltRecord>, key: Key, d: Disposition)
    requires Between(T, run, g, order, committed, parked, halted)
    requires key.run == run && key in T && T[key].status == Queued && Disposed(T, T', key, d)
    ensures d.CommittedAt? ==> Between(T', run, g, order, committed + [key.slug], parked, halted)
    ensures d.ParkedFor? ==> Between(T', run, g, order, committed, parked + [key.slug], halted + d.halts)
    ensures QueuedKeys(T', run) < QueuedKeys(T, run) && OthersSame(T, T', run)
  {
    hide IsBundle, Settled, Safe, Reported, Disposed, QueuedKeys, OthersSame, Slugs;
    DisposedKeepsBundle(T, T', run, g, order, key, d);
    DisposedShrinksQueue(T, T', run, key, d);
    DisposedKeepsOthers(T, T', key, d);
    match d
    case CommittedAt(sha) =>
      CommitKeepsSafe(T, T', run, key, sha);
      CommitKeepsReported(T, T', run, key, committed, parked, Slugs(halted), sha);
    case ParkedFor(reason, halts) =>
      ParkKeepsSafe(T, T', run, key, reason, halts);
      ParkKeepsReported(T, T', run, key, committed, parked, Slugs(halted), reason, halts);
      SlugsJoin(halted, halts);
  }

  lemma SlugsJoin(a: seq<HaltRecord>, b: seq<HaltRecord>)
    ensures Slugs(a + b) == Slugs(a) + Slugs(b)
  {
  }

  // ------------------------------------------------------------------ the report

  /** The three lists are duplicate-free, pairwise disjoint, and together exactly the resolved slugs. */
  ghost predicate Partition(order: seq<string>, committed: seq<string>, parked: seq<string>, halted: seq<string>) {
    && NoDups(committed + parked + halted)
    && forall s :: s in committed + parked + halted <==> s in order
  }

  lemma FinishedIsPartition(T: map<Key, Task>, run: string, g: Graph, order: seq<string>,
                            committed: seq<string>, parked: seq<string>, halted: seq<string>)
    requires IsBundle(T, run, g, order) && Settled(T, run) && Reported(T, run, committed, parked, halted)
    requires NoneQueued(T, run)
    ensures Partition(order, committed, parked, halted)
  {
    NoDupsJoin(committed, parked);
    NoDupsJoin(committed + parked, halted);
    forall s ensures s in committed + parked + halted <==> s in order {
      if s in order {
        var i :| 0 <= i < |order| && order[i] == s;
        assert Key(run, order[i]) in T && Terminal(T[Key(run, s)].status);
      }
      if Key(run, s) in T { assert Key(run, s).slug in order; }
    }
  }
}
