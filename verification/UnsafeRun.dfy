/** Runs in which a cached image loses a layer: each meets one of the two conditions of a safe run in
    every step, and fails the other. */
module UnsafeRuns {
  import opened PullRequests
  import opened Manifests
  import opened BlobStores
  import opened CacheState
  import opened CacheLaws
  import opened Recovery
  import opened Exactness
  import opened Goroutines
  import opened GoroutineSafety
  import opened Servers
  import opened LoneRuns

  // ---------------------------------------------------------------- a deletion in the window of a pull

  /** Every prune takes a live credit; nothing is asked of the pulls in progress. */
  ghost predicate CreditedRuns(s: System, steps: seq<Step>, s': System)
    decreases |steps|
  {
    if steps == [] then s == s'
    else Enabled(s, steps[0]) && TakesCredit(s, steps[0]) && CreditedRuns(Apply(s, steps[0]), steps[1..], s')
  }

  ghost predicate CreditedReaches(s: System, s': System) {
    exists steps :: CreditedRuns(s, steps, s')
  }

  lemma {:induction false} RestingCredits(s: System, steps: seq<Step>, s': System)
    requires Runs(s, steps, s') && NoPruning(steps)
    ensures CreditedRuns(s, steps, s')
    decreases |steps|
  {
    hide Enabled, Apply;
    if steps != [] {
      assert steps[0] in steps;
      assert forall step | step in steps[1..] :: step in steps;
      RestingCredits(Apply(s, steps[0]), steps[1..], s');
    }
  }

  lemma {:induction false} CreditedOn(s: System, steps: seq<Step>, s': System, step: Step)
    requires CreditedRuns(s, steps, s') && Enabled(s', step) && TakesCredit(s', step)
    ensures CreditedRuns(s, steps + [step], Apply(s', step))
    decreases |steps|
  {
    hide Enabled, Apply, TakesCredit;
    var all := steps + [step];
    if steps == [] {
      assert all[1..] == [];
    } else {
      CreditedOn(Apply(s, steps[0]), steps[1..], s', step);
      assert all[0] == steps[0] && all[1..] == steps[1..] + [step];
    }
  }

  lemma CreditedReachesOn(s: System, s': System, step: Step)
    requires CreditedReaches(s, s') && Enabled(s', step) && TakesCredit(s', step)
    ensures CreditedReaches(s, Apply(s', step))
  {
    hide CreditedRuns, Enabled, Apply, TakesCredit;
    var steps :| CreditedRuns(s, steps, s');
    CreditedOn(s, steps, s', step);
  }

  lemma RestingReaches(s: System, s': System)
    requires Reaches(s, s')
    ensures CreditedReaches(s, s')
  {
    hide CreditedRuns, Runs;
    var steps :| Runs(s, steps, s') && NoPruning(steps);
    RestingCredits(s, steps, s');
  }

  ghost predicate Idle(s: System, p: Tid) {
    p in s.pruners && s.pruners[p].todo == [] && s.pruners[p].passes > 0
  }

  /** A request that misses is about to pull the image `m`, and an idle pruner may select the image
      `n`, which holds the only credit for the blob `d` of `m`. */
  ghost predicate Race(s: System, t: Tid, p: Tid, m: Manifest, n: Manifest, d: string) {
    && Alone(s, t, Delivers(m)) && !s.threads[t].req.force && m.image && d in m.Blobs()
    && Idle(s, p) && Selectable(s.cache, [n]) && n.image && d in Freed(s.credits, n)
  }

  /** The pull has written all its blobs, and the pruner has not moved yet. */
  lemma RaceArrives(s: System, t: Tid, p: Tid, m: Manifest, n: Manifest, d: string, now: string) returns (s': System)
    requires Race(s, t, p, m, n, d)
    ensures Reaches(s, s') && t in s'.threads && s'.threads[t].req == s.threads[t].req
    ensures s'.threads[t].phase.Fetched? && s'.threads[t].phase.m == m
    ensures AllLanded(m, s'.threads[t].phase.landed)
    ensures s'.pruners == s.pruners && s'.credits == s.credits && Inv(s'.cache, s'.credits)
    ensures s'.cache.manifests == s.cache.manifests && s'.cache.latest == s.cache.latest
  {
    hide PullRequest.Url, PullRequest.WellFormed, PullRequest.IsLatest, Manifest.Blobs, Inv, Reaches, Enabled, Apply,
         Misses, Requests, WriteManifest, LandAll, HasBlobs, Selectable, Freed;
    var up := Delivers(m);
    ReachesStart(s);
    MissStep(s, t, now);
    ReachesOn(s, s, Check(t, now));
    var missed := Apply(s, Check(t, now));
    OpenStep(missed, t);
    ReachesOn(s, missed, Enqueue(t));
    var pulling := Apply(missed, Enqueue(t));
    FetchStep(pulling, t, m);
    ReachesOn(s, pulling, Fetch(t, m));
    s' := LandSteps(s, Apply(pulling, Fetch(t, m)), t, m, m.Blobs(), up.size);
    PulledKeeps(s.cache, s.credits, up);
  }

  /** A prune of what is selected deletes exactly what no other credit references. */
  lemma SweepOne(s: System, p: Tid, n: Manifest)
    requires Inv(s.cache, s.credits) && Idle(s, p) && Selectable(s.cache, [n])
    ensures Enabled(s, Select(p, [n]))
    ensures var chosen := Apply(s, Select(p, [n]));
            && Enabled(chosen, PruneNext(p)) && TakesCredit(chosen, PruneNext(p))
            && var swept := Apply(chosen, PruneNext(p));
            && swept.threads == s.threads && swept.cache == Prune(s.cache, n)
            && swept.credits == s.credits - Credit(n) && Inv(swept.cache, swept.credits)
            && swept.cache.store.files == s.cache.store.files - Freed(s.credits, n)
  {
    hide PullRequest.Url, FromUrl, Manifest.WellFormed, Inv, Prune, Cached, Manifest.Latest, Credit, Freed, Requests;
    SelectedIs(s.cache, s.credits, n);
    PruneKeeps(s.cache, s.credits, FromUrl(n.url).value, n);
    assert [n][0] == n;
  }

  lemma SelectedIs(c: Cache, credits: multiset<Manifest>, n: Manifest)
    requires Inv(c, credits) && Selectable(c, [n])
    ensures n.image ==> n.Core() in credits
    ensures FromUrl(n.url).Ok? && Requests(FromUrl(n.url).value, n)
  {
    hide Owed, Sound, FromUrl, Manifest.Alias, Manifest.Latest;
    assert n in [n];
    PrimaryHasCredit(c, credits, n.url);
  }

  /** The manifest is cached whatever has become of its blobs, and no file comes back. */
  lemma PublishAnyway(s: System, t: Tid, m: Manifest)
    requires t in s.threads && !s.threads[t].req.force && s.threads[t].phase.Fetched? && s.threads[t].phase.m == m
    requires AllLanded(m, s.threads[t].phase.landed) && Requests(s.threads[t].req.pr, m) && Inv(s.cache, s.credits)
    ensures Enabled(s, Publish(t))
    ensures var s' := Apply(s, Publish(t));
            && s'.cache.store.files == s.cache.store.files
            && CachedAt(s'.cache, m)
            && t in s'.threads
            && (m.image && !BlobsOnDisk(s.cache, m) ==> s'.threads[t].phase == Finishing(Failed, None))
  {
    hide FromUrl, PullRequest.Url, PullRequest.UrlWithDigest, PullRequest.IsLatest, Manifest.WellFormed, Manifest.Alias,
         Manifest.Latest, Manifest.Blobs, Owed, AddBlobs, Sound, KeysOk, Backed, AllLanded, HasBlobs, Cached;
    var pr := s.threads[t].req.pr;
    AddKeepsIff(s.cache, s.credits, pr, m);
    AddBlobsSound(s.cache.store, Owed(s.credits), m.Blobs());
    NamesAgree(pr, m);
  }

  /** When the pruner works between the last blob and the add, the image is cached without a blob
      although every prune of the run took a live credit; the request itself is told that it failed. */
  lemma WindowReachable(s: System, t: Tid, p: Tid, m: Manifest, n: Manifest, d: string, now: string)
    returns (s': System)
    requires Race(s, t, p, m, n, d)
    ensures CreditedReaches(s, s') && CachedAt(s'.cache, m) && d !in s'.cache.store.files
    ensures t in s'.threads && s'.threads[t].phase == Finishing(Failed, None)
  {
    hide PullRequest.Url, PullRequest.WellFormed, PullRequest.IsLatest, Manifest.Blobs, Inv, Reaches, Enabled, Apply,
         Misses, Requests, Freed, CachedAt, CreditedReaches, TakesCredit, Prune, AllLanded, Manifest.WellFormed;
    var landed := RaceArrives(s, t, p, m, n, d, now);
    RestingReaches(s, landed);
    SweepOne(landed, p, n);
    var chosen := Apply(landed, Select(p, [n]));
    OnlyPrunesTake(landed, Select(p, [n]));
    CreditedReachesOn(s, landed, Select(p, [n]));
    CreditedReachesOn(s, chosen, PruneNext(p));
    var swept := Apply(chosen, PruneNext(p));
    PublishAnyway(swept, t, m);
    OnlyPrunesTake(swept, Publish(t));
    CreditedReachesOn(s, swept, Publish(t));
    s' := Apply(swept, Publish(t));
  }

  lemma BCached()
    ensures var q, n := ExampleRequest('b'), ExampleImage('b');
            var c := Add(DISK, q, n).0;
            && Requests(q, n) && n.Blobs() == [LAYER] && n.image && n.Core() == n
            && Inv(c, multiset{n}) && DiskOk(c) && Selectable(c, [n])
            && c.manifests == map[n.url := n, n.Alias() := n] && c.latest == map[]
  {
    hide FromUrl, PullRequest.Url, PullRequest.UrlWithDigest, PullRequest.IsLatest, Manifest.WellFormed, Manifest.Alias,
         Manifest.Latest, Manifest.Blobs, Owed, Backed, ManifestKeys, LatestKeys, Sound, AddBlobs, ExampleRequest,
         AddManifest;
    var q, n := ExampleRequest('b'), ExampleImage('b');
    ExampleImageOk('b');
    EmptyInv();
    AddKeeps(DISK, multiset{}, q, n);
    assert multiset{} + Credit(n) == multiset{n};
    AddManifestMaps(DISK, q, n);
    AddKeepsDisk(DISK, q, n);
    assert map[][n.url := n][n.Alias() := n] == map[n.url := n, n.Alias() := n];
  }

  lemma OnlyBMisses()
    ensures Misses(Add(DISK, ExampleRequest('b'), ExampleImage('b')).0, ExampleRequest('a'), false)
  {
    hide FromUrl, PullRequest.Url, Manifest.WellFormed, Manifest.Alias, Manifest.Latest, Add, DISK;
    BCached();
    ExampleImageOk('a');
    ExampleImagesApart();
    RequestedUrl(ExampleRequest('a'), ExampleImage('a'));
  }

  lemma BFreed()
    ensures LAYER in Freed(multiset{ExampleImage('b')}, ExampleImage('b'))
  {
    hide Manifest.Blobs, Owed;
    ExampleImageOk('b');
    var n := ExampleImage('b');
    assert multiset{n} - Credit(n) == multiset{};
    OwedIff(multiset{}, LAYER);
  }

  /** One image is cached, the other one is asked for, and there is one pruner. */
  const WINDOW: System :=
    System(Add(DISK, ExampleRequest('b'), ExampleImage('b')).0, multiset{ExampleImage('b')},
           map[0 := Thread(Request(ExampleRequest('a'), false), Asked)],
           map[0 := Pruner([], 1)], map[], None, 0, map[], [])

  /** Two images with a common layer: the pruner deletes the layer after the pull has seen to it and
      before the add counts it. */
  lemma WindowExample() returns (s: System)
    ensures Start(WINDOW) && DiskOk(WINDOW.cache) && Inv(WINDOW.cache, WINDOW.credits)
    ensures CreditedReaches(WINDOW, s) && CachedAt(s.cache, ExampleImage('a'))
    ensures LAYER in ExampleImage('a').Blobs() && LAYER !in s.cache.store.files
  {
    hide PullRequest.Url, PullRequest.WellFormed, PullRequest.IsLatest, ExampleRequest, CreditedReaches, Inv, ServedKey,
         Requests, Manifest.Blobs, Manifest.Latest, Freed, Selectable, Add, DiskOk, Misses, CachedAt;
    ExampleImageOk('a');
    ExampleRequestOk('a');
    BCached();
    OnlyBMisses();
    BFreed();
    s := WindowReachable(WINDOW, 0, 0, ExampleImage('a'), ExampleImage('b'), LAYER, "");
  }

  // ---------------------------------------------------------------- a prune without a credit

  ghost predicate SparingReaches(s: System, s': System) {
    exists steps :: SparingRuns(s, steps, s')
  }

  lemma {:induction false} SparingOn(s: System, steps: seq<Step>, s': System, step: Step)
    requires SparingRuns(s, steps, s') && Enabled(s', step) && SparesPulls(s', step)
    ensures SparingRuns(s, steps + [step], Apply(s', step))
    decreases |steps|
  {
    hide Enabled, Apply, SparesPulls;
    var all := steps + [step];
    if steps == [] {
      assert all[1..] == [];
    } else {
      SparingOn(Apply(s, steps[0]), steps[1..], s', step);
      assert all[0] == steps[0] && all[1..] == steps[1..] + [step];
    }
  }

  /** When no pull is in progress a pruner spares them all. */
  lemma PrunerSpares(s: System, s': System, step: Step)
    requires SparingReaches(s, s') && Enabled(s', step) && IsPruning(step)
    requires forall t: Tid :: LandedBy(s', t) == {}
    ensures SparingReaches(s, Apply(s', step))
    ensures forall t: Tid :: LandedBy(Apply(s', step), t) == {}
  {
    hide SparingRuns, Enabled, Apply, Deletes;
    var steps :| SparingRuns(s, steps, s');
    SparingOn(s, steps, s', step);
    PruningMoves(s', step);
    forall t: Tid ensures LandedBy(Apply(s', step), t) == {} {
      assert LandedBy(s', t) == {};
    }
  }

  /** Two pruners select the same manifest before either prunes it, while no pull is in progress. */
  lemma StaleReachable(s: System, p: Tid, q: Tid, m: Manifest) returns (s': System)
    requires p != q && Idle(s, p) && Idle(s, q) && Selectable(s.cache, [m])
    requires forall t: Tid :: LandedBy(s, t) == {}
    ensures SparingReaches(s, s') && s'.cache == Prune(Prune(s.cache, m), m)
  {
    hide PullRequest.Url, Prune, Selectable, LandedBy, SparingReaches, Cached;
    assert SparingReaches(s, s) by { NowhereSparing(s); }
    PrunerSpares(s, s, Select(p, [m]));
    var one := Apply(s, Select(p, [m]));
    PrunerSpares(s, one, Select(q, [m]));
    var two := Apply(one, Select(q, [m]));
    PrunerSpares(s, two, PruneNext(p));
    var three := Apply(two, PruneNext(p));
    PrunerSpares(s, three, PruneNext(q));
    s' := Apply(three, PruneNext(q));
  }

  lemma NowhereSparing(s: System)
    ensures SparingReaches(s, s)
  {
    assert SparingRuns(s, [], s);
  }

  /** Both images are cached, nobody asks for anything, and there are two pruners. */
  const STALE: System :=
    System(Add(Add(DISK, ExampleRequest('a'), ExampleImage('a')).0, ExampleRequest('b'), ExampleImage('b')).0,
           multiset{ExampleImage('a'), ExampleImage('b')},
           map[], map[0 := Pruner([], 1), 1 := Pruner([], 1)], map[], None, 0, map[], [])

  /** Two images with a common layer: both pruners prune the first, and the layer of the second goes. */
  lemma StaleExample() returns (s: System)
    ensures Start(STALE) && DiskOk(STALE.cache) && Inv(STALE.cache, STALE.credits)
    ensures SparingReaches(STALE, s) && CachedAt(s.cache, ExampleImage('b'))
    ensures LAYER in ExampleImage('b').Blobs() && LAYER !in s.cache.store.files
  {
    hide PullRequest.Url, ExampleRequest, SparingReaches, Inv, Requests, Manifest.Blobs, Selectable, Add, Prune, DiskOk;
    StalePruneExample();
    TwoCached();
    TwoOnDisk();
    s := StaleReachable(STALE, 0, 1, ExampleImage('a'));
  }

  lemma TwoOnDisk()
    ensures DiskOk(STALE.cache) && Selectable(STALE.cache, [ExampleImage('a')])
  {
    hide PullRequest.Url, ExampleRequest, Inv, Requests, Manifest.Blobs, Add;
    var p, q, m, n := ExampleRequest('a'), ExampleRequest('b'), ExampleImage('a'), ExampleImage('b');
    TwoCached();
    AddKeepsDisk(DISK, p, m);
    AddKeepsDisk(Add(DISK, p, m).0, q, n);
  }
}
