/** When concurrent runs keep the blob counts right. */
module GoroutineSafety {
  import opened PullRequests
  import opened Manifests
  import opened BlobStores
  import opened CacheState
  import opened CacheLaws
  import opened Recovery
  import opened Goroutines
  import opened GoroutineCaches

  /** The blobs that a pull has written but whose manifest is not added yet. */
  function LandedBy(s: System, t: Tid): set<string> {
    if t in s.threads && s.threads[t].phase.Fetched? then s.threads[t].phase.landed else {}
  }

  /** The blob files that a step deletes when the counts are right. */
  ghost function Deletes(s: System, step: Step): set<string>
    requires Enabled(s, step)
  {
    match step
    case Publish(t) =>
      if s.threads[t].req.force then ReplaceFreed(s.cache, s.credits, s.threads[t].phase.m) else {}
    case PruneNext(p) => Freed(s.credits, s.pruners[p].todo[0])
    case _ => {}
  }

  /** No other goroutine is between writing a blob that goes and adding its manifest. */
  ghost predicate SparesPulls(s: System, step: Step)
    requires Enabled(s, step)
  {
    forall t: Tid, d | d in LandedBy(s, t) && d in Deletes(s, step) :: step == Publish(t)
  }

  /** A prune takes a manifest that has been added and not been removed since, or has nothing to take. */
  ghost predicate TakesCredit(s: System, step: Step)
    requires Enabled(s, step)
  {
    step.PruneNext? ==>
      var m := s.pruners[step.p].todo[0];
      m.image && m.layers != [] ==> m.Core() in s.credits
  }

  /** The invariant of the cache, and every blob that a pull has written is still there. */
  ghost predicate Whole(s: System) {
    Inv(s.cache, s.credits) && forall t: Tid, d | d in LandedBy(s, t) :: d in s.cache.store.files
  }

  lemma LandingSound(st: BlobStore, owed: multiset<string>, d: string, size: nat)
    requires Sound(st, owed) && d !in st.files
    ensures Sound(st.(files := st.files[d := size]), owed)
  {
    assert CountedSizes(st.(files := st.files[d := size])) == CountedSizes(st);
  }

  lemma LandingKeeps(c: Cache, credits: multiset<Manifest>, d: string, size: nat)
    requires Inv(c, credits)
    ensures Inv(Landing(c, d, size), credits)
    ensures Landing(c, d, size).store.files.Keys == c.store.files.Keys + {d}
  {
    hide Owed, Sound, KeysOk, Backed, Landing;
    LandingIs(c, d, size);
    if d !in c.store.files { LandingSound(c.store, Owed(credits), d, size); }
    SameKeysOk(c, Landing(c, d, size));
  }

  lemma LandingIs(c: Cache, d: string, size: nat)
    ensures var c' := Landing(c, d, size);
            && c'.manifests == c.manifests && c'.latest == c.latest
            && c'.store == (if d in c.store.files then c.store else c.store.(files := c.store.files[d := size]))
            && c'.store.files.Keys == c.store.files.Keys + {d}
  {
  }

  lemma SameKeysOk(c: Cache, c': Cache)
    requires c.manifests == c'.manifests && c.latest == c'.latest
    ensures KeysOk(c) <==> KeysOk(c')
  {
  }

  lemma LandedOnDisk(s: System, t: Tid)
    requires Sane(s) && Whole(s) && Enabled(s, Publish(t))
    ensures BlobsOnDisk(s.cache, s.threads[t].phase.m) && Requests(s.threads[t].req.pr, s.threads[t].phase.m)
  {
    hide PullRequest.Url, FromUrl, CacheOk, PromisesOk, Inv, Manifest.Latest;
    var m := s.threads[t].phase.m;
    forall d | d in m.Blobs() ensures d in s.cache.store.files {
      assert m.image && d in LandedBy(s, t);
    }
  }

  /** Adding never fails when nothing deletes a blob between its writing and its counting. */
  lemma PublishKeeps(s: System, t: Tid)
    requires Sane(s) && Whole(s) && Enabled(s, Publish(t))
    ensures var s' := Apply(s, Publish(t));
            && Publication(s.cache, s.threads[t].req, s.threads[t].phase.m).1
            && Inv(s'.cache, s'.credits)
            && s'.cache.store.files == s.cache.store.files - Deletes(s, Publish(t))
  {
    hide PullRequest.Url, PullRequest.IsLatest, Inv, Requests, HasBlobs, ReplaceFreed, Add, Replace, ReplacedCredits,
         Credit, CacheOk, PromisesOk;
    var req, m := s.threads[t].req, s.threads[t].phase.m;
    LandedOnDisk(s, t);
    if req.force {
      ReplaceKeeps(s.cache, s.credits, req.pr, m);
    } else {
      AddKeeps(s.cache, s.credits, req.pr, m);
      assert s.cache.store.files - {} == s.cache.store.files;
    }
  }

  lemma EmptySweep(c: Cache, credits: multiset<Manifest>, pr: PullRequest, m: Manifest)
    requires Inv(c, credits) && Requests(pr, m) && m.image && m.layers == [] && m.Core() !in credits
    ensures Inv(Prune(c, m), credits - Credit(m))
    ensures Prune(c, m).store == c.store && Freed(credits, m) == {}
  {
    hide FromUrl, PullRequest.Url, PullRequest.UrlWithDigest, PullRequest.IsLatest, Manifest.WellFormed, Manifest.Alias,
         Manifest.Latest, Owed, Backed, ManifestKeys, LatestKeys, RmManifest;
    assert m.Blobs() == [] && credits - Credit(m) == credits;
    RmManifestKeys(c, pr, m);
    RmManifestBacked(c, credits, pr, m);
  }

  lemma SweepKeeps(s: System, p: Tid)
    requires Sane(s) && Whole(s) && Enabled(s, PruneNext(p)) && TakesCredit(s, PruneNext(p))
    ensures var s' := Apply(s, PruneNext(p));
            && Inv(s'.cache, s'.credits)
            && s'.cache.store.files == s.cache.store.files - Deletes(s, PruneNext(p))
  {
    hide Inv, Prune, Freed, Credit, Manifest.WellFormed, FromUrl, CacheOk, PromisesOk, Requests;
    var m := s.pruners[p].todo[0];
    assert m.WellFormed();
    ParsesWell(m);
    if m.image && m.Core() !in s.credits {
      EmptySweep(s.cache, s.credits, FromUrl(m.url).value, m);
    } else {
      PruneKeeps(s.cache, s.credits, FromUrl(m.url).value, m);
    }
  }

  /** A prune without a credit leaves counts that nothing accounts for. */
  lemma SweepBreaks(s: System, p: Tid)
    requires Sane(s) && Whole(s) && Enabled(s, PruneNext(p)) && !TakesCredit(s, PruneNext(p))
    ensures !Whole(Apply(s, PruneNext(p)))
  {
    hide Prune, Credit, Manifest.WellFormed, FromUrl, CacheOk, PromisesOk, Requests, KeysOk, Backed, Owed, Cached;
    var m := s.pruners[p].todo[0];
    assert m.WellFormed();
    ParsesWell(m);
    PruneKeepsCountsIff(s.cache, s.credits, FromUrl(m.url).value, m);
  }

  /** Every other step leaves the counts and the files alone, but for a blob that arrives. */
  lemma QuietKeeps(s: System, step: Step)
    requires Sane(s) && Whole(s) && Enabled(s, step) && !step.Publish? && !step.PruneNext?
    ensures var s' := Apply(s, step);
            && Inv(s'.cache, s'.credits)
            && s'.cache.store.files.Keys == s.cache.store.files.Keys + (if step.Land? then {step.d} else {})
  {
    hide PullRequest.Url, PullRequest.WellFormed, PullRequest.IsLatest, Inv, Get, WriteManifest, Landing, CacheOk,
         PromisesOk, Requests, Selectable;
    match step {
      case Check(t, now) => GetKeeps(s.cache, s.credits, s.threads[t].req.pr, now);
      case Read(t, now) => GetKeeps(s.cache, s.credits, s.threads[t].req.pr, now);
      case Fetch(t, m) => WritingKeeps(s.cache, s.credits, m);
      case Land(t, d, size) => LandingKeeps(s.cache, s.credits, d, size);
      case _ =>
    }
  }

  /** What a safe step does to the files, and that it keeps the invariant of the cache. */
  lemma StepFiles(s: System, step: Step)
    requires Sane(s) && Whole(s) && Enabled(s, step) && TakesCredit(s, step)
    ensures var s' := Apply(s, step);
            && Inv(s'.cache, s'.credits)
            && s'.cache.store.files.Keys
               == s.cache.store.files.Keys - Deletes(s, step) + (if step.Land? then {step.d} else {})
  {
    hide Inv, Sane, Whole, Enabled, Apply, TakesCredit, Freed, ReplaceFreed;
    if step.Publish? {
      PublishKeeps(s, step.t);
    } else if step.PruneNext? {
      SweepKeeps(s, step.p);
    } else {
      QuietKeeps(s, step);
    }
  }

  /** A step keeps counts, files and the blobs of pulls under way exactly when a prune takes a credit
      and no deletion hits a pull in the window between writing a blob and counting it. */
  lemma SafeKeptIff(s: System, step: Step)
    requires Sane(s) && Whole(s) && Enabled(s, step)
    ensures Whole(Apply(s, step)) <==> TakesCredit(s, step) && SparesPulls(s, step)
  {
    hide Inv, Sane, Deletes, Enabled, Apply, TakesCredit;
    var s' := Apply(s, step);
    if !TakesCredit(s, step) {
      OnlyPrunesTake(s, step);
      SweepBreaks(s, step.p);
    } else {
      StepFiles(s, step);
      if SparesPulls(s, step) {
        forall t: Tid, d | d in LandedBy(s', t) ensures d in s'.cache.store.files {
          LandedGrows(s, step, t);
        }
      } else {
        var t: Tid, d :| d in LandedBy(s, t) && d in Deletes(s, step) && step != Publish(t);
        LandedStays(s, step, t, d);
        assert d in LandedBy(s', t) && d !in s'.cache.store.files;
      }
    }
  }

  lemma OnlyPrunesTake(s: System, step: Step)
    requires Enabled(s, step)
    ensures TakesCredit(s, step) || step.PruneNext?
  {
  }

  /** A deletion moves no goroutine that is fetching but the one that publishes. */
  lemma LandedStays(s: System, step: Step, t: Tid, d: string)
    requires Enabled(s, step) && d in Deletes(s, step) && step != Publish(t)
    ensures LandedBy(Apply(s, step), t) == LandedBy(s, t) && (step.Publish? || step.PruneNext?)
  {
    hide PullRequest.Url, Enabled, Apply, Freed, ReplaceFreed;
    if step.PruneNext? { PruningMoves(s, step); } else { StepMoves(s, step); }
  }

  lemma SafeKept(s: System, step: Step)
    requires Sane(s) && Whole(s) && Enabled(s, step) && TakesCredit(s, step) && SparesPulls(s, step)
    ensures Whole(Apply(s, step))
  {
    hide Sane, Whole, Enabled, Apply, TakesCredit, SparesPulls;
    SafeKeptIff(s, step);
  }

  lemma LandedGrows(s: System, step: Step, t: Tid)
    requires Enabled(s, step)
    ensures LandedBy(Apply(s, step), t) <= LandedBy(s, t) + (if step.Land? then {step.d} else {})
    ensures step == Publish(t) ==> LandedBy(Apply(s, step), t) == {}
  {
    hide PullRequest.Url, Enabled, Apply;
    if IsPruning(step) {
      PruningMoves(s, step);
    } else if step.Send? {
      SendMoves(s, step.t);
    } else {
      StepMoves(s, step);
      if step.Land? { LandedIs(s, step.t, step.d, step.size); }
    }
  }

  lemma LandedIs(s: System, t: Tid, d: string, size: nat)
    requires Enabled(s, Land(t, d, size))
    ensures LandedBy(Apply(s, Land(t, d, size)), t) == LandedBy(s, t) + {d}
  {
    hide PullRequest.Url, Landing, Cached;
  }

  ghost predicate SafeRuns(s: System, steps: seq<Step>, s': System)
    decreases |steps|
  {
    if steps == [] then s == s'
    else
      && Enabled(s, steps[0]) && TakesCredit(s, steps[0]) && SparesPulls(s, steps[0])
      && SafeRuns(Apply(s, steps[0]), steps[1..], s')
  }

  lemma {:induction false} SafeAlways(s: System, steps: seq<Step>, s': System)
    requires Sane(s) && Table(s) && Whole(s) && SafeRuns(s, steps, s')
    ensures Sane(s') && Whole(s')
    decreases |steps|
  {
    hide Sane, Table, Whole, Enabled, Apply, TakesCredit, SparesPulls;
    if steps != [] {
      TableKept(s, steps[0]);
      SaneKept(s, steps[0]);
      SafeKept(s, steps[0]);
      SafeAlways(Apply(s, steps[0]), steps[1..], s');
    }
  }

  /** In every interleaving of any number of goroutines, if each prune takes a live credit and no
      deletion hits a pull in its window, every primary image is served with all its layers: each has
      a positive count and a file. */
  lemma EveryImageIsServable(start: System, steps: seq<Step>, s: System, k: string)
    requires Start(start) && DiskOk(start.cache) && Inv(start.cache, start.credits) && SafeRuns(start, steps, s)
    requires Primary(s.cache.manifests, k) || Primary(s.cache.latest, k)
    ensures FromCache(s.cache, k).Some?
    ensures var m := if Primary(s.cache.manifests, k) then s.cache.manifests[k] else s.cache.latest[k];
            m.image ==> forall d | d in m.Blobs() :: d in s.cache.store.files && Count(s.cache.store.counts, d) > 0
  {
    hide Inv, Table, Sane, Manifest.Blobs, SafeRuns, DiskOk;
    StartWhole(start);
    SafeAlways(start, steps, s);
    PrimaryIsServable(s.cache, s.credits, k);
  }

  lemma StartWhole(s: System)
    requires Start(s) && DiskOk(s.cache) && Inv(s.cache, s.credits)
    ensures Sane(s) && Table(s) && Whole(s)
  {
    hide PullRequest.Url, PullRequest.WellFormed, PullRequest.IsLatest, ManifestKeys, LatestKeys, DiskOk, Table, Sane,
         Sound, Backed;
    StartSane(s);
  }

  // ---------------------------------------------------------------- the two hypotheses

  /** An add keeps the counts right exactly when every blob of the image is still on disk. */
  lemma AddKeepsIff(c: Cache, credits: multiset<Manifest>, pr: PullRequest, m: Manifest)
    requires Inv(c, credits) && Requests(pr, m)
    ensures Add(c, pr, m).1 <==> (m.image ==> BlobsOnDisk(c, m))
    ensures Inv(Add(c, pr, m).0, credits + Credit(m)) <==> (m.image ==> BlobsOnDisk(c, m))
  {
    hide FromUrl, PullRequest.Url, PullRequest.UrlWithDigest, PullRequest.IsLatest, Manifest.WellFormed, Manifest.Alias,
         Manifest.Latest, Manifest.Blobs, Owed, AddBlobs, Backed, ManifestKeys, LatestKeys, AddManifest;
    if m.image && !BlobsOnDisk(c, m) {
      AddBlobsSound(c.store, Owed(credits), m.Blobs());
      var k := AddBlobsPartial(c.store, Owed(credits), m.Blobs());
      var d := m.Blobs()[k];
      assert m.Blobs()[..k + 1][k] == d;
      assert d in multiset(m.Blobs()[..k + 1]);
      AddedStoreIs(c, pr, m);
    } else {
      NoBlobs(m);
      AddKeeps(c, credits, pr, m);
    }
  }

  /** At most one pruner is at work. */
  ghost predicate Solo(s: System) {
    forall p, q | p in s.pruners && q in s.pruners && s.pruners[p].todo != [] && s.pruners[q].todo != [] :: p == q
  }

  /** No forced pull replaces a manifest that a pruner has selected and not pruned yet. */
  ghost predicate SparesSelection(s: System, step: Step)
    requires Enabled(s, step)
  {
    step.Publish? && s.threads[step.t].req.force ==>
      var found, m := FromCache(s.cache, s.threads[step.t].phase.m.url), s.threads[step.t].phase.m;
      found.Some? && found.value.digest != m.digest ==>
        forall p, n | p in s.pruners && n in s.pruners[p].todo :: n.Core() != found.value.Core()
  }

  /** A pruner starts a pass when no other pruner is at work. */
  ghost predicate SelectsAlone(s: System, step: Step) {
    step.Select? ==> forall p | p in s.pruners :: s.pruners[p].todo == []
  }

  /** What the pruner has selected and not pruned yet still holds its credits. */
  ghost predicate SelectionHeld(s: System) {
    forall p | p in s.pruners :: Bag(s.pruners[p].todo) <= s.credits
  }

  lemma {:induction false} BagOnce(todo: seq<Manifest>, n: Manifest)
    requires DistinctUrls(todo)
    ensures Bag(todo)[n] <= 1
    ensures Bag(todo)[n] > 0 ==> exists i :: 0 <= i < |todo| && todo[i].image && todo[i].Core() == n
    decreases |todo|
  {
    if todo != [] {
      var m, rest := todo[0], todo[1..];
      assert forall i | 0 <= i < |rest| :: rest[i] == todo[i + 1];
      BagOnce(rest, n);
      if i :| 0 <= i < |rest| && rest[i].image && rest[i].Core() == n {
        assert todo[i + 1].Core() == n && m.Core().url != n.url;
      }
      assert Credit(m)[n] > 0 ==> todo[0].image && todo[0].Core() == n;
    }
  }

  lemma SelectedBag(c: Cache, credits: multiset<Manifest>, todo: seq<Manifest>)
    requires Inv(c, credits) && Selectable(c, todo)
    ensures Bag(todo) <= credits
  {
    hide Manifest.WellFormed, Manifest.Alias, Manifest.Latest, Sound, Owed, ManifestKeys, LatestKeys, Bag, Inv;
    forall n ensures Bag(todo)[n] <= credits[n] {
      BagOnce(todo, n);
      if Bag(todo)[n] > 0 {
        var i :| 0 <= i < |todo| && todo[i].image && todo[i].Core() == n;
        PrimaryHasCredit(c, credits, todo[i].url);
        assert todo[i] in todo;
      }
    }
  }

  lemma SoloStays(s: System, step: Step)
    requires Solo(s) && Enabled(s, step) && SelectsAlone(s, step)
    ensures Solo(Apply(s, step))
  {
    hide PullRequest.Url, Enabled, Apply, Follows;
    if IsPruning(step) {
      PruningMoves(s, step);
      OnePrunerMoves(s, step);
    } else if step.Send? {
      SendMoves(s, step.t);
    } else {
      StepMoves(s, step);
    }
  }

  lemma OnePrunerMoves(s: System, step: Step)
    requires Enabled(s, step) && IsPruning(step)
    ensures var s' := Apply(s, step);
            && step.p in s.pruners && s'.pruners.Keys == s.pruners.Keys
            && (forall p | p in s.pruners && p != step.p :: s'.pruners[p] == s.pruners[p])
            && (step.PruneNext? ==> s.pruners[step.p].todo != [])
  {
    hide PullRequest.Url, Prune, Selectable, Cached;
  }

  /** Only publications and prunes move the credits, and only pruners change what is selected. */
  lemma CreditsStay(s: System, step: Step)
    requires Enabled(s, step) && !step.PruneNext?
    ensures !step.Publish? ==> Apply(s, step).credits == s.credits
    ensures !step.Select? ==> Apply(s, step).pruners == s.pruners
    ensures step.Publish? ==>
              var req, m := s.threads[step.t].req, s.threads[step.t].phase.m;
              Apply(s, step).credits == PublishedCredits(s.cache, s.credits, req, m)
  {
    hide PullRequest.Url, Get, Publication, Prune, PublishedCredits, Credit, WriteManifest, Landing, Requests,
         Selectable, Cached,
         AllLanded;
  }

  lemma PruneHeld(s: System, p: Tid)
    requires Solo(s) && SelectionHeld(s) && Enabled(s, PruneNext(p))
    ensures TakesCredit(s, PruneNext(p)) && SelectionHeld(Apply(s, PruneNext(p)))
  {
    hide PullRequest.Url, Prune, Cached;
  }

  lemma {:induction false} BagMember(todo: seq<Manifest>, core: Manifest)
    ensures core in Bag(todo) ==> exists n :: n in todo && n.Core() == core
    decreases |todo|
  {
    if todo != [] {
      BagMember(todo[1..], core);
      if core in Credit(todo[0]) { assert todo[0] in todo && todo[0].Core() == core; }
    }
  }

  /** A publication leaves the credits of what is selected alone, unless it replaces some of it. */
  lemma PublishHeld(s: System, t: Tid)
    requires SelectionHeld(s) && Enabled(s, Publish(t)) && SparesSelection(s, Publish(t))
    ensures SelectionHeld(Apply(s, Publish(t)))
  {
    hide Apply, Bag, AllLanded, Manifest.Core;
    CreditsStay(s, Publish(t));
    var s', req, m := Apply(s, Publish(t)), s.threads[t].req, s.threads[t].phase.m;
    forall p | p in s.pruners ensures Bag(s.pruners[p].todo) <= s'.credits {
      var todo := s.pruners[p].todo;
      forall core ensures Bag(todo)[core] <= s'.credits[core] {
        BagMember(todo, core);
      }
    }
  }

  /** With one pass at a time, of which forced pulls take nothing, every prune takes a live credit. */
  lemma SoloKept(s: System, step: Step)
    requires Sane(s) && Whole(s) && Solo(s) && SelectionHeld(s) && Enabled(s, step)
    requires SelectsAlone(s, step) && SparesSelection(s, step)
    ensures TakesCredit(s, step) && Solo(Apply(s, step)) && SelectionHeld(Apply(s, step))
  {
    hide Inv, Sane, Solo, Bag, Credit, Apply, Enabled, SelectsAlone, SparesSelection;
    SoloStays(s, step);
    if step.PruneNext? {
      PruneHeld(s, step.p);
    } else if step.Publish? {
      PublishHeld(s, step.t);
    } else {
      CreditsStay(s, step);
      if step.Select? { SelectHeld(s, step.p, step.todo); }
    }
  }

  lemma SelectHeld(s: System, p: Tid, todo: seq<Manifest>)
    requires Whole(s) && SelectionHeld(s) && Enabled(s, Select(p, todo))
    ensures SelectionHeld(Apply(s, Select(p, todo)))
  {
    hide Inv, Bag, Selectable;
    SelectedBag(s.cache, s.credits, todo);
  }

  /** As SafeRuns, but nothing is asked of the prunes. */
  ghost predicate SparingRuns(s: System, steps: seq<Step>, s': System)
    decreases |steps|
  {
    if steps == [] then s == s'
    else Enabled(s, steps[0]) && SparesPulls(s, steps[0]) && SparingRuns(Apply(s, steps[0]), steps[1..], s')
  }

  /** As SparingRuns, and no two passes of pruners overlap, nor does a forced pull interfere with one. */
  ghost predicate SerialRuns(s: System, steps: seq<Step>, s': System)
    decreases |steps|
  {
    if steps == [] then s == s'
    else
      && Enabled(s, steps[0]) && SparesPulls(s, steps[0])
      && SelectsAlone(s, steps[0]) && SparesSelection(s, steps[0])
      && SerialRuns(Apply(s, steps[0]), steps[1..], s')
  }

  lemma {:induction false} SerialRunsAreSafe(s: System, steps: seq<Step>, s': System)
    requires Sane(s) && Table(s) && Whole(s) && Solo(s) && SelectionHeld(s) && SerialRuns(s, steps, s')
    ensures SafeRuns(s, steps, s')
    decreases |steps|
  {
    hide Sane, Table, Whole, Solo, SelectionHeld, SelectsAlone, SparesSelection, Enabled, Apply, TakesCredit,
         SparesPulls;
    if steps != [] {
      SoloKept(s, steps[0]);
      TableKept(s, steps[0]);
      SaneKept(s, steps[0]);
      SafeKept(s, steps[0]);
      SerialRunsAreSafe(Apply(s, steps[0]), steps[1..], s');
    }
  }

  lemma StartSolo(s: System)
    requires Start(s)
    ensures Solo(s) && SelectionHeld(s)
  {
    hide PullRequest.WellFormed, PullRequest.IsLatest;
  }

  /** However many pruners make however many passes: when no two passes overlap and no forced pull
      replaces what is selected, it is enough that deletions spare the pulls in progress. */
  lemma SerialPassesAreSafe(start: System, steps: seq<Step>, s: System)
    requires Start(start) && DiskOk(start.cache) && Inv(start.cache, start.credits)
    requires SerialRuns(start, steps, s)
    ensures SafeRuns(start, steps, s) && Inv(s.cache, s.credits)
  {
    hide Inv, Table, Sane, SafeRuns, SerialRuns, DiskOk, Solo, SelectionHeld, Start;
    StartWhole(start);
    StartSolo(start);
    SerialRunsAreSafe(start, steps, s);
    SafeAlways(start, steps, s);
  }

  /** There is one pruner, and no pull is forced. */
  ghost predicate OnePruner(s: System) {
    && (forall t | t in s.threads :: !s.threads[t].req.force)
    && (forall p, q | p in s.pruners && q in s.pruners :: p == q)
  }

  lemma OnePrunerStays(s: System, step: Step)
    requires OnePruner(s) && Enabled(s, step)
    ensures OnePruner(Apply(s, step)) && SelectsAlone(s, step) && SparesSelection(s, step)
  {
    hide PullRequest.Url, Apply, Selectable, Requests, AllLanded, Manifest.Blobs, Follows;
    if IsPruning(step) {
      PruningMoves(s, step);
      OnePrunerMoves(s, step);
    } else if step.Send? {
      SendMoves(s, step.t);
    } else {
      StepMoves(s, step);
    }
  }

  lemma {:induction false} OnePrunerIsSerial(s: System, steps: seq<Step>, s': System)
    requires OnePruner(s) && SparingRuns(s, steps, s')
    ensures SerialRuns(s, steps, s')
    decreases |steps|
  {
    hide OnePruner, Enabled, Apply, SparesPulls, SelectsAlone, SparesSelection;
    if steps != [] {
      OnePrunerStays(s, steps[0]);
      OnePrunerIsSerial(Apply(s, steps[0]), steps[1..], s');
    }
  }

  /** With one pruner, however often it sweeps, and no forced pulls, it is enough that deletions spare
      the pulls in progress. */
  lemma OnePrunerIsSafe(start: System, steps: seq<Step>, s: System)
    requires Start(start) && DiskOk(start.cache) && Inv(start.cache, start.credits)
    requires OnePruner(start)
    requires SparingRuns(start, steps, s)
    ensures SafeRuns(start, steps, s) && Inv(s.cache, s.credits)
  {
    hide Inv, SafeRuns, SparingRuns, SerialRuns, DiskOk, OnePruner, Start;
    OnePrunerIsSerial(start, steps, s);
    SerialPassesAreSafe(start, steps, s);
  }
}
