/** When concurrent runs leave no blob counted that no cached image needs. */
module GoroutineExactness {
  import opened PullRequests
  import opened Manifests
  import opened CacheState
  import opened Recovery
  import opened Exactness
  import opened Goroutines
  import opened GoroutineCaches
  import opened GoroutineSafety

  /** An add displaces no cached image, and a prune none but the one it removes. */
  ghost predicate DisplacesNoOther(s: System, step: Step)
    requires Enabled(s, step)
  {
    match step
    case Publish(t) =>
      s.threads[t].req.force || forall n | n in PrimaryImages(s.cache) :: !Displaces(s.threads[t].phase.m, n)
    case PruneNext(p) =>
      var m := s.pruners[p].todo[0];
      forall n | n in PrimaryImages(s.cache) && Displaces(m, n) :: n.Core() == m.Core()
    case _ => true
  }

  lemma PublishExact(s: System, t: Tid)
    requires Sane(s) && Enabled(s, Publish(t)) && Exact(s.cache, s.credits)
    ensures var s' := Apply(s, Publish(t)); Exact(s'.cache, s'.credits) <==> DisplacesNoOther(s, Publish(t))
  {
    hide PullRequest.Url, PullRequest.IsLatest, PullRequest.WellFormed, FromUrl, Manifest.WellFormed, Manifest.Latest,
         Exact, PrimaryImages, Displaces, Add, Replace, ReplacedCredits, Credit, Cached, AllLanded, PromisesOk,
         Manifest.Blobs;
    var req, m := s.threads[t].req, s.threads[t].phase.m;
    if req.force {
      ReplaceKeepsExact(s.cache, s.credits, req.pr, m);
    } else {
      AddKeepsExactIff(s.cache, s.credits, req.pr, m);
    }
  }

  lemma SweepExact(s: System, p: Tid)
    requires Sane(s) && Enabled(s, PruneNext(p)) && Exact(s.cache, s.credits)
    ensures var s' := Apply(s, PruneNext(p)); Exact(s'.cache, s'.credits) <==> DisplacesNoOther(s, PruneNext(p))
  {
    hide PullRequest.Url, PullRequest.IsLatest, PullRequest.WellFormed, FromUrl, Manifest.WellFormed, Manifest.Latest,
         Exact, PrimaryImages, Displaces, Prune, Credit, Cached, PromisesOk, Requests;
    var m := s.pruners[p].todo[0];
    assert m.WellFormed();
    ParsesWell(m);
    PruneKeepsExactIff(s.cache, s.credits, FromUrl(m.url).value, m);
  }

  lemma QuietExact(s: System, step: Step)
    requires Sane(s) && Enabled(s, step) && Exact(s.cache, s.credits) && !step.Publish? && !step.PruneNext?
    ensures var s' := Apply(s, step); Exact(s'.cache, s'.credits)
  {
    hide PullRequest.Url, PullRequest.WellFormed, PullRequest.IsLatest, Get, WriteManifest, Landing, PromisesOk,
         Requests, Selectable, PrimaryImages, Cached, KeysOk, ImageCores;
    match step {
      case Check(t, now) => GetKeepsExact(s.cache, s.credits, s.threads[t].req.pr, now);
      case Read(t, now) => GetKeepsExact(s.cache, s.credits, s.threads[t].req.pr, now);
      case Fetch(t, m) => WrittenImages(s.cache, m);
      case Land(t, d, size) => LandedImages(s.cache, d, size);
      case _ =>
    }
  }

  lemma WrittenImages(c: Cache, m: Manifest)
    ensures PrimaryImages(c) == PrimaryImages(WriteManifest(c, m))
  {
    hide FromUrl, PrimaryImages;
    SameImages(c, WriteManifest(c, m));
  }

  lemma LandedImages(c: Cache, d: string, size: nat)
    ensures PrimaryImages(c) == PrimaryImages(Landing(c, d, size))
  {
    hide PrimaryImages;
    SameImages(c, Landing(c, d, size));
  }

  /** A step keeps one credit for each cached image, and no other, exactly when it displaces no cached
      image but the one it prunes or replaces. */
  lemma ExactKeptIff(s: System, step: Step)
    requires Sane(s) && Enabled(s, step) && Exact(s.cache, s.credits)
    ensures var s' := Apply(s, step); Exact(s'.cache, s'.credits) <==> DisplacesNoOther(s, step)
  {
    hide Sane, Enabled, Apply, Exact, PrimaryImages;
    if step.Publish? {
      PublishExact(s, step.t);
    } else if step.PruneNext? {
      SweepExact(s, step.p);
    } else {
      QuietExact(s, step);
    }
  }

  /** As SafeRuns, and no step displaces another cached image. */
  ghost predicate TightRuns(s: System, steps: seq<Step>, s': System)
    decreases |steps|
  {
    if steps == [] then s == s'
    else
      && Enabled(s, steps[0]) && TakesCredit(s, steps[0]) && SparesPulls(s, steps[0]) && DisplacesNoOther(s, steps[0])
      && TightRuns(Apply(s, steps[0]), steps[1..], s')
  }

  lemma {:induction false} TightAlways(s: System, steps: seq<Step>, s': System)
    requires Sane(s) && Table(s) && Whole(s) && Exact(s.cache, s.credits) && TightRuns(s, steps, s')
    ensures Whole(s') && Exact(s'.cache, s'.credits)
    decreases |steps|
  {
    hide Sane, Table, Whole, Exact, Enabled, Apply, TakesCredit, SparesPulls, DisplacesNoOther;
    if steps != [] {
      TableKept(s, steps[0]);
      SaneKept(s, steps[0]);
      SafeKept(s, steps[0]);
      ExactKeptIff(s, steps[0]);
      TightAlways(Apply(s, steps[0]), steps[1..], s');
    }
  }

  /** In every such run a blob is counted exactly when a cached image references it, so the collector
      that works online keeps nothing for nobody and deletes nothing that is needed. */
  lemma CountedIffCached(start: System, steps: seq<Step>, s: System, d: string)
    requires Start(start) && DiskOk(start.cache) && Inv(start.cache, start.credits)
    requires Exact(start.cache, start.credits) && TightRuns(start, steps, s)
    ensures d in s.cache.store.counts <==> exists n :: n in PrimaryImages(s.cache) && d in n.Blobs()
    ensures d in s.cache.store.counts ==> d in s.cache.store.files
  {
    hide Inv, Exact, Table, Sane, Manifest.Blobs, TightRuns, DiskOk, PrimaryImages;
    StartWhole(start);
    TightAlways(start, steps, s);
    ExactCountsIff(s.cache, s.credits, d);
    CountedHasFile(s.cache, s.credits, d);
  }

  lemma CountedHasFile(c: Cache, credits: multiset<Manifest>, d: string)
    requires Inv(c, credits)
    ensures d in c.store.counts ==> d in c.store.files
  {
    hide Owed, KeysOk, Backed;
  }
}
