/** Runs of the transition system: the method that serves one request is one, and a jam is another. */
module LoneRuns {
  import opened PullRequests
  import opened Manifests
  import opened CacheState
  import opened CacheLaws
  import opened Goroutines
  import opened GoroutineProgress
  import opened Servers

  predicate NoPruning(steps: seq<Step>) {
    forall step | step in steps :: !IsPruning(step)
  }

  /** `s'` is reached from `s` while all pruners rest. */
  ghost predicate Reaches(s: System, s': System) {
    exists steps :: Runs(s, steps, s') && NoPruning(steps)
  }

  lemma {:induction false} RunsOn(s: System, steps: seq<Step>, s': System, step: Step)
    requires Runs(s, steps, s') && Enabled(s', step)
    ensures Runs(s, steps + [step], Apply(s', step))
    decreases |steps|
  {
    hide Enabled, Apply;
    var all := steps + [step];
    if steps == [] {
      assert all[1..] == [];
    } else {
      RunsOn(Apply(s, steps[0]), steps[1..], s', step);
      assert all[0] == steps[0] && all[1..] == steps[1..] + [step];
    }
  }

  lemma ReachesOn(s: System, s': System, step: Step)
    requires Reaches(s, s') && Enabled(s', step) && !IsPruning(step)
    ensures Reaches(s, Apply(s', step))
  {
    hide Runs, Enabled, Apply;
    var steps :| Runs(s, steps, s') && NoPruning(steps);
    RunsOn(s, steps, s', step);
    assert NoPruning(steps + [step]);
  }

  lemma ReachesStart(s: System)
    ensures Reaches(s, s)
  {
    assert Runs(s, [], s) && NoPruning([]);
  }

  /** Apart from cache, log and pull table, all that has changed is the phase of goroutine `t`. */
  ghost predicate OnlyAt(s: System, s': System, t: Tid, phase: Phase) {
    && t in s.threads && s'.threads == s.threads[t := s.threads[t].(phase := phase)]
    && s'.pruners == s.pruners && s'.holder == s.holder && s'.nextChan == s.nextChan && s'.owner == s.owner
  }

  lemma MissStep(s: System, t: Tid, now: string)
    requires t in s.threads && s.threads[t].phase == Asked
    requires Inv(s.cache, s.credits) && s.threads[t].req.pr.WellFormed()
    requires Misses(s.cache, s.threads[t].req.pr, s.threads[t].req.force)
    ensures Enabled(s, Check(t, now))
    ensures var s' := Apply(s, Check(t, now));
            OnlyAt(s, s', t, Missed) && s'.cache == s.cache && s'.credits == s.credits && s'.pulls == s.pulls
  {
    hide PullRequest.Url, PullRequest.WellFormed, Inv, Get, ServedKey, Cached;
    ReadIs(s.cache, s.credits, s.threads[t].req.pr, now);
  }

  lemma OpenStep(s: System, t: Tid)
    requires t in s.threads && s.threads[t].phase == Missed && s.holder.None? && s.threads[t].Url() !in s.pulls
    ensures Enabled(s, Enqueue(t))
    ensures var s' := Apply(s, Enqueue(t));
            && OnlyAt(s, s', t, Pulling) && s'.cache == s.cache && s'.credits == s.credits
            && s'.pulls == s.pulls[s.threads[t].Url() := []]
  {
    hide PullRequest.Url;
  }

  lemma FetchStep(s: System, t: Tid, m: Manifest)
    requires t in s.threads && s.threads[t].phase == Pulling && Requests(s.threads[t].req.pr, m)
    ensures Enabled(s, Fetch(t, m))
    ensures var s' := Apply(s, Fetch(t, m));
            && OnlyAt(s, s', t, Fetched(m, {})) && s'.cache == WriteManifest(s.cache, m)
            && s'.credits == s.credits && s'.pulls == s.pulls
  {
    hide PullRequest.Url, Requests, WriteManifest, Cached;
  }

  lemma LandStep(s: System, t: Tid, m: Manifest, landed: set<string>, d: string, size: nat)
    requires t in s.threads && s.threads[t].phase == Fetched(m, landed)
    requires m.image && d in m.Blobs() && d !in landed
    ensures Enabled(s, Land(t, d, size))
    ensures var s' := Apply(s, Land(t, d, size));
            && OnlyAt(s, s', t, Fetched(m, landed + {d})) && s'.cache == Landing(s.cache, d, size)
            && s'.credits == s.credits && s'.pulls == s.pulls
  {
    hide PullRequest.Url, Manifest.Blobs, Landing, Cached;
  }

  lemma FailStep(s: System, t: Tid)
    requires t in s.threads
    requires s.threads[t].phase == Pulling || (s.threads[t].phase.Fetched? && s.threads[t].phase.m.image)
    ensures Enabled(s, FailPull(t))
    ensures var s' := Apply(s, FailPull(t));
            && OnlyAt(s, s', t, Finishing(Failed, None))
            && s'.cache == s.cache && s'.credits == s.credits && s'.pulls == s.pulls
  {
    hide PullRequest.Url;
  }

  lemma PublishStep(s: System, t: Tid, m: Manifest, landed: set<string>)
    requires t in s.threads && s.threads[t].phase == Fetched(m, landed) && AllLanded(m, landed)
    requires Publication(s.cache, s.threads[t].req, m).1
    ensures Enabled(s, Publish(t))
    ensures var s', req := Apply(s, Publish(t)), s.threads[t].req;
            && s'.threads[t].phase.Finishing? && s'.threads[t].phase.out == Served(m)
            && OnlyAt(s, s', t, s'.threads[t].phase)
            && s'.cache == Publication(s.cache, req, m).0
            && s'.credits == PublishedCredits(s.cache, s.credits, req, m) && s'.pulls == s.pulls
  {
    hide PullRequest.Url, Publication, PublishedCredits, Cached, AllLanded;
  }

  /** Nobody has registered for the url, so the lock is given back at once. */
  lemma FinishSteps(start: System, s: System, t: Tid) returns (s': System)
    requires Reaches(start, s) && t in s.threads && s.threads[t].phase.Finishing? && s.holder.None?
    requires s.threads[t].Url() in s.pulls && s.pulls[s.threads[t].Url()] == []
    ensures Reaches(start, s')
    ensures OnlyAt(s, s', t, Done(s.threads[t].phase.out)) && s'.cache == s.cache && s'.credits == s.credits
    ensures s'.pulls == s.pulls - {s.threads[t].Url()}
  {
    hide PullRequest.Url, Reaches;
    var locked := Apply(s, Lock(t));
    ReachesOn(start, s, Lock(t));
    ReachesOn(start, locked, Unlock(t));
    s' := Apply(locked, Unlock(t));
  }

  lemma {:induction false} LandAllFiles(c: Cache, ds: seq<string>, size: string -> nat)
    ensures forall d | d in ds :: d in LandAll(c, ds, size).store.files
    decreases |ds|
  {
    if ds != [] {
      LandAllFiles(c, ds[..|ds| - 1], size);
      assert forall d | d in ds :: d in ds[..|ds| - 1] || d == ds[|ds| - 1];
    }
  }

  /** Blobs that arrive one after the other; a digest that repeats is there already. */
  lemma {:induction false} LandSteps(start: System, s: System, t: Tid, m: Manifest, ds: seq<string>,
                                     size: string -> nat)
    returns (s': System)
    requires Reaches(start, s) && t in s.threads && s.threads[t].phase == Fetched(m, {})
    requires m.image && forall d | d in ds :: d in m.Blobs()
    ensures Reaches(start, s')
    ensures OnlyAt(s, s', t, Fetched(m, set d | d in ds)) && s'.cache == LandAll(s.cache, ds, size)
    ensures s'.credits == s.credits && s'.pulls == s.pulls
    decreases |ds|
  {
    hide PullRequest.Url, Manifest.Blobs, Reaches, Enabled, Apply;
    if ds == [] {
      s' := s;
      assert (set d | d in ds) == {};
      assert s'.threads == s.threads[t := s.threads[t].(phase := Fetched(m, {}))];
    } else {
      var front, last := ds[..|ds| - 1], ds[|ds| - 1];
      var mid := LandSteps(start, s, t, m, front, size);
      var landed := set d | d in front;
      assert (set d | d in ds) == landed + {last};
      if last in landed {
        LandAllFiles(s.cache, front, size);
        assert landed + {last} == landed;
        s' := mid;
      } else {
        LandStep(mid, t, m, landed, last, size(last));
        ReachesOn(start, mid, Land(t, last, size(last)));
        s' := Apply(mid, Land(t, last, size(last)));
      }
    }
  }

  lemma PublishSucceeds(c: Cache, credits: multiset<Manifest>, req: Request, m: Manifest)
    requires Inv(c, credits) && Requests(req.pr, m) && (req.force ==> req.pr.IsLatest())
    requires m.image ==> BlobsOnDisk(c, m)
    ensures Publication(c, req, m).1
  {
    hide FromUrl, PullRequest.Url, PullRequest.IsLatest, Manifest.WellFormed, Manifest.Latest, Inv, Add, Replace,
         HasBlobs;
    NoLayers(c, m);
    if req.force { ReplaceKeeps(c, credits, req.pr, m); } else { AddKeeps(c, credits, req.pr, m); }
  }

  /** A request that nobody disturbs: it has missed and nobody else pulls its url. */
  ghost predicate Alone(s: System, t: Tid, up: Upstream) {
    && t in s.threads && s.threads[t].phase == Asked && s.holder.None? && s.threads[t].Url() !in s.pulls
    && var req := s.threads[t].req;
    && req.pr.WellFormed() && (req.force ==> req.pr.IsLatest())
    && Inv(s.cache, s.credits) && Misses(s.cache, req.pr, req.force)
    && (up.manifest.Some? ==> Requests(req.pr, up.manifest.value))
  }

  /** A goroutine that has missed, whose url nobody pulls. */
  ghost predicate Next(s: System, t: Tid, up: Upstream) {
    && t in s.threads && s.threads[t].phase == Missed && s.holder.None? && s.threads[t].Url() !in s.pulls
    && var req := s.threads[t].req;
    && (req.force ==> req.pr.IsLatest()) && Inv(s.cache, s.credits)
    && (up.manifest.Some? ==> Requests(req.pr, up.manifest.value))
  }

  /** From the miss to the point where the deferred signal is due. */
  lemma PullSteps(start: System, s: System, t: Tid, up: Upstream) returns (s': System)
    requires Reaches(start, s) && Next(s, t, up)
    ensures var req := s.threads[t].req;
            && Reaches(start, s') && t in s'.threads && s'.threads[t].phase.Finishing?
            && s'.threads[t].phase.out == PullOutcome(up)
            && OnlyAt(s, s', t, s'.threads[t].phase)
            && s'.cache == AfterMiss(s.cache, req, up) && s'.credits == CreditsAfterMiss(s.cache, s.credits, req, up)
            && s'.pulls == s.pulls[s.threads[t].Url() := []]
  {
    hide PullRequest.Url, PullRequest.WellFormed, PullRequest.IsLatest, Manifest.Blobs, Inv, Reaches, Enabled, Apply,
         Requests, Publication, PublishedCredits, WriteManifest, LandAll, HasBlobs;
    var req := s.threads[t].req;
    OpenStep(s, t);
    ReachesOn(start, s, Enqueue(t));
    var pulling := Apply(s, Enqueue(t));
    if up.manifest.None? {
      FailStep(pulling, t);
      ReachesOn(start, pulling, FailPull(t));
      s' := Apply(pulling, FailPull(t));
    } else {
      var m := up.manifest.value;
      FetchStep(pulling, t, m);
      ReachesOn(start, pulling, Fetch(t, m));
      WritingKeeps(s.cache, s.credits, m);
      s' := ArrivalSteps(start, Apply(pulling, Fetch(t, m)), t, up);
      PulledKeeps(s.cache, s.credits, up);
      SamePublication(s.cache, LandAll(WriteManifest(s.cache, m), up.Arrived(), up.size), s.credits, req, up);
    }
  }

  lemma ArrivalSteps(start: System, s: System, t: Tid, up: Upstream) returns (s': System)
    requires up.manifest.Some? && Reaches(start, s) && t in s.threads
    requires s.threads[t].phase == Fetched(up.manifest.value, {})
    requires Requests(s.threads[t].req.pr, up.manifest.value)
    requires s.threads[t].req.force ==> s.threads[t].req.pr.IsLatest()
    requires Inv(s.cache, s.credits)
    ensures var m, req, pulled := up.manifest.value, s.threads[t].req, LandAll(s.cache, up.Arrived(), up.size);
            && Reaches(start, s') && t in s'.threads && s'.threads[t].phase.Finishing?
            && s'.threads[t].phase.out == PullOutcome(up)
            && OnlyAt(s, s', t, s'.threads[t].phase) && s'.pulls == s.pulls
            && s'.cache == (if up.Completes() then Publication(pulled, req, m).0 else pulled)
            && s'.credits == (if up.Completes() then PublishedCredits(pulled, s.credits, req, m) else s.credits)
  {
    hide PullRequest.Url, PullRequest.IsLatest, Manifest.Blobs, Inv, Reaches, Enabled, Apply, Requests, Publication,
         PublishedCredits, HasBlobs;
    var m, ds := up.manifest.value, up.Arrived();
    var landed := s;
    if m.image {
      landed := LandSteps(start, s, t, m, ds, up.size);
    }
    assert landed.cache == LandAll(s.cache, ds, up.size);
    if up.Completes() {
      LandAllKeeps(s.cache, s.credits, ds, up.size);
      if m.image { CompleteOnDisk(s.cache, m, up); }
      PublishSucceeds(landed.cache, s.credits, s.threads[t].req, m);
      PublishStep(landed, t, m, if m.image then set d | d in ds else {});
      ReachesOn(start, landed, Publish(t));
      s' := Apply(landed, Publish(t));
    } else {
      FailStep(landed, t);
      ReachesOn(start, landed, FailPull(t));
      s' := Apply(landed, FailPull(t));
    }
  }

  lemma CompleteOnDisk(c: Cache, m: Manifest, up: Upstream)
    requires up.manifest == Some(m) && up.Completes() && m.image
    ensures BlobsOnDisk(LandAll(c, up.Arrived(), up.size), m)
  {
    hide Manifest.Blobs;
    LandAllFiles(c, up.Arrived(), up.size);
  }

  /** From the miss to the answer. */
  lemma MissServed(start: System, s: System, t: Tid, up: Upstream) returns (s': System)
    requires Reaches(start, s) && Next(s, t, up)
    ensures Reaches(start, s') && OnlyAt(s, s', t, Done(PullOutcome(up))) && s'.pulls == s.pulls
    ensures PulledAlone(s.cache, s.credits, s.threads[t].req, up, s'.cache, s'.credits)
    ensures Inv(s'.cache, s'.credits)
  {
    hide PullRequest.Url, PullRequest.WellFormed, PullRequest.IsLatest, Inv, Reaches, Requests, AfterMiss,
         CreditsAfterMiss;
    var pulled := PullSteps(start, s, t, up);
    s' := FinishSteps(start, pulled, t);
    AloneShape(s.cache, s.credits, s.threads[t].req, up);
  }

  /** An undisturbed request of the transition system ends in the cache, the answer and the pull table
      that the method which serves a request promises, whatever all other goroutines are waiting for. */
  lemma LoneRequest(s: System, t: Tid, up: Upstream, now: string) returns (s': System)
    requires Alone(s, t, up)
    ensures Reaches(s, s') && OnlyAt(s, s', t, Done(PullOutcome(up))) && s'.pulls == s.pulls
    ensures PulledAlone(s.cache, s.credits, s.threads[t].req, up, s'.cache, s'.credits)
  {
    hide PullRequest.Url, PullRequest.WellFormed, PullRequest.IsLatest, Inv, Reaches, Misses, Requests, PulledAlone,
         Enabled, Apply;
    ReachesStart(s);
    MissStep(s, t, now);
    ReachesOn(s, s, Check(t, now));
    s' := MissServed(s, Apply(s, Check(t, now)), t, up);
  }

  lemma PublicationKeeps(c: Cache, credits: multiset<Manifest>, req: Request, m: Manifest)
    requires Inv(c, credits) && Requests(req.pr, m) && (req.force ==> req.pr.IsLatest()) && BlobsOnDisk(c, m)
    ensures Inv(Publication(c, req, m).0, PublishedCredits(c, credits, req, m))
  {
    hide FromUrl, PullRequest.Url, PullRequest.IsLatest, Manifest.WellFormed, Manifest.Latest, Inv, Add, Replace,
         HasBlobs, ReplacedCredits;
    if req.force { ReplaceKeeps(c, credits, req.pr, m); } else { AddKeeps(c, credits, req.pr, m); }
  }

  lemma AloneShape(c: Cache, credits: multiset<Manifest>, req: Request, up: Upstream)
    requires Inv(c, credits) && (req.force ==> req.pr.IsLatest())
    requires up.manifest.Some? ==> Requests(req.pr, up.manifest.value)
    ensures PulledAlone(c, credits, req, up, AfterMiss(c, req, up), CreditsAfterMiss(c, credits, req, up))
    ensures Inv(AfterMiss(c, req, up), CreditsAfterMiss(c, credits, req, up))
  {
    hide PullRequest.Url, PullRequest.IsLatest, Manifest.WellFormed, FromUrl, Inv, WriteManifest, LandAll,
         Publication, HasBlobs, PublishedCredits, ServesFrom;
    if up.manifest.Some? {
      PulledKeeps(c, credits, up);
      if up.Completes() {
        var m, pulled := up.manifest.value, LandAll(WriteManifest(c, up.manifest.value), up.Arrived(), up.size);
        NoLayers(pulled, m);
        PublishServes(pulled, credits, req, m);
        PublicationKeeps(pulled, credits, req, m);
        SamePublication(c, pulled, credits, req, up);
      }
    }
  }

  /** A hit ends the request with one step. */
  lemma LoneHit(s: System, t: Tid, now: string) returns (s': System)
    requires t in s.threads && s.threads[t].phase == Asked && s.threads[t].req.pr.WellFormed()
    requires Inv(s.cache, s.credits) && !Misses(s.cache, s.threads[t].req.pr, s.threads[t].req.force)
    ensures Reaches(s, s') && s'.pulls == s.pulls && s'.credits == s.credits
    ensures OnlyAt(s, s', t, Done(Served(Hit(s.cache, s.threads[t].req.pr, now))))
    ensures s'.cache == Get(s.cache, s.threads[t].req.pr, now).0
  {
    hide PullRequest.Url, PullRequest.WellFormed, Inv, Get, ServedKey, Cached, Reaches;
    ReadIs(s.cache, s.credits, s.threads[t].req.pr, now);
    ReachesStart(s);
    ReachesOn(s, s, Check(t, now));
    s' := Apply(s, Check(t, now));
  }

  lemma JoinStep(s: System, t: Tid)
    requires t in s.threads && s.threads[t].phase == Missed && s.holder.None? && s.threads[t].Url() in s.pulls
    ensures Enabled(s, Enqueue(t))
    ensures var s' := Apply(s, Enqueue(t));
            && s'.threads == s.threads[t := s.threads[t].(phase := Waiting(s.nextChan))]
            && s'.pulls == Register(s.pulls, s.threads[t].Url(), s.nextChan)
            && s'.owner == s.owner[s.nextChan := t] && s'.nextChan == s.nextChan + 1
            && s'.holder == s.holder && s'.pruners == s.pruners && s'.cache == s.cache && s'.credits == s.credits
  {
    hide PullRequest.Url;
  }

  /** A miss while another goroutine pulls the url leaves the goroutine waiting on a new channel. */
  lemma LoneWait(s: System, t: Tid, now: string) returns (s': System)
    requires t in s.threads && s.threads[t].phase == Asked && s.holder.None? && s.threads[t].Url() in s.pulls
    requires Inv(s.cache, s.credits) && s.threads[t].req.pr.WellFormed()
    requires Misses(s.cache, s.threads[t].req.pr, s.threads[t].req.force)
    ensures Reaches(s, s') && s'.threads == s.threads[t := s.threads[t].(phase := Waiting(s.nextChan))]
    ensures s'.pulls == Register(s.pulls, s.threads[t].Url(), s.nextChan) && s'.nextChan == s.nextChan + 1
    ensures s'.cache == s.cache && s'.credits == s.credits
  {
    hide PullRequest.Url, PullRequest.WellFormed, Inv, Misses, Reaches, Enabled, Apply, Register;
    ReachesStart(s);
    MissStep(s, t, now);
    ReachesOn(s, s, Check(t, now));
    var missed := Apply(s, Check(t, now));
    JoinStep(missed, t);
    ReachesOn(s, missed, Enqueue(t));
    s' := Apply(missed, Enqueue(t));
  }

  /** A goroutine that was signalled reads the cache again; one that still waits may time out. */
  lemma LoneAwait(s: System, t: Tid, now: string) returns (s': System)
    requires t in s.threads && (s.threads[t].phase.Woken? || s.threads[t].phase.Waiting?)
    ensures Reaches(s, s') && s'.pulls == s.pulls && s'.credits == s.credits
    ensures s.threads[t].phase.Woken? ==>
              var (after, found) := Get(s.cache, s.threads[t].req.pr, now);
              s'.cache == after && OnlyAt(s, s', t, Done(Answer(found)))
    ensures s.threads[t].phase.Waiting? ==> s'.cache == s.cache && OnlyAt(s, s', t, GaveUp(s.threads[t].phase.ch))
  {
    hide PullRequest.Url, Get, Cached, Reaches;
    ReachesStart(s);
    var step := if s.threads[t].phase.Woken? then Read(t, now) else GiveUp(t);
    ReachesOn(s, s, step);
    s' := Apply(s, step);
  }

  // ---------------------------------------------------------------- two pulls of one url

  /** Two requests for one url that nobody pulls yet. */
  ghost predicate Pair(s: System, t: Tid, w: Tid) {
    && t != w && t in s.threads && w in s.threads && s.threads[t].phase == Asked && s.threads[w].phase == Asked
    && s.threads[t].Url() == s.threads[w].Url() && s.holder.None? && s.threads[t].Url() !in s.pulls
    && Inv(s.cache, s.credits)
    && s.threads[t].req.pr.WellFormed() && Misses(s.cache, s.threads[t].req.pr, s.threads[t].req.force)
    && s.threads[w].req.pr.WellFormed() && Misses(s.cache, s.threads[w].req.pr, s.threads[w].req.force)
  }

  /** Both have missed before either enqueues. */
  lemma PairMisses(s: System, t: Tid, w: Tid, now: string) returns (s': System)
    requires Pair(s, t, w)
    ensures Reaches(s, s') && SameTable(s, s') && s'.cache == s.cache && s'.credits == s.credits
    ensures t in s'.threads && s'.threads[t] == s.threads[t].(phase := Missed)
    ensures w in s'.threads && s'.threads[w] == s.threads[w].(phase := Missed)
  {
    hide PullRequest.Url, PullRequest.WellFormed, Inv, Misses, Reaches, Enabled, Apply;
    ReachesStart(s);
    MissStep(s, t, now);
    ReachesOn(s, s, Check(t, now));
    var one := Apply(s, Check(t, now));
    MissStep(one, w, now);
    ReachesOn(s, one, Check(w, now));
    s' := Apply(one, Check(w, now));
  }

  /** Two requests for one url can each pull it and add what they pulled: the second has missed before
      the first adds, and enqueues after the first is done. Both manifests hold a credit then. */
  lemma DoublePullReachable(s: System, t: Tid, w: Tid, first: Upstream, second: Upstream, now: string)
    returns (s': System)
    requires Pair(s, t, w) && first.Completes() && second.Completes()
    requires !s.threads[t].req.force && Requests(s.threads[t].req.pr, first.manifest.value)
    requires !s.threads[w].req.force && Requests(s.threads[w].req.pr, second.manifest.value)
    ensures var m, again := first.manifest.value, second.manifest.value;
            && Reaches(s, s') && t in s'.threads && w in s'.threads
            && s'.threads[t].phase == Done(Served(m)) && s'.threads[w].phase == Done(Served(again))
            && s'.credits == s.credits + Credit(m) + Credit(again) && Inv(s'.cache, s'.credits)
            && ServesFrom(s'.cache, s.threads[t].Url(), again)
  {
    hide PullRequest.Url, PullRequest.WellFormed, Inv, Misses, Reaches, Requests, AfterMiss, ServesFrom, Credit,
         Upstream.Completes;
    var missed := PairMisses(s, t, w, now);
    var once := MissServed(s, missed, t, first);
    s' := MissServed(s, once, w, second);
  }

  // ---------------------------------------------------------------- a jam is within reach

  /** One of the two pulls, the other waits for it. */
  lemma PairWaits(s: System, t: Tid, w: Tid, now: string) returns (s': System)
    requires Pair(s, t, w)
    ensures Reaches(s, s') && s'.holder.None? && t in s'.threads && w in s'.threads
    ensures s'.threads[t] == s.threads[t].(phase := Pulling)
    ensures s'.threads[w] == s.threads[w].(phase := Waiting(s.nextChan))
    ensures s.threads[t].Url() in s'.pulls && s'.pulls[s.threads[t].Url()] == [s.nextChan]
    ensures s.nextChan in s'.owner && s'.owner[s.nextChan] == w
  {
    hide PullRequest.Url, PullRequest.WellFormed, Inv, Misses, Reaches, Enabled, Apply;
    var two := PairMisses(s, t, w, now);
    OpenStep(two, t);
    ReachesOn(s, two, Enqueue(t));
    var three := Apply(two, Enqueue(t));
    JoinStep(three, w);
    ReachesOn(s, three, Enqueue(w));
    s' := Apply(three, Enqueue(w));
  }

  /** The waiter times out, the pull fails, and the puller takes the lock to signal the waiter. */
  lemma PairJams(start: System, s: System, t: Tid, w: Tid, ch: Chan) returns (s': System)
    requires Reaches(start, s) && s.holder.None? && t in s.threads && w in s.threads && t != w
    requires s.threads[t].phase == Pulling && s.threads[w].phase == Waiting(ch)
    requires s.threads[t].Url() in s.pulls && s.pulls[s.threads[t].Url()] == [ch] && ch in s.owner && s.owner[ch] == w
    ensures Reaches(start, s') && Jammed(s', t, w)
  {
    hide PullRequest.Url, Reaches;
    ReachesOn(start, s, GiveUp(w));
    var gone := Apply(s, GiveUp(w));
    ReachesOn(start, gone, FailPull(t));
    var failed := Apply(gone, FailPull(t));
    ReachesOn(start, failed, Lock(t));
    s' := Apply(failed, Lock(t));
  }

  /** Two goroutines that ask for the same url can always jam the pull table. */
  lemma JamReachable(s: System, t: Tid, w: Tid, now: string) returns (s': System)
    requires Pair(s, t, w)
    ensures Reaches(s, s') && Jammed(s', t, w)
  {
    hide PullRequest.Url, PullRequest.WellFormed, Inv, Misses, Reaches, Jammed;
    var waiting := PairWaits(s, t, w, now);
    s' := PairJams(s, waiting, t, w, s.nextChan);
  }

  const TWO_REQUESTS: System :=
    System(DISK, multiset{},
           map[0 := Thread(Request(ExampleRequest('a'), false), Asked),
               1 := Thread(Request(ExampleRequest('a'), false), Asked)],
           map[], map[], None, 0, map[], [])

  /** A server that has just started with nothing cached, two requests for one url, and a jam. */
  lemma JamExample() returns (s: System)
    ensures Start(TWO_REQUESTS) && Reaches(TWO_REQUESTS, s) && Jammed(s, 0, 1)
  {
    hide PullRequest.Url, PullRequest.WellFormed, PullRequest.IsLatest, ExampleRequest, Reaches, Jammed, Inv, ServedKey;
    ExampleRequestOk('a');
    EmptyInv();
    s := JamReachable(TWO_REQUESTS, 0, 1, "");
  }

  /** The upstream delivers the manifest and all its blobs. */
  function Delivers(m: Manifest): Upstream {
    Upstream(Some(m), |m.layers|, _ => 1)
  }

  /** The same server with the same two requests can pull the image twice. Its layer then outlives the
      prune of the only entry that names it. */
  lemma DoublePullRun() returns (s: System)
    ensures var m := ExampleImage('a');
            && Reaches(TWO_REQUESTS, s) && s.credits == multiset{m, m}
            && FromCache(s.cache, m.url).Some? && LAYER in Prune(s.cache, m).store.files
            && !Primary(Prune(s.cache, m).manifests, m.url) && !Primary(Prune(s.cache, m).latest, m.url)
  {
    hide PullRequest.Url, PullRequest.WellFormed, PullRequest.IsLatest, ExampleRequest, Reaches, Inv, ServedKey,
         Requests, Manifest.Blobs, Manifest.Latest, Prune, Manifest.Refs, Primary;
    var pr, m := ExampleRequest('a'), ExampleImage('a');
    ExampleImageOk('a');
    ExampleRequestOk('a');
    EmptyInv();
    s := DoublePullReachable(TWO_REQUESTS, 0, 1, Delivers(m), Delivers(m), "");
    assert m.Core() == m;
    RequestedUrl(pr, m);
    assert s.credits == multiset{m, m};
    assert s.credits - multiset{m} == multiset{m};
    assert LAYER in m.Refs() by { LayerHeld(m); }
    PruneFreesIff(s.cache, s.credits, pr, m, LAYER);
  }

  lemma RequestedUrl(pr: PullRequest, m: Manifest)
    requires Requests(pr, m)
    ensures pr.Url() == m.url
  {
    NamesAgree(pr, m);
  }

  lemma LayerHeld(m: Manifest)
    requires m.image && m.Blobs() == [LAYER]
    ensures LAYER in m.Refs()
  {
    hide Manifest.Blobs;
  }
}
