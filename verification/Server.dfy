/** One request from start to end: the cache, then the pull table, then the upstream. */
module Servers {
  import opened PullRequests
  import opened Manifests
  import opened CacheState
  import opened CacheLaws
  import opened ImageCaches
  import opened Goroutines
  import opened GoroutineCaches
  import opened GoroutineSafety

  /** What the upstream does with one pull: the manifest it returns, if any, how many of its blobs
      arrive, and how large they are. */
  datatype Upstream = Upstream(manifest: Option<Manifest>, arriving: nat, size: string -> nat) {
    predicate Completes() {
      manifest.Some? && (manifest.value.image ==> arriving >= |manifest.value.layers|)
    }

    /** The blobs that arrive, in order. */
    function Arrived(): seq<string>
      requires manifest.Some?
    {
      var m := manifest.value;
      if !m.image then [] else if Completes() then m.Blobs() else m.Blobs()[..arriving]
    }
  }

  datatype Reply = Returns(out: Outcome) | Waits(ch: Chan)

  /** The directory after blobs have arrived one after the other. */
  function LandAll(c: Cache, ds: seq<string>, size: string -> nat): Cache
    decreases |ds|
  {
    if ds == [] then c
    else Landing(LandAll(c, ds[..|ds| - 1], size), ds[|ds| - 1], size(ds[|ds| - 1]))
  }

  /** One of the first `n` layers names the blob. */
  predicate Arrives(m: Manifest, n: nat, d: string) {
    exists i :: 0 <= i < |m.layers| && i < n && DigestFrom(m.layers[i]) == d
  }

  /** A blob that is there already keeps its file; one that arrives has the size that arrives. */
  lemma {:induction false} LandAllSizes(c: Cache, ds: seq<string>, size: string -> nat, d: string)
    ensures var files := LandAll(c, ds, size).store.files;
            && (d in files <==> d in c.store.files || d in ds)
            && (d in files ==> files[d] == if d in c.store.files then c.store.files[d] else size(d))
    decreases |ds|
  {
    if ds != [] {
      var front, last := ds[..|ds| - 1], ds[|ds| - 1];
      LandAllSizes(c, front, size, d);
      LandAllSizes(c, front, size, last);
      assert ds == front + [last];
    }
  }

  lemma LayersArrive(m: Manifest, n: nat, d: string)
    requires n <= |m.layers|
    ensures Arrives(m, n, d) <==> d in m.Blobs()[..n]
  {
    hide DigestFrom;
    if Arrives(m, n, d) {
      var i :| 0 <= i < |m.layers| && i < n && DigestFrom(m.layers[i]) == d;
      assert m.Blobs()[..n][i] == d;
    }
  }

  /** What is on disk when as many layers have arrived as the upstream lets through. */
  lemma ArrivalsAre(c: Cache, m: Manifest, up: Upstream)
    ensures var ds := if up.arriving >= |m.layers| then m.Blobs() else m.Blobs()[..up.arriving];
            var files := LandAll(c, ds, up.size).store.files;
            && (forall d :: d in files <==> d in c.store.files || Arrives(m, up.arriving, d))
            && (forall d | d in files :: files[d] == if d in c.store.files then c.store.files[d] else up.size(d))
  {
    hide LandAll, Arrives, Manifest.Blobs;
    var n := if up.arriving >= |m.layers| then |m.layers| else up.arriving;
    assert m.Blobs()[..|m.layers|] == m.Blobs();
    var files := LandAll(c, m.Blobs()[..n], up.size).store.files;
    forall d
      ensures d in files <==> d in c.store.files || Arrives(m, up.arriving, d)
      ensures d in files ==> files[d] == if d in c.store.files then c.store.files[d] else up.size(d)
    {
      LandAllSizes(c, m.Blobs()[..n], up.size, d);
      LayersArrive(m, n, d);
      SameArrivals(m, up.arriving, n, d);
    }
  }

  lemma SameArrivals(m: Manifest, arriving: nat, n: nat, d: string)
    requires n == if arriving >= |m.layers| then |m.layers| else arriving
    ensures Arrives(m, arriving, d) <==> Arrives(m, n, d)
  {
    hide DigestFrom;
  }

  lemma {:induction false} LandAllKeeps(c: Cache, credits: multiset<Manifest>, ds: seq<string>, size: string -> nat)
    requires Inv(c, credits)
    ensures var c' := LandAll(c, ds, size);
            && Inv(c', credits) && c'.manifests == c.manifests && c'.latest == c.latest
            && c'.store.counts == c.store.counts
            && c'.store.files.Keys == c.store.files.Keys + set d | d in ds
    decreases |ds|
  {
    hide Inv;
    if ds != [] {
      var front, last := ds[..|ds| - 1], ds[|ds| - 1];
      LandAllKeeps(c, credits, front, size);
      LandingKeeps(LandAll(c, front, size), credits, last, size(last));
      assert forall d :: d in ds <==> d in front || d == last;
    }
  }

  class Server {
    const cache: ImageCache
    var pulls: map<string, seq<Chan>>
    var nextChan: Chan
    /** Whether the pull lock is held. */
    var locked: bool
    /** The channels that a signal was sent on. */
    ghost var signalled: seq<Chan>

    constructor (cache: ImageCache)
      ensures this.cache == cache && pulls == map[] && !locked && signalled == []
    {
      this.cache := cache;
      pulls, nextChan, locked, signalled := map[], 0, false, [];
    }

    /** enqueuePull: no channel for the first to ask, who must then pull and signal the others. */
    method EnqueuePull(url: string) returns (ch: Option<Chan>)
      requires !locked
      modifies this`pulls, this`nextChan
      ensures pulls == Register(old(pulls), url, old(nextChan))
      ensures if url in old(pulls) then ch == Some(old(nextChan)) && nextChan == old(nextChan) + 1
              else ch == None && nextChan == old(nextChan)
    {
      if url in pulls {
        ch := Some(nextChan);
        nextChan := nextChan + 1;
        pulls := pulls[url := pulls[url] + [ch.value]];
        return;
      }
      pulls := pulls[url := []];
      return None;
    }

    /** signalWaiters: every registered channel gets one signal, in the order of registration. At the
        first channel that nobody receives on the source blocks for ever, with the lock held; this
        method then returns false. */
    method SignalWaiters(url: string, receives: Chan -> bool) returns (done: bool)
      requires !locked
      modifies this`pulls, this`locked, this`signalled
      ensures done <==> url in old(pulls) ==> forall ch | ch in old(pulls)[url] :: receives(ch)
      ensures locked <==> !done
      ensures done ==>
                && pulls == old(pulls) - {url}
                && signalled == old(signalled) + if url in old(pulls) then old(pulls)[url] else []
      ensures !done ==>
                && pulls == old(pulls) && url in pulls
                && exists k :: 0 <= k < |pulls[url]| && !receives(pulls[url][k])
                               && (forall i | 0 <= i < k :: receives(pulls[url][i]))
                               && signalled == old(signalled) + pulls[url][..k]
    {
      locked := true;
      if url in pulls {
        var chans := pulls[url];
        for i := 0 to |chans|
          invariant locked && pulls == old(pulls) && signalled == old(signalled) + chans[..i]
          invariant forall j | 0 <= j < i :: receives(chans[j])
        {
          if !receives(chans[i]) {
            return false;
          }
          signalled := signalled + [chans[i]];
        }
        assert chans[..|chans|] == chans;
        pulls := pulls - {url};
      }
      assert pulls == old(pulls) - {url};
      locked := false;
      return true;
    }

    /** How a goroutine that has to wait goes on: when the signal comes before the timeout it reads the
        cache again, and otherwise it gives up. */
    method AwaitSignal(pr: PullRequest, signalled: bool, now: string) returns (out: Outcome)
      requires cache.Valid() && pr.WellFormed()
      modifies cache, cache.fs
      ensures cache.Valid()
      ensures cache.credits == old(cache.credits)
      ensures out.Served? <==> signalled && !old(Misses(cache.View(), pr, false))
      ensures out.Served? ==> out.m == old(Hit(cache.View(), pr, now))
      ensures cache.View() == if signalled then Get(old(cache.View()), pr, now).0 else old(cache.View())
      ensures old(Twins(cache.latest)) ==> Twins(cache.latest)
    {
      hide FromUrl, PullRequest.Url, PullRequest.WellFormed, PullRequest.IsLatest, Inv, Get, ServedKey, Twins;
      if !signalled {
        return Failed;
      }
      ghost var was := cache.View();
      var found := cache.GetManifestFromCache(pr, now);
      GetKeeps(was, cache.credits, pr, now);
      ReadIs(was, cache.credits, pr, now);
      if Twins(was.latest) { ReadKeepsTwins(was, cache.credits, pr, now); }
      return Answer(found);
    }

    /** The blobs, one after the other until one fails to arrive. */
    method PullBlobs(m: Manifest, up: Upstream) returns (ok: bool)
      modifies cache.fs`blobs
      ensures ok <==> up.arriving >= |m.layers|
      ensures cache.View() == LandAll(old(cache.View()), if ok then m.Blobs() else m.Blobs()[..up.arriving], up.size)
      ensures forall d :: d in cache.fs.blobs <==> d in old(cache.fs.blobs) || Arrives(m, up.arriving, d)
      ensures forall d | d in cache.fs.blobs ::
                cache.fs.blobs[d] == if d in old(cache.fs.blobs) then old(cache.fs.blobs)[d] else up.size(d)
    {
      hide DigestFrom, Arrives;
      ghost var before, ds := cache.View(), m.Blobs();
      assert ds[..0] == [] && ds[..|m.layers|] == ds;
      ArrivalsAre(before, m, up);
      for i := 0 to |m.layers|
        invariant cache.View() == LandAll(before, ds[..i], up.size) && i <= up.arriving
      {
        if i >= up.arriving {
          return false;
        }
        var d := DigestFrom(m.layers[i]);
        ghost var now := cache.View();
        cache.fs.WriteBlob(d, up.size(d));
        assert cache.View() == Landing(now, d, up.size(d));
        assert ds[..i + 1][..i] == ds[..i] && ds[..i + 1][i] == d;
      }
      return true;
    }

    /** doPull: the manifest file first, then the blobs of an image. */
    method DoPull(up: Upstream) returns (pulled: Option<Manifest>)
      modifies cache.fs`img, cache.fs`lts, cache.fs`manifestGauge, cache.fs`blobs
      requires up.manifest.Some? ==> up.manifest.value.WellFormed()
      ensures pulled == if up.Completes() then up.manifest else None
      ensures up.manifest.None? ==> cache.View() == old(cache.View())
      ensures up.manifest.Some? ==>
                cache.View() == LandAll(WriteManifest(old(cache.View()), up.manifest.value), up.Arrived(), up.size)
    {
      hide FromUrl, Manifest.Latest, Manifest.WellFormed, Manifest.Blobs;
      if up.manifest.None? {
        return None;
      }
      var m := up.manifest.value;
      ClassKnown(m);
      var written := cache.fs.WriteManifest(m, true);
      assert cache.View() == WriteManifest(old(cache.View()), m);
      var ok := true;
      if m.image {
        ok := PullBlobs(m, up);
      }
      return if ok then Some(m) else None;
    }

    /** GetManifest, for a goroutine that nobody disturbs. A request that misses pulls unless another
        goroutine is at it, in which case it has to wait. A pull that fails changes nothing in memory,
        so the next request starts over; a pull that completes is cached with all its blobs. */
    method GetManifest(pr: PullRequest, force: bool, up: Upstream, now: string) returns (answer: Reply)
      requires cache.Valid() && pr.WellFormed() && (force ==> pr.IsLatest())
      requires up.manifest.Some? ==> Requests(pr, up.manifest.value)
      requires !locked
      modifies this, cache, cache.fs
      ensures cache.Valid() && !locked
      ensures !old(Misses(cache.View(), pr, force)) ==>
                && answer == Returns(Served(old(Hit(cache.View(), pr, now)))) && pulls == old(pulls)
                && cache.credits == old(cache.credits) && cache.View() == Get(old(cache.View()), pr, now).0
      ensures old(Misses(cache.View(), pr, force)) && pr.Url() in old(pulls) ==>
                && answer == Waits(old(nextChan)) && pulls == Register(old(pulls), pr.Url(), old(nextChan))
                && cache.View() == old(cache.View()) && cache.credits == old(cache.credits)
      ensures old(Misses(cache.View(), pr, force)) && pr.Url() !in old(pulls) ==>
                && answer == Returns(PullOutcome(up)) && pulls == old(pulls) && signalled == old(signalled)
                && PulledAlone(old(cache.View()), old(cache.credits), Request(pr, force), up,
                               cache.View(), cache.credits)
      ensures old(Twins(cache.latest)) ==> Twins(cache.latest)
    {
      hide FromUrl, PullRequest.Url, PullRequest.WellFormed, PullRequest.IsLatest, Manifest.WellFormed,
           Manifest.Latest, Inv, Get, ServedKey, PulledAlone, Twins;
      ghost var was := cache.View();
      if !force {
        var hit := cache.GetManifestFromCache(pr, now);
        GetKeeps(was, cache.credits, pr, now);
        ReadIs(was, cache.credits, pr, now);
        if Twins(was.latest) { ReadKeepsTwins(was, cache.credits, pr, now); }
        if hit.Some? {
          return Returns(Served(hit.value));
        }
      }
      assert cache.View() == was;
      var ch := EnqueuePull(pr.Url());
      if ch.Some? {
        return Waits(ch.value);
      }
      var out := PullAndPublish(pr, force, up);
      answer := Returns(out);
      var done := SignalWaiters(pr.Url(), ch => true);
    }

    method PullAndPublish(pr: PullRequest, force: bool, up: Upstream) returns (out: Outcome)
      requires cache.Valid() && (force ==> pr.IsLatest()) && (force || FromCache(cache.View(), pr.Url()).None?)
      requires up.manifest.Some? ==> Requests(pr, up.manifest.value)
      modifies cache, cache.fs
      ensures cache.Valid() && out == PullOutcome(up)
      ensures PulledAlone(old(cache.View()), old(cache.credits), Request(pr, force), up, cache.View(), cache.credits)
      ensures old(Twins(cache.latest)) ==> Twins(cache.latest)
    {
      hide FromUrl, PullRequest.Url, PullRequest.IsLatest, Manifest.WellFormed, Manifest.Latest, Inv, Publication,
           WriteManifest, LandAll, HasBlobs, ServesFrom, Twins, PublishedCredits;
      ghost var was, credits := cache.View(), cache.credits;
      var pulled := DoPull(up);
      if up.manifest.Some? { PulledKeeps(was, credits, up); }
      SamePublication(was, cache.View(), credits, Request(pr, force), up);
      if pulled.None? {
        return Failed;
      }
      var ok := Publish(pr, force, pulled.value);
      return if ok then Served(pulled.value) else Failed;
    }

    method Publish(pr: PullRequest, force: bool, m: Manifest) returns (ok: bool)
      requires cache.Valid() && Requests(pr, m) && (force ==> pr.IsLatest())
      requires m.image ==> BlobsOnDisk(cache.View(), m)
      requires force || FromCache(cache.View(), pr.Url()).None?
      modifies cache, cache.fs
      ensures ok && cache.Valid() && ServesFrom(cache.View(), pr.Url(), m)
      ensures cache.View() == Publication(old(cache.View()), Request(pr, force), m).0
      ensures cache.credits == PublishedCredits(old(cache.View()), old(cache.credits), Request(pr, force), m)
      ensures old(Twins(cache.latest)) ==> Twins(cache.latest)
    {
      hide FromUrl, PullRequest.Url, PullRequest.IsLatest, Manifest.Latest, Manifest.WellFormed, Inv, Add, Replace,
           HasBlobs, ServesFrom, Twins;
      ghost var before, credits := cache.View(), cache.credits;
      NamesAgree(pr, m);
      NoLayers(cache.View(), m);
      if force {
        ok := cache.ReplaceInCache(pr, m);
      } else {
        ok := cache.AddToCache(pr, m);
      }
      PublishServes(before, credits, Request(pr, force), m);
      KeysOfInv(before, credits);
      if Twins(before.latest) { PublishKeepsTwins(before, pr, m); }
    }
  }

  function PullOutcome(up: Upstream): Outcome {
    if up.Completes() then Served(up.manifest.value) else Failed
  }

  /** The cache after a miss, when nobody interferes with the pull. */
  function AfterMiss(c: Cache, req: Request, up: Upstream): Cache {
    if up.manifest.None? then c
    else
      var pulled := LandAll(WriteManifest(c, up.manifest.value), up.Arrived(), up.size);
      if up.Completes() then Publication(pulled, req, up.manifest.value).0 else pulled
  }

  ghost function CreditsAfterMiss(c: Cache, credits: multiset<Manifest>, req: Request,
                                  up: Upstream): multiset<Manifest> {
    if up.Completes() then PublishedCredits(c, credits, req, up.manifest.value) else credits
  }

  /** What an undisturbed pull makes of the cache. */
  ghost predicate PulledAlone(c: Cache, credits: multiset<Manifest>, req: Request, up: Upstream, c': Cache,
                              credits': multiset<Manifest>) {
    && c' == AfterMiss(c, req, up) && credits' == CreditsAfterMiss(c, credits, req, up)
    && (!up.Completes() ==> SameMemory(c, c'))
    && (up.Completes() ==> ServesFrom(c', req.pr.Url(), up.manifest.value))
  }

  lemma SamePublication(c: Cache, c': Cache, credits: multiset<Manifest>, req: Request, up: Upstream)
    ensures SameMemory(c, c') && up.Completes() ==>
              PublishedCredits(c', credits, req, up.manifest.value)
              == PublishedCredits(c, credits, req, up.manifest.value)
    ensures SameMemory(c, c') ==> FromCache(c', req.pr.Url()) == FromCache(c, req.pr.Url())
  {
    hide PullRequest.Url;
  }

  predicate Misses(c: Cache, pr: PullRequest, force: bool) {
    force || FromCache(c, ServedKey(c, pr)).None?
  }

  function Hit(c: Cache, pr: PullRequest, now: string): Manifest
    requires FromCache(c, ServedKey(c, pr)).Some?
  {
    FromCache(c, ServedKey(c, pr)).value.(pulled := now)
  }

  ghost predicate SameMemory(c: Cache, c': Cache) {
    c'.manifests == c.manifests && c'.latest == c.latest && c'.store.counts == c.store.counts
  }

  /** The url is cached with the digest of the manifest, and its blobs are on disk. */
  ghost predicate ServesFrom(c: Cache, url: string, m: Manifest) {
    && FromCache(c, url).Some? && FromCache(c, url).value.digest == m.digest
    && (m.image ==> BlobsOnDisk(c, m))
  }

  lemma ReadKeepsTwins(c: Cache, credits: multiset<Manifest>, pr: PullRequest, now: string)
    requires Inv(c, credits) && pr.WellFormed() && Twins(c.latest)
    ensures Twins(Get(c, pr, now).0.latest)
  {
    hide PullRequest.WellFormed, Get, Twins;
    KeysOfInv(c, credits);
    GetKeepsTwins(c, pr, now);
  }

  lemma MissIs(c: Cache, pr: PullRequest)
    ensures Misses(c, pr, false) ==> FromCache(c, pr.Url()).None?
  {
    hide PullRequest.Url, PullRequest.AltDockerUrl;
  }

  lemma ReadIs(c: Cache, credits: multiset<Manifest>, pr: PullRequest, now: string)
    requires Inv(c, credits) && pr.WellFormed()
    ensures Misses(c, pr, false) ==> FromCache(c, pr.Url()).None?
    ensures Misses(c, pr, false) ==> Get(c, pr, now) == (c, None)
    ensures !Misses(c, pr, false) ==> Get(c, pr, now).1 == Some(Hit(c, pr, now))
  {
    hide FromUrl, PullRequest.WellFormed, PullRequest.IsLatest, ServedKey, Get, Manifest.Latest, Manifest.Alias;
    GetShape(c, pr, now);
    MissIs(c, pr);
  }

  lemma NoLayers(c: Cache, m: Manifest)
    requires m.WellFormed() && (m.image ==> BlobsOnDisk(c, m))
    ensures BlobsOnDisk(c, m)
  {
    NoBlobs(m);
  }

  /** A published manifest is served, and its blobs are not among those that go with the manifest it
      replaces. */
  lemma PublishServes(c: Cache, credits: multiset<Manifest>, req: Request, m: Manifest)
    requires Inv(c, credits) && Requests(req.pr, m) && (req.force ==> req.pr.IsLatest()) && BlobsOnDisk(c, m)
    ensures ServesFrom(Publication(c, req, m).0, req.pr.Url(), m)
  {
    hide FromUrl, PullRequest.Url, PullRequest.IsLatest, Manifest.WellFormed, Manifest.Latest, Manifest.Blobs, Inv,
         Add, Replace, FromCache;
    NamesAgree(req.pr, m);
    KeysOfInv(c, credits);
    PublishingKeepsDigests(c, req, m);
    if req.force {
      ReplaceKeeps(c, credits, req.pr, m);
      if m.image { ReplaceSpares(c, credits, m); }
    } else {
      AddKeeps(c, credits, req.pr, m);
    }
  }

  lemma ReplaceSpares(c: Cache, credits: multiset<Manifest>, m: Manifest)
    requires m.image
    ensures forall d | d in m.Blobs() :: d !in ReplaceFreed(c, credits, m)
  {
    hide Manifest.Blobs, Owed;
    var found := FromCache(c, m.url);
    if found.Some? && found.value.digest != m.digest {
      var was := found.value;
      assert was.Core().digest != m.Core().digest;
      var left := credits + Credit(m) - Credit(was);
      assert m.Core() in left;
      OwedIncludes(left, m.Core());
      CoreSame(m);
      assert forall d | d in m.Blobs() :: d in m.Refs();
    }
  }

  /** However far a pull gets, it touches nothing in memory and keeps the invariant; when it
      completes, all blobs of the manifest are on disk. */
  lemma PulledKeeps(c: Cache, credits: multiset<Manifest>, up: Upstream)
    requires Inv(c, credits) && up.manifest.Some?
    ensures var m := up.manifest.value;
            var c' := LandAll(WriteManifest(c, m), up.Arrived(), up.size);
            && Inv(c', credits) && SameMemory(c, c')
            && (up.Completes() && m.image ==> BlobsOnDisk(c', m))
  {
    hide FromUrl, Manifest.Blobs, Inv, WriteManifest, LandAll, Manifest.WellFormed;
    var m := up.manifest.value;
    WritingKeeps(c, credits, m);
    WritingMaps(c, m);
    LandAllKeeps(WriteManifest(c, m), credits, up.Arrived(), up.size);
  }

  lemma WritingMaps(c: Cache, m: Manifest)
    ensures WriteManifest(c, m).manifests == c.manifests && WriteManifest(c, m).latest == c.latest
    ensures WriteManifest(c, m).store == c.store
  {
    hide FromUrl;
  }
}
