/** What runs of the server do to the cache: what is on disk, what is served, what is counted. */
module GoroutineCaches {
  import opened PullRequests
  import opened Manifests
  import opened BlobStores
  import opened CacheState
  import opened CacheLaws
  import opened Recovery
  import opened Goroutines

  // ---------------------------------------------------------------- files

  lemma WriteKeepsDisk(c: Cache, m: Manifest)
    requires DiskOk(c) && m.WellFormed()
    ensures DiskOk(WriteManifest(c, m))
    ensures WriteManifest(c, m) == c.(img := WriteManifest(c, m).img, lts := WriteManifest(c, m).lts)
  {
    hide FromUrl, PullRequest.IsLatest, Manifest.WellFormed, Manifest.Latest, Manifest.IsLatest;
    ClassKnown(m);
  }

  lemma DeletionFiles(c: Cache, pr: PullRequest, digest: string)
    ensures var c' := DeleteManifest(c, pr, digest); c'.img == c.img && c'.lts == c.lts && c'.store == c.store
  {
    hide PullRequest.Url, PullRequest.UrlWithDigest, PullRequest.IsLatest;
  }

  lemma RemovalFiles(c: Cache, m: Manifest)
    ensures var c' := RmManifest(c, m);
            && c'.store == c.store
            && (c'.img == c.img || c'.img == c.img - {m.digest}) && (c'.lts == c.lts || c'.lts == c.lts - {m.digest})
  {
    hide FromUrl, Manifest.IsLatest, DeleteManifest;
    if FromUrl(m.url).Ok? { DeletionFiles(c, FromUrl(m.url).value, m.digest); }
  }

  lemma RemovalKeepsDisk(c: Cache, m: Manifest)
    requires DiskOk(c)
    ensures DiskOk(RmManifest(c, m)) && RmManifest(c, m).store == c.store
  {
    hide Manifest.WellFormed, Manifest.Latest, RmManifest;
    RemovalFiles(c, m);
  }

  lemma ReplacedFiles(c: Cache, pr: PullRequest, m: Manifest)
    ensures var c', found := Replace(c, pr, m).0, FromCache(c, pr.Url());
            var from := if found.Some? && found.value.digest != m.digest then RmManifest(c, found.value) else c;
            c'.img == from.img && c'.lts == from.lts
  {
    hide FromUrl, PullRequest.Url, PullRequest.UrlWithDigest, PullRequest.IsLatest, RmManifest, AddBlobs, RmBlobs;
  }

  lemma PublishingKeepsDisk(c: Cache, pr: PullRequest, m: Manifest)
    requires DiskOk(c)
    ensures DiskOk(Add(c, pr, m).0) && DiskOk(Replace(c, pr, m).0)
  {
    hide Manifest.WellFormed, Manifest.Latest, Replace, Add, RmManifest;
    AddKeepsDisk(c, pr, m);
    ReplacedFiles(c, pr, m);
    var found := FromCache(c, pr.Url());
    if found.Some? { RemovalKeepsDisk(c, found.value); }
  }

  lemma ReadingKeepsDisk(c: Cache, pr: PullRequest, now: string)
    requires DiskOk(c) && KeysOk(c) && pr.WellFormed()
    ensures DiskOk(Get(c, pr, now).0) && KeysOk(Get(c, pr, now).0)
  {
    hide FromUrl, PullRequest.WellFormed, PullRequest.IsLatest, PullRequest.Url, PullRequest.AltDockerUrl,
         Manifest.WellFormed, Manifest.Alias, Manifest.Latest, Manifest.IsLatest, ServedKey, WriteManifest;
    GetShape(c, pr, now);
    var key := ServedKey(c, pr);
    if FromCache(c, key).Some? {
      var found := FromCache(c, key).value;
      StampSame(found, now);
      var c' := if pr.IsLatest() then c.(latest := c.latest[key := found.(pulled := now)])
                else c.(manifests := c.manifests[key := found.(pulled := now)]);
      WriteKeepsDisk(c', found.(pulled := now));
    }
  }

  // ---------------------------------------------------------------- the digest under a key

  /** A manifest cached under the digest key of another has that digest. */
  lemma AliasDigest(c: Cache, m: Manifest)
    requires KeysOk(c) && m.WellFormed() && FromCache(c, m.Alias()).Some?
    ensures FromCache(c, m.Alias()).value.digest == m.digest
  {
    hide FromUrl, PullRequest.UrlWithDigest, Manifest.WellFormed, Manifest.Alias, Manifest.Latest;
    AliasDetermines(m, FromCache(c, m.Alias()).value);
  }

  lemma MapsAgree(c: Cache, k: string)
    requires KeysOk(c) && k in c.manifests && k in c.latest
    ensures c.manifests[k].digest == c.latest[k].digest
  {
    hide FromUrl, PullRequest.UrlWithDigest, Manifest.WellFormed, Manifest.Alias, Manifest.Latest;
    var m, n := c.manifests[k], c.latest[k];
    AliasDetermines(m, n);
    AliasDetermines(n, m);
    KeyPlace(c, k);
  }

  /** The digest under a key that stays cached is the same, with the given exceptions. */
  ghost predicate SameDigests(c: Cache, c': Cache, except: set<string>) {
    forall k | k !in except && FromCache(c, k).Some? && FromCache(c', k).Some? ::
      FromCache(c', k).value.digest == FromCache(c, k).value.digest
  }

  lemma RemovalKeepsDigests(c: Cache, m: Manifest)
    requires KeysOk(c) && m.WellFormed()
    ensures KeysOk(RmManifest(c, m)) && SameDigests(c, RmManifest(c, m), {})
    ensures Cached(RmManifest(c, m)) <= Cached(c)
  {
    hide FromUrl, PullRequest.UrlWithDigest, Manifest.WellFormed, Manifest.Alias, Manifest.Latest, RmManifest,
         ManifestKeys, LatestKeys;
    ParsesWell(m);
    RmManifestKeys(c, FromUrl(m.url).value, m);
    forall k | k in c.manifests && k in c.latest ensures c.manifests[k].digest == c.latest[k].digest {
      MapsAgree(c, k);
    }
  }

  /** An added manifest is served under its url and, by digest, under its digest key; the digest under
      every other key stays. */
  lemma AddingKeepsDigests(c: Cache, pr: PullRequest, m: Manifest)
    requires KeysOk(c) && Requests(pr, m)
    ensures var c' := AddManifest(c, pr, m);
            && KeysOk(c') && SameDigests(c, c', {m.url}) && Cached(c) <= Cached(c')
            && FromCache(c', m.url) == Some(m)
            && FromCache(c', m.Alias()).Some? && FromCache(c', m.Alias()).value.digest == m.digest
  {
    hide FromUrl, PullRequest.Url, PullRequest.UrlWithDigest, PullRequest.IsLatest, Manifest.WellFormed, Manifest.Alias,
         Manifest.Latest, ManifestKeys, LatestKeys;
    NamesAgree(pr, m);
    AddManifestKeys(c, pr, m);
    var c' := AddManifest(c, pr, m);
    KeyPlace(c', m.url);
    AliasDigest(c', m);
    forall k | k != m.url && FromCache(c, k).Some? && FromCache(c', k).Some?
      ensures FromCache(c', k).value.digest == FromCache(c, k).value.digest
    {
      if k == m.Alias() { AliasDigest(c, m); AliasDigest(c', m); }
    }
  }

  /** The cache after a publication, but for the counts and the blob files. */
  function Published(c: Cache, req: Request, m: Manifest): Cache {
    var found := FromCache(c, req.pr.Url());
    if !req.force || found.None? then AddManifest(c, req.pr, m)
    else if found.value.digest == m.digest then c
    else AddManifest(RmManifest(c, found.value), req.pr, m)
  }

  lemma PublishedMaps(c: Cache, req: Request, m: Manifest)
    ensures var c', p := Publication(c, req, m).0, Published(c, req, m);
            c'.manifests == p.manifests && c'.latest == p.latest
  {
    hide PullRequest.Url, AddManifest, RmManifest, AddBlobs, RmBlobs, Manifest.Blobs;
  }

  lemma PublishingKeepsDigests(c: Cache, req: Request, m: Manifest)
    requires KeysOk(c) && Requests(req.pr, m) && (req.force ==> req.pr.IsLatest())
    ensures var c' := Publication(c, req, m).0;
            && KeysOk(c') && SameDigests(c, c', {m.url})
            && FromCache(c', m.url).Some? && FromCache(c', m.url).value.digest == m.digest
  {
    hide FromUrl, PullRequest.Url, PullRequest.UrlWithDigest, PullRequest.IsLatest, Manifest.WellFormed, Manifest.Alias,
         Manifest.Latest, ManifestKeys, LatestKeys, AddManifest, RmManifest, Publication;
    NamesAgree(req.pr, m);
    PublishedMaps(c, req, m);
    AddingKeepsDigests(c, req.pr, m);
    if req.force && FromCache(c, m.url).Some? {
      ReplacedIsPrimary(c, req.pr, m);
      var was := FromCache(c, m.url).value;
      RemovalKeepsDigests(c, was);
      AddingKeepsDigests(RmManifest(c, was), req.pr, m);
      ReplacingKeepsDigests(c, req.pr, m, was);
    }
  }

  lemma ReplacingKeepsDigests(c: Cache, pr: PullRequest, m: Manifest, was: Manifest)
    requires KeysOk(c) && Requests(pr, m) && was.WellFormed()
    ensures SameDigests(c, AddManifest(RmManifest(c, was), pr, m), {m.url})
  {
    hide FromUrl, PullRequest.Url, PullRequest.UrlWithDigest, PullRequest.IsLatest, Manifest.WellFormed, Manifest.Alias,
         Manifest.Latest, ManifestKeys, LatestKeys, RmManifest;
    var mid := RmManifest(c, was);
    RemovalKeepsDigests(c, was);
    AddingKeepsDigests(mid, pr, m);
    NamesAgree(pr, m);
    var c' := AddManifest(mid, pr, m);
    forall k | k != m.url && FromCache(c, k).Some? && FromCache(c', k).Some?
      ensures FromCache(c', k).value.digest == FromCache(c, k).value.digest
    {
      if k == m.Alias() { AliasDigest(c, m); AliasDigest(c', m); }
    }
  }

  // ---------------------------------------------------------------- what the log says is cached

  /** The digest stored last under the url, unless the url was lost since. */
  ghost function Held(log: seq<Event>, url: string): Option<string>
    decreases |log|
  {
    if log == [] then None
    else
      var last, before := log[|log| - 1], log[..|log| - 1];
      if last.Stored? && last.url == url then Some(last.digest)
      else if last.Lost? && url in last.urls then None
      else Held(before, url)
  }

  lemma HeldNext(log: seq<Event>, e: Event, url: string)
    ensures Held(log + [e], url) == if e.Stored? && e.url == url then Some(e.digest)
                                    else if e.Lost? && url in e.urls then None
                                    else Held(log, url)
  {
    assert (log + [e])[..|log|] == log;
  }

  /** The cache serves, under each url that the log knows, the digest stored last. */
  ghost predicate Tracks(log: seq<Event>, c: Cache, except: set<string>) {
    forall url | url !in except && Held(log, url).Some? ::
      FromCache(c, url).Some? && FromCache(c, url).value.digest == Held(log, url).value
  }

  lemma TracksChange(log: seq<Event>, c: Cache, c': Cache, except: set<string>)
    requires Tracks(log, c, {}) && SameDigests(c, c', except)
    ensures Tracks(log + [Lost(Cached(c) - Cached(c'))], c', except)
  {
    forall url | url !in except && Held(log + [Lost(Cached(c) - Cached(c'))], url).Some?
      ensures FromCache(c', url).Some?
      ensures FromCache(c', url).value.digest == Held(log + [Lost(Cached(c) - Cached(c'))], url).value
    {
      HeldNext(log, Lost(Cached(c) - Cached(c')), url);
    }
  }

  lemma TracksStore(log: seq<Event>, c: Cache, url: string, digest: string)
    requires Tracks(log, c, {url}) && FromCache(c, url).Some? && FromCache(c, url).value.digest == digest
    ensures Tracks(log + [Stored(url, digest)], c, {})
  {
    forall u | Held(log + [Stored(url, digest)], u).Some?
      ensures FromCache(c, u).Some? && FromCache(c, u).value.digest == Held(log + [Stored(url, digest)], u).value
    {
      HeldNext(log, Stored(url, digest), u);
    }
  }

  /** Nothing about the url was lost at or after position `i`. */
  ghost predicate KeptSince(log: seq<Event>, i: nat, url: string) {
    forall j | i <= j < |log| && log[j].Lost? :: url !in log[j].urls
  }

  /** What was stored and not lost is held, or something stored under the same url later is. */
  lemma {:induction false} StoredIsHeld(log: seq<Event>, i: nat, url: string)
    requires i < |log| && log[i].Stored? && log[i].url == url && KeptSince(log, i, url)
    ensures Held(log, url).Some?
    ensures exists j :: i <= j < |log| && log[j] == Stored(url, Held(log, url).value)
    decreases |log|
  {
    var n := |log| - 1;
    if i < n {
      var front := log[..n];
      StoredIsHeld(front, i, url);
      var j :| i <= j < |front| && front[j] == Stored(url, Held(front, url).value);
      assert log[j] == front[j] && log == front + [log[n]];
      HeldNext(front, log[n], url);
    }
  }

  // ---------------------------------------------------------------- every run

  ghost predicate ThreadsOk(s: System) {
    forall t | t in s.threads ::
      var req, p := s.threads[t].req, s.threads[t].phase;
      && req.pr.WellFormed() && (req.force ==> req.pr.IsLatest())
      && (p.Fetched? ==> Requests(req.pr, p.m))
  }

  ghost predicate PrunersOk(s: System) {
    forall p, m | p in s.pruners && m in s.pruners[p].todo :: m.WellFormed()
  }

  ghost predicate Promised(s: System, t: Tid, i: nat) {
    i < |s.log| && s.log[i].Stored? && s.log[i].url == UrlIn(s, t)
  }

  ghost predicate Keeps(s: System, t: Tid, out: Outcome, promise: Option<nat>) {
    && (out.Served? <==> promise.Some?)
    && (promise.Some? ==> Promised(s, t, promise.value) && s.log[promise.value].digest == out.m.digest)
  }

  /** A promise names the place in the log where the manifest was stored, and a puller that serves a
      manifest has stored it. */
  ghost predicate PromiseOk(s: System, t: Tid) {
    t in s.threads ==>
      match s.threads[t].phase
      case Finishing(out, promise) => Keeps(s, t, out, promise)
      case Signalling(out, promise, _) => Keeps(s, t, out, promise)
      case Woken(promise) => promise.Some? ==> Promised(s, t, promise.value)
      case _ => true
  }

  ghost predicate PromisesOk(s: System) {
    forall t: Tid :: PromiseOk(s, t)
  }

  ghost predicate CacheOk(s: System) {
    KeysOk(s.cache) && DiskOk(s.cache) && Tracks(s.log, s.cache, {})
  }

  ghost predicate Sane(s: System) {
    ThreadsOk(s) && PrunersOk(s) && PromisesOk(s) && CacheOk(s)
  }

  /** The log only grows. */
  lemma LogGrows(s: System, step: Step)
    requires Enabled(s, step)
    ensures var s' := Apply(s, step); s.log <= s'.log && s'.threads.Keys == s.threads.Keys
    ensures forall t: Tid :: UrlIn(Apply(s, step), t) == UrlIn(s, t)
  {
    hide PullRequest.Url, Enabled, Apply, Follows;
    if IsPruning(step) {
      PruningMoves(s, step);
    } else if step.Send? {
      SendMoves(s, step.t);
    } else {
      StepMoves(s, step);
    }
  }

  lemma OldPromise(s: System, s': System, t: Tid)
    requires PromiseOk(s, t) && s.log <= s'.log && t in s.threads && t in s'.threads && s'.threads[t] == s.threads[t]
    ensures PromiseOk(s', t)
  {
    hide PullRequest.Url;
    assert forall i | 0 <= i < |s.log| :: s'.log[i] == s.log[i];
  }

  lemma PromisesKept(s: System, step: Step)
    requires PromisesOk(s) && ThreadsOk(s) && Table(s) && Enabled(s, step)
    ensures PromisesOk(Apply(s, step))
  {
    hide PullRequest.Url, Enabled, Apply, Table, PromiseOk, ThreadsOk;
    LogGrows(s, step);
    var s' := Apply(s, step);
    forall t: Tid ensures PromiseOk(s', t) {
      if t in s.threads && s'.threads[t] == s.threads[t] {
        OldPromise(s, s', t);
      } else if t in s.threads {
        if step.Send? {
          SentPromise(s, step.t, t);
        } else if step.Publish? {
          PublishedPromise(s, step.t, t);
        } else {
          PassedPromise(s, step, t);
        }
      } else {
        NoThread(s', t);
      }
    }
  }

  lemma NoThread(s: System, t: Tid)
    requires t !in s.threads
    ensures PromiseOk(s, t)
  {
  }

  lemma SentPromise(s: System, u: Tid, t: Tid)
    requires PromisesOk(s) && Table(s) && Enabled(s, Send(u))
    ensures t in s.threads && Apply(s, Send(u)).threads[t] != s.threads[t] ==> PromiseOk(Apply(s, Send(u)), t)
  {
    hide PullRequest.Url, Enabled, Apply, Table;
    SendMoves(s, u);
    SignalSameUrl(s, u);
    assert PromiseOk(s, u);
  }

  lemma PublishedPromise(s: System, u: Tid, t: Tid)
    requires ThreadsOk(s) && Enabled(s, Publish(u))
    ensures t in s.threads && Apply(s, Publish(u)).threads[t] != s.threads[t] ==> PromiseOk(Apply(s, Publish(u)), t)
  {
    hide PullRequest.Url, PullRequest.WellFormed, PullRequest.IsLatest, Publication, PublishedCredits, Cached,
         AllLanded, Requests;
    PublishedUrl(s.threads[u].req.pr, s.threads[u].phase.m);
  }

  lemma PassedPromise(s: System, step: Step, t: Tid)
    requires PromisesOk(s) && Enabled(s, step) && !step.Publish? && !step.Send? && t in s.threads
    ensures t in Apply(s, step).threads && (Apply(s, step).threads[t] != s.threads[t] ==> PromiseOk(Apply(s, step), t))
  {
    hide PullRequest.Url, Enabled, Apply;
    if IsPruning(step) {
      PruningMoves(s, step);
    } else {
      StepMoves(s, step);
      FinishesFailed(s, step);
      assert PromiseOk(s, step.t);
    }
  }

  /** Without a publication a pull only ends in failure. */
  lemma FinishesFailed(s: System, step: Step)
    requires Enabled(s, step) && !step.Publish? && !step.Send? && !IsPruning(step)
    ensures step.t in Apply(s, step).threads
    ensures var q := Apply(s, step).threads[step.t].phase;
            && (q.Finishing? ==> q.out.Failed? && q.promise.None?)
            && !q.Woken?
  {
    hide PullRequest.Url, Get, WriteManifest, Landing, Requests, Cached;
  }

  lemma SignalSameUrl(s: System, t: Tid)
    requires Table(s) && Enabled(s, Send(t))
    ensures UrlIn(s, s.owner[s.pulls[s.threads[t].Url()][s.threads[t].phase.sent]]) == s.threads[t].Url()
  {
    hide PullRequest.Url;
  }

  lemma PublishedUrl(pr: PullRequest, m: Manifest)
    requires Requests(pr, m)
    ensures pr.Url() == m.url
  {
    hide PullRequest.Url, FromUrl;
    NamesAgree(pr, m);
  }

  lemma ThreadsKept(s: System, step: Step)
    requires ThreadsOk(s) && Enabled(s, step)
    ensures ThreadsOk(Apply(s, step))
  {
    hide PullRequest.Url, PullRequest.WellFormed, PullRequest.IsLatest, Apply, Enabled, Requests;
    if IsPruning(step) {
      PruningMoves(s, step);
    } else if step.Send? {
      SendMoves(s, step.t);
    } else {
      StepMoves(s, step);
      if step.Fetch? { FetchedAsked(s, step.t, step.m); }
    }
  }

  lemma FetchedAsked(s: System, t: Tid, m: Manifest)
    requires Enabled(s, Fetch(t, m))
    ensures t in s.threads && Requests(s.threads[t].req.pr, m)
  {
    hide Requests;
  }

  lemma PrunersKept(s: System, step: Step)
    requires PrunersOk(s) && KeysOk(s.cache) && Enabled(s, step)
    ensures PrunersOk(Apply(s, step))
  {
    hide PullRequest.Url, Manifest.WellFormed, Manifest.Alias, Manifest.Latest, Get, Publication, Prune,
         PublishedCredits, WriteManifest, Landing, Requests, Cached;
  }

  /** The cache after a step, without what the step does to the goroutines. */
  ghost predicate Changes(s: System, after: Cache, except: set<string>) {
    KeysOk(after) && DiskOk(after) && SameDigests(s.cache, after, except)
  }

  lemma ReadChanges(s: System, pr: PullRequest, now: string)
    requires CacheOk(s) && pr.WellFormed()
    ensures Changes(s, Get(s.cache, pr, now).0, {})
  {
    hide PullRequest.WellFormed, Manifest.WellFormed, ManifestKeys, LatestKeys, Get, FromCache;
    ReadingKeepsDisk(s.cache, pr, now);
    forall k { GetKeepsDigests(s.cache, pr, now, k); }
  }

  lemma PruneChanges(s: System, m: Manifest)
    requires CacheOk(s) && m.WellFormed()
    ensures Changes(s, Prune(s.cache, m), {})
  {
    hide Manifest.WellFormed, Manifest.Latest, Manifest.Alias, RmManifest, RmBlobs, ManifestKeys, LatestKeys;
    RemovalKeepsDisk(s.cache, m);
    RemovalKeepsDigests(s.cache, m);
  }

  lemma PublishChanges(s: System, req: Request, m: Manifest)
    requires CacheOk(s) && Requests(req.pr, m) && (req.force ==> req.pr.IsLatest())
    ensures Changes(s, Publication(s.cache, req, m).0, {m.url})
  {
    hide PullRequest.IsLatest, Requests, DiskOk, ManifestKeys, LatestKeys, Replace, Add, FromCache;
    PublishingKeepsDisk(s.cache, req.pr, m);
    PublishingKeepsDigests(s.cache, req, m);
  }

  lemma FileChanges(s: System, m: Manifest, d: string, size: nat)
    requires CacheOk(s)
    ensures m.WellFormed() ==> Changes(s, WriteManifest(s.cache, m), {})
    ensures Changes(s, Landing(s.cache, d, size), {})
  {
    hide Manifest.WellFormed, Manifest.Latest, Manifest.Alias, WriteManifest;
    if m.WellFormed() { WriteKeepsDisk(s.cache, m); }
  }

  /** How a step that is no publication changes the cache and the log. */
  lemma StepChanges(s: System, step: Step)
    requires CacheOk(s) && ThreadsOk(s) && PrunersOk(s) && Enabled(s, step) && !step.Publish?
    ensures var s' := Apply(s, step);
            || (s'.cache == s.cache && s'.log == s.log)
            || (Changes(s, s'.cache, {}) && s'.log == s.log + [Lost(Cached(s.cache) - Cached(s'.cache))])
  {
    hide PullRequest.Url, PullRequest.WellFormed, PullRequest.IsLatest, Manifest.WellFormed, Get, Prune, WriteManifest,
         Landing, Selectable, Cached, Changes, CacheOk;
    match step {
      case Check(t, now) => ReadChanges(s, s.threads[t].req.pr, now);
      case Read(t, now) => ReadChanges(s, s.threads[t].req.pr, now);
      case Fetch(t, m) => FileChanges(s, m, "", 0);
      case Land(t, d, size) => FileChanges(s, s.threads[t].phase.m, d, size);
      case PruneNext(p) => PruneChanges(s, s.pruners[p].todo[0]);
      case _ =>
    }
  }

  lemma CacheKept(s: System, step: Step)
    requires CacheOk(s) && ThreadsOk(s) && PrunersOk(s) && Enabled(s, step)
    ensures CacheOk(Apply(s, step))
  {
    hide PullRequest.Url, PullRequest.WellFormed, PullRequest.IsLatest, Manifest.WellFormed, Cached, SameDigests,
         ManifestKeys, LatestKeys, DiskOk, Tracks, ThreadsOk, PrunersOk, Enabled, Apply;
    var s' := Apply(s, step);
    if step.Publish? {
      PublishKeepsCache(s, step.t);
    } else {
      StepChanges(s, step);
      if s'.log != s.log { TracksChange(s.log, s.cache, s'.cache, {}); }
    }
  }

  lemma PublishKeepsCache(s: System, t: Tid)
    requires CacheOk(s) && ThreadsOk(s) && Enabled(s, Publish(t))
    ensures CacheOk(Apply(s, Publish(t)))
  {
    hide PullRequest.Url, PullRequest.WellFormed, PullRequest.IsLatest, Cached, SameDigests,
         ManifestKeys, LatestKeys, DiskOk, Tracks, Publication, PublishedCredits, FromCache, Requests;
    var s', req, m := Apply(s, Publish(t)), s.threads[t].req, s.threads[t].phase.m;
    PublishChanges(s, req, m);
    PublishingKeepsDigests(s.cache, req, m);
    TracksChange(s.log, s.cache, s'.cache, {m.url});
    TracksStore(s.log + [Lost(Cached(s.cache) - Cached(s'.cache))], s'.cache, m.url, m.digest);
  }

  /** Every step of every run keeps the keys, the files and the log in order. */
  lemma SaneKept(s: System, step: Step)
    requires Sane(s) && Table(s) && Enabled(s, step)
    ensures Sane(Apply(s, step))
  {
    hide Table, Enabled, Apply, ThreadsOk, PrunersOk, PromisesOk;
    ThreadsKept(s, step);
    PrunersKept(s, step);
    PromisesKept(s, step);
    CacheKept(s, step);
  }

  lemma {:induction false} SaneAlways(s: System, steps: seq<Step>, s': System)
    requires Sane(s) && Table(s) && Runs(s, steps, s')
    ensures Sane(s') && Table(s')
    decreases |steps|
  {
    hide Table, Enabled, Apply, Sane;
    if steps != [] {
      TableKept(s, steps[0]);
      SaneKept(s, steps[0]);
      SaneAlways(Apply(s, steps[0]), steps[1..], s');
    }
  }

  lemma StartSane(s: System)
    requires Start(s) && KeysOk(s.cache) && DiskOk(s.cache)
    ensures Sane(s) && Table(s)
  {
    hide PullRequest.Url, PullRequest.WellFormed, PullRequest.IsLatest, ManifestKeys, LatestKeys, DiskOk, Table;
    StartTable(s);
  }

  // ---------------------------------------------------------------- what a woken goroutine reads

  ghost predicate Redeemed(s: System, t: Tid, now: string, i: nat)
    requires Enabled(s, Read(t, now))
  {
    var out := Apply(s, Read(t, now)).threads[t].phase.out;
    out.Served? && exists j :: i <= j < |s.log| && s.log[j] == Stored(s.threads[t].Url(), out.m.digest)
  }

  lemma PromiseRedeemed(s: System, t: Tid, now: string)
    requires Sane(s) && t in s.threads && s.threads[t].phase.Woken? && s.threads[t].phase.promise.Some?
    ensures var p := s.threads[t].phase.promise.value;
            && Promised(s, t, p) && (KeptSince(s.log, p, s.threads[t].Url()) ==> Redeemed(s, t, now, p))
  {
    hide PullRequest.Url, PullRequest.WellFormed, PullRequest.IsLatest, KeysOk, DiskOk, Get, FromCache;
    assert PromiseOk(s, t);
    var p, url := s.threads[t].phase.promise.value, s.threads[t].Url();
    if KeptSince(s.log, p, url) {
      StoredIsHeld(s.log, p, url);
      ReadServes(s.cache, s.threads[t].req.pr, now);
    }
  }

  /** A goroutine that is woken by a puller whose pull and add succeeded reads back from the cache the
      digest that the puller stored, or one that a later add stored under the same url, as long as
      the url was not lost in between. */
  lemma WokenReadsBack(start: System, steps: seq<Step>, s: System, t: Tid, now: string)
    requires Start(start) && KeysOk(start.cache) && DiskOk(start.cache) && Runs(start, steps, s)
    requires t in s.threads && s.threads[t].phase.Woken? && s.threads[t].phase.promise.Some?
    ensures var p := s.threads[t].phase.promise.value;
            && Promised(s, t, p) && (KeptSince(s.log, p, s.threads[t].Url()) ==> Redeemed(s, t, now, p))
  {
    hide PullRequest.Url, KeysOk, DiskOk, Table, Runs, Get, Start, Promised, KeptSince, Redeemed, Sane;
    StartSane(start);
    SaneAlways(start, steps, s);
    PromiseRedeemed(s, t, now);
  }

  /** A puller adds before it signals: whoever it wakes is promised the manifest that it serves itself,
      at the place in the log where that was stored, or nothing when the pull failed. */
  lemma SignalCarriesPromise(start: System, steps: seq<Step>, s: System, t: Tid)
    requires Start(start) && KeysOk(start.cache) && DiskOk(start.cache) && Runs(start, steps, s)
    requires Enabled(s, Send(t))
    ensures var w, out := s.owner[s.pulls[s.threads[t].Url()][s.threads[t].phase.sent]], s.threads[t].phase.out;
            var woken := Apply(s, Send(t)).threads[w].phase;
            && UrlIn(s, w) == UrlIn(s, t) && woken.Woken? && (woken.promise.Some? <==> out.Served?)
            && (out.Served? ==>
                  && woken.promise.value < |s.log|
                  && s.log[woken.promise.value] == Stored(UrlIn(s, t), out.m.digest))
  {
    hide PullRequest.Url, KeysOk, DiskOk, Table, Runs, Get, Start;
    StartSane(start);
    SaneAlways(start, steps, s);
    SignalSameUrl(s, t);
    assert PromiseOk(s, t);
  }

  lemma ReadServes(c: Cache, pr: PullRequest, now: string)
    requires KeysOk(c) && pr.WellFormed() && FromCache(c, pr.Url()).Some?
    ensures var served := Get(c, pr, now).1;
            served == Some(FromCache(c, pr.Url()).value.(pulled := now))
  {
    hide PullRequest.Url, PullRequest.WellFormed, PullRequest.IsLatest, ManifestKeys, LatestKeys, Get, FromUrl;
    GetShape(c, pr, now);
  }

  // ---------------------------------------------------------------- crashes

  /** Whatever a server was doing when it stopped, loading its directory gives a cache that satisfies
      the invariant, and holds one credit per manifest whose blobs had all arrived. */
  lemma CrashRecovers(start: System, steps: seq<Step>, s: System, files: seq<Manifest>)
    requires Start(start) && KeysOk(start.cache) && DiskOk(start.cache) && Runs(start, steps, s)
    requires Walk(s.cache, files)
    ensures var (c, ok) := LoadFiles(Restart(s.cache), files);
            && ok && Inv(c, Bag(Loadable(s.cache, files)))
            && (DistinctUrls(files) ==>
                  var served := set m | m in files && CanAdd(s.cache, m);
                  Holds(c, served) && Inv(c, ImageCores(served)) && AllServable(c))
  {
    hide ManifestKeys, LatestKeys, Table, Runs, Start, Inv, Holds, AllServable, Walk, ImageCores;
    StartSane(start);
    SaneAlways(start, steps, s);
    RestartIsSound(s.cache, files);
    if DistinctUrls(files) { RestartIsExact(s.cache, files); }
  }
}
