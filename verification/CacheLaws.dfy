/** Laws of the cache operations beyond the common invariant. */
module CacheLaws {
  import opened Text
  import opened PullRequests
  import opened Manifests
  import opened BlobStores
  import opened CacheState

  // ---------------------------------------------------------------- reads

  /** A hit is written back under the key it was found at. Only a `latest` manifest read by digest
      moves: it is copied into the other map under its digest key. */
  lemma GetShape(c: Cache, pr: PullRequest, now: string)
    requires KeysOk(c) && pr.WellFormed()
    ensures var (c', served) := Get(c, pr, now);
            var key := ServedKey(c, pr);
            match FromCache(c, key)
            case None => c' == c && served.None?
            case Some(found) =>
              var m := found.(pulled := now);
              && served == Some(m) && c'.store == c.store
              && if pr.IsLatest() then
                   && key in c.latest && found == c.latest[key] && key == found.url
                   && c'.manifests == c.manifests && c'.latest == c.latest[key := m]
                 else
                   && (key in c.manifests || key == found.Alias() != found.url)
                   && c'.manifests == c.manifests[key := m] && c'.latest == c.latest
  {
    hide FromUrl, PullRequest.WellFormed, PullRequest.Url, PullRequest.UrlWithDigest, PullRequest.AltDockerUrl,
         PullRequest.IsLatest, Manifest.WellFormed, Manifest.Alias, Manifest.Latest, Manifest.IsLatest, ServedKey;
    var key := ServedKey(c, pr);
    if FromCache(c, key).Some? {
      ServedKeyClass(c, pr);
      KeyPlace(c, key);
      var found := FromCache(c, key).value;
      StampSame(found, now);
      ClassKnown(found);
      if found.Latest() { LatestUrlIsNoAlias(found, found); }
    }
  }

  /** A docker.io request under its other spelling. */
  function Alternate(pr: PullRequest): PullRequest {
    pr.(repository := AltRepository(pr.repository))
  }

  /** The read served the entry under `key`, stamped, and wrote it back under that key. */
  ghost predicate ReadsAt(c: Cache, pr: PullRequest, now: string, key: string) {
    && FromCache(c, key).Some?
    && var m := FromCache(c, key).value.(pulled := now);
    && Get(c, pr, now).1 == Some(m) && Get(c, pr, now).0.store == c.store
    && Get(c, pr, now).0.latest == (if pr.IsLatest() then c.latest[key := m] else c.latest)
    && Get(c, pr, now).0.manifests == (if pr.IsLatest() then c.manifests else c.manifests[key := m])
  }

  /** A request is served from its own url, and when that is not cached and the remote is docker.io,
      from the url of its other spelling. It misses exactly when neither is cached. */
  lemma EitherSpelling(c: Cache, pr: PullRequest, now: string)
    requires KeysOk(c) && pr.WellFormed()
    ensures FromCache(c, pr.Url()).Some? ==> ReadsAt(c, pr, now, pr.Url())
    ensures pr.remote == "docker.io" && FromCache(c, pr.Url()).None? && FromCache(c, Alternate(pr).Url()).Some? ==>
              ReadsAt(c, pr, now, Alternate(pr).Url())
    ensures Get(c, pr, now).1.None?
       <==> FromCache(c, pr.Url()).None? && (pr.remote == "docker.io" ==> FromCache(c, Alternate(pr).Url()).None?)
  {
    hide FromUrl, PullRequest.WellFormed, PullRequest.Url, PullRequest.AltDockerUrl, PullRequest.IsLatest,
         Manifest.WellFormed, Manifest.Alias, Manifest.Latest, Get, FromCache;
    GetShape(c, pr, now);
    AltIs(pr);
  }

  lemma AltIs(pr: PullRequest)
    ensures pr.remote != "docker.io" ==> pr.AltDockerUrl() == ""
    ensures pr.remote == "docker.io" ==> pr.AltDockerUrl() == Alternate(pr).Url() != ""
  {
    hide Find, AltRepository;
    if pr.remote == "docker.io" {
      AltPrints(pr);
      assert |Alternate(pr).Url()| > 0;
    }
  }

  /** A read keeps the invariant, the credits and every count. */
  lemma GetKeeps(c: Cache, credits: multiset<Manifest>, pr: PullRequest, now: string)
    requires Inv(c, credits) && pr.WellFormed()
    ensures Inv(Get(c, pr, now).0, credits) && Get(c, pr, now).0.store == c.store
  {
    hide FromUrl, PullRequest.WellFormed, PullRequest.IsLatest, Manifest.WellFormed, Manifest.Alias, Manifest.Latest,
         Sound, Owed, ServedKey, Get;
    GetShape(c, pr, now);
    var key := ServedKey(c, pr);
    if FromCache(c, key).Some? {
      StampSame(FromCache(c, key).value, now);
    }
  }

  /** What a hit serves, access time included, is also what its file then holds. */
  lemma HitIsPersisted(c: Cache, pr: PullRequest, now: string)
    requires KeysOk(c) && pr.WellFormed()
    ensures var (c', served) := Get(c, pr, now);
            match served
            case None => c' == c
            case Some(m) =>
              && m.pulled == now
              && c'.lts == (if m.Latest() then c.lts[m.digest := m] else c.lts)
              && c'.img == (if m.Latest() then c.img else c.img[m.digest := m])
  {
    hide FromUrl, PullRequest.WellFormed, PullRequest.Url, PullRequest.UrlWithDigest, PullRequest.AltDockerUrl,
         PullRequest.IsLatest, Manifest.WellFormed, Manifest.Alias, Manifest.Latest, Manifest.IsLatest, ServedKey;
    GetShape(c, pr, now);
    var key := ServedKey(c, pr);
    if FromCache(c, key).Some? {
      var found := FromCache(c, key).value;
      StampSame(found, now);
      ClassKnown(found);
    }
  }

  /** The digest served under any key survives a read of any request. */
  lemma GetKeepsDigests(c: Cache, pr: PullRequest, now: string, k: string)
    requires KeysOk(c) && pr.WellFormed()
    ensures FromCache(Get(c, pr, now).0, k).Some? <==> FromCache(c, k).Some?
    ensures FromCache(c, k).Some? ==> FromCache(Get(c, pr, now).0, k).value.digest == FromCache(c, k).value.digest
  {
    hide FromUrl, PullRequest.WellFormed, PullRequest.IsLatest, Manifest.WellFormed, Manifest.Alias, Manifest.Latest,
         ServedKey, Get;
    GetShape(c, pr, now);
  }

  // ---------------------------------------------------------------- the twin entries of `latest`

  /** Every entry belongs to the tag entry of its url and carries its digest, and every tag entry
      has its digest entry: `latest` consists of such pairs and of nothing else. */
  ghost predicate Twins(latest: map<string, Manifest>) {
    && (forall k | k in latest ::
          Primary(latest, latest[k].url) && latest[latest[k].url].digest == latest[k].digest)
    && (forall t | Primary(latest, t) ::
          latest[t].Alias() in latest && latest[latest[t].Alias()].url == t)
  }

  /** The digest keys of `latest` are exactly those of the manifests under the tags: none is stale. */
  lemma NoStaleDigestKey(c: Cache, k: string)
    requires KeysOk(c) && Twins(c.latest) && k in c.latest
    ensures var t := c.latest[k].url;
            Primary(c.latest, t) && (k == t || k == c.latest[t].Alias())
  {
    hide Manifest.WellFormed, Manifest.Alias, Manifest.Latest;
    var m := c.latest[k];
    SameAlias(m, c.latest[m.url]);
  }

  lemma SameAlias(m: Manifest, n: Manifest)
    requires m.WellFormed() && n.WellFormed() && m.url == n.url
    ensures m.Alias() == n.Alias() <==> m.digest == n.digest
  {
    hide FromUrl, PullRequest.UrlWithDigest, Manifest.WellFormed;
    AliasDetermines(m, n);
  }

  /** The digest key of a `latest` manifest can only be held by a manifest of the same url. */
  lemma AliasTaken(c: Cache, m: Manifest)
    requires KeysOk(c) && m.WellFormed() && m.Latest()
    ensures m.Alias() in c.latest ==> c.latest[m.Alias()].url == m.url && c.latest[m.Alias()].digest == m.digest
  {
    hide FromUrl, Manifest.WellFormed, Manifest.Alias, Manifest.Latest;
    if m.Alias() in c.latest {
      var n := c.latest[m.Alias()];
      LatestUrlIsNoAlias(n, m);
      LatestAliasDetermines(m, n);
    }
  }

  lemma TwinsAdded(c: Cache, m: Manifest)
    requires KeysOk(c) && Twins(c.latest) && m.WellFormed() && m.Latest()
    requires m.url in c.latest ==> c.latest[m.url].digest == m.digest
    ensures Twins(c.latest[m.url := m][m.Alias() := m])
  {
    hide FromUrl, PullRequest.Url, PullRequest.UrlWithDigest, PullRequest.IsLatest, Manifest.WellFormed,
         Manifest.Alias, Manifest.Latest, Manifest.IsLatest, ManifestKeys;
    var after := c.latest[m.url := m][m.Alias() := m];
    LatestUrlIsNoAlias(m, m);
    AliasTaken(c, m);
    assert Primary(after, m.url);
    forall k | k in after
      ensures Primary(after, after[k].url) && after[after[k].url].digest == after[k].digest
    {
      if k != m.url && k != m.Alias() {
        LatestUrlIsNoAlias(c.latest[k], m);
        assert Primary(c.latest, c.latest[k].url);
      }
    }
    forall t | Primary(after, t)
      ensures after[t].Alias() in after && after[after[t].Alias()].url == t
    {
      if t != m.url {
        assert t != m.Alias();
        assert Primary(c.latest, t);
        LatestUrlIsNoAlias(m, c.latest[t]);
        LatestAliasDetermines(m, c.latest[t]);
      }
    }
  }

  lemma TwinsLost(c: Cache, m: Manifest)
    requires KeysOk(c) && Twins(c.latest) && m.WellFormed() && m.Latest()
    requires m.url in c.latest && c.latest[m.url].digest != m.digest
    ensures !Twins(c.latest[m.url := m][m.Alias() := m])
  {
    hide FromUrl, PullRequest.Url, PullRequest.UrlWithDigest, PullRequest.IsLatest, Manifest.WellFormed,
         Manifest.Alias, Manifest.Latest, Manifest.IsLatest, ManifestKeys;
    var after, was := c.latest[m.url := m][m.Alias() := m], c.latest[m.url];
    LatestUrlIsNoAlias(m, m);
    LatestUrlIsNoAlias(m, was);
    assert was.url == m.url && Primary(c.latest, m.url);
    SameAlias(m, was);
    assert was.Alias() in after && after[was.Alias()] == c.latest[was.Alias()];
    assert after[was.Alias()].url == m.url;
    assert c.latest[c.latest[was.Alias()].url].digest == c.latest[was.Alias()].digest;
    assert after[m.url] == m;
  }

  /** No entry of another url is touched when the pair of `m` goes. */
  lemma OtherEntriesStay(c: Cache, m: Manifest, k: string)
    requires KeysOk(c) && Twins(c.latest) && m.WellFormed() && m.Latest()
    requires m.url in c.latest ==> c.latest[m.url].digest == m.digest
    requires k in c.latest && k != m.url && k != m.Alias()
    ensures var n := c.latest[k];
            n.url != m.url && n.url != m.Alias() && n.Alias() != m.url && n.Alias() != m.Alias()
  {
    hide FromUrl, PullRequest.Url, PullRequest.UrlWithDigest, PullRequest.IsLatest, Manifest.WellFormed,
         Manifest.Alias, Manifest.Latest, Manifest.IsLatest, ManifestKeys;
    var n := c.latest[k];
    LatestUrlIsNoAlias(n, m);
    LatestUrlIsNoAlias(m, n);
    LatestAliasDetermines(m, n);
    if n.url == m.url {
      assert Primary(c.latest, m.url);
      SameAlias(m, n);
    }
  }

  lemma TwinsRemoved(c: Cache, m: Manifest)
    requires KeysOk(c) && Twins(c.latest) && m.WellFormed() && m.Latest()
    requires m.url in c.latest ==> c.latest[m.url].digest == m.digest
    ensures Twins(c.latest - {m.url, m.Alias()})
  {
    hide FromUrl, PullRequest.Url, PullRequest.UrlWithDigest, PullRequest.IsLatest, Manifest.WellFormed,
         Manifest.Alias, Manifest.Latest, Manifest.IsLatest, ManifestKeys;
    var after := c.latest - {m.url, m.Alias()};
    forall k | k in after
      ensures Primary(after, after[k].url) && after[after[k].url].digest == after[k].digest
    {
      OtherEntriesStay(c, m, k);
      assert Primary(c.latest, c.latest[k].url);
    }
    forall t | Primary(after, t)
      ensures after[t].Alias() in after && after[after[t].Alias()].url == t
    {
      OtherEntriesStay(c, m, t);
      assert Primary(c.latest, t);
    }
  }

  lemma TwinsOrphaned(c: Cache, m: Manifest)
    requires KeysOk(c) && Twins(c.latest) && m.WellFormed() && m.Latest()
    requires m.url in c.latest && c.latest[m.url].digest != m.digest
    ensures !Twins(c.latest - {m.url, m.Alias()})
  {
    hide FromUrl, PullRequest.Url, PullRequest.UrlWithDigest, PullRequest.IsLatest, Manifest.WellFormed,
         Manifest.Alias, Manifest.Latest, Manifest.IsLatest, ManifestKeys;
    var after, was := c.latest - {m.url, m.Alias()}, c.latest[m.url];
    LatestUrlIsNoAlias(m, was);
    assert was.url == m.url && Primary(c.latest, m.url);
    SameAlias(m, was);
    assert was.Alias() in after && after[was.Alias()].url == m.url;
    assert !Primary(after, m.url);
  }

  /** Adding a `latest` manifest keeps the entries paired exactly when its url is not yet cached or
      is cached with the same digest. */
  lemma AddKeepsTwinsIff(c: Cache, pr: PullRequest, m: Manifest)
    requires KeysOk(c) && Twins(c.latest) && Requests(pr, m)
    ensures Twins(Add(c, pr, m).0.latest)
       <==> (m.Latest() && m.url in c.latest ==> c.latest[m.url].digest == m.digest)
  {
    hide FromUrl, PullRequest.Url, PullRequest.UrlWithDigest, PullRequest.IsLatest, Manifest.WellFormed,
         Manifest.Alias, Manifest.Latest, AddBlobs, Twins, KeysOk;
    NamesAgree(pr, m);
    if m.Latest() {
      if m.url in c.latest && c.latest[m.url].digest != m.digest { TwinsLost(c, m); } else { TwinsAdded(c, m); }
    }
  }

  /** Pruning a `latest` manifest keeps the entries paired exactly when the url is not cached or is
      cached with the digest that is pruned. */
  lemma PruneKeepsTwinsIff(c: Cache, pr: PullRequest, m: Manifest)
    requires KeysOk(c) && Twins(c.latest) && Requests(pr, m)
    ensures Twins(Prune(c, m).latest)
       <==> (m.Latest() && m.url in c.latest ==> c.latest[m.url].digest == m.digest)
  {
    hide FromUrl, PullRequest.Url, PullRequest.UrlWithDigest, PullRequest.IsLatest, Manifest.WellFormed,
         Manifest.Alias, Manifest.Latest, RmBlobs, RmManifest, Twins, KeysOk;
    RmManifestKeys(c, pr, m);
    if m.Latest() {
      if m.url in c.latest && c.latest[m.url].digest != m.digest { TwinsOrphaned(c, m); } else { TwinsRemoved(c, m); }
    }
  }

  /** Replacing never leaves a stale digest key behind. */
  lemma ReplaceKeepsTwins(c: Cache, pr: PullRequest, m: Manifest)
    requires KeysOk(c) && Twins(c.latest) && Requests(pr, m) && pr.IsLatest()
    ensures Twins(Replace(c, pr, m).0.latest)
  {
    hide FromUrl, PullRequest.Url, PullRequest.UrlWithDigest, Manifest.WellFormed,
         Manifest.Alias, Manifest.Latest, AddBlobs, RmBlobs, RmManifest, Twins, ManifestKeys, LatestKeys;
    NamesAgree(pr, m);
    match FromCache(c, m.url) {
      case None => AddKeepsTwinsIff(c, pr, m);
      case Some(was) =>
        ReplacedIsPrimary(c, pr, m);
        if was.digest != m.digest {
          NamesAgree(pr, was);
          RmManifestKeys(c, pr, was);
          TwinsRemoved(c, was);
          AddKeepsTwinsIff(RmManifest(c, was), pr, m);
        }
    }
  }

  /** The server adds a manifest only after a miss or to replace one. */
  lemma PublishKeepsTwins(c: Cache, pr: PullRequest, m: Manifest)
    requires KeysOk(c) && Twins(c.latest) && Requests(pr, m)
    ensures FromCache(c, pr.Url()).None? ==> Twins(Add(c, pr, m).0.latest)
    ensures pr.IsLatest() ==> Twins(Replace(c, pr, m).0.latest)
  {
    hide FromUrl, PullRequest.Url, PullRequest.UrlWithDigest, PullRequest.IsLatest, Manifest.WellFormed, Manifest.Alias,
         Manifest.Latest, Add, Replace, Twins, ManifestKeys, LatestKeys;
    NamesAgree(pr, m);
    AddKeepsTwinsIff(c, pr, m);
    if pr.IsLatest() { ReplaceKeepsTwins(c, pr, m); }
  }

  /** A read keeps `latest` paired. */
  lemma GetKeepsTwins(c: Cache, pr: PullRequest, now: string)
    requires KeysOk(c) && Twins(c.latest) && pr.WellFormed()
    ensures Twins(Get(c, pr, now).0.latest)
  {
    hide FromUrl, PullRequest.WellFormed, PullRequest.IsLatest, Manifest.WellFormed, Manifest.Alias, Manifest.Latest,
         ServedKey, Get, ManifestKeys, LatestKeys, Twins;
    GetShape(c, pr, now);
    var key := ServedKey(c, pr);
    if FromCache(c, key).Some? && pr.IsLatest() { StampKeepsTwins(c.latest, key, now); }
  }

  lemma StampKeepsTwins(latest: map<string, Manifest>, key: string, now: string)
    requires Twins(latest) && key in latest
    ensures Twins(latest[key := latest[key].(pulled := now)])
  {
    hide FromUrl, Manifest.Alias;
    var after := latest[key := latest[key].(pulled := now)];
    StampSame(latest[key], now);
    forall k | k in after ensures Primary(after, after[k].url) && after[after[k].url].digest == after[k].digest {
      assert Primary(latest, latest[k].url);
    }
    forall t | Primary(after, t) ensures after[t].Alias() in after && after[after[t].Alias()].url == t {
      assert Primary(latest, t);
    }
  }

  // ---------------------------------------------------------------- replacing

  /** Replacing by another digest moves every count by the new layers less the old ones. */
  lemma ReplaceMovesCounts(c: Cache, credits: multiset<Manifest>, pr: PullRequest, m: Manifest, d: string)
    requires Inv(c, credits) && Requests(pr, m) && pr.IsLatest() && BlobsOnDisk(c, m)
    requires FromCache(c, m.url).Some?
    ensures var was, after := FromCache(c, m.url).value, Replace(c, pr, m).0.store;
            if was.digest == m.digest then Replace(c, pr, m).0 == c
            else Count(after.counts, d) == Count(c.store.counts, d) + m.Refs()[d] - was.Refs()[d]
  {
    hide FromUrl, PullRequest.IsLatest, PullRequest.Url, PullRequest.UrlWithDigest, Manifest.WellFormed, Manifest.Alias,
         Manifest.Latest, Manifest.Blobs, Owed, AddBlobs, RmBlobs, Backed, ManifestKeys, LatestKeys,
         AddManifest, RmManifest;
    NamesAgree(pr, m);
    ReplaceKeeps(c, credits, pr, m);
    ReplacedIsPrimary(c, pr, m);
    var was := FromCache(c, m.url).value;
    if was.digest != m.digest {
      PrimaryHasCredit(c, credits, m.url);
      CoreSame(m);
      CoreSame(was);
      if m.image { OwedAdd(credits, m.Core()); } else { NoCredit(credits, m); }
      if was.image { OwedRemove(credits + Credit(m), was.Core()); } else { NoCredit(credits + Credit(m), was); }
    }
  }

  /** While the old layers are released one by one, no count falls below what the new manifest
      holds, so a layer the two share is never deleted and fetched anew. */
  lemma ReplaceNeverDips(st: BlobStore, credits: multiset<Manifest>, m: Manifest, was: Manifest, k: nat, d: string)
    requires m.image && was.image && was.Core() in credits && m.Core() != was.Core()
    requires Sound(st, Owed(credits + Credit(m))) && k <= |was.Blobs()| && d in m.Blobs()
    ensures var mid := RmBlobs(st, was.Blobs()[..k]).0;
            Count(mid.counts, d) >= multiset(m.Blobs())[d] && d in mid.files
  {
    hide Manifest.Blobs, Owed, RmBlobs;
    var all, gone := Owed(credits + Credit(m)), multiset(was.Blobs()[..k]);
    CreditOwed(credits, m);
    CreditOwed(credits, was);
    assert was.Blobs() == was.Blobs()[..k] + was.Blobs()[k..];
    assert gone <= multiset(was.Blobs()) <= Owed(credits);
    RmBlobsSound(st, all, was.Blobs()[..k]);
    assert d in multiset(m.Blobs());
  }

  /** A forced pull reports a missing blob only when its url was not cached. Over another digest the
      failure is dropped: the manifest is cached and the pull counts as served, its blob there or not. */
  lemma ReplaceReportsIff(c: Cache, credits: multiset<Manifest>, pr: PullRequest, m: Manifest)
    requires Inv(c, credits) && Requests(pr, m) && pr.IsLatest()
    ensures Replace(c, pr, m).1 <==> FromCache(c, m.url).Some? || BlobsOnDisk(c, m)
    ensures FromCache(c, m.url).Some? && FromCache(c, m.url).value.digest == m.digest ==> Replace(c, pr, m).0 == c
    ensures FromCache(c, m.url).None? || FromCache(c, m.url).value.digest != m.digest ==>
              m.url in Replace(c, pr, m).0.latest && Replace(c, pr, m).0.latest[m.url] == m
    ensures Replace(c, pr, m).0.store.files.Keys <= c.store.files.Keys
  {
    hide FromUrl, PullRequest.Url, PullRequest.UrlWithDigest, PullRequest.IsLatest, Manifest.WellFormed, Manifest.Alias,
         Manifest.Latest, Manifest.Blobs, Owed, AddBlobs, RmBlobs, Backed, ManifestKeys, LatestKeys, RmManifest,
         AddManifest, Sound;
    NamesAgree(pr, m);
    AddBlobsCounts(c.store, m.Blobs());
    AddBlobsNoFiles(c.store, m.Blobs());
    NoBlobs(m);
    match FromCache(c, m.url) {
      case None =>
        AddManifestMaps(c, pr, m);
        AddedStoreIs(c, pr, m);
      case Some(was) =>
        ReplacedIsPrimary(c, pr, m);
        RmManifestKeys(c, pr, was);
        AddManifestMaps(RmManifest(c, was), pr, m);
        SameStore(RmManifest(c, was), pr, m);
        ExchangedStore(AddManifest(RmManifest(c, was), pr, m), m, was);
    }
  }

  lemma AddedStoreIs(c: Cache, pr: PullRequest, m: Manifest)
    ensures m.image ==>
              Add(c, pr, m).1 == AddBlobs(c.store, m.Blobs()).1
              && Add(c, pr, m).0.store == AddBlobs(c.store, m.Blobs()).0
    ensures !m.image ==> Add(c, pr, m).1 && Add(c, pr, m).0.store == c.store
  {
    hide AddBlobs;
  }

  lemma SameStore(c: Cache, pr: PullRequest, m: Manifest)
    ensures AddManifest(c, pr, m).store == c.store
  {
  }

  lemma ExchangedStore(c: Cache, m: Manifest, was: Manifest)
    ensures ReleaseBlobs(CountBlobs(c, m).0, was).store.files.Keys <= c.store.files.Keys
  {
    hide AddBlobs, RmBlobs, Manifest.Blobs;
    AddBlobsNoFiles(c.store, m.Blobs());
    RmBlobsNoMore(CountBlobs(c, m).0.store, was.Blobs());
  }

  lemma NoBlobs(m: Manifest)
    requires m.WellFormed()
    ensures !m.image ==> m.Blobs() == []
  {
  }

  // ---------------------------------------------------------------- pruning what is no longer there

  /** Pruning keeps the counts equal to the references held exactly when the manifest still holds
      its credit, or holds no reference at all. The pruner works from a snapshot and does not check. */
  lemma PruneKeepsCountsIff(c: Cache, credits: multiset<Manifest>, pr: PullRequest, m: Manifest)
    requires Inv(c, credits) && Requests(pr, m)
    ensures Balanced(Prune(c, m).store.counts, Owed(credits - Credit(m)))
       <==> (m.image && m.layers != [] ==> m.Core() in credits)
  {
    hide FromUrl, PullRequest.Url, PullRequest.UrlWithDigest, Manifest.WellFormed, Manifest.Alias, Manifest.Latest,
         Owed, RmBlobs, Backed, ManifestKeys, LatestKeys, RmManifest;
    if m.image ==> m.Core() in credits {
      PruneKeeps(c, credits, pr, m);
    } else {
      assert credits - Credit(m) == credits;
      RmManifestKeys(c, pr, m);
      UncreditedRelease(c.store, Owed(credits), m.Blobs());
    }
  }

  lemma UncreditedRelease(st: BlobStore, owed: multiset<string>, ds: seq<string>)
    requires Sound(st, owed)
    ensures Balanced(RmBlobs(st, ds).0.counts, owed) <==> ds == []
  {
    if ds != [] {
      if multiset(ds) <= owed {
        RmBlobsSound(st, owed, ds);
        assert ds[0] in multiset(ds);
        var after := RmBlobs(st, ds).0.counts;
        assert owed[ds[0]] > (owed - multiset(ds))[ds[0]];
      } else {
        RmBlobsOverdrawn(st, owed, ds);
      }
    }
  }

  /** A blob goes with a prune exactly when no other credit references it. The miss and the pull are
      separate sections, so two goroutines can pull the same manifest one after the other, whatever
      times are stamped on it: a blob that only this manifest uses then goes exactly when the manifest
      was added once. After a second add it stays, although no primary entry names it any more. */
  lemma PruneFreesIff(c: Cache, credits: multiset<Manifest>, pr: PullRequest, m: Manifest, d: string)
    requires Inv(c, credits) && Requests(pr, m) && m.image && m.Core() in credits && d in m.Blobs()
    ensures d in c.store.files && !Primary(Prune(c, m).manifests, m.url) && !Primary(Prune(c, m).latest, m.url)
    ensures d !in Prune(c, m).store.files <==> forall n | n in credits - multiset{m.Core()} :: d !in n.Refs()
    ensures (forall n | n in credits && n != m.Core() :: d !in n.Refs()) ==>
              (d !in Prune(c, m).store.files <==> credits[m.Core()] == 1)
  {
    hide FromUrl, PullRequest.Url, PullRequest.UrlWithDigest, PullRequest.IsLatest, Manifest.WellFormed, Manifest.Alias,
         Manifest.Latest, Manifest.Blobs, Owed, RmBlobs, Backed, ManifestKeys, LatestKeys, RmManifest, Prune;
    PruneKeeps(c, credits, pr, m);
    PrunedUrl(c, pr, m);
    CoreSame(m);
    assert d in m.Refs();
    OwedIncludes(credits, m.Core());
    OwedIff(credits - Credit(m), d);
  }

  lemma OwedIff(credits: multiset<Manifest>, d: string)
    ensures d !in Owed(credits) <==> forall n | n in credits :: d !in n.Refs()
  {
    hide Owed, Manifest.Refs;
    if d in Owed(credits) { OwedHasHolder(credits, d); }
    forall n | n in credits && d in n.Refs() ensures d in Owed(credits) { OwedIncludes(credits, n); }
  }

  lemma PrunedUrl(c: Cache, pr: PullRequest, m: Manifest)
    requires KeysOk(c) && Requests(pr, m)
    ensures !Primary(Prune(c, m).manifests, m.url) && !Primary(Prune(c, m).latest, m.url)
  {
    hide FromUrl, PullRequest.Url, PullRequest.UrlWithDigest, PullRequest.IsLatest, Manifest.WellFormed, Manifest.Alias,
         Manifest.Latest, RmBlobs, RmManifest, ManifestKeys, LatestKeys;
    RmManifestKeys(c, pr, m);
    UrlPlace(c, m);
  }

  /** The url of a manifest is a primary key of one map only. */
  lemma UrlPlace(c: Cache, m: Manifest)
    requires KeysOk(c) && m.WellFormed()
    ensures m.Latest() ==> !Primary(c.manifests, m.url)
    ensures !m.Latest() ==> !Primary(c.latest, m.url)
  {
    hide FromUrl, Manifest.WellFormed, Manifest.Alias, Manifest.IsLatest, PullRequest.IsLatest,
         PullRequest.UrlWithDigest;
    KeyPlace(c, m.url);
    KeysParse(m);
  }

  /** What a prune deletes, whether the manifest still holds a credit or not: releasing goes on up to
      the first count that would fall below zero, and deletes exactly the blobs whose counts are used
      up by then. */
  lemma PruneDeletes(c: Cache, credits: multiset<Manifest>, pr: PullRequest, m: Manifest) returns (k: nat)
    requires Inv(c, credits) && Requests(pr, m) && m.image
    ensures k <= |m.Blobs()|
    ensures forall d :: multiset(m.Blobs()[..k])[d] <= Count(c.store.counts, d)
    ensures k < |m.Blobs()| ==>
              multiset(m.Blobs()[..k + 1])[m.Blobs()[k]] > Count(c.store.counts, m.Blobs()[k])
    ensures forall d ::
              (d in c.store.files && d !in Prune(c, m).store.files
               <==> d in m.Blobs()[..k] && Count(c.store.counts, d) == multiset(m.Blobs()[..k])[d])
  {
    hide FromUrl, PullRequest.Url, PullRequest.UrlWithDigest, PullRequest.IsLatest, Manifest.WellFormed, Manifest.Alias,
         Manifest.Latest, Manifest.Blobs, Owed, RmBlobs, Backed, ManifestKeys, LatestKeys, RmManifest;
    var ds, owed := m.Blobs(), Owed(credits);
    RmManifestKeys(c, pr, m);
    k := RmBlobsStops(c.store, owed, ds);
    if k < |ds| { assert ds[..k + 1] == ds[..k] + [ds[k]]; }
  }

  /** An image that is still cached loses a blob to the prune of another manifest exactly when that
      prune uses up the count of the blob; its entries stay, blob or no blob. */
  lemma StalePruneTakesLiveBlobsIff(c: Cache, credits: multiset<Manifest>, pr: PullRequest, m: Manifest,
                                    key: string, d: string)
    requires Inv(c, credits) && Requests(pr, m) && m.image
    requires FromCache(c, key).Some? && key != m.url && key != m.Alias()
    requires forall b :: multiset(m.Blobs())[b] <= Count(c.store.counts, b)
    requires var n := FromCache(c, key).value; n.image && d in n.Blobs() && d in c.store.files
    ensures FromCache(Prune(c, m), key) == FromCache(c, key)
    ensures d !in Prune(c, m).store.files <==> d in m.Blobs() && Count(c.store.counts, d) == multiset(m.Blobs())[d]
  {
    hide FromUrl, PullRequest.Url, PullRequest.UrlWithDigest, PullRequest.IsLatest, Manifest.WellFormed, Manifest.Alias,
         Manifest.Latest, Manifest.Blobs, Inv, RmManifest, RmBlobs, KeysOk;
    KeysOfInv(c, credits);
    RmManifestKeys(c, pr, m);
    var ds := m.Blobs();
    var k := PruneDeletes(c, credits, pr, m);
    PrefixCounts(ds, k);
    assert ds[..|ds|] == ds;
  }

  lemma PrefixCounts(ds: seq<string>, k: nat)
    ensures k < |ds| ==> multiset(ds)[ds[k]] >= multiset(ds[..k + 1])[ds[k]]
  {
    assert k < |ds| ==> ds == ds[..k + 1] + ds[k + 1..];
  }

  const LAYER: string := seq(DIGEST_LENGTH, _ => 'c')
  const DISK: Cache := Cache(map[], map[], BlobStore(map[], map[LAYER := 1], 0, 0), map[], map[])

  function ExampleRequest(name: char): PullRequest {
    PullRequest(ByTag, [name], "v1", "r.io")
  }

  function ExampleImage(name: char): Manifest {
    Manifest(ExampleRequest(name).Url(), seq(DIGEST_LENGTH, _ => name), true, [LAYER], [], "", "")
  }

  lemma ExampleRequestOk(name: char)
    requires 'a' <= name <= 'f'
    ensures ExampleRequest(name).WellFormed() && !ExampleRequest(name).IsLatest()
  {
    var pr := ExampleRequest(name);
    assert pr.remote[1] == '.' && pr.reference[0] == 'v' && DIGEST_PREFIX[0] == 's';
    assert ToLower(pr.reference)[0] == 'v' && "latest"[0] == 'l';
  }

  lemma ExampleImageOk(name: char)
    requires 'a' <= name <= 'f'
    ensures Requests(ExampleRequest(name), ExampleImage(name))
    ensures !ExampleImage(name).Latest()
    ensures ExampleImage(name).Blobs() == [LAYER]
  {
    hide FromUrl, PullRequest.Url, PullRequest.WellFormed, PullRequest.IsLatest, DigestFrom, ExampleRequest;
    ExampleRequestOk(name);
    RoundTripIff(ExampleRequest(name));
    ByTagRequest(name);
    DigestClean(LAYER);
  }

  lemma ByTagRequest(name: char)
    ensures ExampleRequest(name).pullType == ByTag
  {
  }

  lemma ExampleImagesApart()
    ensures var m, n := ExampleImage('a'), ExampleImage('b');
            m.url != n.url && m.url != n.Alias() && n.url != m.Alias()
  {
    ExampleImageOk('a');
    ExampleImageOk('b');
    KeysParse(ExampleImage('a'));
    KeysParse(ExampleImage('b'));
    assert ExampleRequest('a').repository[0] != ExampleRequest('b').repository[0];
  }

  /** Two cached images that share their only layer. */
  lemma TwoCached()
    ensures var p, q, m, n := ExampleRequest('a'), ExampleRequest('b'), ExampleImage('a'), ExampleImage('b');
            var two := Add(Add(DISK, p, m).0, q, n).0;
            && Requests(p, m) && Requests(q, n) && m.Blobs() == [LAYER] && n.Blobs() == [LAYER]
            && Inv(two, multiset{m, n}) && two.store.files == DISK.store.files
            && m.url in two.manifests && two.manifests[m.url] == m
            && n.url in two.manifests && two.manifests[n.url] == n
  {
    hide FromUrl, PullRequest.Url, PullRequest.UrlWithDigest, PullRequest.IsLatest, Manifest.WellFormed, Manifest.Alias,
         Manifest.Latest, Manifest.Blobs, Owed, Backed, ManifestKeys, LatestKeys, Sound, AddBlobs, ExampleRequest,
         AddManifest;
    var p, q, m, n := ExampleRequest('a'), ExampleRequest('b'), ExampleImage('a'), ExampleImage('b');
    ExampleImageOk('a');
    ExampleImageOk('b');
    ExampleImagesApart();
    EmptyInv();
    AddKeeps(DISK, multiset{}, p, m);
    AddManifestMaps(DISK, p, m);
    var one := Add(DISK, p, m).0;
    assert multiset{} + Credit(m) == multiset{m};
    AddKeeps(one, multiset{m}, q, n);
    AddManifestMaps(one, q, n);
    assert multiset{m} + Credit(n) == multiset{m, n};
  }

  /** Two images share a layer; pruning the first of them twice deletes the layer of the second. */
  lemma StalePruneExample()
    ensures var m, n := ExampleImage('a'), ExampleImage('b');
            var two := Add(Add(DISK, ExampleRequest('a'), m).0, ExampleRequest('b'), n).0;
            var twice := Prune(Prune(two, m), m);
            && Primary(twice.manifests, n.url) && twice.manifests[n.url] == n
            && LAYER in n.Blobs() && LAYER in two.store.files && LAYER !in twice.store.files
  {
    hide FromUrl, PullRequest.Url, PullRequest.UrlWithDigest, Manifest.WellFormed, Manifest.Alias, Manifest.Latest,
         Manifest.Blobs, Owed, Backed, ManifestKeys, LatestKeys, Sound, RmBlobs, ExampleRequest, Add;
    var p, q, m, n := ExampleRequest('a'), ExampleRequest('b'), ExampleImage('a'), ExampleImage('b');
    TwoCached();
    ExampleImageOk('b');
    ExampleImagesApart();
    var two, both := Add(Add(DISK, p, m).0, q, n).0, multiset{m, n};
    PruneKeeps(two, both, p, m);
    RmManifestKeys(two, p, m);
    assert m.Core() == m && n.Core() == n && m != n;
    assert both - Credit(m) == multiset{n};
    OwedOne(n);
    assert multiset(n.Blobs()) == multiset{LAYER};
    forall b ensures multiset(m.Blobs())[b] <= Count(Prune(two, m).store.counts, b) {
      CountIs(Prune(two, m), multiset{n}, b);
    }
    CountIs(Prune(two, m), multiset{n}, LAYER);
    StalePruneTakesLiveBlobsIff(Prune(two, m), multiset{n}, p, m, n.url, LAYER);
  }

  /** Two pulls of one manifest, stamped with different times. After the first prune the manifest is
      gone and its layer stays; it takes a second prune of the same manifest to give it up. */
  lemma DoublePullExample()
    ensures var pr, m := ExampleRequest('a'), ExampleImage('a');
            var again := m.(created := "later", pulled := "later");
            var twice := Add(Add(DISK, pr, m).0, pr, again).0;
            var once := Prune(twice, again);
            && twice.manifests[m.url] == again && !Primary(once.manifests, m.url) && !Primary(once.latest, m.url)
            && LAYER in once.store.files && once.store.counts == map[LAYER := 1]
            && LAYER !in Prune(once, again).store.files && Prune(once, again).store.counts == map[]
  {
    hide FromUrl, PullRequest.Url, PullRequest.UrlWithDigest, PullRequest.IsLatest, Manifest.WellFormed, Manifest.Alias,
         Manifest.Latest, Manifest.Blobs, Owed, AddBlobs, RmBlobs, ExampleRequest, Inv, Prune, Manifest.Core;
    var pr, m := ExampleRequest('a'), ExampleImage('a');
    var again := m.(created := "later", pulled := "later");
    ExampleImageOk('a');
    AgainIs(pr, m);
    EmptyInv();
    AddKeeps(DISK, multiset{}, pr, m);
    var first := Add(DISK, pr, m).0;
    AddKeeps(first, multiset{} + Credit(m), pr, again);
    var twice, credits := Add(first, pr, again).0, multiset{m.Core()};
    assert multiset{} + Credit(m) + Credit(again) == credits + credits;
    AddedServes(first, pr, again);
    PruneKeeps(twice, credits + credits, pr, again);
    var once := Prune(twice, again);
    assert credits + credits - Credit(again) == credits;
    KeysOfInv(twice, credits + credits);
    PrunedUrl(twice, pr, again);
    PruneKeeps(once, credits, pr, again);
    assert credits - Credit(again) == multiset{};
    OneLayerCount(once, m);
    NothingCounted(Prune(once, again));
    OwedIff(multiset{}, LAYER);
    assert LAYER in Freed(credits, again);
  }

  lemma AgainIs(pr: PullRequest, m: Manifest)
    requires Requests(pr, m)
    ensures var again := m.(created := "later", pulled := "later");
            && Requests(pr, again) && again.Core() == m.Core()
            && again.Blobs() == m.Blobs() && again.Latest() == m.Latest()
  {
    hide FromUrl;
    CoreSame(m);
    CoreSame(m.(created := "later", pulled := "later"));
    assert m.(created := "later", pulled := "later").Blobs() == m.Blobs();
  }

  lemma AddedServes(c: Cache, pr: PullRequest, m: Manifest)
    requires Requests(pr, m) && !m.Latest()
    ensures m.url in Add(c, pr, m).0.manifests && Add(c, pr, m).0.manifests[m.url] == m
  {
    hide FromUrl, PullRequest.Url, PullRequest.UrlWithDigest, Manifest.WellFormed, Manifest.Alias, Manifest.Latest,
         AddBlobs;
    NamesAgree(pr, m);
  }

  lemma OneLayerCount(c: Cache, m: Manifest)
    requires Inv(c, multiset{m.Core()}) && m.image && m.Blobs() == [LAYER]
    ensures c.store.counts == map[LAYER := 1] && LAYER in c.store.files
  {
    hide Owed, Manifest.Blobs, KeysOk, Backed;
    OwedOne(m.Core());
    CoreSame(m);
    assert m.Refs() == multiset{LAYER};
  }

  lemma NothingCounted(c: Cache)
    requires Inv(c, multiset{})
    ensures c.store.counts == map[]
  {
    hide KeysOk, Backed;
  }

  const NGINX := PullRequest(ByTag, "nginx", "v1", "docker.io")
  const LIBRARY_NGINX := PullRequest(ByTag, "library/nginx", "v1", "docker.io")

  lemma NginxClean()
    ensures NGINX.WellFormed() && !NGINX.IsLatest() && !("library/" <= NGINX.repository)
  {
    assert "v1"[0] != "sha256:"[0] && "nginx"[0] != "library/"[0];
    assert !Lacks("docker.io", '.') by { assert "docker.io"[6] == '.'; }
    assert |ToLower("v1")| == 2;
  }

  lemma NginxOk()
    ensures NGINX.WellFormed() && LIBRARY_NGINX.WellFormed() && Alternate(LIBRARY_NGINX) == NGINX
    ensures NGINX.Url() != LIBRARY_NGINX.Url() && !NGINX.IsLatest() && !LIBRARY_NGINX.IsLatest()
  {
    hide PullRequest.WellFormed, PullRequest.Url, PullRequest.IsLatest;
    NginxClean();
    AltClean(NGINX);
    AltTwice(NGINX.repository);
    assert "library/" + "nginx" == "library/nginx";
    assert Alternate(NGINX) == LIBRARY_NGINX;
    NginxApart();
  }

  lemma NginxApart()
    ensures NGINX.Url() != LIBRARY_NGINX.Url() && (LIBRARY_NGINX.IsLatest() <==> NGINX.IsLatest())
  {
    hide Separator;
    assert |NGINX.Url()| == |"docker.io"| + 1 + |"nginx"| + 1 + |"v1"|;
    assert |LIBRARY_NGINX.Url()| == |"docker.io"| + 1 + |"library/nginx"| + 1 + |"v1"|;
  }

  /** An image pulled as docker.io/nginx serves requests for docker.io/library/nginx. */
  lemma SpellingExample(now: string)
    ensures var m := ExampleImage('a').(url := NGINX.Url());
            var c := Add(DISK, NGINX, m).0;
            && Requests(NGINX, m) && FromCache(c, LIBRARY_NGINX.Url()).None?
            && Get(c, LIBRARY_NGINX, now).1 == Some(m.(pulled := now))
  {
    hide FromUrl, PullRequest.WellFormed, PullRequest.Url, PullRequest.UrlWithDigest, PullRequest.IsLatest,
         PullRequest.AltDockerUrl, Manifest.Alias, Manifest.Latest, AddBlobs, AddManifest, ManifestKeys, LatestKeys,
         NGINX, LIBRARY_NGINX, Get, DISK;
    var m := ExampleImage('a').(url := NGINX.Url());
    var c := Add(DISK, NGINX, m).0;
    NginxOk();
    ExampleImageOk('a');
    RoundTripIff(NGINX);
    ByTagNginx();
    assert Requests(NGINX, m);
    EmptyKeys();
    AddManifestKeys(DISK, NGINX, m);
    AddManifestMaps(DISK, NGINX, m);
    NamesAgree(NGINX, m);
    DigestClean(m.digest);
    DigestKeyInjective(LIBRARY_NGINX, NGINX, m.digest, m.digest);
    EitherSpelling(c, LIBRARY_NGINX, now);
  }

  lemma ByTagNginx()
    ensures NGINX.pullType == LIBRARY_NGINX.pullType == ByTag && LIBRARY_NGINX.remote == "docker.io"
  {
  }

  lemma EmptyKeys()
    ensures KeysOk(DISK) && DISK.manifests == map[] && DISK.latest == map[]
  {
  }

  function LatestRequest(name: char): PullRequest {
    PullRequest(ByTag, [name], "latest", "r.io")
  }

  function LatestImage(name: char): Manifest {
    ExampleImage(name).(url := LatestRequest(name).Url())
  }

  lemma LatestImageOk()
    ensures var child := LatestImage('a');
            && child.WellFormed() && child.Latest() && FromUrl(child.url) == Ok(LatestRequest('a'))
            && child.image && child.Blobs() == [LAYER]
  {
    hide FromUrl, PullRequest.Url;
    ExampleImageOk('a');
    var pr := LatestRequest('a');
    LatestRequestOk();
    RoundTripIff(pr);
    assert LatestImage('a').Blobs() == ExampleImage('a').Blobs();
    assert pr.IsLatest() by { LowerFixed("latest"); }
  }

  lemma LatestRequestOk()
    ensures LatestRequest('a').WellFormed()
  {
    assert LatestRequest('a').remote[1] == '.' && DIGEST_PREFIX[0] != "latest"[0];
  }

  lemma EmptyInv()
    ensures Inv(DISK, multiset{})
  {
  }

  lemma OwedOne(m: Manifest)
    ensures Owed(multiset{m}) == m.Refs()
  {
    OwedAdd(multiset{}, m);
    assert multiset{} + multiset{m} == multiset{m};
  }

  // ---------------------------------------------------------------- the copied digest key

  /** After a prune the digest key of the manifest is gone exactly when it was in no other map; a
      `latest` manifest that was read by digest stays served under that key, its blobs gone or not. */
  lemma DigestKeyGoneIff(c: Cache, pr: PullRequest, m: Manifest)
    requires KeysOk(c) && Requests(pr, m)
    ensures FromCache(Prune(c, m), m.Alias()).None?
       <==> if m.Latest() then m.Alias() !in c.manifests else m.Alias() !in c.latest
  {
    hide FromUrl, PullRequest.Url, PullRequest.UrlWithDigest, Manifest.WellFormed, Manifest.Alias, Manifest.Latest,
         RmBlobs, RmManifest, ManifestKeys, LatestKeys;
    RmManifestKeys(c, pr, m);
  }

  /** Reading a `latest` manifest by digest copies it into the map that its prune does not look at. */
  lemma ReadByDigestCopies(c: Cache, pr: PullRequest, m: Manifest, now: string)
    requires KeysOk(c) && m.WellFormed() && m.Latest() && pr.WellFormed() && pr.Url() == m.Alias()
    requires m.Alias() in c.latest
    ensures m.Alias() in Get(c, pr, now).0.manifests
  {
    hide PullRequest.Url, PullRequest.UrlWithDigest, ManifestKeys, LatestKeys;
    RoundTripIff(pr);
    KeysParse(m);
  }

  /** Such a leftover entry still stands for the pruned manifest, and lacks a blob exactly when one of
      its blobs went with the prune. */
  lemma LeftoverLacksBlobIff(c: Cache, credits: multiset<Manifest>, pr: PullRequest, m: Manifest)
    requires Inv(c, credits) && Requests(pr, m) && (m.image ==> m.Core() in credits)
    requires FromCache(Prune(c, m), m.Alias()).Some? && BlobsOnDisk(c, FromCache(Prune(c, m), m.Alias()).value)
    ensures var left := FromCache(Prune(c, m), m.Alias()).value;
            && left.digest == m.digest
            && (!BlobsOnDisk(Prune(c, m), left) <==> exists d :: d in left.Blobs() && d in Freed(credits, m))
  {
    hide FromUrl, PullRequest.Url, PullRequest.UrlWithDigest, Manifest.WellFormed, Manifest.Alias, Manifest.Latest,
         Manifest.Blobs, Prune, Freed, Sound, Owed;
    PruneKeeps(c, credits, pr, m);
    AliasDetermines(m, FromCache(Prune(c, m), m.Alias()).value);
  }

  /** The request for a manifest by its digest. */
  function ByDigestRequest(pr: PullRequest, m: Manifest): PullRequest {
    pr.(pullType := ByDigest, reference := DIGEST_PREFIX + m.digest)
  }

  lemma ByDigestOk(pr: PullRequest, m: Manifest)
    requires Requests(pr, m)
    ensures ByDigestRequest(pr, m).WellFormed() && ByDigestRequest(pr, m).Url() == m.Alias()
    ensures !ByDigestRequest(pr, m).IsLatest()
  {
    RoundTripIff(pr);
    DigestClean(m.digest);
    DigestKeyParses(pr, m.digest);
    assert "latest"[0] != DIGEST_PREFIX[0];
  }

  lemma ReadAlias(c: Cache, pr: PullRequest, m: Manifest, now: string)
    requires KeysOk(c) && Requests(pr, m) && FromCache(c, m.Alias()).Some?
    ensures var (after, served) := Get(c, ByDigestRequest(pr, m), now);
            var found := FromCache(c, m.Alias()).value.(pulled := now);
            && served == Some(found) && after.store == c.store
            && after.manifests == c.manifests[m.Alias() := found] && after.latest == c.latest
  {
    hide FromUrl, PullRequest.WellFormed, PullRequest.Url, PullRequest.UrlWithDigest, PullRequest.AltDockerUrl,
         PullRequest.IsLatest, Manifest.WellFormed, Manifest.Alias, Manifest.Latest, ManifestKeys, LatestKeys, Get;
    ByDigestOk(pr, m);
    GetShape(c, ByDigestRequest(pr, m), now);
  }

  lemma AddedAlias(c: Cache, pr: PullRequest, m: Manifest)
    requires Requests(pr, m) && m.Latest()
    ensures Add(c, pr, m).0.manifests == c.manifests
    ensures m.Alias() in Add(c, pr, m).0.latest && Add(c, pr, m).0.latest[m.Alias()] == m
  {
    hide FromUrl, PullRequest.Url, PullRequest.UrlWithDigest, Manifest.WellFormed, Manifest.Alias, Manifest.Latest,
         AddBlobs;
    NamesAgree(pr, m);
  }

  /** An image of a `latest` url that was read once by digest and then pruned: it is still served under
      its digest key, and its layer is gone. */
  lemma LeftoverExample(now: string)
    ensures var pr, m := LatestRequest('a'), LatestImage('a');
            var pruned := Prune(Get(Add(DISK, pr, m).0, ByDigestRequest(pr, m), now).0, m);
            var served := Get(pruned, ByDigestRequest(pr, m), now).1;
            && ByDigestRequest(pr, m).WellFormed() && served == Some(m.(pulled := now))
            && LAYER in DISK.store.files && LAYER in served.value.Blobs() && LAYER !in pruned.store.files
  {
    hide FromUrl, PullRequest.WellFormed, PullRequest.Url, PullRequest.UrlWithDigest, PullRequest.IsLatest,
         Manifest.WellFormed, Manifest.Alias, Manifest.Latest, Manifest.Blobs, Owed, Inv, KeysOk, Get, Add, Prune,
         RmManifest, LatestRequest, LatestImage, ByDigestRequest, FromCache;
    var pr, m := LatestRequest('a'), LatestImage('a');
    LatestImageOk();
    ByDigestOk(pr, m);
    EmptyInv();
    LayerOnDisk(m);
    AddKeeps(DISK, multiset{}, pr, m);
    var added, credits := Add(DISK, pr, m).0, multiset{} + Credit(m);
    AddedAlias(DISK, pr, m);
    KeysOfInv(added, credits);
    AliasIn(added, m);
    ReadAlias(added, pr, m, now);
    GetKeeps(added, credits, ByDigestRequest(pr, m), now);
    var read := Get(added, ByDigestRequest(pr, m), now).0;
    KeysOfInv(read, credits);
    PruneKeeps(read, credits, pr, m);
    var pruned := Prune(read, m);
    PrunedMaps(read, pr, m);
    KeysOfInv(pruned, credits - Credit(m));
    CopyIn(pruned, m.(pulled := now), m.Alias());
    ReadAlias(pruned, pr, m, now);
    OwedIff(credits - Credit(m), LAYER);
    assert credits - Credit(m) == multiset{};
    assert LAYER in Freed(credits, m);
    SameBlobs(m, now);
  }

  lemma LayerOnDisk(m: Manifest)
    requires m.Blobs() == [LAYER]
    ensures BlobsOnDisk(DISK, m)
  {
  }

  lemma SameBlobs(m: Manifest, now: string)
    ensures m.(pulled := now).Blobs() == m.Blobs()
  {
    assert m.(pulled := now).Blobs() == m.Blobs();
  }

  lemma AliasIn(c: Cache, m: Manifest)
    requires c.manifests == map[] && m.Alias() in c.latest
    ensures FromCache(c, m.Alias()) == Some(c.latest[m.Alias()])
  {
  }

  lemma CopyIn(c: Cache, m: Manifest, k: string)
    requires k in c.manifests && c.manifests[k] == m
    ensures FromCache(c, k) == Some(m)
  {
  }

  lemma PrunedMaps(c: Cache, pr: PullRequest, m: Manifest)
    requires KeysOk(c) && Requests(pr, m) && m.Latest()
    ensures Prune(c, m).manifests == c.manifests
  {
    hide FromUrl, PullRequest.Url, PullRequest.UrlWithDigest, Manifest.WellFormed, Manifest.Alias, Manifest.Latest,
         RmManifest, RmBlobs, ManifestKeys, LatestKeys;
    RmManifestKeys(c, pr, m);
  }
}
