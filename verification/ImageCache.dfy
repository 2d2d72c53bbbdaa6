/** The cache as the server keeps it: two maps and a count table in memory over the image directory. */
module ImageCaches {
  import opened PullRequests
  import opened Manifests
  import opened BlobStores
  import opened CacheState
  import opened CacheLaws
  import opened Recovery
  import opened Exactness
  import opened Disks

  const NO_LIMIT := -1

  class ImageCache {
    var manifests: map<string, Manifest>
    var latest: map<string, Manifest>
    var counts: map<string, int>
    const fs: FileSystem
    /** The image manifests added and not yet removed. */
    ghost var credits: multiset<Manifest>

    ghost function View(): Cache
      reads this, fs
    {
      Cache(manifests, latest, fs.Store(counts), fs.img, fs.lts)
    }

    ghost predicate Valid()
      reads this, fs
    {
      Inv(View(), credits)
    }

    constructor (fs: FileSystem)
      ensures this.fs == fs && manifests == map[] && latest == map[] && counts == map[] && credits == multiset{}
      ensures fs.blobGauge == fs.byteGauge == 0 ==> Valid()
    {
      manifests, latest, counts, credits := map[], map[], map[], multiset{};
      this.fs := fs;
    }

    // -------------------------------------------------------------- manifests in memory

    method Lookup(url: string) returns (m: Option<Manifest>)
      ensures m == FromCache(View(), url)
    {
      if url in manifests {
        return Some(manifests[url]);
      }
      if url in latest {
        return Some(latest[url]);
      }
      return None;
    }

    method AddManifestToCache(pr: PullRequest, m: Manifest)
      modifies this`manifests, this`latest
      ensures View() == AddManifest(old(View()), pr, m)
    {
      hide PullRequest.Url, PullRequest.UrlWithDigest, PullRequest.IsLatest;
      if pr.IsLatest() {
        latest := latest[pr.Url() := m];
        latest := latest[pr.UrlWithDigest(DIGEST_PREFIX + m.digest) := m];
      } else {
        manifests := manifests[pr.Url() := m];
        if pr.pullType == ByTag {
          manifests := manifests[pr.UrlWithDigest(DIGEST_PREFIX + m.digest) := m];
        }
      }
    }

    method Delete(pr: PullRequest, digest: string)
      modifies this`manifests, this`latest
      ensures View() == DeleteManifest(old(View()), pr, digest)
    {
      hide PullRequest.Url, PullRequest.UrlWithDigest, PullRequest.IsLatest;
      if pr.IsLatest() {
        latest := latest - {pr.Url()};
        latest := latest - {pr.UrlWithDigest(DIGEST_PREFIX + digest)};
      } else {
        manifests := manifests - {pr.Url()};
        if pr.pullType == ByTag {
          manifests := manifests - {pr.UrlWithDigest(DIGEST_PREFIX + digest)};
        }
      }
    }

    method RmManifest(m: Manifest)
      modifies this`manifests, this`latest, fs`img, fs`lts, fs`manifestGauge
      ensures View() == CacheState.RmManifest(old(View()), m)
      ensures FromUrl(m.url).Err? ==> View() == old(View())
    {
      hide PullRequest.IsLatest, Manifest.Latest;
      var pr := NewPullRequestFromUrl(m.url);
      if pr.Err? {
        return;
      }
      Delete(pr.value, m.digest);
      var ok := fs.RmManifest(m);
      ClassIs(m, pr.value.IsLatest());
    }

    // -------------------------------------------------------------- blob counts

    method CanAddBlobs(m: Manifest) returns (canAdd: bool)
      ensures canAdd <==> forall l | l in m.layers :: DigestFrom(l) in fs.blobs
      ensures canAdd <==> CanAdd(View(), m)
    {
      hide DigestFrom, CanAdd;
      CanAddIff(View(), m);
      canAdd := true;
      for i := 0 to |m.layers|
        invariant canAdd <==> forall j | 0 <= j < i :: DigestFrom(m.layers[j]) in fs.blobs
      {
        if DigestFrom(m.layers[i]) !in fs.blobs {
          canAdd := false;
        }
      }
    }

    /** addBlobsToCache */
    method AddBlobsToCache(m: Manifest) returns (ok: bool)
      modifies this`counts, fs`blobGauge, fs`byteGauge
      ensures (fs.Store(counts), ok) == AddBlobs(old(fs.Store(counts)), m.Blobs())
      ensures ok <==> forall l | l in m.layers :: DigestFrom(l) in fs.blobs
      ensures ok ==> forall d :: Count(counts, d) == Count(old(counts), d) + Occurs(m.layers, d)
    {
      hide DigestFrom, Occurs;
      ghost var ds := m.Blobs();
      CountingIs(fs.Store(counts), m);
      for i := 0 to |m.layers|
        invariant AddBlobs(fs.Store(counts), ds[i..]) == AddBlobs(old(fs.Store(counts)), ds)
      {
        var d := DigestFrom(m.layers[i]);
        assert ds[i..][0] == d && ds[i..][1..] == ds[i + 1..];
        counts := counts[d := Count(counts, d) + 1];
        if d !in fs.blobs {
          return false;
        } else if counts[d] == 1 {
          fs.byteGauge := fs.byteGauge + fs.blobs[d];
          fs.blobGauge := fs.blobGauge + 1;
        }
      }
      return true;
    }

    method RmBlob(d: string) returns (ok: bool)
      modifies this`counts, fs`blobs, fs`blobGauge, fs`byteGauge
      ensures (fs.Store(counts), ok) == BlobStores.RmBlob(old(fs.Store(counts)), d)
      ensures ok <==> Count(old(counts), d) >= 1
      ensures forall e :: Count(counts, e) == Count(old(counts), e) - if e == d then 1 else 0
      ensures d in counts <==> Count(old(counts), d) != 1
      ensures fs.blobs == if Count(old(counts), d) == 1 then old(fs.blobs) - {d} else old(fs.blobs)
      ensures var gone := Count(old(counts), d) == 1 && d in old(fs.blobs);
              && fs.blobGauge == old(fs.blobGauge) - (if gone then 1 else 0)
              && fs.byteGauge == old(fs.byteGauge) - (if gone then old(fs.blobs)[d] else 0)
    {
      counts := counts[d := Count(counts, d) - 1];
      if counts[d] == 0 {
        counts := counts - {d};
        assert counts == old(counts) - {d};
        fs.RmBlob(d);
        assert fs.Store(counts) == RmBlobFile(old(fs.Store(counts)).(counts := counts), d);
      } else if counts[d] < 0 {
        return false;
      }
      return true;
    }

    /** rmBlobs */
    method RmBlobs(m: Manifest) returns (ok: bool)
      modifies this`counts, fs`blobs, fs`blobGauge, fs`byteGauge
      ensures (fs.Store(counts), ok) == BlobStores.RmBlobs(old(fs.Store(counts)), m.Blobs())
      ensures ok <==> forall d :: Occurs(m.layers, d) > 0 ==> Occurs(m.layers, d) <= Count(old(counts), d)
      ensures ok ==> forall d :: Count(counts, d) == Count(old(counts), d) - Occurs(m.layers, d)
    {
      hide DigestFrom, Occurs, BlobStores.RmBlob;
      ghost var ds := m.Blobs();
      ReleasingIs(fs.Store(counts), m);
      for i := 0 to |m.layers|
        invariant BlobStores.RmBlobs(fs.Store(counts), ds[i..]) == BlobStores.RmBlobs(old(fs.Store(counts)), ds)
      {
        var d := DigestFrom(m.layers[i]);
        assert ds[i..][0] == d && ds[i..][1..] == ds[i + 1..];
        var removed := RmBlob(d);
        if !removed {
          return false;
        }
      }
      return true;
    }

    // -------------------------------------------------------------- whole operations

    method AddToCache(pr: PullRequest, m: Manifest) returns (ok: bool)
      modifies this, fs`blobGauge, fs`byteGauge
      ensures (View(), ok) == Add(old(View()), pr, m)
      ensures credits == old(credits) + Credit(m)
      ensures old(Valid()) && Requests(pr, m) && old(BlobsOnDisk(View(), m)) ==> ok && Valid()
    {
      hide Inv, Requests, AddManifest, AddBlobs, Manifest.Blobs;
      ghost var before := View();
      AddManifestToCache(pr, m);
      ok := true;
      if m.image {
        ok := AddBlobsToCache(m);
      }
      credits := credits + Credit(m);
      if old(Valid()) && Requests(pr, m) && BlobsOnDisk(before, m) {
        AddKeeps(before, old(credits), pr, m);
      }
    }

    /** The new blobs are counted before the old ones are released. */
    method Exchange(was: Manifest, pr: PullRequest, m: Manifest)
      modifies this`manifests, this`latest, this`counts, fs
      ensures View() == ReleaseBlobs(CountBlobs(AddManifest(CacheState.RmManifest(old(View()), was), pr, m), m).0, was)
    {
      hide PullRequest.Url, PullRequest.UrlWithDigest, PullRequest.IsLatest, AddManifest, AddBlobs,
           CacheState.RmManifest, BlobStores.RmBlobs, Manifest.Blobs;
      RmManifest(was);
      AddManifestToCache(pr, m);
      if m.image {
        var counted := AddBlobsToCache(m);
      }
      if was.image {
        var released := RmBlobs(was);
      }
    }

    method ReplaceInCache(pr: PullRequest, m: Manifest) returns (ok: bool)
      modifies this, fs
      ensures (View(), ok) == Replace(old(View()), pr, m)
      ensures credits == ReplacedCredits(old(View()), old(credits), m) || m.url != pr.Url()
      ensures old(Valid()) && Requests(pr, m) && pr.IsLatest() && old(BlobsOnDisk(View(), m)) ==> ok && Valid()
    {
      hide Inv, PullRequest.Url, PullRequest.UrlWithDigest, PullRequest.IsLatest, AddManifest, AddBlobs,
           CacheState.RmManifest, BlobStores.RmBlobs, Manifest.Blobs, Manifest.WellFormed;
      ghost var before := View();
      var existing := Lookup(pr.Url());
      ghost var after := ReplacedCredits(before, credits, m);
      if existing.None? {
        AddManifestToCache(pr, m);
        ok := true;
        if m.image {
          ok := AddBlobsToCache(m);
        }
      } else if existing.value.digest == m.digest {
        ok := true;
      } else {
        Exchange(existing.value, pr, m);
        ok := true;
      }
      credits := after;
      if old(Valid()) && Requests(pr, m) && pr.IsLatest() && BlobsOnDisk(before, m) {
        NamesAgree(pr, m);
        ReplaceKeeps(before, old(credits), pr, m);
      }
    }

    method Prune(m: Manifest)
      modifies this, fs
      ensures View() == CacheState.Prune(old(View()), m)
      ensures credits == old(credits) - Credit(m)
      ensures old(Valid()) && m.WellFormed() && (m.image ==> m.Core() in old(credits)) ==> Valid()
    {
      hide Inv, Manifest.WellFormed, CacheState.RmManifest, BlobStores.RmBlobs, Manifest.Blobs;
      ghost var before := View();
      RmManifest(m);
      if m.image {
        var ok := RmBlobs(m);
      }
      credits := credits - Credit(m);
      if old(Valid()) && m.WellFormed() && (m.image ==> m.Core() in old(credits)) {
        ParsesWell(m);
        PruneKeeps(before, old(credits), FromUrl(m.url).value, m);
      }
    }

    /** getManifestFromCache */
    method GetManifestFromCache(pr: PullRequest, now: string) returns (served: Option<Manifest>)
      modifies this`manifests, this`latest, fs`img, fs`lts, fs`manifestGauge
      ensures (View(), served) == Get(old(View()), pr, now)
      ensures old(KeysOk(View())) && pr.WellFormed() ==>
                (served.None? <==>
                   && old(FromCache(View(), pr.Url())).None?
                   && (pr.remote == "docker.io" ==> old(FromCache(View(), Alternate(pr).Url())).None?))
    {
      hide PullRequest.Url, PullRequest.AltDockerUrl, PullRequest.IsLatest, PullRequest.WellFormed, Manifest.Latest,
           FromUrl, KeysOk, Alternate;
      if KeysOk(View()) && pr.WellFormed() { EitherSpelling(View(), pr, now); }
      var url := pr.Url();
      var found := Lookup(url);
      if found.None? {
        var alt := pr.AltDockerUrl();
        if alt != "" {
          url := alt;
          found := Lookup(url);
        }
      }
      if found.None? {
        return None;
      }
      var m := found.value.(pulled := now);
      if pr.IsLatest() {
        latest := latest[url := m];
      } else {
        manifests := manifests[url := m];
      }
      var ok := fs.WriteManifest(m, true);
      if ok { ClassIs(m, m.IsLatest().value); }
      return if ok then Some(m) else None;
    }

    // -------------------------------------------------------------- selection and pruning

    /** GetManifestsCompare: up to `count` of the primary entries that match, in any order. */
    method GetManifestsCompare(comparer: Manifest -> bool, count: int) returns (mhs: seq<Manifest>)
      requires KeysOk(View())
      ensures DistinctUrls(mhs)
      ensures forall m | m in mhs :: m in Matching(View(), comparer)
      ensures var n := |Matching(View(), comparer)|;
              |mhs| == if count == NO_LIMIT || count > n then n else if count < 0 then 0 else count
    {
      hide KeysOk, MatchesIn;
      UrlsApart(View(), comparer);
      var stopped;
      mhs, stopped := SelectFrom(manifests, comparer, count, 0);
      if !stopped {
        var more;
        more, stopped := SelectFrom(latest, comparer, count, |mhs|);
        mhs := mhs + more;
      }
    }

    /** doPrune: selects once, then prunes what was selected without looking again. */
    method DoPrune(comparer: Manifest -> bool, count: int, dryRun: bool) returns (ghost selected: seq<Manifest>)
      requires Valid()
      modifies this, fs
      ensures Valid()
      ensures DistinctUrls(selected) && forall m | m in selected :: m in Matching(old(View()), comparer)
      ensures var n := |Matching(old(View()), comparer)|;
              |selected| == if count == NO_LIMIT || count > n then n else if count < 0 then 0 else count
      ensures dryRun ==> View() == old(View()) && credits == old(credits)
      ensures !dryRun ==> credits == old(credits) - Bag(selected)
      ensures !dryRun ==> Matching(View(), comparer) <= Matching(old(View()), comparer) - set m | m in selected
      ensures !dryRun && count == NO_LIMIT ==> Matching(View(), comparer) == {}
      ensures !dryRun && count == NO_LIMIT && TakesAll(comparer) && old(Exact(View(), credits)) ==>
                credits == multiset{} && counts == map[]
      ensures old(Twins(latest)) ==> Twins(latest)
    {
      hide Inv, Manifest.WellFormed, CacheState.Prune, Bag, Twins, Matching, PartlyPruned, Exact, TakesAll;
      ghost var before, held := View(), credits;
      KeysOfInv(before, held);
      var toPrune := GetManifestsCompare(comparer, count);
      selected := toPrune;
      NothingPruned(before, held, comparer, toPrune);
      if !dryRun {
        for i := 0 to |toPrune|
          invariant Valid() && PartlyPruned(before, held, comparer, toPrune, i, View(), credits)
        {
          PruneOneMore(before, held, comparer, toPrune, i, View(), credits);
          Prune(toPrune[i]);
        }
        AllPruned(before, held, comparer, toPrune, View(), credits);
        if count == NO_LIMIT {
          AllSelected(Matching(before, comparer), toPrune);
          SweptClean(before, held, comparer, toPrune, View(), credits);
        }
      }
    }

    method LoadOne(m: Manifest) returns (ok: bool)
      modifies this, fs`blobGauge, fs`byteGauge, fs`manifestGauge
      ensures ok <==> FromUrl(m.url).Ok?
      ensures View() == if ok && old(CanAdd(View(), m)) then Add(old(View()), FromUrl(m.url).value, m).0
                        else old(View())
      ensures fs.manifestGauge == old(fs.manifestGauge) + if ok && old(CanAdd(View(), m)) then fs.sizeOf(m) else 0
    {
      hide AddManifest, AddBlobs, Manifest.Blobs, Add, CanAdd, FromUrl, Inv, Requests;
      var pr := NewPullRequestFromUrl(m.url);
      if pr.Err? {
        return false;
      }
      var canAdd := CanAddBlobs(m);
      if canAdd {
        fs.manifestGauge := fs.manifestGauge + fs.sizeOf(m);
        var added := AddToCache(pr.value, m);
      }
      return true;
    }

    /** Load: every manifest file whose blobs are all on disk is added. The manifest gauge counts only
        these, so it stays behind the directory by the manifests that are left out. */
    method Load() returns (ok: bool, ghost files: seq<Manifest>)
      requires credits == multiset{}
      modifies this, fs`blobGauge, fs`byteGauge, fs`manifestGauge
      ensures Walk(old(View()), files)
      ensures (View(), ok) == LoadFiles(old(View()), files)
      ensures credits == Bag(Loadable(old(View()), files))
      ensures ok ==> fs.manifestGauge == old(fs.manifestGauge) + Bytes(fs.sizeOf, Loadable(old(View()), files))
      ensures old(Valid()) && DiskOk(old(View())) ==> ok && Valid()
      ensures old(Valid()) && DiskOk(old(View())) && old(latest) == map[] && DistinctUrls(files) ==> Twins(latest)
    {
      hide Inv, Manifest.WellFormed, Manifest.Latest, Add, CanAdd, FromUrl, DiskOk, Walk, Bag, Loadable, Twins, Bytes;
      ghost var before := View();
      var walk := fs.WalkTheCache();
      files := walk;
      assert Walk(before, files) by { SameWalk(fs.View(), before, files); }
      ghost var all := Bag(Loadable(before, walk));
      ok := true;
      var i := 0;
      while i < |walk| && ok
        invariant i <= |walk| && fs.blobs == before.store.files
        invariant if ok then LoadFiles(View(), walk[i..]) == LoadFiles(before, walk)
                  else (View(), false) == LoadFiles(before, walk)
        invariant ok ==>
                    fs.manifestGauge + Bytes(fs.sizeOf, Loadable(before, walk[i..]))
                    == old(fs.manifestGauge) + Bytes(fs.sizeOf, Loadable(before, walk))
        decreases |walk| - i, ok
      {
        SameCanAdd(before, View(), walk[i]);
        NextBytes(fs.sizeOf, before, walk, i);
        assert walk[i..][0] == walk[i] && walk[i..][1..] == walk[i + 1..];
        ok := LoadOne(walk[i]);
        i := i + 1;
      }
      NoBytes(fs.sizeOf, before, walk);
      credits := all;
      if old(Valid()) && DiskOk(before) {
        WalkDistinct(before, walk);
        LoadKeeps(before, multiset{}, walk);
        assert multiset{} + all == all;
        if old(latest) == map[] && DistinctUrls(walk) {
          NoTwins(before);
          LoadKeepsTwins(before, multiset{}, walk);
        }
      }
    }
  }

  /** Counting a manifest by its layers. */
  lemma CountingIs(st: BlobStore, m: Manifest)
    ensures var (st', ok) := AddBlobs(st, m.Blobs());
            && (ok <==> forall l | l in m.layers :: DigestFrom(l) in st.files)
            && (ok ==> forall d :: Count(st'.counts, d) == Count(st.counts, d) + Occurs(m.layers, d))
  {
    hide DigestFrom, Occurs, Manifest.Blobs, AddBlobs;
    AddBlobsCounts(st, m.Blobs());
    AllOccur(m);
    forall d ensures d in m.Blobs() <==> exists l :: l in m.layers && DigestFrom(l) == d { BlobsOccur(m, d); }
    forall l | l in m.layers ensures DigestFrom(l) in m.Blobs() { BlobsOccur(m, DigestFrom(l)); }
  }

  /** Releasing it. */
  lemma ReleasingIs(st: BlobStore, m: Manifest)
    ensures var (st', ok) := BlobStores.RmBlobs(st, m.Blobs());
            && (ok <==> forall d :: Occurs(m.layers, d) > 0 ==> Occurs(m.layers, d) <= Count(st.counts, d))
            && (ok ==> forall d :: Count(st'.counts, d) == Count(st.counts, d) - Occurs(m.layers, d))
  {
    hide DigestFrom, Occurs, Manifest.Blobs, BlobStores.RmBlobs;
    RmBlobsCounts(st, m.Blobs());
    AllOccur(m);
    assert forall d :: d in m.Blobs() <==> d in multiset(m.Blobs());
  }

  /** The bytes of the encoded manifests. */
  ghost function Bytes(sizeOf: Manifest -> nat, files: seq<Manifest>): nat {
    if files == [] then 0 else sizeOf(files[0]) + Bytes(sizeOf, files[1..])
  }

  lemma NextBytes(sizeOf: Manifest -> nat, c: Cache, files: seq<Manifest>, i: nat)
    requires i < |files|
    ensures Bytes(sizeOf, Loadable(c, files[i..]))
         == Bytes(sizeOf, Loadable(c, files[i + 1..])) + if CanAdd(c, files[i]) then sizeOf(files[i]) else 0
  {
    hide CanAdd;
    var all, rest := Loadable(c, files[i..]), files[i + 1..];
    assert files[i..][1..] == rest;
    if CanAdd(c, files[i]) {
      assert all[0] == files[i] && all[1..] == Loadable(c, rest);
    } else {
      assert all == Loadable(c, rest);
    }
  }

  lemma NoBytes(sizeOf: Manifest -> nat, c: Cache, files: seq<Manifest>)
    ensures Bytes(sizeOf, Loadable(c, files[|files|..])) == 0
  {
  }

  lemma NoTwins(c: Cache)
    requires c.latest == map[]
    ensures Twins(c.latest)
  {
  }

  /** Loading manifests of distinct urls leaves `latest` paired. */
  lemma {:induction false} LoadKeepsTwins(c: Cache, credits: multiset<Manifest>, files: seq<Manifest>)
    requires Inv(c, credits) && AllWellFormed(files) && DistinctUrls(files) && Twins(c.latest)
    requires forall m | m in files && m.Latest() :: m.url !in c.latest
    ensures Twins(LoadFiles(c, files).0.latest)
    decreases |files|
  {
    hide Manifest.WellFormed, Manifest.Latest, Manifest.Blobs, Inv, Owed, FromUrl, Add, Twins;
    if files != [] {
      var m, rest := files[0], files[1..];
      ParsesWell(m);
      assert forall i, j | 0 <= i < j < |rest| :: rest[i] == files[i + 1] && rest[j] == files[j + 1];
      if CanAdd(c, m) {
        var pr := FromUrl(m.url).value;
        AddKeeps(c, credits, pr, m);
        KeysOfInv(c, credits);
        AddKeepsTwinsIff(c, pr, m);
        forall n | n in rest && n.Latest() ensures n.url !in Add(c, pr, m).0.latest {
          var i :| 0 <= i < |rest| && rest[i] == n;
          assert files[i + 1] == n;
          AddedLatest(c, pr, m, n.url);
          LatestUrlIsNoAlias(n, m);
        }
        LoadKeepsTwins(Add(c, pr, m).0, credits + Credit(m), rest);
      } else {
        LoadKeepsTwins(c, credits, rest);
      }
    }
  }

  lemma AddedLatest(c: Cache, pr: PullRequest, m: Manifest, k: string)
    requires Requests(pr, m)
    ensures k in Add(c, pr, m).0.latest ==> k in c.latest || k == m.url || k == m.Alias()
  {
    hide FromUrl, PullRequest.Url, PullRequest.UrlWithDigest, PullRequest.IsLatest, Manifest.WellFormed, Manifest.Alias,
         Manifest.Latest, AddBlobs;
    NamesAgree(pr, m);
  }

  /** The matching primary entries among the given keys. */
  ghost function MatchesIn(entries: map<string, Manifest>, keys: set<string>, comparer: Manifest -> bool): set<Manifest>
  {
    set k | k in keys && Primary(entries, k) && comparer(entries[k]) :: entries[k]
  }

  ghost function Matching(c: Cache, comparer: Manifest -> bool): set<Manifest> {
    MatchesIn(c.manifests, c.manifests.Keys, comparer) + MatchesIn(c.latest, c.latest.Keys, comparer)
  }

  /** The manifests that match are the primary entries that the comparer accepts. */
  lemma MatchingIff(c: Cache, comparer: Manifest -> bool, m: Manifest)
    ensures m in Matching(c, comparer) <==> CachedAt(c, m) && comparer(m)
  {
  }

  /** The part of the selection that is taken from one of the two maps, after `before` matches. */
  method SelectFrom(entries: map<string, Manifest>, comparer: Manifest -> bool, count: int, before: nat)
    returns (mhs: seq<Manifest>, stopped: bool)
    requires count != NO_LIMIT && before > 0 ==> before <= count
    ensures DistinctUrls(mhs) && forall m | m in mhs :: m in MatchesIn(entries, entries.Keys, comparer)
    ensures var n := |MatchesIn(entries, entries.Keys, comparer)|;
            if stopped then count != NO_LIMIT && |mhs| < n && before + |mhs| == if count < 0 then 0 else count
            else |mhs| == n && (count != NO_LIMIT && n > 0 ==> before + n <= count)
  {
    hide MatchesIn;
    mhs := [];
    var todo, matches := entries.Keys, before;
    ghost var seen: set<Manifest> := {};
    NoMatches(entries, comparer);
    while todo != {}
      invariant todo <= entries.Keys && seen == MatchesIn(entries, entries.Keys - todo, comparer)
      invariant |mhs| == |seen| && matches == before + |mhs|
      invariant forall m :: m in mhs <==> m in seen
      invariant DistinctUrls(mhs)
      invariant count != NO_LIMIT && matches > 0 ==> matches <= count
    {
      var url :| url in todo;
      var m := entries[url];
      MatchesGrow(entries, todo, url, comparer);
      todo := todo - {url};
      if url == m.url && comparer(m) {
        matches := matches + 1;
        if count != NO_LIMIT && matches > count {
          SubsetSize(seen + {m}, MatchesIn(entries, entries.Keys, comparer));
          return mhs, true;
        }
        mhs := mhs + [m];
        seen := seen + {m};
      }
    }
    assert entries.Keys - {} == entries.Keys;
    return mhs, false;
  }

  lemma NoMatches(entries: map<string, Manifest>, comparer: Manifest -> bool)
    ensures MatchesIn(entries, entries.Keys - entries.Keys, comparer) == {}
  {
  }

  /** One more key adds the entry under it if that is primary and matches. */
  lemma MatchesGrow(entries: map<string, Manifest>, todo: set<string>, url: string, comparer: Manifest -> bool)
    requires url in todo && todo <= entries.Keys
    ensures var seen, m := MatchesIn(entries, entries.Keys - todo, comparer), entries[url];
            && MatchesIn(entries, entries.Keys - (todo - {url}), comparer)
               == seen + (if url == m.url && comparer(m) then {m} else {})
            && seen <= MatchesIn(entries, entries.Keys, comparer)
            && (url == m.url && comparer(m) ==>
                  m !in seen && m in MatchesIn(entries, entries.Keys, comparer) && forall n | n in seen :: n.url != url)
  {
  }

  /** What is selected is well formed, and each selected image manifest has its own credit. */
  lemma SelectedHold(c: Cache, credits: multiset<Manifest>, comparer: Manifest -> bool, mhs: seq<Manifest>)
    requires Inv(c, credits) && forall m | m in mhs :: m in Matching(c, comparer)
    ensures forall m | m in mhs :: m.WellFormed() && (m.image ==> m.Core() in credits)
  {
    hide Manifest.WellFormed, Manifest.Alias, Manifest.Latest, Sound, Owed;
    forall m | m in mhs ensures m.WellFormed() && (m.image ==> m.Core() in credits) {
      PrimaryHasCredit(c, credits, m.url);
    }
  }

  /** The credit of a manifest that has not been pruned yet is still there. */
  lemma {:induction false} NotInBag(mhs: seq<Manifest>, i: nat, m: Manifest)
    requires i <= |mhs| && forall j | 0 <= j < i :: mhs[j].url != m.url
    ensures Bag(mhs[..i])[m.Core()] == 0
    decreases i
  {
    if i == 0 {
      EmptyBag();
      assert mhs[..0] == [];
    } else {
      BagGrows(mhs, i - 1);
      NotInBag(mhs, i - 1, m);
      assert mhs[i - 1].Core().url != m.Core().url;
    }
  }

  lemma StillHeld(held: multiset<Manifest>, mhs: seq<Manifest>, i: nat)
    requires i < |mhs| && DistinctUrls(mhs)
    requires mhs[i].image ==> mhs[i].Core() in held
    ensures mhs[i].image ==> mhs[i].Core() in held - Bag(mhs[..i])
    ensures held - Bag(mhs[..i + 1]) == held - Bag(mhs[..i]) - Credit(mhs[i])
  {
    NotInBag(mhs, i, mhs[i]);
    BagGrows(mhs, i);
  }

  /** Where a pass stands after it has pruned the first `i` of the manifests that it selected. */
  ghost predicate PartlyPruned(before: Cache, held: multiset<Manifest>, comparer: Manifest -> bool,
                               toPrune: seq<Manifest>, i: nat, c: Cache, credits: multiset<Manifest>) {
    && i <= |toPrune| && Inv(before, held) && Inv(c, credits) && credits == held - Bag(toPrune[..i])
    && DistinctUrls(toPrune) && (forall m | m in toPrune :: m in Matching(before, comparer))
    && Matching(c, comparer) <= Matching(before, comparer) - (set m | m in toPrune[..i])
    && (Twins(before.latest) ==> Twins(c.latest))
    && (forall k | k in c.latest :: k in before.latest && c.latest[k] == before.latest[k])
  }

  lemma NothingPruned(c: Cache, credits: multiset<Manifest>, comparer: Manifest -> bool, toPrune: seq<Manifest>)
    requires Inv(c, credits) && DistinctUrls(toPrune) && forall m | m in toPrune :: m in Matching(c, comparer)
    ensures PartlyPruned(c, credits, comparer, toPrune, 0, c, credits)
  {
    hide Inv, Matching, Twins;
    EmptyBag();
    assert toPrune[..0] == [] && credits - multiset{} == credits;
  }

  lemma PruneOneMore(before: Cache, held: multiset<Manifest>, comparer: Manifest -> bool, toPrune: seq<Manifest>,
                     i: nat, c: Cache, credits: multiset<Manifest>)
    requires PartlyPruned(before, held, comparer, toPrune, i, c, credits) && i < |toPrune|
    ensures var m := toPrune[i];
            && m.WellFormed() && (m.image ==> m.Core() in credits)
            && PartlyPruned(before, held, comparer, toPrune, i + 1, CacheState.Prune(c, m), credits - Credit(m))
  {
    hide Inv, Matching, Twins, Manifest.WellFormed, CacheState.Prune, Bag, Credit;
    var m := toPrune[i];
    SelectedHold(before, held, comparer, toPrune);
    StillHeld(held, toPrune, i);
    PruneShrinks(c, credits, m, comparer);
    SelectedIs(before, held, comparer, m);
    PruneKeepsPairs(c, credits, m);
    ParsesWell(m);
    PruneKeeps(c, credits, FromUrl(m.url).value, m);
    assert forall n :: n in toPrune[..i + 1] <==> n in toPrune[..i] || n == m;
  }

  lemma AllPruned(before: Cache, held: multiset<Manifest>, comparer: Manifest -> bool, toPrune: seq<Manifest>,
                  c: Cache, credits: multiset<Manifest>)
    requires PartlyPruned(before, held, comparer, toPrune, |toPrune|, c, credits)
    ensures credits == held - Bag(toPrune) && (Twins(before.latest) ==> Twins(c.latest))
    ensures Matching(c, comparer) <= Matching(before, comparer) - set m | m in toPrune
  {
    hide Inv, Matching, Twins;
    assert toPrune[..|toPrune|] == toPrune;
  }

  /** Pruning a manifest adds no primary entry and removes its own. */
  lemma PruneShrinks(c: Cache, credits: multiset<Manifest>, m: Manifest, comparer: Manifest -> bool)
    requires Inv(c, credits) && m.WellFormed()
    ensures Matching(CacheState.Prune(c, m), comparer) <= Matching(c, comparer) - {m}
  {
    hide Manifest.WellFormed, Manifest.Alias, Manifest.Latest, Sound, Owed, CacheState.RmManifest, BlobStores.RmBlobs,
         FromUrl, ManifestKeys, LatestKeys;
    ParsesWell(m);
    RmManifestKeys(c, FromUrl(m.url).value, m);
    UrlPlace(c, m);
  }

  ghost predicate TakesAll(comparer: Manifest -> bool) {
    forall m: Manifest :: comparer(m)
  }

  lemma AllMatch(c: Cache, comparer: Manifest -> bool)
    requires TakesAll(comparer)
    ensures PrimaryImages(c) <= Matching(c, comparer)
  {
  }

  /** A pass over everything gives back all credits, if these are those of the cached images. */
  lemma SweptClean(before: Cache, held: multiset<Manifest>, comparer: Manifest -> bool, toPrune: seq<Manifest>,
                   c: Cache, credits: multiset<Manifest>)
    requires Inv(c, credits) && credits == held - Bag(toPrune)
    requires Matching(before, comparer) - (set m | m in toPrune) == {}
    ensures TakesAll(comparer) && Exact(before, held) ==> credits == multiset{} && c.store.counts == map[]
  {
    hide Inv, Matching, Bag, TakesAll, Exact;
    if TakesAll(comparer) && Exact(before, held) {
      AllMatch(before, comparer);
      forall n | n in PrimaryImages(before) ensures n in toPrune {
        assert n in Matching(before, comparer) - (set m | m in toPrune) || n in set m | m in toPrune;
      }
      SweepLeavesNothing(before, held, toPrune);
      NothingCounted(c);
    }
  }

  lemma AllSelected(all: set<Manifest>, mhs: seq<Manifest>)
    requires DistinctUrls(mhs) && |mhs| == |all| && forall m | m in mhs :: m in all
    ensures all - (set m | m in mhs) == {}
  {
    SeqSize(mhs);
    var chosen := set m | m in mhs;
    assert chosen <= all;
    SubsetSize(all - chosen, all);
    assert |all - chosen| == |all| - |chosen|;
  }

  lemma {:induction false} SeqSize(mhs: seq<Manifest>)
    requires DistinctUrls(mhs)
    ensures |set m | m in mhs| == |mhs|
  {
    if mhs != [] {
      var last, front := mhs[|mhs| - 1], mhs[..|mhs| - 1];
      SeqSize(front);
      assert (set m | m in mhs) == (set m | m in front) + {last};
      assert last !in front;
    }
  }

  lemma UrlsApart(c: Cache, comparer: Manifest -> bool)
    requires KeysOk(c)
    ensures var a := MatchesIn(c.manifests, c.manifests.Keys, comparer);
            var b := MatchesIn(c.latest, c.latest.Keys, comparer);
            && (forall m, n | m in a && n in b :: m.url != n.url)
            && |a + b| == |a| + |b|
  {
    var a, b := MatchesIn(c.manifests, c.manifests.Keys, comparer), MatchesIn(c.latest, c.latest.Keys, comparer);
    forall m, n | m in a && n in b ensures m.url != n.url {
      KeyPlace(c, m.url);
    }
    assert a !! b;
  }

  lemma {:induction false} SubsetSize<T>(a: set<T>, b: set<T>)
    requires a <= b
    ensures |a| <= |b|
  {
    if a != {} {
      var x :| x in a;
      SubsetSize(a - {x}, b - {x});
    }
  }

  lemma SameWalk(c: Cache, c': Cache, files: seq<Manifest>)
    requires Walk(c, files) && c.img == c'.img && c.lts == c'.lts
    ensures Walk(c', files)
  {
  }

  lemma SameCanAdd(c: Cache, c': Cache, m: Manifest)
    requires c.store.files == c'.store.files
    ensures CanAdd(c, m) <==> CanAdd(c', m)
    ensures CanAdd(c, m) <==> BlobsOnDisk(c, m)
  {
  }

  /** A selected `latest` manifest is the one cached under its url. */
  lemma SelectedIs(c: Cache, credits: multiset<Manifest>, comparer: Manifest -> bool, m: Manifest)
    requires Inv(c, credits) && m in Matching(c, comparer)
    ensures m.Latest() && m.url in c.latest ==> c.latest[m.url] == m
  {
    hide Manifest.WellFormed, Manifest.Alias, Manifest.Latest, Sound, Owed;
    if m in MatchesIn(c.manifests, c.manifests.Keys, comparer) {
      var k :| Primary(c.manifests, k) && c.manifests[k] == m;
      if m.Latest() { LatestUrlIsNoAlias(m, m); }
    }
  }

  lemma PruneKeepsPairs(c: Cache, credits: multiset<Manifest>, m: Manifest)
    requires Inv(c, credits) && m.WellFormed()
    requires m.Latest() && m.url in c.latest ==> c.latest[m.url] == m
    ensures Twins(c.latest) ==> Twins(CacheState.Prune(c, m).latest)
    ensures var after := CacheState.Prune(c, m).latest;
            forall k | k in after :: k in c.latest && after[k] == c.latest[k]
  {
    hide Manifest.WellFormed, Manifest.Alias, Manifest.Latest, Sound, Owed, CacheState.RmManifest, BlobStores.RmBlobs,
         FromUrl, ManifestKeys, LatestKeys, Twins;
    ParsesWell(m);
    RmManifestKeys(c, FromUrl(m.url).value, m);
    if Twins(c.latest) { PruneKeepsTwinsIff(c, FromUrl(m.url).value, m); }
  }
}
