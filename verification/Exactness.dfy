/** When what is counted, and what is on disk, is what is cached. */
module Exactness {
  import opened Text
  import opened PullRequests
  import opened Manifests
  import opened BlobStores
  import opened CacheState
  import opened CacheLaws
  import opened Recovery

  /** The manifest is a primary entry. */
  ghost predicate CachedAt(c: Cache, m: Manifest) {
    (m.url in c.manifests && c.manifests[m.url] == m) || (m.url in c.latest && c.latest[m.url] == m)
  }

  ghost function PrimaryImages(c: Cache): set<Manifest> {
    set m | m in c.manifests.Values + c.latest.Values && m.image && CachedAt(c, m)
  }

  /** Every cached image has been added once since it was last removed, and nothing else holds a credit. */
  ghost predicate Exact(c: Cache, credits: multiset<Manifest>) {
    credits == ImageCores(PrimaryImages(c))
  }

  /** The primary entry of `n` is under a key that an add or a removal of `m` touches. */
  predicate Displaces(m: Manifest, n: Manifest) {
    n.url == m.url || (!m.Latest() && n.url == m.Alias())
  }

  lemma PrimaryImage(c: Cache, m: Manifest)
    ensures m in PrimaryImages(c) <==> m.image && CachedAt(c, m)
  {
  }

  /** The class of a primary entry decides in which map it is. */
  lemma CachedPlace(c: Cache, n: Manifest)
    requires KeysOk(c)
    ensures CachedAt(c, n) ==>
              && n.WellFormed()
              && (n.Latest() <==> n.url in c.latest && c.latest[n.url] == n)
              && (!n.Latest() <==> n.url in c.manifests && c.manifests[n.url] == n)
  {
    hide FromUrl, Manifest.WellFormed, Manifest.Alias, Manifest.Latest, Manifest.IsLatest;
    if CachedAt(c, n) { UrlPlace(c, n); }
  }

  /** A key that an add or a removal of `m` touches is a primary key of its own class only. */
  lemma DisplacedClass(m: Manifest, n: Manifest)
    requires m.WellFormed() && n.WellFormed()
    ensures Displaces(m, n) ==> n.Latest() == m.Latest()
    ensures m.Latest() && n.Latest() ==> n.url != m.Alias()
  {
    hide FromUrl, PullRequest.IsLatest, PullRequest.Url, PullRequest.UrlWithDigest, Manifest.WellFormed, Manifest.Alias,
         Manifest.Latest, Manifest.IsLatest;
    KeysParse(m);
    KeysParse(n);
  }

  lemma AddedIsCached(c: Cache, pr: PullRequest, m: Manifest, n: Manifest)
    requires KeysOk(c) && Requests(pr, m)
    ensures CachedAt(Add(c, pr, m).0, n) <==> n == m || (CachedAt(c, n) && !Displaces(m, n))
  {
    hide FromUrl, PullRequest.Url, PullRequest.UrlWithDigest, PullRequest.IsLatest, Manifest.WellFormed, Manifest.Alias,
         Manifest.Latest, AddBlobs, ManifestKeys, LatestKeys, AddManifest;
    AddManifestMaps(c, pr, m);
    CachedPlace(c, n);
    if CachedAt(c, n) { DisplacedClass(m, n); }
  }

  lemma PrunedIsCached(c: Cache, pr: PullRequest, m: Manifest, n: Manifest)
    requires KeysOk(c) && Requests(pr, m)
    ensures CachedAt(Prune(c, m), n) <==> CachedAt(c, n) && !Displaces(m, n)
  {
    hide FromUrl, PullRequest.Url, PullRequest.UrlWithDigest, PullRequest.IsLatest, Manifest.WellFormed, Manifest.Alias,
         Manifest.Latest, RmBlobs, ManifestKeys, LatestKeys, RmManifest;
    RmManifestKeys(c, pr, m);
    CachedPlace(c, n);
    if CachedAt(c, n) { DisplacedClass(m, n); }
  }

  lemma CoreTells(c: Cache, m: Manifest, n: Manifest)
    requires KeysOk(c) && CachedAt(c, m) && CachedAt(c, n)
    ensures m.Core() == n.Core() ==> m == n
  {
    hide FromUrl, Manifest.WellFormed, Manifest.Latest, Manifest.IsLatest, Manifest.Alias;
    CachedPlace(c, m);
    CachedPlace(c, n);
    CoreSame(m);
    CoreSame(n);
  }

  lemma CoreCount(c: Cache, core: Manifest)
    ensures ImageCores(PrimaryImages(c))[core] <= 1
    ensures core in ImageCores(PrimaryImages(c)) <==> exists n :: n in PrimaryImages(c) && n.Core() == core
  {
    hide PrimaryImages, Manifest.Core;
    forall n | n in PrimaryImages(c) ensures n.image { PrimaryImage(c, n); }
  }

  ghost function Spared(m: Manifest, images: set<Manifest>): set<Manifest> {
    set n | n in images && !Displaces(m, n)
  }

  lemma AddedImages(c: Cache, pr: PullRequest, m: Manifest)
    requires KeysOk(c) && Requests(pr, m)
    ensures PrimaryImages(Add(c, pr, m).0) == Spared(m, PrimaryImages(c)) + if m.image then {m} else {}
  {
    hide KeysOk, Requests, Add, PrimaryImages, Displaces, CachedAt;
    var after := PrimaryImages(Add(c, pr, m).0);
    forall n ensures n in after <==> n in Spared(m, PrimaryImages(c)) + if m.image then {m} else {} {
      PrimaryImage(c, n);
      PrimaryImage(Add(c, pr, m).0, n);
      AddedIsCached(c, pr, m, n);
    }
  }

  lemma PrunedImages(c: Cache, pr: PullRequest, m: Manifest)
    requires KeysOk(c) && Requests(pr, m)
    ensures PrimaryImages(Prune(c, m)) == Spared(m, PrimaryImages(c))
  {
    hide KeysOk, Requests, Prune, PrimaryImages, Displaces, CachedAt;
    var after := PrimaryImages(Prune(c, m));
    forall n ensures n in after <==> n in Spared(m, PrimaryImages(c)) {
      PrimaryImage(c, n);
      PrimaryImage(Prune(c, m), n);
      PrunedIsCached(c, pr, m, n);
    }
  }

  lemma CoreDisplaced(m: Manifest, n: Manifest)
    ensures m.Core() == n.Core() ==> m.image == n.image && Displaces(m, n)
  {
    assert m.Core().url == m.url && m.Core().image == m.image;
  }

  /** An add keeps one credit for each cached image exactly when it displaces none. */
  lemma AddKeepsExactIff(c: Cache, credits: multiset<Manifest>, pr: PullRequest, m: Manifest)
    requires KeysOk(c) && Requests(pr, m) && Exact(c, credits)
    ensures Exact(Add(c, pr, m).0, credits + Credit(m)) <==> forall n | n in PrimaryImages(c) :: !Displaces(m, n)
  {
    hide KeysOk, Requests, Add, PrimaryImages, ImageCores, Manifest.Core, Displaces, CachedAt;
    var c', images := Add(c, pr, m).0, PrimaryImages(c);
    AddedImages(c, pr, m);
    if n :| n in images && Displaces(m, n) {
      CoreCount(c, n.Core());
      CoreCount(c', n.Core());
      SparedCores(c, m, n);
      PrimaryImage(c, n);
    } else {
      assert Spared(m, images) == images;
      forall n | n in images ensures n.Core() != m.Core() { CoreDisplaced(m, n); }
      CoresGrow(images, m);
      assert images + {} == images;
    }
  }

  /** No image that stays has the core of one that goes. */
  lemma SparedCores(c: Cache, m: Manifest, n: Manifest)
    requires KeysOk(c) && n in PrimaryImages(c) && Displaces(m, n)
    ensures forall k | k in Spared(m, PrimaryImages(c)) :: k.Core() != n.Core()
  {
    hide KeysOk, PrimaryImages, Manifest.Core, Displaces, CachedAt;
    forall k | k in Spared(m, PrimaryImages(c)) ensures k.Core() != n.Core() {
      PrimaryImage(c, k);
      PrimaryImage(c, n);
      CoreTells(c, k, n);
    }
  }

  /** A prune keeps one credit for each cached image exactly when it displaces no image but the pruned one. */
  lemma PruneKeepsExactIff(c: Cache, credits: multiset<Manifest>, pr: PullRequest, m: Manifest)
    requires KeysOk(c) && Requests(pr, m) && Exact(c, credits)
    ensures Exact(Prune(c, m), credits - Credit(m))
       <==> forall n | n in PrimaryImages(c) && Displaces(m, n) :: n.Core() == m.Core()
  {
    hide KeysOk, Requests, Prune, PrimaryImages, ImageCores, Manifest.Core, Displaces, CachedAt;
    var c', images := Prune(c, m), PrimaryImages(c);
    PrunedImages(c, pr, m);
    if n :| n in images && Displaces(m, n) && n.Core() != m.Core() {
      CoreCount(c, n.Core());
      CoreCount(c', n.Core());
      SparedCores(c, m, n);
    } else {
      forall core ensures (credits - Credit(m))[core] == ImageCores(PrimaryImages(c'))[core] {
        CoreCount(c, core);
        CoreCount(c', core);
        SparedBut(c, m, core);
      }
    }
  }

  lemma SparedBut(c: Cache, m: Manifest, core: Manifest)
    requires forall n | n in PrimaryImages(c) && Displaces(m, n) :: n.Core() == m.Core()
    ensures (exists n :: n in Spared(m, PrimaryImages(c)) && n.Core() == core)
       <==> (exists n :: n in PrimaryImages(c) && n.Core() == core) && !(m.image && core == m.Core())
  {
    hide PrimaryImages, Manifest.Core, Displaces;
    var images := PrimaryImages(c);
    if n :| n in images && n.Core() == core {
      PrimaryImage(c, n);
      CoreDisplaced(m, n);
    }
    forall n | n in Spared(m, images) ensures n.Core() != m.Core() { CoreDisplaced(m, n); }
  }

  lemma SameImages(c: Cache, c': Cache)
    requires c.manifests == c'.manifests && c.latest == c'.latest
    ensures PrimaryImages(c) == PrimaryImages(c')
  {
    forall n ensures n in PrimaryImages(c) <==> n in PrimaryImages(c') {
      PrimaryImage(c, n);
      PrimaryImage(c', n);
    }
  }

  lemma ReplacedMaps(c: Cache, pr: PullRequest, m: Manifest)
    requires KeysOk(c) && Requests(pr, m) && FromCache(c, m.url).Some? && FromCache(c, m.url).value.digest != m.digest
    ensures var twice := Add(Prune(c, FromCache(c, m.url).value), pr, m).0;
            Replace(c, pr, m).0.manifests == twice.manifests && Replace(c, pr, m).0.latest == twice.latest
  {
    hide FromUrl, PullRequest.Url, PullRequest.UrlWithDigest, PullRequest.IsLatest, Manifest.WellFormed, Manifest.Alias,
         Manifest.Latest, AddBlobs, RmBlobs, ManifestKeys, LatestKeys, RmManifest;
    NamesAgree(pr, m);
  }

  /** A primary entry of a `latest` url is the only one that an operation on the url displaces. */
  lemma DisplacedLatest(c: Cache, pr: PullRequest, m: Manifest, n: Manifest)
    requires KeysOk(c) && Requests(pr, m) && pr.IsLatest() && CachedAt(c, n) && Displaces(m, n)
    ensures n.url == m.url && FromCache(c, m.url) == Some(n)
  {
    hide FromUrl, PullRequest.Url, PullRequest.UrlWithDigest, PullRequest.IsLatest, Manifest.WellFormed, Manifest.Alias,
         Manifest.Latest;
    NamesAgree(pr, m);
    CachedPlace(c, n);
    DisplacedClass(m, n);
    ReplacedIsPrimary(c, pr, m);
  }

  /** A forced pull always keeps one credit for each cached image. */
  lemma ReplaceKeepsExact(c: Cache, credits: multiset<Manifest>, pr: PullRequest, m: Manifest)
    requires KeysOk(c) && Requests(pr, m) && pr.IsLatest() && Exact(c, credits)
    ensures Exact(Replace(c, pr, m).0, ReplacedCredits(c, credits, m))
  {
    hide FromUrl, PullRequest.Url, PullRequest.IsLatest, Manifest.WellFormed, Manifest.Latest, ManifestKeys, LatestKeys,
         Add, Prune, PrimaryImages, ImageCores, Displaces, CachedAt, FromCache;
    NamesAgree(pr, m);
    forall n | n in PrimaryImages(c) && Displaces(m, n) ensures FromCache(c, m.url) == Some(n) {
      PrimaryImage(c, n);
      DisplacedLatest(c, pr, m, n);
    }
    match FromCache(c, m.url) {
      case None => AddKeepsExactIff(c, credits, pr, m);
      case Some(was) =>
        if was.digest != m.digest {
          ReplacedIsPrimary(c, pr, m);
          SwapKeepsExact(c, credits, pr, m, was);
          ReplacedMaps(c, pr, m);
          SameImages(Replace(c, pr, m).0, Add(Prune(c, was), pr, m).0);
          SwapCredits(credits, m, was);
        }
    }
  }

  lemma SwapKeepsExact(c: Cache, credits: multiset<Manifest>, pr: PullRequest, m: Manifest, was: Manifest)
    requires KeysOk(c) && Requests(pr, m) && Requests(pr, was) && pr.IsLatest() && Exact(c, credits)
    requires FromCache(c, m.url) == Some(was)
    ensures Exact(Add(Prune(c, was), pr, m).0, credits - Credit(was) + Credit(m))
  {
    hide FromUrl, PullRequest.Url, PullRequest.IsLatest, Manifest.WellFormed, Manifest.Latest, ManifestKeys, LatestKeys,
         Add, Prune, PrimaryImages, ImageCores, Displaces, CachedAt, FromCache;
    NamesAgree(pr, m);
    NamesAgree(pr, was);
    forall n | n in PrimaryImages(c) && Displaces(was, n) ensures n.Core() == was.Core() {
      PrimaryImage(c, n);
      DisplacedLatest(c, pr, was, n);
    }
    PruneKeepsExactIff(c, credits, pr, was);
    PrunedKeys(c, pr, was);
    forall n | n in PrimaryImages(Prune(c, was)) ensures !Displaces(m, n) {
      PrimaryImage(Prune(c, was), n);
      PrunedIsCached(c, pr, was, n);
      SameDisplaced(pr, m, was, n);
    }
    AddKeepsExactIff(Prune(c, was), credits - Credit(was), pr, m);
  }

  lemma PrunedKeys(c: Cache, pr: PullRequest, m: Manifest)
    requires KeysOk(c) && Requests(pr, m)
    ensures KeysOk(Prune(c, m))
  {
    hide FromUrl, PullRequest.Url, PullRequest.UrlWithDigest, PullRequest.IsLatest, Manifest.WellFormed, Manifest.Alias,
         Manifest.Latest, RmBlobs, RmManifest;
    RmManifestKeys(c, pr, m);
  }

  lemma SameDisplaced(pr: PullRequest, m: Manifest, was: Manifest, n: Manifest)
    requires Requests(pr, m) && Requests(pr, was) && pr.IsLatest()
    ensures Displaces(m, n) <==> Displaces(was, n)
  {
    hide FromUrl, PullRequest.Url, PullRequest.IsLatest, Manifest.WellFormed, Manifest.Latest, Manifest.Alias;
    NamesAgree(pr, m);
    NamesAgree(pr, was);
  }

  /** So does a read: it stamps an entry, and what it copies to the other map is no primary entry. */
  lemma GetKeepsExact(c: Cache, credits: multiset<Manifest>, pr: PullRequest, now: string)
    requires KeysOk(c) && pr.WellFormed() && Exact(c, credits)
    ensures Exact(Get(c, pr, now).0, credits)
  {
    hide KeysOk, PullRequest.WellFormed, Get, PrimaryImages, ImageCores, Manifest.Core;
    var c' := Get(c, pr, now).0;
    forall core ensures ImageCores(PrimaryImages(c'))[core] == ImageCores(PrimaryImages(c))[core] {
      CoreCount(c, core);
      CoreCount(c', core);
      ReadCores(c, pr, now, core);
    }
  }

  lemma ReadCores(c: Cache, pr: PullRequest, now: string, core: Manifest)
    requires KeysOk(c) && pr.WellFormed()
    ensures (exists n :: n in PrimaryImages(Get(c, pr, now).0) && n.Core() == core)
       <==> (exists n :: n in PrimaryImages(c) && n.Core() == core)
  {
    hide KeysOk, PullRequest.WellFormed, Get, PrimaryImages, CachedAt;
    var c' := Get(c, pr, now).0;
    if n :| n in PrimaryImages(c) && n.Core() == core {
      PrimaryImage(c, n);
      var k := ReadStamps(c, pr, now, n);
      PrimaryImage(c', k);
    }
    if n :| n in PrimaryImages(c') && n.Core() == core {
      PrimaryImage(c', n);
      var k := ReadStamped(c, pr, now, n);
      PrimaryImage(c, k);
    }
  }

  lemma ReadStamps(c: Cache, pr: PullRequest, now: string, n: Manifest) returns (k: Manifest)
    requires KeysOk(c) && pr.WellFormed() && CachedAt(c, n)
    ensures CachedAt(Get(c, pr, now).0, k) && k.Core() == n.Core() && k.image == n.image
  {
    hide FromUrl, PullRequest.WellFormed, PullRequest.IsLatest, PullRequest.Url, Manifest.WellFormed, Manifest.Alias,
         Manifest.Latest, ServedKey, Get, ManifestKeys, LatestKeys;
    GetShape(c, pr, now);
    CachedPlace(c, n);
    k := if CachedAt(Get(c, pr, now).0, n) then n else n.(pulled := now);
  }

  lemma ReadStamped(c: Cache, pr: PullRequest, now: string, n: Manifest) returns (k: Manifest)
    requires KeysOk(c) && pr.WellFormed() && CachedAt(Get(c, pr, now).0, n)
    ensures CachedAt(c, k) && k.Core() == n.Core() && k.image == n.image
  {
    hide FromUrl, PullRequest.WellFormed, PullRequest.IsLatest, PullRequest.Url, Manifest.WellFormed, Manifest.Alias,
         Manifest.Latest, ServedKey, Get, ManifestKeys, LatestKeys;
    GetShape(c, pr, now);
    k := if CachedAt(c, n) then n else FromCache(c, ServedKey(c, pr)).value;
  }

  /** A restart from a disk on which no url occurs twice begins with one credit for each cached image. */
  lemma RestartedExact(c: Cache, files: seq<Manifest>)
    requires DiskOk(c) && Walk(c, files) && DistinctUrls(files)
    ensures var c' := LoadFiles(Restart(c), files).0;
            Inv(c', ImageCores(PrimaryImages(c')))
  {
    hide DiskOk, Walk, Inv, HasBlobs, Manifest.WellFormed, Manifest.Latest;
    RestartIsExact(c, files);
    var c', served := LoadFiles(Restart(c), files).0, set m | m in files && CanAdd(c, m);
    forall n ensures n in PrimaryImages(c') <==> n.image && n in served { PrimaryImage(c', n); }
    assert (set m | m in served && m.image :: m.Core()) == set m | m in PrimaryImages(c') && m.image :: m.Core();
  }

  // ---------------------------------------------------------------- what exact credits are good for

  /** A blob is counted exactly when some cached image references it: nothing is kept for nobody. */
  lemma ExactCountsIff(c: Cache, credits: multiset<Manifest>, d: string)
    requires Inv(c, credits) && Exact(c, credits)
    ensures d in c.store.counts <==> exists n :: n in PrimaryImages(c) && d in n.Blobs()
  {
    hide Owed, KeysOk, Backed, PrimaryImages, ImageCores, Manifest.Blobs, Manifest.Core;
    CountIs(c, credits, d);
    OwedIff(credits, d);
    forall n | n in PrimaryImages(c) ensures n.Core() in credits && (d in n.Core().Refs() <==> d in n.Blobs()) {
      PrimaryImage(c, n);
      CoreCount(c, n.Core());
      CoreSame(n);
    }
    forall core | core in credits ensures exists n :: n in PrimaryImages(c) && n.Core() == core {
      CoreCount(c, core);
    }
  }

  lemma {:induction false} BagHas(todo: seq<Manifest>, n: Manifest)
    requires n in todo && n.image
    ensures n.Core() in Bag(todo)
    decreases |todo|
  {
    if n != todo[0] { BagHas(todo[1..], n); }
  }

  /** A pass that selects every cached image gives all credits back. */
  lemma SweepLeavesNothing(c: Cache, credits: multiset<Manifest>, selected: seq<Manifest>)
    requires Exact(c, credits) && forall n | n in PrimaryImages(c) :: n in selected
    ensures credits - Bag(selected) == multiset{}
  {
    hide PrimaryImages, ImageCores, Bag, Manifest.Core;
    forall core ensures credits[core] <= Bag(selected)[core] {
      CoreCount(c, core);
      if n :| n in PrimaryImages(c) && n.Core() == core {
        PrimaryImage(c, n);
        BagHas(selected, n);
      }
    }
  }

  // ---------------------------------------------------------------- a tag pulled after its digest

  lemma ByDigestImageOk(pr: PullRequest, m: Manifest)
    requires Requests(pr, m)
    ensures var n := m.(url := m.Alias());
            && Requests(ByDigestRequest(pr, m), n) && n.Alias() == m.Alias() && !n.Latest()
            && n.Blobs() == m.Blobs()
  {
    ByDigestOk(pr, m);
    RoundTripIff(ByDigestRequest(pr, m));
    assert m.(url := m.Alias()).Blobs() == m.Blobs();
  }

  /** An image pulled by digest and then by tag: the tag takes over the digest key, so once the tag is
      pruned nothing is cached, and its layer stays counted and on disk. */
  lemma TagAfterDigestExample()
    ensures var pr, m := ExampleRequest('a'), ExampleImage('a');
            var n := m.(url := m.Alias());
            var both := Add(Add(DISK, ByDigestRequest(pr, m), n).0, pr, m).0;
            var pruned := Prune(both, m);
            && Requests(ByDigestRequest(pr, m), n) && FromCache(Add(DISK, ByDigestRequest(pr, m), n).0, m.url).None?
            && pruned.manifests == map[] && pruned.latest == map[]
            && pruned.store.counts == map[LAYER := 1] && LAYER in pruned.store.files
  {
    hide FromUrl, PullRequest.Url, PullRequest.UrlWithDigest, PullRequest.IsLatest, Manifest.WellFormed, Manifest.Alias,
         Manifest.Latest, Manifest.Blobs, Owed, Backed, ManifestKeys, LatestKeys, Sound, AddBlobs, ExampleRequest,
         AddManifest, ByDigestRequest, Manifest.Core, RmManifest, RmBlobs;
    var pr, m := ExampleRequest('a'), ExampleImage('a');
    var n, q := m.(url := m.Alias()), ByDigestRequest(pr, m);
    ExampleImageOk('a');
    ByDigestImageOk(pr, m);
    EmptyInv();
    AddKeeps(DISK, multiset{}, q, n);
    AddManifestMaps(DISK, q, n);
    var first := Add(DISK, q, n).0;
    AddKeeps(first, multiset{} + Credit(n), pr, m);
    AddManifestMaps(first, pr, m);
    var both := Add(first, pr, m).0;
    PruneKeeps(both, multiset{} + Credit(n) + Credit(m), pr, m);
    RmManifestKeys(both, pr, m);
    assert multiset{} + Credit(n) + Credit(m) - Credit(m) == multiset{n.Core()};
    OneLayerCount(Prune(both, m), n);
    NamesAgree(pr, m);
    ByTagRequest('a');
    assert Prune(both, m).manifests == map[];
  }

  // ---------------------------------------------------------------- an image of two layers

  /** A server with nothing in memory over a directory of blobs. */
  function BlobsOnly(files: map<string, nat>): Cache {
    Cache(map[], map[], BlobStore(map[], files, 0, 0), map[], map[])
  }

  /** With its second layer missing an image is not loaded; with both layers there each is counted. */
  lemma TwoLayers(pr: PullRequest, m: Manifest, a: string, b: string)
    requires m.image && m.layers == [a, b] && IsDigest(a) && IsDigest(b) && a != b
    ensures m.Refs() == multiset{a, b}
    ensures !CanAdd(BlobsOnly(map[a := 1]), m) && CanAdd(BlobsOnly(map[a := 1, b := 2]), m)
    ensures var (added, ok) := Add(BlobsOnly(map[a := 1, b := 2]), pr, m);
            ok && added.store == BlobStore(map[a := 1, b := 1], map[a := 1, b := 2], 2, 3)
  {
    hide DigestFrom, AddManifest, AddBlobs;
    DigestClean(a);
    DigestClean(b);
    assert m.Blobs() == [a, b];
    assert multiset([a, b]) == multiset{a, b};
    assert m.Blobs()[0] == a && m.Blobs()[1] == b;
    assert b in m.Blobs() && b !in BlobsOnly(map[a := 1]).store.files;
    CountTwo(a, b);
    AddedStoreIs(BlobsOnly(map[a := 1, b := 2]), pr, m);
  }

  lemma CountTwo(a: string, b: string)
    requires a != b
    ensures var files := map[a := 1, b := 2];
            AddBlobs(BlobStore(map[], files, 0, 0), [a, b]) == (BlobStore(map[a := 1, b := 1], files, 2, 3), true)
  {
    var files := map[a := 1, b := 2];
    var none, one := BlobStore(map[], files, 0, 0), BlobStore(map[a := 1], files, 1, 1);
    var two := BlobStore(map[a := 1, b := 1], files, 2, 3);
    assert AddBlob(none, a) == (one, true);
    assert AddBlob(one, b) == (two, true);
    assert [a, b][1..] == [b] && [b][1..] == [];
    assert AddBlobs(two, []) == (two, true);
    assert AddBlobs(one, [b]) == AddBlobs(two, [b][1..]);
    assert AddBlobs(none, [a, b]) == AddBlobs(one, [a, b][1..]);
  }

  // ---------------------------------------------------------------- the manifest files

  /** The manifest file that belongs to the digest and the class of `n`. */
  predicate HasFile(c: Cache, n: Manifest) {
    if n.Latest() then n.digest in c.lts else n.digest in c.img
  }

  /** A prune removes `n` from memory and its file from disk under different conditions: the entry goes
      with its keys, the file with the digest. */
  lemma FileKeptIff(c: Cache, pr: PullRequest, m: Manifest, n: Manifest)
    requires KeysOk(c) && Requests(pr, m) && CachedAt(c, n) && HasFile(c, n)
    ensures CachedAt(Prune(c, m), n) <==> !Displaces(m, n)
    ensures HasFile(Prune(c, m), n) <==> n.Latest() != m.Latest() || n.digest != m.digest
  {
    hide FromUrl, PullRequest.Url, PullRequest.UrlWithDigest, PullRequest.IsLatest, Manifest.WellFormed, Manifest.Alias,
         Manifest.Latest, RmBlobs, ManifestKeys, LatestKeys, RmManifest, CachedAt, Displaces;
    PrunedIsCached(c, pr, m, n);
    RmManifestKeys(c, pr, m);
  }

  function SecondRequest(): PullRequest {
    ExampleRequest('a').(reference := "v2")
  }

  /** The example image under a second tag. */
  function SecondImage(): Manifest {
    ExampleImage('a').(url := SecondRequest().Url())
  }

  lemma SecondImageOk()
    ensures var m, n := ExampleImage('a'), SecondImage();
            && Requests(SecondRequest(), n) && !n.Latest() && n.Blobs() == [LAYER]
            && n.url != m.url && n.url != m.Alias() && n.digest == m.digest && n.image
  {
    hide FromUrl, PullRequest.Url, DigestFrom;
    ExampleImageOk('a');
    SecondRequestOk();
    RoundTripIff(SecondRequest());
    assert SecondImage().Blobs() == ExampleImage('a').Blobs();
    KeysParse(ExampleImage('a'));
    KeysParse(SecondImage());
    assert "v1"[1] != "v2"[1];
  }

  lemma SecondRequestOk()
    ensures SecondRequest().WellFormed() && !SecondRequest().IsLatest()
  {
    var pr := SecondRequest();
    assert pr.remote[1] == '.' && pr.reference[0] == 'v' && DIGEST_PREFIX[0] == 's';
    assert ToLower(pr.reference)[0] == 'v' && "latest"[0] == 'l';
  }

  lemma WrittenFile(c: Cache, pr: PullRequest, m: Manifest)
    requires Requests(pr, m) && !m.Latest()
    ensures Add(WriteManifest(c, m), pr, m).0.img == c.img[m.digest := m]
    ensures Add(WriteManifest(c, m), pr, m).0.lts == c.lts
    ensures Add(WriteManifest(c, m), pr, m).0.manifests == c.manifests[m.url := m][m.Alias() := m]
    ensures Add(WriteManifest(c, m), pr, m).0.latest == c.latest
  {
    hide FromUrl, PullRequest.Url, PullRequest.UrlWithDigest, PullRequest.IsLatest, Manifest.WellFormed, Manifest.Alias,
         Manifest.Latest, AddBlobs;
    NamesAgree(pr, m);
  }

  lemma AddWritten(c: Cache, credits: multiset<Manifest>, pr: PullRequest, m: Manifest)
    requires Inv(c, credits) && Requests(pr, m) && BlobsOnDisk(c, m)
    ensures Inv(Add(WriteManifest(c, m), pr, m).0, credits + Credit(m))
    ensures Add(WriteManifest(c, m), pr, m).0.store.files == c.store.files
  {
    hide Inv, Requests, WriteManifest, Add, HasBlobs;
    WritingKeeps(c, credits, m);
    AddKeeps(WriteManifest(c, m), credits, pr, m);
  }

  lemma NoFiles(c: Cache, pr: PullRequest, m: Manifest)
    requires KeysOk(c) && Requests(pr, m) && !m.Latest() && c.lts == map[] && c.img.Keys == {m.digest}
    ensures Prune(c, m).img == map[] && Prune(c, m).lts == map[]
  {
    hide FromUrl, PullRequest.Url, PullRequest.UrlWithDigest, PullRequest.IsLatest, Manifest.WellFormed, Manifest.Alias,
         Manifest.Latest, RmBlobs, ManifestKeys, LatestKeys, RmManifest;
    RmManifestKeys(c, pr, m);
  }

  lemma NothingToWalk(c: Cache, files: seq<Manifest>)
    requires c.img == map[] && c.lts == map[] && Walk(c, files)
    ensures files == []
  {
    hide Manifest.WellFormed, Manifest.Latest;
    assert files == [] || files[0] in files;
    WalkDistinct(c, files);
  }

  /** One image pulled under two tags: pruning the first tag removes the file of both. The second stays
      cached with its layer, and loading the directory as it then is finds nothing. */
  lemma SharedFileExample()
    ensures var m, n := ExampleImage('a'), SecondImage();
            var one := Add(WriteManifest(DISK, m), ExampleRequest('a'), m).0;
            var two := Add(WriteManifest(one, n), SecondRequest(), n).0;
            var pruned := Prune(two, m);
            && CachedAt(pruned, n) && BlobsOnDisk(pruned, n) && HasFile(two, n) && !HasFile(pruned, n)
            && forall files | Walk(pruned, files) :: LoadFiles(Restart(pruned), files).0 == Restart(pruned)
  {
    hide FromUrl, PullRequest.Url, PullRequest.UrlWithDigest, PullRequest.IsLatest, Manifest.WellFormed, Manifest.Alias,
         Manifest.Latest, Manifest.Blobs, Owed, Inv, KeysOk, AddBlobs, ExampleRequest, SecondRequest, AddManifest,
         Manifest.Core, RmManifest, RmBlobs, WriteManifest, SecondImage, Walk, Add, Prune;
    var p, q, m, n := ExampleRequest('a'), SecondRequest(), ExampleImage('a'), SecondImage();
    ExampleImageOk('a');
    SecondImageOk();
    EmptyInv();
    var one := Add(WriteManifest(DISK, m), p, m).0;
    var two := Add(WriteManifest(one, n), q, n).0;
    WrittenFile(DISK, p, m);
    WrittenFile(one, q, n);
    AddWritten(DISK, multiset{}, p, m);
    AddWritten(one, multiset{} + Credit(m), q, n);
    var credits := multiset{} + Credit(m) + Credit(n);
    KeysOfInv(two, credits);
    PruneKeeps(two, credits, p, m);
    PrunedIsCached(two, p, m, n);
    FileKeptIff(two, p, m, n);
    assert credits - Credit(m) == multiset{n.Core()};
    OneLayerCount(Prune(two, m), n);
    forall files | Walk(Prune(two, m), files) ensures files == [] {
      NoFiles(two, p, m);
      NothingToWalk(Prune(two, m), files);
    }
  }
}
