/** Rebuilding the cache from the disk, whatever state the disk was left in. */
module Recovery {
  import opened PullRequests
  import opened Manifests
  import opened BlobStores
  import opened CacheState

  /** Every manifest file is in the directory and under the name that its contents call for. */
  ghost predicate DiskOk(c: Cache) {
    && (forall n | n in c.img :: c.img[n].WellFormed() && !c.img[n].Latest() && c.img[n].digest == n)
    && (forall n | n in c.lts :: c.lts[n].WellFormed() && c.lts[n].Latest() && c.lts[n].digest == n)
  }

  /** The cache of a server that has just started: the disk as it is, nothing in memory. */
  function Restart(c: Cache): Cache {
    Cache(map[], map[], BlobStore(map[], c.store.files, 0, 0), c.img, c.lts)
  }

  /** canAdd: all blobs of the manifest are on disk. */
  predicate CanAdd(c: Cache, m: Manifest) {
    BlobsOnDisk(c, m)
  }

  lemma CanAddIff(c: Cache, m: Manifest)
    ensures CanAdd(c, m) <==> forall l | l in m.layers :: DigestFrom(l) in c.store.files
  {
    hide DigestFrom, Manifest.Blobs, Occurs;
    forall d { BlobsOccur(m, d); }
    if CanAdd(c, m) {
      forall l | l in m.layers ensures DigestFrom(l) in c.store.files {
        BlobsOccur(m, DigestFrom(l));
      }
    }
  }

  /** Load over the manifest files in walk order; a url that does not parse ends the walk. */
  function LoadFiles(c: Cache, files: seq<Manifest>): (Cache, bool)
    decreases |files|
  {
    if files == [] then (c, true)
    else
      match FromUrl(files[0].url)
      case Err(_) => (c, false)
      case Ok(pr) =>
        LoadFiles(if CanAdd(c, files[0]) then Add(c, pr, files[0]).0 else c, files[1..])
  }

  /** `files` lists the manifest files, `lts` before `img`, each of them once. */
  ghost predicate Walk(c: Cache, files: seq<Manifest>) {
    exists lts: seq<string>, img: seq<string> ::
      && Lists(lts, c.lts.Keys) && Lists(img, c.img.Keys)
      && files == Contents(c.lts, lts) + Contents(c.img, img)
  }

  ghost predicate Lists(names: seq<string>, keys: set<string>) {
    && (forall n :: n in names <==> n in keys)
    && (forall i, j | 0 <= i < j < |names| :: names[i] != names[j])
  }

  function Contents(dir: map<string, Manifest>, names: seq<string>): seq<Manifest>
    requires forall n | n in names :: n in dir
  {
    seq(|names|, i requires 0 <= i < |names| => dir[names[i]])
  }

  /** No two files have the same contents, directory and name. */
  ghost predicate Distinct(files: seq<Manifest>) {
    forall i, j | 0 <= i < j < |files| ::
      files[i].Latest() == files[j].Latest() ==> files[i].digest != files[j].digest
  }

  ghost predicate DistinctUrls(files: seq<Manifest>) {
    forall i, j | 0 <= i < j < |files| :: files[i].url != files[j].url
  }

  ghost predicate AllWellFormed(files: seq<Manifest>) {
    forall m | m in files :: m.WellFormed()
  }

  lemma ListedValues(dir: map<string, Manifest>, names: seq<string>, m: Manifest)
    requires Lists(names, dir.Keys)
    ensures m in Contents(dir, names) <==> m in dir.Values
  {
    if m in dir.Values {
      var n :| n in dir && dir[n] == m;
      var i :| 0 <= i < |names| && names[i] == n;
      assert Contents(dir, names)[i] == m;
    }
  }

  lemma ListedDistinct(dir: map<string, Manifest>, names: seq<string>, isLatest: bool)
    requires Lists(names, dir.Keys)
    requires forall n | n in dir :: dir[n].WellFormed() && dir[n].Latest() == isLatest && dir[n].digest == n
    ensures var files := Contents(dir, names);
            && (forall i | 0 <= i < |files| :: files[i].WellFormed() && files[i].Latest() == isLatest)
            && (forall i, j | 0 <= i < j < |files| :: files[i].digest != files[j].digest)
  {
    hide Manifest.WellFormed, Manifest.Latest;
    assert forall i | 0 <= i < |names| :: names[i] in dir;
  }

  lemma WalkDistinct(c: Cache, files: seq<Manifest>)
    requires DiskOk(c) && Walk(c, files)
    ensures AllWellFormed(files) && Distinct(files)
    ensures forall m :: m in files <==> m in c.lts.Values || m in c.img.Values
  {
    hide Manifest.WellFormed, Manifest.Latest, Contents;
    var lts, img :| Lists(lts, c.lts.Keys) && Lists(img, c.img.Keys)
                    && files == Contents(c.lts, lts) + Contents(c.img, img);
    ListedDistinct(c.lts, lts, true);
    ListedDistinct(c.img, img, false);
    var a, b := Contents(c.lts, lts), Contents(c.img, img);
    assert forall i | 0 <= i < |files| :: files[i] == if i < |a| then a[i] else b[i - |a|];
    forall m ensures m in files <==> m in c.lts.Values || m in c.img.Values {
      ListedValues(c.lts, lts, m);
      ListedValues(c.img, img, m);
    }
  }

  // ---------------------------------------------------------------- loading

  /** The credits that a list of manifests amounts to. */
  ghost function Bag(files: seq<Manifest>): multiset<Manifest> {
    if files == [] then multiset{} else Credit(files[0]) + Bag(files[1..])
  }

  lemma EmptyBag()
    ensures Bag([]) == multiset{}
  {
  }

  lemma {:induction false} BagGrows(mhs: seq<Manifest>, i: nat)
    requires i < |mhs|
    ensures Bag(mhs[..i + 1]) == Bag(mhs[..i]) + Credit(mhs[i])
    decreases i
  {
    hide Credit;
    if i == 0 {
      assert mhs[..1] == [mhs[0]] && mhs[..0] == [];
      assert Bag(mhs[..1]) == Credit(mhs[0]) + Bag([]);
    } else {
      var rest := mhs[1..];
      BagGrows(rest, i - 1);
      assert mhs[..i + 1][1..] == rest[..i] && mhs[..i][1..] == rest[..i - 1];
    }
  }

  /** One more manifest owes its own references more. */
  lemma BagOwed(files: seq<Manifest>, i: nat)
    requires i < |files|
    ensures Owed(Bag(files[..i + 1])) == Owed(Bag(files[..i])) + files[i].Refs()
  {
    hide Owed, Bag;
    BagGrows(files, i);
    CreditRefs(Bag(files[..i]), files[i]);
  }

  lemma CreditRefs(credits: multiset<Manifest>, m: Manifest)
    ensures Owed(credits + Credit(m)) == Owed(credits) + m.Refs()
  {
    hide Owed, Manifest.Blobs;
    if m.image {
      CreditOwed(credits, m);
    } else {
      NoCredit(credits, m);
    }
  }

  /** Loading stops, with an error, at the first file whose url does not parse; what came before stays loaded. */
  lemma {:induction false} LoadStops(c: Cache, files: seq<Manifest>) returns (k: nat)
    ensures k <= |files| && forall i | 0 <= i < k :: FromUrl(files[i].url).Ok?
    ensures k < |files| ==> FromUrl(files[k].url).Err?
    ensures LoadFiles(c, files).1 <==> k == |files|
    ensures LoadFiles(c, files).0 == LoadFiles(c, files[..k]).0
    decreases |files|
  {
    hide FromUrl, Add, CanAdd;
    if files == [] || FromUrl(files[0].url).Err? {
      k := 0;
      assert files[..0] == [];
    } else {
      var c' := if CanAdd(c, files[0]) then Add(c, FromUrl(files[0].url).value, files[0]).0 else c;
      var j := LoadStops(c', files[1..]);
      k := j + 1;
      assert files[..k][0] == files[0] && files[..k][1..] == files[1..][..j];
    }
  }

  /** The manifests whose blobs are all on disk. */
  ghost function Loadable(c: Cache, files: seq<Manifest>): seq<Manifest> {
    if files == [] then []
    else (if CanAdd(c, files[0]) then [files[0]] else []) + Loadable(c, files[1..])
  }

  /** Loading any well-formed disk establishes the invariant; the credits are exactly the manifests
      whose blobs are all there. */
  lemma {:induction false} LoadKeeps(c: Cache, credits: multiset<Manifest>, files: seq<Manifest>)
    requires Inv(c, credits) && AllWellFormed(files)
    ensures LoadFiles(c, files).1
    ensures Inv(LoadFiles(c, files).0, credits + Bag(Loadable(c, files)))
    ensures var c' := LoadFiles(c, files).0;
            c'.store.files == c.store.files && c'.img == c.img && c'.lts == c.lts
    decreases |files|
  {
    hide Manifest.WellFormed, Manifest.Blobs, Inv, Owed, Add, FromUrl;
    if files == [] {
      assert credits + Bag([]) == credits;
    } else {
      var m, rest := files[0], files[1..];
      assert m.WellFormed();
      ParsesWell(m);
      var pr := FromUrl(m.url).value;
      if CanAdd(c, m) {
        AddKeeps(c, credits, pr, m);
        var c' := Add(c, pr, m).0;
        AddKeepsDisk(c, pr, m);
        SameLoadable(c, c', rest);
        LoadKeeps(c', credits + Credit(m), rest);
        assert Loadable(c, files)[0] == m && Loadable(c, files)[1..] == Loadable(c, rest);
        assert credits + Credit(m) + Bag(Loadable(c, rest)) == credits + Bag(Loadable(c, files));
      } else {
        LoadKeeps(c, credits, rest);
        assert Loadable(c, files) == Loadable(c, rest);
      }
    }
  }

  lemma ParsesWell(m: Manifest)
    requires m.WellFormed()
    ensures FromUrl(m.url).Ok? && Requests(FromUrl(m.url).value, m)
  {
  }

  lemma AddKeepsDisk(c: Cache, pr: PullRequest, m: Manifest)
    ensures Add(c, pr, m).0.img == c.img && Add(c, pr, m).0.lts == c.lts
  {
  }

  lemma {:induction false} SameLoadable(c: Cache, c': Cache, files: seq<Manifest>)
    requires c.store.files == c'.store.files
    ensures Loadable(c, files) == Loadable(c', files)
  {
    if files != [] { SameLoadable(c, c', files[1..]); }
  }

  lemma EmptyMemory(c: Cache)
    ensures Inv(Restart(c), multiset{})
  {
  }

  /** Restarting from the disk of any cache, however it was left, gives a cache that satisfies the
      invariant with the loadable manifests as its credits, and leaves the disk alone. */
  lemma RestartIsSound(c: Cache, files: seq<Manifest>)
    requires DiskOk(c) && Walk(c, files)
    ensures var (c', ok) := LoadFiles(Restart(c), files);
            && ok && Inv(c', Bag(Loadable(c, files)))
            && c'.store.files == c.store.files && c'.img == c.img && c'.lts == c.lts
  {
    hide Manifest.WellFormed, Inv, DiskOk, Walk;
    WalkDistinct(c, files);
    SameLoadable(c, Restart(c), files);
    EmptyMemory(c);
    LoadKeeps(Restart(c), multiset{}, files);
    assert multiset{} + Bag(Loadable(c, files)) == Bag(Loadable(c, files));
  }

  // ---------------------------------------------------------------- exactly the servable manifests

  /** Everything cached, under its url or its digest, has all its blobs on disk. */
  ghost predicate AllServable(c: Cache) {
    && (forall k | k in c.manifests :: BlobsOnDisk(c, c.manifests[k]))
    && (forall k | k in c.latest :: BlobsOnDisk(c, c.latest[k]))
  }

  /** Every entry after an add is the added manifest or was there before. */
  lemma AddedEntries(c: Cache, pr: PullRequest, m: Manifest)
    ensures var c' := Add(c, pr, m).0;
            && (forall k | k in c'.manifests ::
                  c'.manifests[k] == m || (k in c.manifests && c'.manifests[k] == c.manifests[k]))
            && (forall k | k in c'.latest :: c'.latest[k] == m || (k in c.latest && c'.latest[k] == c.latest[k]))
  {
    hide PullRequest.Url, PullRequest.UrlWithDigest, PullRequest.IsLatest, AddBlobs, Manifest.Blobs;
  }

  lemma AddIsServable(c: Cache, pr: PullRequest, m: Manifest)
    requires AllServable(c) && BlobsOnDisk(c, m) && Add(c, pr, m).0.store.files == c.store.files
    ensures AllServable(Add(c, pr, m).0)
  {
    hide HasBlobs, Add;
    AddedEntries(c, pr, m);
  }

  lemma {:induction false} LoadIsServable(c: Cache, credits: multiset<Manifest>, files: seq<Manifest>)
    requires Inv(c, credits) && AllWellFormed(files) && AllServable(c)
    ensures AllServable(LoadFiles(c, files).0)
    decreases |files|
  {
    hide Manifest.WellFormed, Inv, Add, FromUrl, AllServable;
    if files != [] {
      var m, rest := files[0], files[1..];
      ParsesWell(m);
      if CanAdd(c, m) {
        var pr := FromUrl(m.url).value;
        AddKeeps(c, credits, pr, m);
        AddIsServable(c, pr, m);
        LoadIsServable(Add(c, pr, m).0, credits + Credit(m), rest);
      } else {
        LoadIsServable(c, credits, rest);
      }
    }
  }

  /** The primary entries are exactly the manifests of `done`. */
  ghost predicate Holds(c: Cache, done: set<Manifest>) {
    && (forall m | m in done ::
          if m.Latest() then m.url in c.latest && c.latest[m.url] == m
          else m.url in c.manifests && c.manifests[m.url] == m)
    && (forall k | Primary(c.manifests, k) :: c.manifests[k] in done)
    && (forall k | Primary(c.latest, k) :: c.latest[k] in done)
  }

  /** A file whose url, directory and name are its own displaces no other primary entry. */
  lemma AddHolds(c: Cache, done: set<Manifest>, pr: PullRequest, m: Manifest)
    requires KeysOk(c) && Requests(pr, m) && Holds(c, done)
    requires forall n | n in done :: n.WellFormed() && n.url != m.url
    requires forall n | n in done :: n.Latest() == m.Latest() ==> n.digest != m.digest
    ensures Holds(AddManifest(c, pr, m), done + {m})
  {
    hide FromUrl, PullRequest.Url, PullRequest.UrlWithDigest, PullRequest.IsLatest, Manifest.WellFormed,
         Manifest.Alias, Manifest.Latest, Manifest.IsLatest, ManifestKeys, LatestKeys, AddManifest;
    NamesAgree(pr, m);
    AddManifestMaps(c, pr, m);
    forall n | n in done ensures n.Latest() == m.Latest() ==> n.url != m.Alias() {
      AliasDetermines(m, n);
    }
  }

  ghost function ImageCores(done: set<Manifest>): multiset<Manifest> {
    multiset(set m | m in done && m.image :: m.Core())
  }

  lemma CoresGrow(done: set<Manifest>, m: Manifest)
    requires forall n | n in done :: n.Core() != m.Core()
    ensures ImageCores(done + {m}) == ImageCores(done) + Credit(m)
  {
    var cores := set n | n in done && n.image :: n.Core();
    var after := set n | n in done + {m} && n.image :: n.Core();
    assert m.Core() !in cores;
    if m.image {
      assert after == cores + {m.Core()};
    } else {
      assert after == cores;
    }
  }

  lemma {:induction false} LoadHolds(c: Cache, credits: multiset<Manifest>, files: seq<Manifest>, done: set<Manifest>)
    requires Inv(c, credits) && AllWellFormed(files) && Holds(c, done) && credits == ImageCores(done)
    requires Distinct(files) && DistinctUrls(files)
    requires forall n | n in done :: n.WellFormed()
    requires forall n, m | n in done && m in files :: n.url != m.url
    requires forall n, m | n in done && m in files :: n.Latest() == m.Latest() ==> n.digest != m.digest
    ensures var after := done + set m | m in files && CanAdd(c, m);
            Holds(LoadFiles(c, files).0, after) && Inv(LoadFiles(c, files).0, ImageCores(after))
    decreases |files|
  {
    hide Manifest.WellFormed, Manifest.Blobs, Manifest.Latest, Inv, Owed, FromUrl, AddBlobs, Holds, ImageCores,
         AddManifest, Distinct, DistinctUrls, HasBlobs, Credit;
    if files == [] {
      assert done + (set m | m in files && CanAdd(c, m)) == done;
    } else {
      var m, rest := files[0], files[1..];
      ParsesWell(m);
      RestDistinct(files);
      assert forall n :: n in files <==> n == m || n in rest;
      if CanAdd(c, m) {
        var pr := FromUrl(m.url).value;
        var c' := Add(c, pr, m).0;
        AddKeeps(c, credits, pr, m);
        KeysOfInv(c, credits);
        AddHolds(c, done, pr, m);
        SameEntries(c', AddManifest(c, pr, m), done + {m});
        assert forall n | n in done :: n.Core().url != m.Core().url;
        CoresGrow(done, m);
        LoadHolds(c', credits + Credit(m), rest, done + {m});
        assert done + {m} + (set n | n in rest && CanAdd(c', n)) == done + set n | n in files && CanAdd(c, n);
      } else {
        LoadHolds(c, credits, rest, done);
        assert (set n | n in rest && CanAdd(c, n)) == set n | n in files && CanAdd(c, n);
      }
    }
  }

  lemma SameEntries(c: Cache, c': Cache, done: set<Manifest>)
    requires c.manifests == c'.manifests && c.latest == c'.latest
    ensures Holds(c, done) <==> Holds(c', done)
  {
  }

  lemma RestDistinct(files: seq<Manifest>)
    requires files != [] && Distinct(files) && DistinctUrls(files) && AllWellFormed(files)
    ensures Distinct(files[1..]) && DistinctUrls(files[1..]) && AllWellFormed(files[1..])
    ensures forall m | m in files[1..] ::
              files[0].url != m.url && (files[0].Latest() == m.Latest() ==> files[0].digest != m.digest)
  {
    hide Manifest.WellFormed, Manifest.Latest;
    forall m | m in files[1..]
      ensures files[0].url != m.url && (files[0].Latest() == m.Latest() ==> files[0].digest != m.digest)
    {
      var i :| 0 <= i < |files[1..]| && files[1..][i] == m;
      assert files[i + 1] == m;
    }
  }

  /** When no url is on disk twice, a restart caches exactly the manifests whose blobs are all on
      disk, each under its own url, holds one credit for each of them and no other, and leaves
      nothing cached that cannot be served. */
  lemma RestartIsExact(c: Cache, files: seq<Manifest>)
    requires DiskOk(c) && Walk(c, files) && DistinctUrls(files)
    ensures var (c', ok) := LoadFiles(Restart(c), files);
            var served := set m | m in files && CanAdd(c, m);
            ok && Holds(c', served) && Inv(c', ImageCores(served)) && AllServable(c')
  {
    hide Manifest.WellFormed, Manifest.Blobs, Manifest.Latest, Inv, DiskOk, Walk;
    WalkDistinct(c, files);
    EmptyMemory(c);
    RestartIsSound(c, files);
    LoadIsServable(Restart(c), multiset{}, files);
    assert ImageCores({}) == multiset{};
    LoadHolds(Restart(c), multiset{}, files, {});
    assert {} + (set m | m in files && CanAdd(Restart(c), m)) == set m | m in files && CanAdd(c, m);
  }
}
