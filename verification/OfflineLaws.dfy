/** What the offline pruner collects, and how its accounting compares with the server's. */
module OfflineLaws {
  import opened PullRequests
  import opened Manifests
  import opened BlobStores
  import opened CacheState
  import opened CacheLaws
  import opened Recovery
  import opened Exactness
  import opened OfflinePrune

  // ---------------------------------------------------------------- exact collection

  ghost function Files(c: Cache): set<Manifest> {
    c.img.Values + c.lts.Values
  }

  /** No two keys of the matches stand for the same file. */
  ghost predicate PairwiseDistinct(ms: map<string, Manifest>) {
    forall j, k | j in ms && k in ms && j != k :: ms[j] != ms[k]
  }

  lemma CoreIsFile(c: Cache, m: Manifest, n: Manifest)
    requires DiskOk(c) && OnDisk(c, m) && OnDisk(c, n) && m.Core() == n.Core()
    ensures m == n
  {
    hide Manifest.WellFormed, Manifest.Latest;
    CoreSame(m);
    CoreSame(n);
  }

  lemma {:induction false} CoresSplit(all: set<Manifest>, some: set<Manifest>)
    requires some <= all
    requires forall m, n | m in all && n in all && m.Core() == n.Core() :: m == n
    ensures ImageCores(all) == ImageCores(all - some) + ImageCores(some)
    decreases |some|
  {
    hide Credit, ImageCores;
    if some == {} {
      EmptyCores();
      assert all - some == all;
    } else {
      var m :| m in some;
      CoresSplit(all, some - {m});
      CoresGrow(some - {m}, m);
      CoresGrow(all - some, m);
      assert some - {m} + {m} == some && all - some + {m} == all - (some - {m});
    }
  }

  /** The references of the files are those of the survivors and those of the files that go. */
  lemma TallySplits(c: Cache, files: seq<Manifest>, gone: set<Manifest>)
    requires DiskOk(c) && Walk(c, files) && gone <= Files(c)
    ensures Owed(Bag(files)) == Owed(ImageCores(Files(c) - gone)) + Owed(ImageCores(gone))
  {
    hide Manifest.WellFormed, Manifest.Latest, Owed, Bag, ImageCores, DiskOk, Walk;
    WalkDistinct(c, files);
    forall m, n | OnDisk(c, m) && OnDisk(c, n) && m.Core() == n.Core() ensures m == n { CoreIsFile(c, m, n); }
    forall i, j | 0 <= i < j < |files| ensures files[i].Core() != files[j].Core() {
      assert files[i] in files && files[j] in files;
      if files[i].Core() == files[j].Core() { CoreSame(files[i]); CoreSame(files[j]); }
    }
    BagIsSet(files);
    assert (set m | m in files) == Files(c);
    CoresSplit(Files(c), gone);
    OwedUnion(ImageCores(Files(c) - gone), ImageCores(gone));
  }

  lemma DistinctBag(c: Cache, ms: map<string, Manifest>)
    requires DiskOk(c) && PairwiseDistinct(ms) && forall k | k in ms :: OnDisk(c, ms[k])
    ensures MapBag(ms) == ImageCores(ms.Values)
  {
    hide Manifest.WellFormed, Manifest.Latest, MapBag, ImageCores, DiskOk;
    forall j, k | j in ms && k in ms && j != k ensures ms[j].Core() != ms[k].Core() {
      if ms[j].Core() == ms[k].Core() { CoreIsFile(c, ms[j], ms[k]); }
    }
    MapBagIsSet(ms);
  }

  ghost predicate NamedBy(ms: set<Manifest>, d: string) {
    exists m :: m in ms && m.image && d in m.Blobs()
  }

  /** A reference is owed to a set of manifests exactly when one of its images names the blob. */
  lemma OwedToSet(ms: set<Manifest>, d: string)
    ensures d in Owed(ImageCores(ms)) <==> NamedBy(ms, d)
  {
    hide Owed, Manifest.Blobs;
    if d in Owed(ImageCores(ms)) {
      OwedHasHolder(ImageCores(ms), d);
      var core :| core in ImageCores(ms) && d in core.Refs();
      var m :| m in ms && m.image && m.Core() == core;
      CoreSame(m);
      assert d in m.Blobs();
    }
    if m :| m in ms && m.image && d in m.Blobs() {
      assert m.Core() in ImageCores(ms);
      CoreSame(m);
      OwedIncludes(ImageCores(ms), m.Core());
      assert d in m.Refs();
    }
  }

  /** The offline pruner fails exactly when a matched image has lost a blob. Otherwise each count is left
      at the multiplicity of the blob over the surviving images, and the blobs that are kept are exactly
      those that one of these references. */
  lemma ExactCollector(c: Cache, files: seq<Manifest>, ms: map<string, Manifest>)
    requires DiskOk(c) && Walk(c, files) && PairwiseDistinct(ms)
    requires forall k | k in ms :: OnDisk(c, ms[k])
    ensures Affordable(ms, files, c.store.files.Keys) <==> forall k | k in ms && ms[k].image :: BlobsOnDisk(c, ms[k])
    ensures forall d | d in c.store.files ::
              (d !in Spent(ms, files, c.store.files.Keys) <==> NamedBy(Files(c) - ms.Values, d))
    ensures forall left | CountsLeft(files, ms, c.store.files.Keys, left) ::
              forall d | d in left :: left[d] == Owed(ImageCores(Files(c) - ms.Values))[d]
  {
    hide Manifest.WellFormed, Manifest.Latest, Manifest.Blobs, Owed, Bag, MapBag, ImageCores, DiskOk, Walk;
    var kept, all, given := Owed(ImageCores(Files(c) - ms.Values)), Owed(Bag(files)), Owed(MapBag(ms));
    TallySplits(c, files, ms.Values);
    DistinctBag(c, ms);
    forall d | d in c.store.files
      ensures d !in Spent(ms, files, c.store.files.Keys) <==> NamedBy(Files(c) - ms.Values, d)
    {
      OwedToSet(Files(c) - ms.Values, d);
      assert all[d] == kept[d] + given[d];
    }
    if forall k | k in ms && ms[k].image :: BlobsOnDisk(c, ms[k]) {
      forall d ensures given[d] <= if d in c.store.files then all[d] else 0 {
        OwedToSet(ms.Values, d);
        assert all[d] == kept[d] + given[d];
      }
    }
    if Affordable(ms, files, c.store.files.Keys) {
      forall k | k in ms && ms[k].image ensures BlobsOnDisk(c, ms[k]) {
        forall d | d in ms[k].Blobs() ensures d in c.store.files {
          OwedToSet(ms.Values, d);
          assert ms[k] in ms.Values && given[d] > 0;
        }
      }
    }
  }

  lemma NameOf(ms: map<string, Manifest>, dir: map<string, Manifest>, n: string, isLatest: bool)
    requires n in dir && dir[n].digest == n && dir[n].Latest() == isLatest
    requires forall k | k in ms && ms[k].Latest() == isLatest && ms[k].digest == n :: ms[k] == dir[n]
    ensures n in Names(ms, isLatest) <==> dir[n] in ms.Values
  {
    hide Manifest.Latest;
    assert forall k | k in ms && ms[k] == dir[n] :: ms[k].digest in Names(ms, isLatest);
  }

  /** The manifest files that remain are exactly those that were not matched. */
  lemma ExactSurvivors(c: Cache, ms: map<string, Manifest>)
    requires DiskOk(c) && forall k | k in ms :: OnDisk(c, ms[k])
    ensures (c.img - Names(ms, false)).Values + (c.lts - Names(ms, true)).Values == Files(c) - ms.Values
  {
    hide Manifest.WellFormed, Manifest.Latest, Names;
    forall n | n in c.img ensures n in Names(ms, false) <==> c.img[n] in ms.Values { NameOf(ms, c.img, n, false); }
    forall n | n in c.lts ensures n in Names(ms, true) <==> c.lts[n] in ms.Values { NameOf(ms, c.lts, n, true); }
    RestOf(c.img, Names(ms, false), ms.Values);
    RestOf(c.lts, Names(ms, true), ms.Values);
  }

  lemma RestOf(dir: map<string, Manifest>, names: set<string>, gone: set<Manifest>)
    requires forall n | n in dir :: n in names <==> dir[n] in gone
    ensures (dir - names).Values == dir.Values - gone
  {
    forall n | n in dir && dir[n] !in gone ensures dir[n] in (dir - names).Values {
      assert n in dir - names && (dir - names)[n] == dir[n];
    }
  }

  /** The directory after a prune that succeeds. */
  ghost function Pruned(c: Cache, files: seq<Manifest>, ms: map<string, Manifest>): Cache {
    c.(store := c.store.(files := c.store.files - Spent(ms, files, c.store.files.Keys)),
       img := c.img - Names(ms, false), lts := c.lts - Names(ms, true))
  }

  lemma PrunedDiskOk(c: Cache, files: seq<Manifest>, ms: map<string, Manifest>)
    requires DiskOk(c)
    ensures DiskOk(Pruned(c, files, ms))
  {
    hide Manifest.WellFormed, Manifest.Latest, Spent, Names;
  }

  /** No survivor loses a blob, nor gains one. */
  lemma SurvivorsKeepBlobs(c: Cache, files: seq<Manifest>, ms: map<string, Manifest>, m: Manifest)
    requires DiskOk(c) && Walk(c, files) && PairwiseDistinct(ms)
    requires forall k | k in ms :: OnDisk(c, ms[k])
    requires m in Files(c) - ms.Values
    ensures CanAdd(Pruned(c, files, ms), m) <==> CanAdd(c, m)
  {
    hide Manifest.WellFormed, Manifest.Latest, Manifest.Blobs, Spent, Names, Walk, Affordable;
    ExactCollector(c, files, ms);
    ListHasNoBlobs(c, m);
    forall d | d in m.Blobs() && d in c.store.files ensures d !in Spent(ms, files, c.store.files.Keys) {
      assert NamedBy(Files(c) - ms.Values, d);
    }
  }

  lemma ListHasNoBlobs(c: Cache, m: Manifest)
    requires DiskOk(c) && m in Files(c)
    ensures m.WellFormed() && (m.Blobs() != [] ==> m.image)
  {
    hide FromUrl, PullRequest.Url, Manifest.Latest, IsDigest;
  }

  /** The two collectors together: a server started after an offline prune caches exactly the survivors
      whose blobs were all there before the prune; and when they all were, it counts every blob file
      that is left, so nothing is lost and no garbage remains. */
  lemma PruneThenRestart(c: Cache, files: seq<Manifest>, ms: map<string, Manifest>, walk: seq<Manifest>)
    requires DiskOk(c) && Walk(c, files) && PairwiseDistinct(ms)
    requires forall k | k in ms :: OnDisk(c, ms[k])
    requires Walk(Pruned(c, files, ms), walk) && DistinctUrls(walk)
    ensures var (started, ok) := LoadFiles(Restart(Pruned(c, files, ms)), walk);
            var served := set m | m in Files(c) - ms.Values && CanAdd(c, m);
            && ok && Holds(started, served) && Inv(started, ImageCores(served)) && AllServable(started)
            && (served == Files(c) - ms.Values ==> started.store.counts.Keys == started.store.files.Keys)
  {
    hide Manifest.WellFormed, Manifest.Latest, Manifest.Blobs, Names, Walk, Affordable, DiskOk, Holds, AllServable, Inv,
         ImageCores, LoadFiles, CanAdd, DistinctUrls, Owed, Spent, Bag, MapBag;
    var after := Pruned(c, files, ms);
    PrunedDiskOk(c, files, ms);
    ExactSurvivors(c, ms);
    WalkDistinct(after, walk);
    RestartIsExact(after, walk);
    RestartIsSound(after, walk);
    forall m | m in Files(c) - ms.Values ensures CanAdd(after, m) <==> CanAdd(c, m) {
      SurvivorsKeepBlobs(c, files, ms, m);
    }
    assert forall m :: m in walk <==> m in Files(c) - ms.Values;
    var served := set m | m in Files(c) - ms.Values && CanAdd(c, m);
    assert (set m | m in walk && CanAdd(after, m)) == served;
    if served == Files(c) - ms.Values {
      ExactCollector(c, files, ms);
      CountsAre(LoadFiles(Restart(after), walk).0, served);
    }
  }

  lemma CountsAre(c: Cache, served: set<Manifest>)
    requires Inv(c, ImageCores(served))
    ensures forall d :: d in c.store.counts <==> NamedBy(served, d)
    ensures c.store.counts.Keys <= c.store.files.Keys
  {
    hide Owed, NamedBy, KeysOk, Backed, ImageCores;
    forall d ensures d in c.store.counts <==> NamedBy(served, d) { OwedToSet(served, d); }
  }

  // ---------------------------------------------------------------- the two accountings

  /** The manifests that a restart leaves out because a blob is missing. */
  ghost function Unloadable(c: Cache, files: seq<Manifest>): seq<Manifest> {
    if files == [] then []
    else (if CanAdd(c, files[0]) then [] else [files[0]]) + Unloadable(c, files[1..])
  }

  lemma {:induction false} UnloadableAre(c: Cache, files: seq<Manifest>, m: Manifest)
    ensures m in Unloadable(c, files) <==> m in files && !CanAdd(c, m)
    decreases |files|
  {
    hide CanAdd;
    if files != [] { UnloadableAre(c, files[1..], m); }
  }

  lemma {:induction false} BagSplits(c: Cache, files: seq<Manifest>)
    ensures Bag(files) == Bag(Loadable(c, files)) + Bag(Unloadable(c, files))
    decreases |files|
  {
    hide CanAdd, Credit;
    if files != [] {
      var rest := files[1..];
      BagSplits(c, rest);
      var yes, no := Loadable(c, files), Unloadable(c, files);
      if CanAdd(c, files[0]) {
        assert yes[0] == files[0] && yes[1..] == Loadable(c, rest) && no == Unloadable(c, rest);
      } else {
        assert no[0] == files[0] && no[1..] == Unloadable(c, rest) && yes == Loadable(c, rest);
      }
    }
  }

  lemma {:induction false} OwedToBag(files: seq<Manifest>, d: string)
    ensures d in Owed(Bag(files)) <==> exists i :: 0 <= i < |files| && files[i].image && d in files[i].Blobs()
    decreases |files|
  {
    hide Owed, Manifest.Blobs, Credit;
    if files == [] {
      NothingOwed();
    } else {
      var m, rest := files[0], files[1..];
      OwedToBag(rest, d);
      assert Bag(files) == Bag(rest) + Credit(m);
      CreditRefs(Bag(rest), m);
      assert d in m.Refs() <==> m.image && d in m.Blobs();
      if i :| 0 <= i < |rest| && rest[i].image && d in rest[i].Blobs() {
        assert files[i + 1] == rest[i];
      }
    }
  }

  /** All walks over one disk hold the same references. */
  lemma WalksAgree(c: Cache, files: seq<Manifest>, others: seq<Manifest>)
    requires DiskOk(c) && Walk(c, files) && Walk(c, others)
    ensures Owed(Bag(files)) == Owed(Bag(others))
  {
    hide Owed, Bag, MapBag, ImageCores, DiskOk, Walk;
    TallySplits(c, files, {});
    TallySplits(c, others, {});
  }

  /** A restart never counts more references to a blob than the offline tally over the same disk.
      The two agree on all blobs that are on disk exactly when no image with a missing blob still
      references a blob that is there. */
  lemma AccountingsAgreeIff(c: Cache, loaded: seq<Manifest>, tallied: seq<Manifest>)
    requires DiskOk(c) && Walk(c, loaded) && Walk(c, tallied)
    ensures var counts, tally := LoadFiles(Restart(c), loaded).0.store.counts, Owed(Bag(tallied));
            && (forall d :: Count(counts, d) <= tally[d])
            && ((forall d | d in c.store.files :: Count(counts, d) == tally[d])
                <==> forall m | m in tallied && m.image && !CanAdd(c, m) ::
                       forall d | d in m.Blobs() :: d !in c.store.files)
  {
    hide Owed, Manifest.Blobs, Manifest.WellFormed, Bag, DiskOk, Walk, CanAdd, Loadable, Unloadable, LoadFiles;
    var kept, left := Owed(Bag(Loadable(c, loaded))), Owed(Bag(Unloadable(c, loaded)));
    RestartIsSound(c, loaded);
    WalksAgree(c, loaded, tallied);
    BagSplits(c, loaded);
    OwedUnion(Bag(Loadable(c, loaded)), Bag(Unloadable(c, loaded)));
    WalkDistinct(c, loaded);
    WalkDistinct(c, tallied);
    assert forall d :: Owed(Bag(tallied))[d] == kept[d] + left[d];
    forall m | m in tallied && m.image && !CanAdd(c, m) ensures forall d | d in m.Blobs() :: d in left {
      UnloadableAre(c, loaded, m);
      forall d | d in m.Blobs() ensures d in left { OwedToBag(Unloadable(c, loaded), d); }
    }
    forall d | d in left
      ensures exists m :: m in tallied && m.image && !CanAdd(c, m) && d in m.Blobs()
    {
      OwedToBag(Unloadable(c, loaded), d);
      var skipped := Unloadable(c, loaded);
      var i :| 0 <= i < |skipped| && skipped[i].image && d in skipped[i].Blobs();
      UnloadableAre(c, loaded, skipped[i]);
    }
  }

  // ---------------------------------------------------------------- which children are found

  /** The matches as the handlers collect them: files, each under its own url. */
  ghost predicate Matched(c: Cache, ms: map<string, Manifest>) {
    forall k | k in ms :: OnDisk(c, ms[k]) && ms[k].url == k
  }

  lemma MatchesOk(c: Cache, ms: map<string, Manifest>)
    requires DiskOk(c) && Matched(c, ms)
    ensures forall k | k in ms :: ms[k].WellFormed() && FromUrl(ms[k].url).Ok?
  {
    hide FromUrl, PullRequest.Url, IsDigest, Manifest.Latest;
  }

  lemma FoundIsLatest(c: Cache, m: Manifest, k: string, child: Manifest)
    requires DiskOk(c) && ChildOf(m, c.lts, k, child)
    ensures child.Latest()
  {
    hide DigestFrom, Manifest.WellFormed, PullRequest.UrlWithDigest, FromUrl;
  }

  /** Children are looked up in `lts` only. What lies in `img` is pruned exactly when it was matched. */
  lemma ChildPulledByDigestIff(c: Cache, ms: map<string, Manifest>, all: map<string, Manifest>, child: Manifest)
    requires DiskOk(c) && Expansion(ms, c.lts, all) && child in c.img.Values
    ensures child in all.Values <==> child in ms.Values
  {
    hide Manifest.WellFormed, Manifest.Latest, ChildOf;
    assert !child.Latest();
    forall k | k in all && all[k] == child ensures k in ms {
      if k !in ms {
        var l :| l in ms && ChildOf(ms[l], c.lts, k, child);
        FoundIsLatest(c, ms[l], k, child);
      }
    }
    forall k | k in ms && ms[k] == child ensures child in all.Values { assert all[k] == child; }
  }

  /** A file is pruned exactly when it was matched or is found as a child under a key that is still free. */
  lemma PrunedIff(c: Cache, ms: map<string, Manifest>, all: map<string, Manifest>, m: Manifest)
    requires DiskOk(c) && Matched(c, ms) && Expansion(ms, c.lts, all)
    ensures m in all.Values <==> m in ms.Values || exists k :: k !in ms && IsChild(ms, c.lts, k, m)
  {
    hide Manifest.WellFormed, Manifest.Latest, IsChild, FromUrl;
    MatchesOk(c, ms);
    forall k | k in ms && ms[k] == m ensures m in all.Values { assert all[k] == m; }
    forall k | k !in ms && IsChild(ms, c.lts, k, m) ensures m in all.Values {
      ChildDetermined(ms, c.lts, k, all[k], m);
      assert all[k] == m;
    }
  }

  /** The cached manifest that a matched list names as its child, under a key that no match has, is
      pruned with the list exactly when it lies in `lts` or was matched itself. */
  lemma NamedChildPrunedIff(c: Cache, ms: map<string, Manifest>, all: map<string, Manifest>, l: string, i: nat,
                            child: Manifest)
    requires DiskOk(c) && Matched(c, ms) && Expansion(ms, c.lts, all)
    requires l in ms && !ms[l].image && i < |ms[l].children|
    requires OnDisk(c, child) && child.digest == DigestFrom(ms[l].children[i])
    ensures FromUrl(ms[l].url).Ok?
    ensures ChildKey(ms[l], ms[l].children[i]) !in ms ==>
              (child in all.Values <==> child in c.lts.Values || child in ms.Values)
  {
    hide Manifest.WellFormed, Manifest.Latest, FromUrl, DigestFrom, PullRequest.UrlWithDigest;
    MatchesOk(c, ms);
    PrunedIff(c, ms, all, child);
    if child in c.lts.Values {
      assert ChildOf(ms[l], c.lts, ChildKey(ms[l], ms[l].children[i]), child);
    } else {
      ChildPulledByDigestIff(c, ms, all, child);
    }
  }

  // ---------------------------------------------------------------- files matched twice

  /** No child that is found is matched itself, and none is found under two keys. */
  ghost predicate OneKeyEach(ms: map<string, Manifest>, lts: map<string, Manifest>) {
    && (forall k, found | k !in ms && IsChild(ms, lts, k, found) :: found !in ms.Values)
    && (forall j, k, found | j !in ms && k !in ms && IsChild(ms, lts, j, found) && IsChild(ms, lts, k, found) :: j == k)
  }

  /** The expansion stands for distinct files exactly when the original matches say so. */
  lemma DistinctIff(c: Cache, ms: map<string, Manifest>, all: map<string, Manifest>)
    requires DiskOk(c) && Matched(c, ms) && Expansion(ms, c.lts, all)
    ensures PairwiseDistinct(all) <==> OneKeyEach(ms, c.lts)
    ensures forall k | k in all :: OnDisk(c, all[k])
  {
    hide Manifest.WellFormed, Manifest.Latest, IsChild, FromUrl;
    MatchesOk(c, ms);
    forall k, found | k !in ms && IsChild(ms, c.lts, k, found) ensures k in all && all[k] == found && OnDisk(c, found) {
      ChildDetermined(ms, c.lts, k, all[k], found);
      ChildOnDisk(c, ms, k, found);
    }
    if PairwiseDistinct(all) {
      forall k, found | k !in ms && IsChild(ms, c.lts, k, found) ensures found !in ms.Values {
        forall j | j in ms ensures ms[j] != found { assert all[j] == ms[j] && all[k] == found; }
      }
      forall j, k, found | j !in ms && k !in ms && IsChild(ms, c.lts, j, found) && IsChild(ms, c.lts, k, found)
        ensures j == k
      {
        assert all[j] == found && all[k] == found;
      }
    }
    if OneKeyEach(ms, c.lts) {
      forall j, k | j in all && k in all && j != k ensures all[j] != all[k] {
        if j !in ms { assert IsChild(ms, c.lts, j, all[j]); }
        if k !in ms { assert IsChild(ms, c.lts, k, all[k]); }
      }
    }
  }

  lemma ChildOnDisk(c: Cache, ms: map<string, Manifest>, k: string, found: Manifest)
    requires IsChild(ms, c.lts, k, found)
    ensures OnDisk(c, found)
  {
    hide ChildOf;
    var l :| l in ms && ChildOf(ms[l], c.lts, k, found);
    FoundInLts(ms[l], c.lts, k, found);
  }

  /** When no child is matched itself or found under two keys, the pruner is exact on what it expands
      the matches to. */
  lemma ExactOnMatches(c: Cache, files: seq<Manifest>, ms: map<string, Manifest>, all: map<string, Manifest>)
    requires DiskOk(c) && Walk(c, files) && Matched(c, ms) && Expansion(ms, c.lts, all) && OneKeyEach(ms, c.lts)
    ensures Affordable(all, files, c.store.files.Keys)
       <==> forall k | k in all && all[k].image :: BlobsOnDisk(c, all[k])
    ensures forall d | d in c.store.files ::
              (d !in Spent(all, files, c.store.files.Keys) <==> NamedBy(Files(c) - all.Values, d))
  {
    hide DiskOk, Walk, Matched, Expansion, OneKeyEach, Affordable, Spent, NamedBy, HasBlobs;
    DistinctIff(c, ms, all);
    ExactCollector(c, files, all);
  }

  /** The references that are given back once too often, because a file has several keys. */
  ghost function GivenTwice(ms: map<string, Manifest>): multiset<Manifest> {
    MapBag(ms) - ImageCores(ms.Values)
  }

  lemma {:induction false} MapBagCovers(ms: map<string, Manifest>)
    ensures ImageCores(ms.Values) <= MapBag(ms)
    ensures forall core | core in MapBag(ms) :: core in ImageCores(ms.Values)
    decreases |ms|
  {
    hide Credit;
    if ms != map[] {
      var k := PickEntry(ms);
      var rest := ms - {k};
      MapBagCovers(rest);
      CreditIs(ms[k]);
      forall core | core in ImageCores(ms.Values) ensures MapBag(ms)[core] >= 1 {
        var m :| m in ms.Values && m.image && m.Core() == core;
        var j :| j in ms && ms[j] == m;
        if j != k { assert rest[j] == m; assert core in ImageCores(rest.Values); }
      }
      forall core | core in MapBag(ms) ensures core in ImageCores(ms.Values) {
        if core in MapBag(rest) {
          var m :| m in rest.Values && m.image && m.Core() == core;
          var j :| j in rest && rest[j] == m;
          assert ms[j] == m;
        }
      }
    }
  }

  lemma CreditIs(m: Manifest)
    ensures forall core :: core in Credit(m) <==> m.image && core == m.Core()
    ensures m.image ==> Credit(m)[m.Core()] == 1
  {
  }

  /** Every matched image has its blobs, and no blob is given back more often than it is owed. */
  ghost predicate Covered(c: Cache, ms: map<string, Manifest>) {
    && (forall k | k in ms && ms[k].image :: BlobsOnDisk(c, ms[k]))
    && (forall d :: Owed(GivenTwice(ms))[d] <= Owed(ImageCores(Files(c) - ms.Values))[d])
  }

  lemma GivenSplit(c: Cache, files: seq<Manifest>, ms: map<string, Manifest>)
    requires DiskOk(c) && Walk(c, files) && forall k | k in ms :: OnDisk(c, ms[k])
    ensures Owed(Bag(files)) == Owed(ImageCores(Files(c) - ms.Values)) + Owed(ImageCores(ms.Values))
    ensures Owed(MapBag(ms)) == Owed(ImageCores(ms.Values)) + Owed(GivenTwice(ms))
    ensures forall d | d in Owed(MapBag(ms)) :: NamedBy(ms.Values, d)
  {
    hide Manifest.WellFormed, Manifest.Latest, Owed, Bag, MapBag, ImageCores, DiskOk, Walk, NamedBy;
    TallySplits(c, files, ms.Values);
    MapBagCovers(ms);
    assert MapBag(ms) == ImageCores(ms.Values) + GivenTwice(ms);
    OwedUnion(ImageCores(ms.Values), GivenTwice(ms));
    forall d | d in Owed(MapBag(ms)) ensures NamedBy(ms.Values, d) {
      OwedHasHolder(MapBag(ms), d);
      var core :| core in MapBag(ms) && d in core.Refs();
      OwedIncludes(ImageCores(ms.Values), core);
      OwedToSet(ms.Values, d);
    }
  }

  /** When the counts suffice, keys that share a file included. */
  lemma AffordableIffCovered(c: Cache, files: seq<Manifest>, ms: map<string, Manifest>)
    requires DiskOk(c) && Walk(c, files) && forall k | k in ms :: OnDisk(c, ms[k])
    ensures Affordable(ms, files, c.store.files.Keys) <==> Covered(c, ms)
  {
    hide Manifest.WellFormed, Manifest.Latest, Manifest.Blobs, Owed, Bag, MapBag, ImageCores, DiskOk, Walk, GivenTwice;
    GivenSplit(c, files, ms);
    var kept, twice, given := Owed(ImageCores(Files(c) - ms.Values)), Owed(GivenTwice(ms)), Owed(MapBag(ms));
    if Affordable(ms, files, c.store.files.Keys) {
      forall k, d | k in ms && ms[k].image && d in ms[k].Blobs() ensures d in c.store.files {
        OwedToSet(ms.Values, d);
        assert ms[k] in ms.Values && given[d] > 0;
      }
      forall d ensures twice[d] <= kept[d] {
        assert given[d] <= if d in c.store.files then Owed(Bag(files))[d] else 0;
      }
    }
    if Covered(c, ms) {
      forall d ensures given[d] <= if d in c.store.files then Owed(Bag(files))[d] else 0 {
        if d in given { assert d in c.store.files; }
      }
    }
  }

  /** A blob is deleted exactly when the prune goes through and the files with several keys give back
      as many references to it as the survivors hold: for a blob that a survivor uses, as many as are
      still needed. */
  lemma LiveBlobLostIff(c: Cache, files: seq<Manifest>, ms: map<string, Manifest>, d: string)
    requires DiskOk(c) && Walk(c, files) && d in c.store.files
    requires forall k | k in ms :: OnDisk(c, ms[k])
    ensures Affordable(ms, files, c.store.files.Keys) && d in Spent(ms, files, c.store.files.Keys)
       <==> Covered(c, ms) && Owed(GivenTwice(ms))[d] == Owed(ImageCores(Files(c) - ms.Values))[d]
  {
    hide Manifest.WellFormed, Manifest.Latest, Owed, Bag, MapBag, ImageCores, DiskOk, Walk, Covered, Affordable,
         GivenTwice;
    GivenSplit(c, files, ms);
    AffordableIffCovered(c, files, ms);
  }

  // An image matched under its own `latest` url and again as the child of a matched list.

  function ExampleList(name: char): Manifest {
    Manifest(ExampleRequest(name).Url(), seq(DIGEST_LENGTH, _ => 'd'), false, [],
             [DIGEST_PREFIX + LatestImage(name).digest], "", "")
  }

  lemma ExampleListOk()
    ensures var list := ExampleList('a');
            list.WellFormed() && !list.Latest() && FromUrl(list.url) == Ok(ExampleRequest('a'))
  {
    hide FromUrl, PullRequest.Url;
    ExampleImageOk('a');
    NamesAgree(ExampleRequest('a'), ExampleImage('a'));
    assert ExampleList('a').url == ExampleImage('a').url;
  }

  lemma ExampleIsChild()
    ensures var child, list := LatestImage('a'), ExampleList('a');
            && ChildOf(list, map[child.digest := child], child.Alias(), child)
            && child.Alias() != child.url && child.Alias() != list.url && child.url != list.url
  {
    hide FromUrl, PullRequest.Url, PullRequest.UrlWithDigest, PullRequest.IsLatest, DigestFrom, Manifest.WellFormed,
         Manifest.Alias, LatestRequest, ExampleRequest;
    var list, child := ExampleList('a'), LatestImage('a');
    LatestImageOk();
    ExampleListOk();
    LatestUrlIsNoAlias(child, child);
    AliasDetermines(child, list);
    ExampleKey();
    ChildName(child.digest);
    assert list.digest[0] == 'd' && child.digest[0] == 'a';
    assert list.children[0] == DIGEST_PREFIX + child.digest;
  }

  lemma ExampleKey()
    ensures var child, list := LatestImage('a'), ExampleList('a');
            FromUrl(list.url).Ok? && ChildKey(list, DIGEST_PREFIX + child.digest) == child.Alias()
  {
    hide FromUrl, PullRequest.Url;
    LatestImageOk();
    ExampleListOk();
  }

  lemma ChildName(digest: string)
    requires IsDigest(digest)
    ensures DigestFrom(DIGEST_PREFIX + digest) == digest
  {
    var named := DIGEST_PREFIX + digest;
    assert named[|named| - DIGEST_LENGTH..] == digest;
  }

  // An image that was pulled by digest, as the child of a list.

  function ImgChild(): Manifest {
    ExampleImage('a').(url := ExampleImage('a').Alias())
  }

  const IMG_DISK: Cache :=
    Cache(map[], map[], DISK.store,
          map[ExampleList('a').digest := ExampleList('a'), ImgChild().digest := ImgChild()], map[])
  const LIST_ONLY: map<string, Manifest> := map[ExampleList('a').url := ExampleList('a')]

  lemma ImgChildOk()
    ensures var child, list := ImgChild(), ExampleList('a');
            && child.WellFormed() && IsDigest(child.digest) && !child.Latest() && child.image
            && child.digest != list.digest && child.url != list.url
            && |list.children| == 1 && list.children[0] == DIGEST_PREFIX + child.digest
  {
    hide FromUrl, PullRequest.Url, DigestFrom;
    var pr, m := ExampleRequest('a'), ExampleImage('a');
    ExampleImageOk('a');
    ByDigestImageOk(pr, m);
    NamesAgree(pr, m);
    ByTagRequest('a');
    assert ImgChild().digest[0] == 'a' && ExampleList('a').digest[0] == 'd';
  }

  /** The list was matched and names the image, whose key no match has; the image is not pruned. */
  lemma ImgChildExample()
    ensures var child, list := ImgChild(), ExampleList('a');
            && DiskOk(IMG_DISK) && Matched(IMG_DISK, LIST_ONLY) && OnDisk(IMG_DISK, child)
            && FromUrl(list.url).Ok? && ChildKey(list, list.children[0]) == child.url && child.url !in LIST_ONLY
            && DigestFrom(list.children[0]) == child.digest
            && Expansion(LIST_ONLY, IMG_DISK.lts, LIST_ONLY) && child !in LIST_ONLY.Values
  {
    hide FromUrl, PullRequest.Url, PullRequest.UrlWithDigest, DigestFrom, Manifest.WellFormed, Manifest.Latest,
         ExampleList, ImgChild;
    var child, list := ImgChild(), ExampleList('a');
    ImgChildOk();
    ExampleListOk();
    ImgChildKey();
    ChildName(child.digest);
    assert IMG_DISK.img[child.digest] == child && IMG_DISK.img[list.digest] == list;
    assert forall k, m :: !IsChild(LIST_ONLY, IMG_DISK.lts, k, m);
  }

  lemma ImgChildKey()
    ensures var child, list := ImgChild(), ExampleList('a');
            FromUrl(list.url).Ok? && ChildKey(list, DIGEST_PREFIX + child.digest) == child.url
  {
    hide FromUrl, PullRequest.Url;
    ExampleListOk();
    ExampleImageOk('a');
  }

  const LISTED_DISK: Cache :=
    Cache(map[], map[], DISK.store,
          map[ExampleList('a').digest := ExampleList('a'), ExampleImage('b').digest := ExampleImage('b')],
          map[LatestImage('a').digest := LatestImage('a')])
  const LISTED: map<string, Manifest> :=
    map[ExampleList('a').url := ExampleList('a'), LatestImage('a').url := LatestImage('a')]

  /** The expansion gives the child a second key. */
  lemma ChildMatchedTwice()
    ensures Expansion(LISTED, LISTED_DISK.lts, LISTED[LatestImage('a').Alias() := LatestImage('a')])
  {
    hide FromUrl, PullRequest.Url, PullRequest.UrlWithDigest, DigestFrom, Manifest.Alias, ExampleList, LatestImage;
    var child, list, lts, key := LatestImage('a'), ExampleList('a'), LISTED_DISK.lts, LatestImage('a').Alias();
    ExampleIsChild();
    ExampleListIs();
    assert lts == map[child.digest := child] && LISTED[list.url] == list;
    assert ChildOf(LISTED[list.url], lts, key, child);
    forall k, m | IsChild(LISTED, lts, k, m) ensures k == key {
      assert k == ChildKey(list, list.children[0]);
    }
  }

  lemma ExampleListIs()
    ensures var child, list := LatestImage('a'), ExampleList('a');
            && child.image && !list.image && |list.children| == 1
            && FromUrl(list.url).Ok? && ChildKey(list, list.children[0]) == child.Alias()
            && child.Core() == child && list.Core() == list && child.digest != list.digest
  {
    ExampleKey();
    assert LatestImage('a').digest[0] == 'a' && ExampleList('a').digest[0] == 'd';
  }

  lemma ListedDiskOk()
    ensures DiskOk(LISTED_DISK) && ExampleImage('b').digest != ExampleList('a').digest
    ensures ExampleImage('b').Blobs() == [LAYER] && ExampleImage('b').url != LatestImage('a').url
    ensures ExampleImage('b').image && ExampleImage('b').Core() == ExampleImage('b')
  {
    hide FromUrl, PullRequest.Url, PullRequest.UrlWithDigest, DigestFrom;
    ExampleListOk();
    LatestImageOk();
    ExampleImageOk('b');
    NamesAgree(ExampleRequest('b'), ExampleImage('b'));
    assert ExampleImage('b').digest[0] == 'b' && ExampleList('a').digest[0] == 'd';
  }

  lemma OwedTwice()
    ensures Owed(MapBag(LISTED[LatestImage('a').Alias() := LatestImage('a')])) == multiset{LAYER, LAYER}
  {
    hide FromUrl, PullRequest.Url, DigestFrom, Manifest.Alias, Owed, MapBag, ExampleList, LatestImage, Manifest.Blobs;
    var child, list, key := LatestImage('a'), ExampleList('a'), LatestImage('a').Alias();
    var all := LISTED[key := child];
    ExampleIsChild();
    ExampleListIs();
    LatestImageOk();
    MapBagRemove(all, key);
    MapBagRemove(all - {key}, child.url);
    MapBagRemove(all - {key} - {child.url}, list.url);
    assert all - {key} - {child.url} - {list.url} == map[];
    assert MapBag(map[]) == multiset{} by { AllSpent(all); }
    assert MapBag(all) == multiset{child} + multiset{child};
    OwedAdd(multiset{child}, child);
    OwedOne(child);
    assert multiset([LAYER]) == multiset{LAYER};
  }

  lemma ListedFiles()
    ensures Files(LISTED_DISK) == {ExampleList('a'), ExampleImage('b'), LatestImage('a')}
    ensures Owed(ImageCores(Files(LISTED_DISK))) == multiset{LAYER, LAYER}
    ensures ExampleImage('b') !in {ExampleList('a'), LatestImage('a')}
  {
    hide FromUrl, PullRequest.Url, DigestFrom, Manifest.Alias, Owed, ExampleList, LatestImage, ExampleImage,
         Manifest.Blobs, ImageCores;
    var child, list, other := LatestImage('a'), ExampleList('a'), ExampleImage('b');
    ExampleListIs();
    LatestImageOk();
    ListedDiskOk();
    FilesOf(LISTED_DISK, list, other, child);
    EmptyCores();
    CoresGrow({}, list);
    CoresGrow({} + {list}, other);
    CoresGrow({} + {list} + {other}, child);
    assert Files(LISTED_DISK) == {} + {list} + {other} + {child};
    assert ImageCores(Files(LISTED_DISK)) == multiset{other} + multiset{child};
    OwedAdd(multiset{other}, child);
    OwedOne(other);
    assert multiset([LAYER]) == multiset{LAYER};
  }

  lemma FilesOf(c: Cache, a: Manifest, b: Manifest, l: Manifest)
    requires a.digest != b.digest && c.img == map[a.digest := a, b.digest := b] && c.lts == map[l.digest := l]
    ensures Files(c) == {a, b, l}
  {
    assert c.img[a.digest] == a && c.img[b.digest] == b && c.lts[l.digest] == l;
  }

  /** Every file is matched or kept under its own url, yet the layer of an image that survives is
      deleted: the other image that uses it was matched once by its url and once as a child. */
  lemma MatchedTwiceExample(files: seq<Manifest>)
    requires Walk(LISTED_DISK, files)
    ensures var all, blobs := LISTED[LatestImage('a').Alias() := LatestImage('a')], LISTED_DISK.store.files.Keys;
            && DiskOk(LISTED_DISK) && Expansion(LISTED, LISTED_DISK.lts, all)
            && Affordable(all, files, blobs) && LAYER in Spent(all, files, blobs)
            && ExampleImage('b') in Files(LISTED_DISK) - all.Values && LAYER in ExampleImage('b').Blobs()
  {
    hide FromUrl, PullRequest.Url, DigestFrom, Manifest.Alias, Owed, MapBag, ExampleList, LatestImage, ExampleImage,
         Manifest.Blobs, Manifest.WellFormed, Manifest.Latest, Walk, ImageCores, DiskOk, Expansion, Bag;
    var child, list, other := LatestImage('a'), ExampleList('a'), ExampleImage('b');
    var all := LISTED[child.Alias() := child];
    ExampleListIs();
    ListedDiskOk();
    ChildMatchedTwice();
    OwedTwice();
    ListedFiles();
    TallySplits(LISTED_DISK, files, {});
    EmptyCores();
    OwedNone();
    assert Files(LISTED_DISK) - {} == Files(LISTED_DISK);
  }

  lemma OwedNone()
    ensures Owed(multiset{}) == multiset{}
  {
  }
}
