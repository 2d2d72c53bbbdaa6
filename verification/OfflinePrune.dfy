/** The offline pruner: a second implementation of the blob accounting, over the disk alone. */
module OfflinePrune {
  import opened PullRequests
  import opened Manifests
  import opened BlobStores
  import opened CacheState
  import opened Recovery
  import opened Disks

  // ---------------------------------------------------------------- what the maps amount to

  ghost function PickEntry(ms: map<string, Manifest>): string
    requires ms != map[]
    ensures PickEntry(ms) in ms
  {
    assert ms.Keys != {};
    var k :| k in ms.Keys; k
  }

  /** The credits of the values of a map, one per key. */
  ghost function MapBag(ms: map<string, Manifest>): multiset<Manifest>
    decreases |ms|
  {
    if ms == map[] then multiset{}
    else
      var k := PickEntry(ms);
      Credit(ms[k]) + MapBag(ms - {k})
  }

  lemma {:induction false} MapBagRemove(ms: map<string, Manifest>, k: string)
    requires k in ms
    ensures MapBag(ms) == Credit(ms[k]) + MapBag(ms - {k})
    decreases |ms|
  {
    hide Credit;
    var p := PickEntry(ms);
    if p != k {
      var both := ms - {p} - {k};
      assert both == ms - {k} - {p};
      MapBagRemove(ms - {p}, k);
      MapBagRemove(ms - {k}, p);
      assert (ms - {p})[k] == ms[k] && (ms - {k})[p] == ms[p];
    }
  }

  /** Under pairwise distinct values, the bag of a map is the bag of its value set. */
  lemma {:induction false} MapBagIsSet(ms: map<string, Manifest>)
    requires forall j, k | j in ms && k in ms && j != k :: ms[j].Core() != ms[k].Core()
    ensures MapBag(ms) == ImageCores(ms.Values)
    decreases |ms|
  {
    hide Credit, ImageCores;
    if ms == map[] {
      assert ms.Values == {};
      EmptyCores();
    } else {
      var k := PickEntry(ms);
      var rest := ms - {k};
      MapBagIsSet(rest);
      assert ms.Values == rest.Values + {ms[k]} by {
        forall m ensures m in ms.Values <==> m in rest.Values + {ms[k]} {
          if m in ms.Values {
            var j :| j in ms && ms[j] == m;
            if j != k { assert j in rest && rest[j] == m; }
          }
        }
      }
      CoresGrow(rest.Values, ms[k]);
    }
  }

  lemma EmptyCores()
    ensures ImageCores({}) == multiset{}
  {
  }

  /** Under pairwise distinct files, the bag of the walk is the bag of the set of its files. */
  lemma {:induction false} BagIsSet(files: seq<Manifest>)
    requires forall i, j | 0 <= i < j < |files| :: files[i].Core() != files[j].Core()
    ensures Bag(files) == ImageCores(set m | m in files)
    decreases |files|
  {
    hide Credit, ImageCores;
    if files == [] {
      assert (set m | m in files) == {};
      EmptyCores();
    } else {
      var rest := files[1..];
      BagIsSet(rest);
      assert (set m | m in files) == (set m | m in rest) + {files[0]};
      forall n | n in rest ensures n.Core() != files[0].Core() {
        var i :| 0 <= i < |rest| && rest[i] == n;
        assert files[i + 1] == n;
      }
      var others := set m | m in rest;
      CoresGrow(others, files[0]);
    }
  }

  // ---------------------------------------------------------------- expanding image lists

  /** The key under which a child of a list is added to the matches. */
  function ChildKey(m: Manifest, child: string): string
    requires FromUrl(m.url).Ok?
  {
    FromUrl(m.url).value.UrlWithDigest(child)
  }

  /** `k` is the key of a child of the list `m`, and the child is in `lts` as `found`. */
  ghost predicate ChildOf(m: Manifest, lts: map<string, Manifest>, k: string, found: Manifest) {
    !m.image && FromUrl(m.url).Ok? &&
    exists i :: 0 <= i < |m.children| && k == ChildKey(m, m.children[i])
                && DigestFrom(m.children[i]) in lts && found == lts[DigestFrom(m.children[i])]
  }

  ghost predicate IsChild(ms: map<string, Manifest>, lts: map<string, Manifest>, k: string, found: Manifest) {
    exists l :: l in ms && ChildOf(ms[l], lts, k, found)
  }

  /** The matches and, for every matched list, each child that `lts` holds. */
  ghost predicate Expansion(ms: map<string, Manifest>, lts: map<string, Manifest>, all: map<string, Manifest>) {
    && (forall k | k in ms :: k in all && all[k] == ms[k])
    && (forall k | k in all && k !in ms :: IsChild(ms, lts, k, all[k]))
    && (forall k, m | IsChild(ms, lts, k, m) :: k in all)
  }

  lemma ChildDetermined(ms: map<string, Manifest>, lts: map<string, Manifest>, k: string, m: Manifest, n: Manifest)
    requires forall l | l in ms :: ms[l].WellFormed()
    requires IsChild(ms, lts, k, m) && IsChild(ms, lts, k, n)
    ensures m == n
  {
    hide FromUrl, PullRequest.UrlWithDigest, DigestFrom, PullRequest.Url;
    var l :| l in ms && ChildOf(ms[l], lts, k, m);
    var l' :| l' in ms && ChildOf(ms[l'], lts, k, n);
    var a, b := ms[l], ms[l'];
    var i :| 0 <= i < |a.children| && k == ChildKey(a, a.children[i])
             && DigestFrom(a.children[i]) in lts && m == lts[DigestFrom(a.children[i])];
    var j :| 0 <= j < |b.children| && k == ChildKey(b, b.children[j])
             && DigestFrom(b.children[j]) in lts && n == lts[DigestFrom(b.children[j])];
    RoundTripIff(FromUrl(a.url).value);
    RoundTripIff(FromUrl(b.url).value);
    KeyParts(FromUrl(a.url).value, FromUrl(b.url).value, a.children[i], b.children[j]);
  }

  /** Every child that is cached for a matched list is an image. */
  ghost predicate ChildrenAreImages(ms: map<string, Manifest>, lts: map<string, Manifest>) {
    forall k, found | IsChild(ms, lts, k, found) :: found.image
  }

  /** When the cached children of all lists are images, nothing that is inserted is expanded in turn:
      whatever is closed under expansion is the expansion of the original matches. */
  lemma ImagesAreLeaves(ms: map<string, Manifest>, lts: map<string, Manifest>, all: map<string, Manifest>)
    requires forall m, k, found | m in ms.Values + lts.Values && ChildOf(m, lts, k, found) :: found.image
    requires forall k | k in ms :: k in all && all[k] == ms[k]
    requires forall k | k in all && k !in ms :: IsChild(all, lts, k, all[k])
    requires forall k, m | IsChild(all, lts, k, m) :: k in all
    ensures Expansion(ms, lts, all)
  {
    hide ChildOf;
    forall l | l in all && l !in ms ensures all[l] in lts.Values && all[l].image {
      var p :| p in all && ChildOf(all[p], lts, l, all[l]);
      FoundInLts(all[p], lts, l, all[l]);
      if p in ms {
        assert ms[p] in ms.Values;
      } else {
        var q :| q in all && ChildOf(all[q], lts, p, all[p]);
        FoundInLts(all[q], lts, p, all[p]);
      }
    }
    forall k | k in all && k !in ms ensures IsChild(ms, lts, k, all[k]) {
      var p :| p in all && ChildOf(all[p], lts, k, all[k]);
      NoChildren(all[p], lts);
      assert p in ms;
    }
    MoreParents(ms, all, lts);
  }

  lemma FoundInLts(m: Manifest, lts: map<string, Manifest>, k: string, found: Manifest)
    requires ChildOf(m, lts, k, found)
    ensures found in lts.Values && !m.image
  {
    hide FromUrl, PullRequest.UrlWithDigest, DigestFrom;
  }

  lemma NoChildren(m: Manifest, lts: map<string, Manifest>)
    ensures m.image ==> forall k, found :: !ChildOf(m, lts, k, found)
  {
  }

  lemma ChildPlace(m: Manifest, lts: map<string, Manifest>, ms: set<Manifest>)
    requires m in ms
    ensures forall k, found | ChildOf(m, lts, k, found) :: k in ChildKeys(ms) && found in lts.Values
  {
    hide FromUrl, PullRequest.UrlWithDigest, DigestFrom;
  }

  lemma MoreParents(ms: map<string, Manifest>, more: map<string, Manifest>, lts: map<string, Manifest>)
    requires forall k | k in ms :: k in more && more[k] == ms[k]
    ensures forall k, found | IsChild(ms, lts, k, found) :: IsChild(more, lts, k, found)
  {
    hide ChildOf;
  }

  lemma ParentKnown(ms: map<string, Manifest>, lts: map<string, Manifest>, l: string)
    requires l in ms
    ensures forall k, found | ChildOf(ms[l], lts, k, found) :: IsChild(ms, lts, k, found)
  {
    hide ChildOf;
  }

  lemma FewerLeft(universe: set<string>, before: set<string>, after: set<string>)
    requires before <= after && after - before <= universe
    ensures after == before || |universe - after| < |universe - before|
  {
    assert after == before + (after - before);
    if after != before {
      var k :| k in after - before;
      SmallerSet(universe - after, universe - before, k);
    }
  }

  lemma SmallerSet(a: set<string>, b: set<string>, k: string)
    requires a <= b && k in b && k !in a
    ensures |a| < |b|
  {
    assert b == a + (b - a) && |b| == |a| + |b - a|;
  }

  /** There is one expansion: the order in which the map is walked, and whether the walk sees what
      is inserted on the way, cannot matter. */
  lemma ExpansionUnique(ms: map<string, Manifest>, lts: map<string, Manifest>, a: map<string, Manifest>,
                        b: map<string, Manifest>)
    requires forall l | l in ms :: ms[l].WellFormed()
    requires Expansion(ms, lts, a) && Expansion(ms, lts, b)
    ensures a == b
  {
    hide Manifest.WellFormed, IsChild;
    forall k | k in a ensures k in b && b[k] == a[k] {
      if k !in ms { ChildDetermined(ms, lts, k, a[k], b[k]); }
    }
    forall k | k in b ensures k in a {
    }
  }

  // ---------------------------------------------------------------- references by layer

  /** How many layers of all the images name the blob. */
  ghost function Named(files: seq<Manifest>, d: string): nat {
    if files == [] then 0 else (if files[0].image then Occurs(files[0].layers, d) else 0) + Named(files[1..], d)
  }

  /** What is owed for a list of manifests is counted by the layers of its images. */
  lemma {:induction false} OwedIsNamed(files: seq<Manifest>, d: string)
    ensures Owed(Bag(files))[d] == Named(files, d)
    decreases |files|
  {
    hide Owed, Occurs, Credit, Manifest.Refs;
    if files == [] {
      assert Owed(multiset{}) == multiset{} by { NothingOwed(); }
    } else {
      OwedIsNamed(files[1..], d);
      CreditRefs(Bag(files[1..]), files[0]);
      RefsCount(files[0], d);
      assert Credit(files[0]) + Bag(files[1..]) == Bag(files[1..]) + Credit(files[0]);
    }
  }

  /** How many layers of the matched images name the blob. */
  ghost function NamedBy(ms: map<string, Manifest>, d: string): nat
    decreases |ms|
  {
    if ms == map[] then 0
    else
      var k := PickEntry(ms);
      (if ms[k].image then Occurs(ms[k].layers, d) else 0) + NamedBy(ms - {k}, d)
  }

  lemma {:induction false} OwedIsNamedBy(ms: map<string, Manifest>, d: string)
    ensures Owed(MapBag(ms))[d] == NamedBy(ms, d)
    decreases |ms|
  {
    hide Owed, Occurs, Credit, Manifest.Refs;
    if ms == map[] {
      assert Owed(multiset{}) == multiset{} by { NothingOwed(); }
    } else {
      var k := PickEntry(ms);
      OwedIsNamedBy(ms - {k}, d);
      CreditRefs(MapBag(ms - {k}), ms[k]);
      RefsCount(ms[k], d);
      assert Credit(ms[k]) + MapBag(ms - {k}) == MapBag(ms - {k}) + Credit(ms[k]);
    }
  }

  lemma AllNamedBy(ms: map<string, Manifest>)
    ensures forall d :: Owed(MapBag(ms))[d] == NamedBy(ms, d)
  {
    hide Owed, MapBag, NamedBy;
    forall d ensures Owed(MapBag(ms))[d] == NamedBy(ms, d) { OwedIsNamedBy(ms, d); }
  }

  // ---------------------------------------------------------------- the pruner

  class OfflinePruner {
    var matches: map<string, Manifest>
    var blobs: map<string, int>
    const fs: FileSystem

    constructor (fs: FileSystem, matches: map<string, Manifest>)
      ensures this.fs == fs && this.matches == matches && blobs == map[]
    {
      this.fs := fs;
      this.matches := matches;
      blobs := map[];
    }

    /** tallyBlobCount: one count per layer occurrence, for the blobs that have a file. */
    method TallyBlobCount() returns (ghost files: seq<Manifest>)
      modifies this`blobs
      ensures Walk(fs.View(), files)
      ensures blobs.Keys == old(blobs).Keys
      ensures forall d | d in blobs :: blobs[d] == old(blobs)[d] + Owed(Bag(files))[d]
      ensures forall d | d in blobs :: blobs[d] == old(blobs)[d] + Named(files, d)
    {
      hide Owed, Bag, Manifest.Blobs, Walk, Named, Occurs;
      var walk := fs.WalkTheCache();
      files := walk;
      assert walk[..0] == [];
      NothingOwed();
      for i := 0 to |walk|
        invariant blobs.Keys == old(blobs).Keys
        invariant forall d | d in blobs :: blobs[d] == old(blobs)[d] + Owed(Bag(walk[..i]))[d]
      {
        BagOwed(walk, i);
        if walk[i].image {
          TallyOne(walk[i]);
        }
      }
      assert walk[..|walk|] == walk;
      forall d { OwedIsNamed(walk, d); }
    }

    method TallyOne(m: Manifest)
      modifies this`blobs
      ensures blobs.Keys == old(blobs).Keys
      ensures forall d | d in blobs :: blobs[d] == old(blobs)[d] + multiset(m.Blobs())[d]
      ensures forall d | d in blobs :: blobs[d] == old(blobs)[d] + Occurs(m.layers, d)
    {
      hide DigestFrom, Occurs;
      AllOccur(m);
      ghost var ds := m.Blobs();
      for i := 0 to |m.layers|
        invariant blobs.Keys == old(blobs).Keys
        invariant forall d | d in blobs :: blobs[d] == old(blobs)[d] + multiset(ds[..i])[d]
      {
        var d := DigestFrom(m.layers[i]);
        assert ds[..i + 1] == ds[..i] + [d];
        if d in blobs {
          blobs := blobs[d := blobs[d] + 1];
        }
      }
      assert ds[..|ds|] == ds;
    }

    /** Adds the cached children of one image list. */
    method ExpandList(m: Manifest) returns (ok: bool)
      requires !m.image
      modifies this`matches
      ensures ok <==> m.children == [] || FromUrl(m.url).Ok?
      ensures ok ==> forall k, n | ChildOf(m, fs.lts, k, n) :: k in matches
      ensures forall k | k in old(matches) :: k in matches && matches[k] == old(matches)[k]
      ensures forall k | k in matches && k !in old(matches) :: ChildOf(m, fs.lts, k, matches[k])
    {
      hide FromUrl, PullRequest.UrlWithDigest, DigestFrom;
      for i := 0 to |m.children|
        invariant i > 0 ==> FromUrl(m.url).Ok?
        invariant forall k | k in old(matches) :: k in matches && matches[k] == old(matches)[k]
        invariant forall k | k in matches && k !in old(matches) :: ChildOf(m, fs.lts, k, matches[k])
        invariant FromUrl(m.url).Ok? ==>
                    forall j | 0 <= j < i && DigestFrom(m.children[j]) in fs.lts ::
                      ChildKey(m, m.children[j]) in matches
      {
        var pr := NewPullRequestFromUrl(m.url);
        if pr.Err? {
          return false;
        }
        var url := pr.value.UrlWithDigest(m.children[i]);
        if url !in matches {
          var found := fs.ReadManifest(m.children[i], true);
          if found.Some? {
            matches := matches[url := found.value];
          }
        }
      }
      return true;
    }

    method ExpandOne(url: string) returns (ok: bool)
      requires url in matches
      modifies this`matches
      ensures ExpandsOne(fs.lts, old(matches), matches, url, ok)
      ensures !ok ==> !old(matches)[url].image && FromUrl(old(matches)[url].url).Err?
    {
      hide FromUrl, ChildOf;
      var m := matches[url];
      ok := true;
      if !m.image {
        ok := ExpandList(m);
      }
    }

    /** addImageManifests: inserts into the map that it walks; a key inserted on the way may be
        walked or not. */
    method AddImageManifests() returns (ok: bool)
      modifies this`matches
      ensures ExpandsTo(old(matches), fs.lts, matches, ok)
      ensures !ok ==> exists l :: l in matches && !matches[l].image && FromUrl(matches[l].url).Err?
    {
      hide Expanding, ExpandsOne, IsChild, ChildOf, ChildKeys, FromUrl, ChildrenAreImages, OwnChildren,
           ExpandsTo;
      ghost var was, done, lts := matches, {}, fs.lts;
      ghost var universe := ChildKeys(was.Values + lts.Values);
      var todo := matches.Keys;
      StartExpanding(was, lts);
      while todo != {}
        invariant todo <= matches.Keys && was.Keys <= done + todo
        invariant Expanding(was, lts, matches, done)
        invariant ChildrenAreImages(was, lts) ==> OwnChildren(was, lts, matches)
        decreases |universe - matches.Keys|, |todo|
      {
        var url :| url in todo;
        todo := todo - {url};
        ghost var before := matches;
        var present := matches.Keys;
        var expanded := ExpandOne(url);
        KeepExpanding(was, lts, before, matches, done, url, expanded);
        KeepOwnChildren(was, lts, before, matches, done, url, expanded);
        AlreadyThere(lts, before, matches, url, expanded);
        if !expanded {
          NotExpanded(was, lts, matches, done);
          return false;
        }
        var visible :| visible <= matches.Keys - present;
        todo := todo + visible;
        done := done + {url};
      }
      ExpansionOf(was, lts, matches, done);
      return true;
    }

    method DecOne(m: Manifest) returns (ok: bool)
      modifies this`blobs
      requires forall d | d in blobs :: blobs[d] >= 0
      ensures ok <==> forall d :: multiset(m.Blobs())[d] <= Count(old(blobs), d)
      ensures ok ==> blobs.Keys == old(blobs).Keys
      ensures ok ==> forall d | d in blobs :: 0 <= blobs[d] == old(blobs)[d] - multiset(m.Blobs())[d]
      ensures ok <==> forall d :: Occurs(m.layers, d) <= Count(old(blobs), d)
      ensures ok ==> forall d | d in blobs :: blobs[d] == old(blobs)[d] - Occurs(m.layers, d)
    {
      hide DigestFrom, Occurs;
      AllOccur(m);
      ghost var ds := m.Blobs();
      for i := 0 to |m.layers|
        invariant blobs.Keys == old(blobs).Keys
        invariant forall d | d in blobs :: 0 <= blobs[d] == old(blobs)[d] - multiset(ds[..i])[d]
        invariant forall d | d in ds[..i] :: d in blobs
      {
        var d := DigestFrom(m.layers[i]);
        assert ds[..i + 1] == ds[..i] + [d];
        assert ds == ds[..i + 1] + ds[i + 1..];
        if d !in blobs {
          assert multiset(ds)[d] > 0;
          return false;
        }
        blobs := blobs[d := blobs[d] - 1];
        if blobs[d] < 0 {
          assert multiset(ds)[d] >= multiset(ds[..i + 1])[d];
          return false;
        }
      }
      assert ds[..|ds|] == ds;
      return true;
    }

    /** decBlobCounts: takes the references of all matches off the counts, and fails exactly when
        some blob has too few of them. */
    method DecBlobCounts() returns (ok: bool)
      modifies this`blobs
      requires forall d | d in blobs :: blobs[d] >= 0
      ensures ok <==> forall d :: Owed(MapBag(matches))[d] <= Count(old(blobs), d)
      ensures ok ==> blobs.Keys == old(blobs).Keys
      ensures ok ==> forall d | d in blobs :: blobs[d] == old(blobs)[d] - Owed(MapBag(matches))[d]
      ensures ok <==> forall d :: NamedBy(matches, d) <= Count(old(blobs), d)
      ensures ok ==> forall d | d in blobs :: blobs[d] == old(blobs)[d] - NamedBy(matches, d)
    {
      hide Owed, MapBag, Manifest.Blobs, NamedBy, Occurs;
      AllNamedBy(matches);
      var todo := matches.Keys;
      ghost var spent: multiset<Manifest> := multiset{};
      NothingSpent(matches);
      while todo != {}
        invariant todo <= matches.Keys && blobs.Keys == old(blobs).Keys
        invariant MapBag(matches) == spent + MapBag(Sub(matches, todo))
        invariant forall d | d in blobs :: 0 <= blobs[d] == old(blobs)[d] - Owed(spent)[d]
        invariant forall d | d in Owed(spent) :: d in blobs
      {
        var k :| k in todo;
        SpendOne(matches, todo, spent, k);
        todo := todo - {k};
        var m := matches[k];
        if m.image {
          var taken := DecOne(m);
          if !taken {
            ghost var d :| multiset(m.Blobs())[d] > Count(old(blobs), d) - Owed(spent)[d];
            assert Owed(MapBag(matches))[d] > Count(old(blobs), d);
            return false;
          }
        }
        spent := spent + Credit(m);
      }
      AllSpent(matches);
      assert spent + MapBag(Sub(matches, todo)) == spent;
      return true;
    }

    /** doPrune: nothing is deleted before all counts have been lowered without error, and nothing
        is deleted in a dry run. */
    method DoPrune(dryRun: bool) returns (ok: bool, ghost files: seq<Manifest>)
      modifies this, fs
      ensures Walk(old(fs.View()), files)
      ensures ExpandsTo(old(matches), old(fs.lts), matches, ok)
      ensures ok ==> CountsLeft(files, matches, old(fs.blobs).Keys, blobs)
      ensures Collects(old(fs.View()), files, matches, dryRun, ok, fs.View())
    {
      hide Owed, MapBag, Bag, FromUrl, Manifest.Latest, Walk, ExpandsTo, CountsLeft, Affordable, Spent, Names,
           PartlySwept;
      ghost var before := fs.View();
      var all := fs.GetAllBlobs();
      blobs := all;
      files := TallyBlobCount();
      ghost var tally := blobs;
      ok := AddImageManifests();
      if !ok {
        return;
      }
      ExpandedAnyway(old(matches), fs.lts, matches);
      ok := DecBlobCounts();
      AffordableIff(matches, files, before.store.files.Keys, tally);
      if !ok {
        return;
      }
      SpentAre(matches, files, before.store.files.Keys, tally, blobs);
      SweepBlobs(dryRun);
      ok := SweepManifests(dryRun);
    }

    /** Deletes the blobs that nobody references any more. */
    method SweepBlobs(dryRun: bool)
      modifies fs`blobs, fs`blobGauge, fs`byteGauge
      ensures fs.blobs == if dryRun then old(fs.blobs) else old(fs.blobs) - set d | d in blobs && blobs[d] == 0
    {
      var todo := blobs.Keys;
      ghost var was, gone := fs.blobs, {};
      while todo != {}
        invariant todo <= blobs.Keys && gone == set d | d in blobs && d !in todo && blobs[d] == 0
        invariant fs.blobs == if dryRun then was else was - gone
      {
        var d :| d in todo;
        todo := todo - {d};
        if blobs[d] == 0 {
          gone := gone + {d};
          if !dryRun {
            ghost var now := fs.Store(map[]);
            fs.RmBlob(d);
            assert fs.Store(map[]) == RmBlobFile(now, d);
            assert was - gone == (was - (gone - {d})) - {d};
          }
        }
      }
    }

    /** Deletes the manifest files of the matches. */
    method SweepManifests(dryRun: bool) returns (ok: bool)
      modifies fs`img, fs`lts, fs`manifestGauge
      ensures Parsable(matches) || dryRun ==> ok
      ensures dryRun ==> fs.img == old(fs.img) && fs.lts == old(fs.lts)
      ensures ok && !dryRun ==>
                fs.img == old(fs.img) - Names(matches, false) && fs.lts == old(fs.lts) - Names(matches, true)
      ensures !dryRun ==> PartlySwept(matches, old(fs.img), old(fs.lts), fs.img, fs.lts)
    {
      hide Names, FromUrl, Manifest.Latest;
      var left := matches.Keys;
      ghost var img, lts := fs.img, fs.lts;
      NoNames(matches);
      while left != {}
        invariant left <= matches.Keys
        invariant dryRun ==> fs.img == img && fs.lts == lts
        invariant !dryRun ==>
                    && fs.img == img - Names(Sub(matches, matches.Keys - left), false)
                    && fs.lts == lts - Names(Sub(matches, matches.Keys - left), true)
      {
        var k :| k in left;
        ghost var swept, name := matches.Keys - left, matches[k].digest;
        MoreNames(matches, swept, k, false);
        MoreNames(matches, swept, k, true);
        RemoveBoth(img, Names(Sub(matches, swept), false), {name});
        RemoveBoth(lts, Names(Sub(matches, swept), true), {name});
        left := left - {k};
        assert matches.Keys - left == swept + {k};
        if !dryRun {
          var removed := fs.RmManifest(matches[k]);
          if !removed {
            return false;
          }
        }
      }
      assert Sub(matches, matches.Keys - left) == matches;
      return true;
    }
  }

  /** The files of some of the matches are gone, and no others. */
  ghost predicate PartlySwept(ms: map<string, Manifest>, img: map<string, Manifest>, lts: map<string, Manifest>,
                              img': map<string, Manifest>, lts': map<string, Manifest>) {
    exists swept: set<string> :: swept <= ms.Keys
                                 && img' == img - Names(Sub(ms, swept), false)
                                 && lts' == lts - Names(Sub(ms, swept), true)
  }

  /** What addImageManifests makes of the matches: it keeps them, inserts nothing but cached children,
      and misses none of the original lists. When the children of these are images, the result is the
      one expansion of the matches. */
  ghost predicate ExpandsTo(was: map<string, Manifest>, lts: map<string, Manifest>, ms: map<string, Manifest>,
                            ok: bool) {
    && (forall k | k in was :: k in ms && ms[k] == was[k])
    && (forall k | k in ms && k !in was :: IsChild(ms, lts, k, ms[k]))
    && (ok ==> forall k, m | IsChild(was, lts, k, m) :: k in ms)
    && (ok && ChildrenAreImages(was, lts) ==> Expansion(was, lts, ms))
  }

  /** Each blob file is left with the references that the matches do not give back. */
  ghost predicate CountsLeft(files: seq<Manifest>, ms: map<string, Manifest>, blobs: set<string>,
                             left: map<string, int>) {
    left.Keys == blobs && forall d | d in blobs :: left[d] + Owed(MapBag(ms))[d] == Owed(Bag(files))[d]
  }

  predicate SameFiles(c: Cache, c': Cache) {
    c'.store.files == c.store.files && c'.img == c.img && c'.lts == c.lts
  }

  /** What doPrune does to the directory. It fails with everything in place when the counts do not
      suffice. Only when a match has a url that does not parse can it fail later: then the blobs are
      gone, and the files of some of the matches. */
  ghost predicate Collects(c: Cache, files: seq<Manifest>, ms: map<string, Manifest>, dryRun: bool, ok: bool,
                           c': Cache) {
    var blobs := c.store.files.Keys;
    var left := c.store.files - Spent(ms, files, blobs);
    && (Parsable(ms) ==> (ok <==> Affordable(ms, files, blobs)))
    && (!Affordable(ms, files, blobs) ==> !ok)
    && (!Affordable(ms, files, blobs) || (!ok && Parsable(ms)) || dryRun ==> SameFiles(c, c'))
    && (ok && !dryRun ==>
          c'.store.files == left && c'.img == c.img - Names(ms, false) && c'.lts == c.lts - Names(ms, true))
    && (!ok && !SameFiles(c, c') ==> c'.store.files == left && PartlySwept(ms, c.img, c.lts, c'.img, c'.lts))
  }

  predicate Parsable(ms: map<string, Manifest>) {
    forall k | k in ms :: FromUrl(ms[k].url).Ok?
  }

  lemma NoNames(ms: map<string, Manifest>)
    ensures forall b :: Names(Sub(ms, ms.Keys - ms.Keys), b) == {}
  {
  }

  lemma MoreNames(ms: map<string, Manifest>, keys: set<string>, k: string, isLatest: bool)
    requires keys <= ms.Keys && k in ms
    ensures Names(Sub(ms, keys + {k}), isLatest)
         == Names(Sub(ms, keys), isLatest) + if ms[k].Latest() == isLatest then {ms[k].digest} else {}
  {
    hide Manifest.Latest;
    var more, few := Sub(ms, keys + {k}), Sub(ms, keys);
    assert forall j | j in few :: j in more && more[j] == few[j];
    assert forall j | j in more && j != k :: j in few && more[j] == few[j];
    assert k in more;
  }

  lemma RemoveBoth(dir: map<string, Manifest>, a: set<string>, b: set<string>)
    ensures dir - a - b == dir - (a + b)
  {
  }

  lemma AffordableIff(ms: map<string, Manifest>, files: seq<Manifest>, blobs: set<string>, tally: map<string, int>)
    requires tally.Keys == blobs && forall d | d in tally :: tally[d] == Owed(Bag(files))[d]
    ensures Affordable(ms, files, blobs) <==> forall d :: Owed(MapBag(ms))[d] <= Count(tally, d)
  {
    hide Owed, MapBag, Bag;
    var all, given := Owed(Bag(files)), Owed(MapBag(ms));
    assert forall d :: Count(tally, d) == if d in blobs then all[d] else 0;
    if Affordable(ms, files, blobs) {
      forall d ensures given[d] <= Count(tally, d) {
        assert given[d] <= if d in blobs then all[d] else 0;
      }
    }
    if forall d :: given[d] <= Count(tally, d) {
      forall d ensures given[d] <= if d in blobs then all[d] else 0 {
        assert given[d] <= Count(tally, d);
      }
    }
  }

  lemma SpentAre(ms: map<string, Manifest>, files: seq<Manifest>, blobs: set<string>, tally: map<string, int>,
                 left: map<string, int>)
    requires tally.Keys == left.Keys == blobs && forall d | d in tally :: tally[d] == Owed(Bag(files))[d]
    requires forall d | d in left :: left[d] == tally[d] - Owed(MapBag(ms))[d]
    ensures Spent(ms, files, blobs) == set d | d in left && left[d] == 0
    ensures CountsLeft(files, ms, blobs, left)
  {
    hide Owed, MapBag, Bag;
  }

  ghost predicate OnDisk(c: Cache, m: Manifest) {
    m in c.img.Values || m in c.lts.Values
  }

  /** Every reference that the matches give back was counted. */
  ghost predicate Affordable(ms: map<string, Manifest>, files: seq<Manifest>, blobs: set<string>) {
    forall d :: Owed(MapBag(ms))[d] <= if d in blobs then Owed(Bag(files))[d] else 0
  }

  /** The blobs whose references are all given back. */
  ghost function Spent(ms: map<string, Manifest>, files: seq<Manifest>, blobs: set<string>): set<string> {
    set d | d in blobs && Owed(Bag(files))[d] == Owed(MapBag(ms))[d]
  }

  /** The file names of the matches of one class. */
  ghost function Names(ms: map<string, Manifest>, isLatest: bool): set<string> {
    set k | k in ms && ms[k].Latest() == isLatest :: ms[k].digest
  }

  ghost function Sub(ms: map<string, Manifest>, keys: set<string>): map<string, Manifest>
    requires keys <= ms.Keys
  {
    map k | k in keys :: ms[k]
  }

  lemma NothingSpent(ms: map<string, Manifest>)
    ensures MapBag(ms) == multiset{} + MapBag(Sub(ms, ms.Keys)) && Owed(multiset{}) == multiset{}
  {
    hide MapBag;
    assert Sub(ms, ms.Keys) == ms;
  }

  lemma AllSpent(ms: map<string, Manifest>)
    ensures MapBag(Sub(ms, {})) == multiset{}
  {
    assert Sub(ms, {}) == map[];
  }

  lemma SpendOne(ms: map<string, Manifest>, todo: set<string>, spent: multiset<Manifest>, k: string)
    requires k in todo && todo <= ms.Keys && MapBag(ms) == spent + MapBag(Sub(ms, todo))
    ensures MapBag(ms) == spent + Credit(ms[k]) + MapBag(Sub(ms, todo - {k}))
    ensures Owed(spent + Credit(ms[k])) == Owed(spent) + ms[k].Refs() <= Owed(MapBag(ms))
  {
    hide MapBag, Owed, Credit, Manifest.Refs;
    MapBagRemove(Sub(ms, todo), k);
    assert Sub(ms, todo) - {k} == Sub(ms, todo - {k});
    CreditRefs(spent, ms[k]);
    OwedUnion(spent + Credit(ms[k]), MapBag(Sub(ms, todo - {k})));
  }

  /** Where the expansion of `was` stands when the lists among `done` have been expanded. */
  ghost predicate Expanding(was: map<string, Manifest>, lts: map<string, Manifest>, ms: map<string, Manifest>,
                            done: set<string>) {
    && done <= ms.Keys
    && (forall k | k in ms :: ms[k] in was.Values + lts.Values)
    && (forall k | k in was :: k in ms && ms[k] == was[k])
    && (forall k | k in ms && k !in was :: IsChild(ms, lts, k, ms[k]))
    && (forall l, k, m | l in done && ChildOf(ms[l], lts, k, m) :: k in ms)
  }

  lemma StartExpanding(was: map<string, Manifest>, lts: map<string, Manifest>)
    ensures Expanding(was, lts, was, {}) && OwnChildren(was, lts, was)
  {
  }

  /** Everything that was inserted is an image, and a child of the original matches. */
  ghost predicate OwnChildren(was: map<string, Manifest>, lts: map<string, Manifest>, ms: map<string, Manifest>) {
    forall k | k in ms && k !in was :: ms[k].image && IsChild(was, lts, k, ms[k])
  }

  lemma KeepOwnChildren(was: map<string, Manifest>, lts: map<string, Manifest>, before: map<string, Manifest>,
                        after: map<string, Manifest>, done: set<string>, url: string, expanded: bool)
    requires Expanding(was, lts, before, done) && ExpandsOne(lts, before, after, url, expanded)
    ensures ChildrenAreImages(was, lts) && OwnChildren(was, lts, before) ==> OwnChildren(was, lts, after)
  {
    hide ChildOf, IsChild;
    if url in was { ParentKnown(was, lts, url); }
  }

  lemma ExpandedAnyway(was: map<string, Manifest>, lts: map<string, Manifest>, ms: map<string, Manifest>)
    requires ExpandsTo(was, lts, ms, true)
    ensures ExpandsTo(was, lts, ms, false)
  {
    hide IsChild, ChildrenAreImages;
  }

  lemma NotExpanded(was: map<string, Manifest>, lts: map<string, Manifest>, ms: map<string, Manifest>,
                    done: set<string>)
    requires Expanding(was, lts, ms, done)
    ensures ExpandsTo(was, lts, ms, false)
  {
    hide ChildOf, IsChild;
  }

  lemma ExpansionOf(was: map<string, Manifest>, lts: map<string, Manifest>, ms: map<string, Manifest>,
                    done: set<string>)
    requires Expanding(was, lts, ms, done)
    requires ChildrenAreImages(was, lts) ==> OwnChildren(was, lts, ms)
    ensures ExpandsTo(was, lts, ms, was.Keys <= done)
  {
    hide ChildOf, IsChild, ChildrenAreImages;
    Expanded(was, lts, ms, done);
  }

  lemma Expanded(was: map<string, Manifest>, lts: map<string, Manifest>, ms: map<string, Manifest>, done: set<string>)
    requires Expanding(was, lts, ms, done)
    ensures forall k | k in was :: k in ms && ms[k] == was[k]
    ensures forall k | k in ms && k !in was :: IsChild(ms, lts, k, ms[k])
    ensures was.Keys <= done ==> forall k, m | IsChild(was, lts, k, m) :: k in ms
  {
    hide ChildOf;
    if was.Keys <= done {
      forall k, m | IsChild(was, lts, k, m) ensures k in ms {
        var l :| l in was && ChildOf(was[l], lts, k, m);
        assert l in done && ms[l] == was[l];
      }
    }
  }

  /** One list has been expanded, or part of it. */
  ghost predicate ExpandsOne(lts: map<string, Manifest>, before: map<string, Manifest>, after: map<string, Manifest>,
                             url: string, expanded: bool) {
    && url in before && (before[url].image ==> after == before)
    && (forall k | k in before :: k in after && after[k] == before[k])
    && (forall k | k in after && k !in before :: ChildOf(before[url], lts, k, after[k]))
    && (!before[url].image && expanded ==> forall k, n | ChildOf(before[url], lts, k, n) :: k in after)
  }

  lemma KeepExpanding(was: map<string, Manifest>, lts: map<string, Manifest>, before: map<string, Manifest>,
                      after: map<string, Manifest>, done: set<string>, url: string, expanded: bool)
    requires Expanding(was, lts, before, done) && ExpandsOne(lts, before, after, url, expanded)
    ensures Expanding(was, lts, after, if expanded then done + {url} else done)
    ensures var universe := ChildKeys(was.Values + lts.Values);
            after.Keys == before.Keys || |universe - after.Keys| < |universe - before.Keys|
  {
    hide ChildOf, IsChild, ChildKeys, Expanding;
    KeepExpanded(was, lts, before, after, done, url, expanded);
    NewKeys(was, lts, before, after, done, url, expanded);
    FewerLeft(ChildKeys(was.Values + lts.Values), before.Keys, after.Keys);
  }

  lemma AlreadyThere(lts: map<string, Manifest>, before: map<string, Manifest>, after: map<string, Manifest>,
                     url: string, expanded: bool)
    requires ExpandsOne(lts, before, after, url, expanded)
    ensures before.Keys <= after.Keys && url in before && after[url] == before[url]
  {
  }

  lemma NewKeys(was: map<string, Manifest>, lts: map<string, Manifest>, before: map<string, Manifest>,
                after: map<string, Manifest>, done: set<string>, url: string, expanded: bool)
    requires Expanding(was, lts, before, done) && ExpandsOne(lts, before, after, url, expanded)
    ensures before.Keys <= after.Keys && after.Keys - before.Keys <= ChildKeys(was.Values + lts.Values)
    ensures forall k | k in after && k !in before :: after[k] in lts.Values
  {
    hide ChildOf, IsChild, ChildKeys;
    ChildPlace(before[url], lts, was.Values + lts.Values);
  }

  lemma KeepExpanded(was: map<string, Manifest>, lts: map<string, Manifest>, before: map<string, Manifest>,
                     after: map<string, Manifest>, done: set<string>, url: string, expanded: bool)
    requires Expanding(was, lts, before, done) && ExpandsOne(lts, before, after, url, expanded)
    ensures Expanding(was, lts, after, if expanded then done + {url} else done)
  {
    hide ChildOf, IsChild, ChildKeys;
    NoChildren(before[url], lts);
    NewKeys(was, lts, before, after, done, url, expanded);
    MoreParents(before, after, lts);
    ParentKnown(after, lts, url);
  }

  /** All keys that children of the given manifests can get. */
  ghost function ChildKeys(ms: set<Manifest>): set<string> {
    set m, i | m in ms && 0 <= i < |m.children| && FromUrl(m.url).Ok? :: ChildKey(m, m.children[i])
  }

  lemma NothingOwed()
    ensures Owed(Bag([])) == multiset{}
  {
  }
}
