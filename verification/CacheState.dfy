/** The manifest cache, its disk and its blob counts as one value, the operations on it, and the
    invariant that every operation keeps. */
module CacheState {
  import opened PullRequests
  import opened Manifests
  import opened BlobStores

  /** `manifests` and `latest` are the two in-memory maps; `img` and `lts` the manifest files by
      digest; `store` the blob counts and the blob files. */
  datatype Cache = Cache(manifests: map<string, Manifest>, latest: map<string, Manifest>,
                         store: BlobStore, img: map<string, Manifest>, lts: map<string, Manifest>)

  // ---------------------------------------------------------------- operations

  function FromCache(c: Cache, url: string): Option<Manifest> {
    if url in c.manifests then Some(c.manifests[url])
    else if url in c.latest then Some(c.latest[url])
    else None
  }

  /** Writes the manifest file; a manifest whose url does not parse is not written. */
  function WriteManifest(c: Cache, m: Manifest): Cache {
    match m.IsLatest()
    case Err(_) => c
    case Ok(latest) => if latest then c.(lts := c.lts[m.digest := m]) else c.(img := c.img[m.digest := m])
  }

  function RemoveManifestFile(c: Cache, m: Manifest): Cache {
    match m.IsLatest()
    case Err(_) => c
    case Ok(latest) => if latest then c.(lts := c.lts - {m.digest}) else c.(img := c.img - {m.digest})
  }

  function AddManifest(c: Cache, pr: PullRequest, m: Manifest): Cache {
    var alias := pr.UrlWithDigest(DIGEST_PREFIX + m.digest);
    if pr.IsLatest() then c.(latest := c.latest[pr.Url() := m][alias := m])
    else if pr.pullType == ByTag then c.(manifests := c.manifests[pr.Url() := m][alias := m])
    else c.(manifests := c.manifests[pr.Url() := m])
  }

  function DeleteManifest(c: Cache, pr: PullRequest, digest: string): Cache {
    var alias := pr.UrlWithDigest(DIGEST_PREFIX + digest);
    if pr.IsLatest() then c.(latest := c.latest - {pr.Url(), alias})
    else if pr.pullType == ByTag then c.(manifests := c.manifests - {pr.Url(), alias})
    else c.(manifests := c.manifests - {pr.Url()})
  }

  /** Drops the manifest from memory and from disk; its blobs are left alone. */
  function RmManifest(c: Cache, m: Manifest): Cache {
    match FromUrl(m.url)
    case Err(_) => c
    case Ok(pr) => RemoveManifestFile(DeleteManifest(c, pr, m.digest), m)
  }

  function CountBlobs(c: Cache, m: Manifest): (Cache, bool) {
    if m.image then
      var (store, ok) := AddBlobs(c.store, m.Blobs());
      (c.(store := store), ok)
    else (c, true)
  }

  function ReleaseBlobs(c: Cache, m: Manifest): Cache {
    if m.image then c.(store := RmBlobs(c.store, m.Blobs()).0) else c
  }

  /** addToCache: the manifest is cached even when one of its blobs turns out to be missing. */
  function Add(c: Cache, pr: PullRequest, m: Manifest): (Cache, bool) {
    CountBlobs(AddManifest(c, pr, m), m)
  }

  /** replaceInCache: the new blobs are counted before the old ones are released. */
  function Replace(c: Cache, pr: PullRequest, m: Manifest): (Cache, bool) {
    match FromCache(c, pr.Url())
    case None => Add(c, pr, m)
    case Some(was) =>
      if was.digest == m.digest then (c, true)
      else (ReleaseBlobs(CountBlobs(AddManifest(RmManifest(c, was), pr, m), m).0, was), true)
  }

  function Prune(c: Cache, m: Manifest): Cache {
    ReleaseBlobs(RmManifest(c, m), m)
  }

  /** The key under which a request is served: its own url or the other docker.io spelling. */
  function ServedKey(c: Cache, pr: PullRequest): string {
    if FromCache(c, pr.Url()).Some? || pr.AltDockerUrl() == "" then pr.Url() else pr.AltDockerUrl()
  }

  /** getManifestFromCache: a hit is stamped, written back in memory and written to disk. */
  function Get(c: Cache, pr: PullRequest, now: string): (Cache, Option<Manifest>) {
    var key := ServedKey(c, pr);
    match FromCache(c, key)
    case None => (c, None)
    case Some(found) =>
      var m := found.(pulled := now);
      var c' := if pr.IsLatest() then c.(latest := c.latest[key := m])
                else c.(manifests := c.manifests[key := m]);
      (WriteManifest(c', m), if m.IsLatest().Ok? then Some(m) else None)
  }

  // ---------------------------------------------------------------- the invariant

  /** In `manifests` every key is the digest key of its manifest, or its url when that is not a
      `latest` url. */
  ghost predicate ManifestKeys(manifests: map<string, Manifest>) {
    forall k | k in manifests ::
      var m := manifests[k];
      m.WellFormed() && (k == m.Alias() || (k == m.url && !m.Latest()))
  }

  /** In `latest` every manifest has a `latest` url, and every key is that url or the digest key. */
  ghost predicate LatestKeys(latest: map<string, Manifest>) {
    forall k | k in latest ::
      var m := latest[k];
      m.WellFormed() && m.Latest() && (k == m.Alias() || k == m.url)
  }

  ghost predicate KeysOk(c: Cache) {
    ManifestKeys(c.manifests) && LatestKeys(c.latest)
  }

  /** The entry under its own url, which is what the pruner selects. */
  predicate Primary(entries: map<string, Manifest>, k: string) {
    k in entries && entries[k].url == k
  }

  ghost predicate Backed(entries: map<string, Manifest>, credits: multiset<Manifest>) {
    forall k | Primary(entries, k) && entries[k].image :: entries[k].Core() in credits
  }

  /** `credits` are the image manifests added and not yet removed. The blob counts are exactly the
      references the credits hold, and every primary image manifest holds a credit. */
  ghost predicate Inv(c: Cache, credits: multiset<Manifest>) {
    && KeysOk(c)
    && Sound(c.store, Owed(credits))
    && Backed(c.manifests, credits) && Backed(c.latest, credits)
  }

  ghost function Credit(m: Manifest): multiset<Manifest> {
    if m.image then multiset{m.Core()} else multiset{}
  }

  predicate HasBlobs(files: map<string, nat>, m: Manifest) {
    forall d | d in m.Blobs() :: d in files
  }

  predicate BlobsOnDisk(c: Cache, m: Manifest) {
    HasBlobs(c.store.files, m)
  }

  /** What the invariant is for: a primary image manifest can be served, layers and all. */
  lemma PrimaryIsServable(c: Cache, credits: multiset<Manifest>, k: string)
    requires Inv(c, credits)
    requires Primary(c.manifests, k) || Primary(c.latest, k)
    ensures FromCache(c, k).Some?
    ensures var m := if Primary(c.manifests, k) then c.manifests[k] else c.latest[k];
            m.image ==> BlobsOnDisk(c, m) && forall d | d in m.Blobs() :: Count(c.store.counts, d) > 0
  {
    var m := if Primary(c.manifests, k) then c.manifests[k] else c.latest[k];
    if m.image {
      OwedIncludes(credits, m.Core());
      CoreSame(m);
      assert forall d | d in m.Blobs() :: d in m.Refs();
    }
  }

  // ---------------------------------------------------------------- keys

  /** `m` is what the upstream returns for `pr`. */
  ghost predicate Requests(pr: PullRequest, m: Manifest) {
    m.WellFormed() && FromUrl(m.url) == Ok(pr)
  }

  lemma NamesAgree(pr: PullRequest, m: Manifest)
    requires Requests(pr, m)
    ensures pr.Url() == m.url && pr.UrlWithDigest(DIGEST_PREFIX + m.digest) == m.Alias()
    ensures pr.IsLatest() == m.Latest() && m.IsLatest() == Ok(m.Latest())
    ensures pr.pullType == ByTag <==> m.url != m.Alias()
    ensures m.Latest() ==> m.url != m.Alias()
  {
    KeysParse(m);
  }

  /** The class of a key fixes the map, and the place in it, where the key can occur. */
  lemma KeyPlace(c: Cache, k: string)
    requires KeysOk(c)
    ensures k in c.manifests || k in c.latest ==> FromUrl(k).Ok?
    ensures k in c.manifests ==> !FromUrl(k).value.IsLatest()
    ensures k in c.latest ==> (k == c.latest[k].url <==> FromUrl(k).value.IsLatest())
    ensures k in c.latest ==> (k == c.latest[k].Alias() <==> !FromUrl(k).value.IsLatest())
  {
    if k in c.manifests { KeysParse(c.manifests[k]); }
    if k in c.latest { KeysParse(c.latest[k]); }
  }

  lemma AddManifestKeys(c: Cache, pr: PullRequest, m: Manifest)
    requires KeysOk(c) && Requests(pr, m)
    ensures KeysOk(AddManifest(c, pr, m)) && AddManifest(c, pr, m).store == c.store
  {
    hide FromUrl, PullRequest.Url, PullRequest.UrlWithDigest, PullRequest.IsLatest, Manifest.WellFormed,
         Manifest.Alias, Manifest.Latest, Manifest.IsLatest;
    NamesAgree(pr, m);
  }

  /** Both keys of an added manifest hold it; for a manifest by digest they are one. */
  lemma AddManifestMaps(c: Cache, pr: PullRequest, m: Manifest)
    requires Requests(pr, m)
    ensures var c' := AddManifest(c, pr, m);
            && c'.latest == (if m.Latest() then c.latest[m.url := m][m.Alias() := m] else c.latest)
            && c'.manifests == (if m.Latest() then c.manifests else c.manifests[m.url := m][m.Alias() := m])
  {
    hide FromUrl, PullRequest.Url, PullRequest.UrlWithDigest, PullRequest.IsLatest, Manifest.WellFormed,
         Manifest.Alias, Manifest.Latest, Manifest.IsLatest;
    NamesAgree(pr, m);
  }

  /** Exactly the two keys and the one file of the manifest go. */
  lemma RmManifestKeys(c: Cache, pr: PullRequest, m: Manifest)
    requires KeysOk(c) && Requests(pr, m)
    ensures KeysOk(RmManifest(c, m)) && RmManifest(c, m).store == c.store
    ensures var gone := {m.url, m.Alias()};
            && RmManifest(c, m).latest == (if m.Latest() then c.latest - gone else c.latest)
            && RmManifest(c, m).manifests == (if m.Latest() then c.manifests else c.manifests - gone)
            && RmManifest(c, m).lts == (if m.Latest() then c.lts - {m.digest} else c.lts)
            && RmManifest(c, m).img == (if m.Latest() then c.img else c.img - {m.digest})
  {
    hide FromUrl, PullRequest.Url, PullRequest.UrlWithDigest, PullRequest.IsLatest, Manifest.WellFormed,
         Manifest.Alias, Manifest.Latest, Manifest.IsLatest;
    NamesAgree(pr, m);
  }

  /** Both spellings of a request are of the same class, so a hit is found where it is written back. */
  lemma ServedKeyClass(c: Cache, pr: PullRequest)
    requires KeysOk(c) && pr.WellFormed()
    requires FromCache(c, ServedKey(c, pr)).Some?
    ensures FromUrl(ServedKey(c, pr)).Ok?
    ensures FromUrl(ServedKey(c, pr)).value.IsLatest() == pr.IsLatest()
  {
    var key := ServedKey(c, pr);
    KeyPlace(c, key);
    RoundTripIff(pr);
    if key != pr.Url() {
      AltPrints(pr);
      var alt := pr.(repository := AltRepository(pr.repository));
      if alt.repository == "" {
        EmptyRepository(alt);
      } else {
        AltClean(pr);
        RoundTripIff(alt);
      }
    }
  }

  // ---------------------------------------------------------------- every operation keeps the invariant

  lemma NoCredit(credits: multiset<Manifest>, m: Manifest)
    requires !m.image
    ensures credits + Credit(m) == credits && credits - Credit(m) == credits
  {
  }

  lemma CreditOwed(credits: multiset<Manifest>, m: Manifest)
    requires m.image
    ensures Owed(credits + Credit(m)) == Owed(credits) + multiset(m.Blobs())
    ensures m.Core() in credits ==>
              && multiset(m.Blobs()) <= Owed(credits)
              && Owed(credits - Credit(m)) == Owed(credits) - multiset(m.Blobs())
  {
    hide Owed;
    CoreSame(m);
    OwedAdd(credits, m.Core());
    if m.Core() in credits {
      OwedRemove(credits, m.Core());
    }
  }

  lemma AddManifestBacked(c: Cache, credits: multiset<Manifest>, pr: PullRequest, m: Manifest)
    requires Requests(pr, m)
    requires Backed(c.manifests, credits) && Backed(c.latest, credits)
    ensures Backed(AddManifest(c, pr, m).manifests, credits + Credit(m))
    ensures Backed(AddManifest(c, pr, m).latest, credits + Credit(m))
  {
    hide FromUrl, PullRequest.Url, PullRequest.UrlWithDigest, PullRequest.IsLatest, Manifest.WellFormed,
         Manifest.Alias, Manifest.Latest, Manifest.IsLatest;
    NamesAgree(pr, m);
  }

  lemma RmManifestBacked(c: Cache, credits: multiset<Manifest>, pr: PullRequest, m: Manifest)
    requires KeysOk(c) && Requests(pr, m)
    requires Backed(c.manifests, credits) && Backed(c.latest, credits)
    ensures Backed(RmManifest(c, m).manifests, credits - Credit(m))
    ensures Backed(RmManifest(c, m).latest, credits - Credit(m))
  {
    hide FromUrl, PullRequest.Url, PullRequest.UrlWithDigest, PullRequest.IsLatest, Manifest.WellFormed,
         Manifest.Alias, Manifest.Latest, Manifest.IsLatest;
    RmManifestKeys(c, pr, m);
    forall k | Primary(c.manifests, k) ensures c.manifests[k].Core() == m.Core() ==> k == m.url && !m.Latest() {
      KeysParse(c.manifests[k]);
      CoreSame(c.manifests[k]);
      CoreSame(m);
      KeyPlace(c, k);
    }
    forall k | Primary(c.latest, k) ensures c.latest[k].Core() == m.Core() ==> k == m.url && m.Latest() {
      CoreSame(c.latest[k]);
      CoreSame(m);
    }
  }

  lemma CountKeeps(c: Cache, credits: multiset<Manifest>, m: Manifest)
    requires Sound(c.store, Owed(credits)) && BlobsOnDisk(c, m)
    ensures var (c', ok) := CountBlobs(c, m);
            && ok && c' == c.(store := c'.store) && c'.store.files == c.store.files
            && Sound(c'.store, Owed(credits + Credit(m)))
  {
    hide Manifest.Blobs, Owed, Sound, AddBlobs;
    if m.image {
      CreditOwed(credits, m);
      AddBlobsSound(c.store, Owed(credits), m.Blobs());
    } else {
      NoCredit(credits, m);
    }
  }

  /** The blob files that go when `m` gives its references back. */
  ghost function Freed(credits: multiset<Manifest>, m: Manifest): set<string> {
    if m.image then set d | d in m.Blobs() && d !in Owed(credits - Credit(m)) else {}
  }

  lemma ReleaseKeeps(c: Cache, credits: multiset<Manifest>, m: Manifest)
    requires Sound(c.store, Owed(credits)) && (m.image ==> m.Core() in credits)
    ensures var c' := ReleaseBlobs(c, m);
            && c' == c.(store := c'.store)
            && c'.store.files == c.store.files - Freed(credits, m)
            && Sound(c'.store, Owed(credits - Credit(m)))
  {
    hide Manifest.Blobs, Owed, Sound, RmBlobs;
    if m.image {
      CreditOwed(credits, m);
      RmBlobsSound(c.store, Owed(credits), m.Blobs());
      RmBlobsFiles(c.store, Owed(credits), m.Blobs());
    } else {
      NoCredit(credits, m);
      assert c.store.files - Freed(credits, m) == c.store.files;
    }
  }

  lemma AddKeeps(c: Cache, credits: multiset<Manifest>, pr: PullRequest, m: Manifest)
    requires Inv(c, credits) && Requests(pr, m) && BlobsOnDisk(c, m)
    ensures Add(c, pr, m).1
    ensures Inv(Add(c, pr, m).0, credits + Credit(m))
    ensures Add(c, pr, m).0.store.files == c.store.files
  {
    hide FromUrl, PullRequest.Url, PullRequest.UrlWithDigest, PullRequest.IsLatest, Manifest.WellFormed,
         Manifest.Alias, Manifest.Latest, Manifest.IsLatest, Manifest.Core, Manifest.Blobs,
         Owed, Sound, AddBlobs, RmBlobs, Backed, ManifestKeys, LatestKeys, AddManifest, RmManifest;
    AddManifestKeys(c, pr, m);
    AddManifestBacked(c, credits, pr, m);
    CountKeeps(AddManifest(c, pr, m), credits, m);
  }

  lemma WritingKeeps(c: Cache, credits: multiset<Manifest>, m: Manifest)
    requires Inv(c, credits)
    ensures Inv(WriteManifest(c, m), credits) && WriteManifest(c, m).store == c.store
  {
    hide Owed, Sound, ManifestKeys, LatestKeys, Backed, FromUrl;
  }

  lemma PruneKeeps(c: Cache, credits: multiset<Manifest>, pr: PullRequest, m: Manifest)
    requires Inv(c, credits) && Requests(pr, m)
    requires m.image ==> m.Core() in credits
    ensures Inv(Prune(c, m), credits - Credit(m))
    ensures Prune(c, m).store.files == c.store.files - Freed(credits, m)
  {
    hide FromUrl, PullRequest.Url, PullRequest.UrlWithDigest, PullRequest.IsLatest, Manifest.WellFormed,
         Manifest.Alias, Manifest.Latest, Manifest.IsLatest, Manifest.Core, Manifest.Blobs,
         Owed, Sound, AddBlobs, RmBlobs, Backed, ManifestKeys, LatestKeys, AddManifest, RmManifest;
    RmManifestKeys(c, pr, m);
    RmManifestBacked(c, credits, pr, m);
    ReleaseKeeps(RmManifest(c, m), credits, m);
  }

  /** A forced pull of a `latest` url finds, if anything, the primary entry of that url. */
  lemma ReplacedIsPrimary(c: Cache, pr: PullRequest, m: Manifest)
    requires KeysOk(c) && Requests(pr, m) && pr.IsLatest()
    requires FromCache(c, m.url).Some?
    ensures var was := FromCache(c, m.url).value;
            Primary(c.latest, m.url) && was == c.latest[m.url] && Requests(pr, was)
  {
    KeyPlace(c, m.url);
  }

  /** What replaceInCache does to the credits: nothing for the same digest, else one for another. */
  ghost function ReplacedCredits(c: Cache, credits: multiset<Manifest>, m: Manifest): multiset<Manifest> {
    match FromCache(c, m.url)
    case None => credits + Credit(m)
    case Some(was) =>
      if was.digest == m.digest then credits else credits + Credit(m) - Credit(was)
  }

  ghost function ReplaceFreed(c: Cache, credits: multiset<Manifest>, m: Manifest): set<string> {
    match FromCache(c, m.url)
    case None => {}
    case Some(was) => if was.digest == m.digest then {} else Freed(credits + Credit(m), was)
  }

  lemma ReplaceKeys(c: Cache, credits: multiset<Manifest>, pr: PullRequest, m: Manifest, was: Manifest)
    requires KeysOk(c) && Requests(pr, m) && Requests(pr, was) && pr.IsLatest() && was.digest != m.digest
    requires Backed(c.manifests, credits) && Backed(c.latest, credits)
    ensures var c' := AddManifest(RmManifest(c, was), pr, m);
            && KeysOk(c') && c'.store == c.store
            && Backed(c'.manifests, credits + Credit(m) - Credit(was))
            && Backed(c'.latest, credits + Credit(m) - Credit(was))
  {
    hide FromUrl, PullRequest.Url, PullRequest.UrlWithDigest, PullRequest.IsLatest, Manifest.WellFormed,
         Manifest.Alias, Manifest.Latest, Manifest.IsLatest, Manifest.Core, Backed, AddManifest, RmManifest;
    RmManifestKeys(c, pr, was);
    RmManifestBacked(c, credits, pr, was);
    AddManifestKeys(RmManifest(c, was), pr, m);
    AddManifestBacked(RmManifest(c, was), credits - Credit(was), pr, m);
    SwapCredits(credits, m, was);
    var after, held := AddManifest(RmManifest(c, was), pr, m), credits + Credit(m) - Credit(was);
    BackedMore(after.manifests, credits - Credit(was) + Credit(m), held);
    BackedMore(after.latest, credits - Credit(was) + Credit(m), held);
  }

  lemma SwapCredits(credits: multiset<Manifest>, m: Manifest, was: Manifest)
    requires was.digest != m.digest
    ensures credits - Credit(was) + Credit(m) == credits + Credit(m) - Credit(was)
  {
    assert m.Core().digest != was.Core().digest;
  }

  lemma BackedMore(entries: map<string, Manifest>, credits: multiset<Manifest>, more: multiset<Manifest>)
    requires Backed(entries, credits) && credits <= more
    ensures Backed(entries, more)
  {
  }

  /** A forced pull counts the new layers before it releases the old ones: it never fails, and a
      file goes only if neither the new manifest nor any other credit references it. */
  lemma ReplaceKeeps(c: Cache, credits: multiset<Manifest>, pr: PullRequest, m: Manifest)
    requires Inv(c, credits) && Requests(pr, m) && pr.IsLatest() && BlobsOnDisk(c, m)
    ensures Replace(c, pr, m).1
    ensures Inv(Replace(c, pr, m).0, ReplacedCredits(c, credits, m))
    ensures Replace(c, pr, m).0.store.files == c.store.files - ReplaceFreed(c, credits, m)
  {
    hide FromUrl, PullRequest.Url, PullRequest.UrlWithDigest, PullRequest.IsLatest, Manifest.WellFormed,
         Manifest.Alias, Manifest.Latest, Manifest.IsLatest, Manifest.Core, Manifest.Blobs,
         Owed, Sound, AddBlobs, RmBlobs, Backed, ManifestKeys, LatestKeys, AddManifest, RmManifest;
    NamesAgree(pr, m);
    match FromCache(c, m.url) {
      case None => AddKeeps(c, credits, pr, m);
      case Some(was) =>
        ReplacedIsPrimary(c, pr, m);
        if was.digest != m.digest {
          ReplaceKeys(c, credits, pr, m, was);
          var mid := AddManifest(RmManifest(c, was), pr, m);
          CountKeeps(mid, credits, m);
          assert was.image ==> was.Core() in credits by { PrimaryHasCredit(c, credits, m.url); }
          ReleaseKeeps(CountBlobs(mid, m).0, credits + Credit(m), was);
        }
    }
  }

  lemma PrimaryHasCredit(c: Cache, credits: multiset<Manifest>, k: string)
    requires Inv(c, credits)
    ensures Primary(c.latest, k) && c.latest[k].image ==> c.latest[k].Core() in credits
    ensures Primary(c.manifests, k) && c.manifests[k].image ==> c.manifests[k].Core() in credits
  {
  }

  lemma KeysOfInv(c: Cache, credits: multiset<Manifest>)
    requires Inv(c, credits)
    ensures KeysOk(c)
  {
  }

  lemma CountIs(c: Cache, credits: multiset<Manifest>, d: string)
    requires Inv(c, credits)
    ensures Count(c.store.counts, d) == Owed(credits)[d]
    ensures Owed(credits)[d] > 0 ==> d in c.store.files
  {
    hide Owed, KeysOk, Backed;
  }
}
