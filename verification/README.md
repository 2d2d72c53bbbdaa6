# Verification of the ociregistry image cache

Dafny 4.11 model and proofs for the cache at the centre of ociregistry, a pull-through registry. The
server keeps manifests in two in-memory maps (`manifests` and `latest`), a reference count per blob,
a table of pulls in progress, and a directory with `img/`, `lts/` and `blobs/`. Two independent
garbage collectors delete blobs: the server's pruner, which works from the counts in memory, and the
offline `prune` command, which tallies the directory afresh.

Check everything with `dafny verify dfyconfig.toml --resource-limit 2000000 --verification-time-limit 0`.

## How the project is laid out

| file | module | subject |
|---|---|---|
| Text.dfy, Sums.dfy | Text, Sums | string cutting and joining; sums over finite maps |
| PullRequest.dfy, ListCache.dfy | PullRequests, ListCache | references: REST form, url form, cache keys, and the second url parser |
| Manifest.dfy | Manifests | manifests, how their two keys parse, and `Owed`, the blob references held by a bag of manifests |
| BlobStore.dfy | BlobStores | counts, blob files and gauges; `Sound` says what they must be for given references |
| CacheState.dfy, CacheLaws.dfy | CacheState, CacheLaws | the cache as a value, every operation on it, the invariant `Inv`, and further laws |
| Recovery.dfy | Recovery | loading a directory, in whatever state it was left |
| Exactness.dfy | Exactness | when what is counted, and what is on disk, is what is cached |
| Disk.dfy, ImageCache.dfy, Server.dfy | Disks, ImageCaches, Servers | the same operations as the source has them: classes with loops, specified by the functions above |
| OfflinePrune.dfy, OfflineLaws.dfy | OfflinePrune, OfflineLaws | the offline pruner, and what it collects |
| Goroutines.dfy | Goroutines | any number of request goroutines and pruners as a transition system; the pull table |
| GoroutineCache.dfy, GoroutineSafety.dfy, GoroutineExact.dfy, GoroutineProgress.dfy | GoroutineCaches, GoroutineSafety, GoroutineExactness, GoroutineProgress | what every run keeps on disk and serves; when counts stay right; when nothing is counted for nobody; when every request returns |
| LoneRun.dfy | LoneRuns | the methods that serve one request are runs of the transition system, and so are a jam and a double pull |
| UnsafeRun.dfy | UnsafeRuns | runs in which a cached image loses a layer |

The key idea is a bag of *credits*: the image manifests added and not yet removed, told apart by all
but the two times that the server stamps on them. `Inv(c, credits)`
says that every count equals the references the credits hold, that a digest is mapped only if that
number is positive, that each mapped digest has its file, that the two blob gauges measure exactly
the mapped blobs, and that each image under its own url (a *primary* entry, which is what the pruner
selects) is among the credits. Keys are strings throughout; the round trip of the url parser is what
tells tag keys, digest keys and `latest` keys apart.

In the transition system each section under a mutex, each manifest file and each blob file is one
step. Its `log` records which digest was stored under which url and which urls were lost; the server
never looks at it. A run is any sequence of enabled steps, so all interleavings are covered.

## What the proofs found

* **Alternate docker.io spelling.** The two spellings name each other except when the repository
  starts with `library/library/` or is the bare `library/` (`AltInvolutionIff`).
* **One timed-out waiter stops the server's pulls.** `signalWaiters` sends on an unbuffered channel
  while it holds the pull lock. A run brings every request to an end exactly when no registered waiter
  ever times out (`EveryRequestReturnsIff`). Two requests for one url are enough for a jam
  (`JamReachable`, `JamExample`): the lock is then held for ever, for all urls (`JamIsForever`),
  although docs/docs/concur-design.md calls the pulls of different tags disjoint synchronization
  contexts.
* **A second add under the same key pins blobs.** An add keeps one credit for each cached image exactly
  when it displaces none (`AddKeepsExactIff`). Two goroutines can pull one url, because the miss and the
  enqueueing are separate sections (`DoublePullReachable`, `DoublePullRun`); and without any race, an
  image pulled by digest and then by tag loses its entry to the tag (`TagAfterDigestExample`). The blobs
  then outlive the prune (`PruneFreesIff`, `DoublePullExample`). In runs where no step displaces another
  cached image, a blob is counted exactly when a cached image references it (`ExactKeptIff`,
  `CountedIffCached`).
* **A prune from a stale selection takes live blobs.** The pruner never rechecks. A prune keeps the
  counts right exactly when the manifest still holds a credit (`PruneKeepsCountsIff`). What it deletes
  without one is known too (`PruneDeletes`, `StalePruneTakesLiveBlobsIff`): pruning one of two images
  with a common layer twice deletes that layer (`StalePruneExample`), and two pruners that select before
  either prunes do just that (`StaleExample`).
* **A prune in the window of a pull leaves an image without a layer.** A blob that a pull has on disk is
  counted only with the add. A prune in between can delete it: the add then fails but caches the
  manifest, and leaves the missing blob counted (`WindowReachable`, `WindowExample`,
  `AddKeepsIff`, `AddBlobsPartial`). A step keeps everything in order exactly when it neither prunes
  without a credit nor deletes in such a window (`SafeKeptIff`).
* **A forced pull can hide a missing blob.** When the url is cached with another digest the failure to
  count is dropped: the new manifest is cached and the request is served (`ReplaceReportsIff`).
* **Two urls with one digest share a manifest file.** Pruning one removes the file of both. The other
  stays cached, and a restart before its next read forgets it (`FileKeptIff`, `SharedFileExample`).
* **Reading a `latest` manifest by digest copies it into the other map**, where its prune does not
  look: the manifest stays served under that key after its blobs are gone (`ReadByDigestCopies`,
  `LeftoverLacksBlobIff`, `LeftoverExample`).
* **The offline pruner looks for the children of an image list in `lts` only.** A child pulled by
  digest lies in `img` and is never found, so it is pruned only if it was matched itself
  (`ChildPulledByDigestIff`, `NamedChildPrunedIff`, `ImgChildExample`); docs/docs/pruning.md promises
  that such children are pruned with the list. A child that is found gets a second key even if it was
  matched under its own url; its references are then given back twice, which can delete a blob of an
  image that survives (`LiveBlobLostIff`, `MatchedTwiceExample`). The matches show beforehand whether
  that can happen (`DistinctIff`).
* **The offline pruner refuses an image with a missing blob** (`ExactCollector`): it cannot clean up
  after a pull that was cut short.
* **After a load the manifest gauge stays behind the directory** by the manifests left out for a
  missing blob (`ImageCache.Load`).
* **`splitImageRef` cuts at the first `@`**, so it disagrees with the request parser when the remote
  holds one (`SplitAgreesIff`).

## Model

| member | source | states |
|---|---|---|
| PullRequests.NewPullRequestFromUrl | impl/pullrequest/pullrequest.go:82-107 | the loop over the two separators computes the parse of a url, '@' before ':', with all its error cases; ParseFailsIff and ParsesTo say on the text what that is |
| PullRequests.ParseFailsIff | impl/pullrequest/pullrequest.go:82-101 | a url fails to parse if and only if it has no '/', or no '.' before the first one, or neither separator after it, or nothing between it and the separator used |
| PullRequests.ParsesTo | impl/pullrequest/pullrequest.go:87-107 | what the parts are when it parses, all in lower case, whatever follows a second separator; the kind of pull goes by the reference as it was given |
| PullRequests.UrlWithoutTag | impl/pullrequest/pullrequest.go:90-101 | docker.io/nginx does not parse |
| PullRequests.RemoteSource | impl/pullrequest/pullrequest.go:47-76 | header before query before a dotted first segment before the default, and with each of them which error there is or what is built; only a first segment that is the remote is left out of the name |
| PullRequests.DocumentedSegments | impl/pullrequest/pullrequest.go:36-46 | the documented segments give the documented request; a header wins over a query |
| PullRequests.IsLatestIff | impl/pullrequest/pullrequest.go:142-145 | a reference is `latest` in any mixture of cases, and nothing else is |
| PullRequests.PrintedUrls | impl/pullrequest/pullrequest.go:109-140 | how tags, digests and both docker.io spellings are printed, on concrete requests |
| PullRequests.AltSpelled | impl/pullrequest/pullrequest.go:118-134 | docker.io/library/x becomes docker.io/x and any other docker.io/x becomes docker.io/library/x |
| Text.LetterLowers | impl/pullrequest/pullrequest.go:102-106 | lowering takes each letter to the letter at its place in the lower-case alphabet |
| Text.ToLowerIs | impl/pullrequest/pullrequest.go:102-106 | it keeps the length and every character that is no upper-case letter |
| Text.SplitPieces | impl/pullrequest/pullrequest.go:90-97 | the pieces hold no separator and joined give the text back |
| Text.JoinSplits | impl/pullrequest/pullrequest.go:74 | segments without a slash are recovered from the joined repository |
| PullRequests.RoundTripIff | impl/pullrequest/pullrequest.go:82-116 | printing and parsing gives a request back if and only if it is well formed |
| PullRequests.UrlInjective | impl/pullrequest/pullrequest.go:109-116 | distinct well-formed requests have distinct urls |
| PullRequests.DigestKeyParses | impl/pullrequest/pullrequest.go:136-140 | the digest key of a request is the url of that request with the digest as reference |
| PullRequests.DigestKeyInjective | impl/pullrequest/pullrequest.go:109-140 | a tag key is never a digest key, and two digest keys agree exactly when remote, repository and digest do |
| PullRequests.NoSecondRemote | impl/pullrequest/pullrequest.go:47-76 | a request that is built never has a dot in its first repository segment, whichever of header, query, path or default supplied the remote |
| PullRequests.RestMatchesUrl | impl/pullrequest/pullrequest.go:47-107 | with the registry in the path, the REST form and the joined url denote the same request if and only if that request, with the reference as it was sent, is well formed but for its case |
| PullRequests.AltInvolutionIff | impl/pullrequest/pullrequest.go:118-134 | the two docker.io spellings name each other except for repositories that start with library/library/ or are library/ |
| ListCache.SplitAgreesIff | cmd/subcmd/listcache.go:89-107 | the listing recovers repository and bare tag or digest of every well-formed url, port or not, exactly when the remote holds no '@' |
| ListCache.SplitForms | cmd/subcmd/listcache.go:89-107 | what every reference splits into: at its first '@', else at its last ':', else not at all |
| Manifests.DigestFromIs | impl/helpers/helpers.go:11-22 | the digest taken from a text is its last run of 64 hex digits, and empty if and only if there is none |
| Manifests.KeysParse | impl/cache/cache.go:366-384 | how both keys of a manifest parse; when they coincide; a digest key is never a `latest` key |
| Manifests.BlobsOccur | impl/cache/cache.go:391-393 | the blobs of a manifest are those that its layers name, each as often as layers name it |
| Manifests.RefsCount | impl/cache/cache.go:391-393 | an image holds one reference for each layer that names a blob, whichever layer it is |
| Manifests.AliasDetermines | impl/cache/cache.go:366-384 | two manifests that share a digest key have the same digest |
| Manifests.LatestAliasDetermines | impl/cache/cache.go:370-375 | two `latest` manifests that share a digest key have the same url |
| BlobStores.AddBlobsSound | impl/cache/cache.go:390-403 | counting succeeds exactly when every blob has its file, and then owes one reference more per layer occurrence, gauges included |
| BlobStores.AddBlobsPartial | impl/cache/cache.go:391-397 | on failure exactly the blobs up to and including the first missing one stay counted, no file is touched, and the gauges have moved by exactly the blobs before it that had no count |
| BlobStores.AddBlobsCounts | impl/cache/cache.go:390-403 | from any counts: counting succeeds if and only if all blobs have files, and then raises each count by its occurrences |
| BlobStores.RmBlobsCounts | impl/cache/prune.go:296-321 | from any counts: releasing succeeds if and only if no count is short, and then lowers each by its occurrences |
| BlobStores.RmBlobsSound | impl/cache/prune.go:296-321 | releasing succeeds exactly when all references are owed, and then owes that much less, gauges included |
| BlobStores.RmBlobsFiles | impl/cache/prune.go:308-316 | releasing deletes the files of exactly those blobs that nobody references any more |
| BlobStores.RmBlobsOverdrawn | impl/cache/prune.go:317-319 | a release that fails leaves a negative count behind |
| BlobStores.RmBlobsStops | impl/cache/prune.go:296-321 | where a release stops, and that it deletes exactly what the part before that point has used up |
| BlobStores.RmBlobsLeft | impl/cache/prune.go:306-321 | a release that stops leaves a count of -1 for the blob it stops at and everything else in order, the gauges included |
| CacheState.PrimaryIsServable | impl/cache/cache.go:300-315 | under the invariant every layer of every primary image has a positive count and a file |
| CacheState.AddKeeps | impl/cache/cache.go:303-315 | adding a manifest whose blobs are on disk succeeds, keeps the invariant with one credit more and deletes nothing |
| CacheState.PruneKeeps | impl/cache/prune.go:247-321 | pruning a manifest that holds its credit keeps the invariant and deletes exactly the blobs that no other credit references |
| CacheState.ReplaceKeeps | impl/cache/cache.go:328-364 | a forced pull never fails, keeps the invariant, and deletes exactly the old blobs that neither the new manifest nor another credit references |
| CacheState.RmManifestKeys | impl/cache/prune.go:258-292 | exactly the two keys and the one file of the manifest go, by class of url, and the blobs stay |
| CacheState.ReplacedIsPrimary | impl/cache/cache.go:331-345 | what a forced pull finds under its url is the primary entry of that url |
| CacheState.ServedKeyClass | impl/cache/cache.go:468-483 | a hit under either docker.io spelling is of the class of the request, so it is written back where it was found |
| CacheLaws.GetShape | impl/cache/cache.go:465-491 | a hit is served stamped and written back under its key; only a `latest` manifest read by digest moves to the other map |
| CacheLaws.EitherSpelling | impl/cache/cache.go:465-491 | a request is served from its own url, else from the other docker.io spelling, and the stamped entry goes back under that key; it misses if and only if neither is cached |
| CacheLaws.SpellingExample | impl/cache/cache.go:470-475 | an image pulled as docker.io/nginx serves a request for docker.io/library/nginx |
| CacheLaws.HitIsPersisted | impl/cache/cache.go:476-488 | what a hit serves, access time included, is what its file then holds; a miss changes nothing |
| CacheLaws.GetKeeps | impl/cache/cache.go:465-491 | a read keeps the invariant, the credits and every count |
| CacheLaws.GetKeepsDigests | impl/cache/cache.go:465-491 | a read changes neither what is cached nor the digest under any key |
| CacheLaws.NoStaleDigestKey | impl/cache/cache.go:370-376 | while `latest` is paired, each of its keys is a tag url or the digest key of the manifest now under that tag |
| CacheLaws.AddKeepsTwinsIff | impl/cache/cache.go:370-376 | adding keeps `latest` paired if and only if the url is new or cached with the same digest |
| CacheLaws.PruneKeepsTwinsIff | impl/cache/prune.go:278-284 | pruning keeps `latest` paired if and only if the cached digest is the pruned one |
| CacheLaws.ReplaceKeepsTwins | impl/cache/cache.go:328-364 | a forced pull leaves no stale digest key |
| CacheLaws.PublishKeepsTwins | impl/cache/cache.go:104-112 | what the server adds, after a miss or as a replacement, keeps `latest` paired |
| CacheLaws.GetKeepsTwins | impl/cache/cache.go:478-479 | a read keeps `latest` paired |
| CacheLaws.ReplaceMovesCounts | impl/cache/cache.go:345-363 | replacing by another digest moves each count by the new layers less the old ones; by the same digest changes nothing |
| CacheLaws.ReplaceReportsIff | impl/cache/cache.go:328-364 | a forced pull reports a missing blob if and only if its url was not cached; otherwise it counts as served and the manifest is cached without the blob |
| CacheLaws.ReplaceNeverDips | impl/cache/cache.go:353-361 | at every point of the release no count falls below what the new manifest holds, and no shared blob loses its file |
| CacheLaws.PruneKeepsCountsIff | impl/cache/prune.go:231-256 | pruning keeps the counts right if and only if some pull of the manifest still holds a credit, or it has no layers |
| CacheLaws.PruneFreesIff | impl/cache/cache.go:441-448 | a blob goes with a prune if and only if no other credit references it; one that only this manifest uses, if and only if the manifest was added once, whatever times were stamped on its pulls |
| CacheLaws.DoublePullExample | impl/cache/cache.go:441-448 | one manifest pulled twice with different times: the first prune leaves its layer with a count of one and no primary entry, the second deletes it |
| CacheLaws.PruneDeletes | impl/cache/prune.go:296-321 | any prune, with or without a credit, releases up to the first count that would go negative and deletes exactly the blobs whose counts are used up by then |
| CacheLaws.StalePruneTakesLiveBlobsIff | impl/cache/prune.go:230-240 | while the release does not overdraw, an image that stays cached loses a blob if and only if the prune of another manifest uses up its count |
| CacheLaws.StalePruneExample | impl/cache/prune.go:230-240 | two images with a common layer: pruning the first twice deletes the layer of the second |
| CacheLaws.ReadByDigestCopies | impl/cache/cache.go:478-483 | a `latest` manifest read by digest is copied into `manifests` under its digest key |
| CacheLaws.LeftoverLacksBlobIff | impl/cache/prune.go:247-292 | the entry left under the digest key after a prune has the pruned digest, and lacks a blob if and only if one of its blobs went with the prune |
| CacheLaws.LeftoverExample | impl/cache/cache.go:478-483 | a `latest` image read by digest and then pruned is still served by digest while its layer is gone |
| Recovery.LoadKeeps | impl/cache/cache.go:183-206 | loading any well-formed files keeps the invariant; the new credits are exactly the manifests whose blobs are all there |
| Recovery.CanAddIff | impl/cache/cache.go:276-290 | a manifest can be loaded if and only if the blob that each of its layers names is on disk |
| Recovery.LoadStops | impl/cache/cache.go:187-205 | loading ends with an error at the first url that does not parse, and what came before stays loaded |
| Recovery.RestartIsSound | impl/cache/cache.go:176-206 | loading any directory, however it was left, establishes the invariant and leaves the files alone |
| Recovery.RestartIsExact | impl/cache/cache.go:176-206 | with distinct urls on disk exactly the manifests with all blobs are cached, one credit each, and nothing cached lacks a blob |
| Exactness.AddKeepsExactIff | impl/cache/cache.go:370-384 | an add keeps one credit for each cached image and no other if and only if neither of the keys it writes holds one |
| Exactness.PruneKeepsExactIff | impl/cache/prune.go:276-292 | a prune keeps it if and only if the keys it deletes hold no image but the pruned one |
| Exactness.ReplaceKeepsExact | impl/cache/cache.go:328-364 | a forced pull always keeps it |
| Exactness.GetKeepsExact | impl/cache/cache.go:465-491 | a read always keeps it, also when it copies an entry to the other map |
| Exactness.RestartedExact | impl/cache/cache.go:176-206 | a restart from a disk on which no url occurs twice satisfies the invariant with one credit for each cached image |
| Exactness.ExactCountsIff | impl/cache/cache.go:390-403 | while that holds, a blob is counted if and only if some cached image references it |
| Exactness.TagAfterDigestExample | impl/cache/cache.go:378-381 | an image pulled by digest, then by tag: once the tag is pruned nothing is cached, and the layer is still counted and on disk |
| Exactness.TwoLayers | impl/cache/cache.go:279-288 | an image of two layers is not loaded while its second is missing; with both there each is counted and the gauges measure both |
| Exactness.FileKeptIff | impl/serialize/serialize.go:135-151 | after a prune a cached manifest has its file if and only if its digest or its class is another; it is cached if and only if its key is another |
| Exactness.SharedFileExample | impl/serialize/serialize.go:135-151 | one image under two tags: pruning one tag leaves the other cached with its layer and without its file, and loading the directory as it then is finds nothing |
| Disks.FileSystem.ReadManifest | impl/serialize/serialize.go:28-44 | the file of that digest in the directory of that class, if any |
| Disks.FileSystem.WriteManifest | impl/serialize/serialize.go:50-78 | the file written or kept, in which directory, and the gauge moves by exactly the bytes the directory grows |
| Disks.FileSystem.RmManifest | impl/serialize/serialize.go:135-151 | the file goes, a missing one is no error, and the gauge moves by exactly the bytes the directory shrinks |
| Disks.FileSystem.RmBlob | impl/serialize/serialize.go:114-124 | the blob file goes and both gauges follow; a missing one changes nothing |
| Disks.FileSystem.GetAllBlobs | impl/serialize/serialize.go:153-164 | every blob file, and nothing else, with a count of zero |
| Disks.FileSystem.WalkTheCache | impl/serialize/serialize.go:80-112 | every manifest file once, `lts` before `img`, in some order |
| ImageCaches.ImageCache.Lookup | impl/cache/cache.go:450-459 | the entry of `manifests`, else that of `latest` |
| ImageCaches.ImageCache.AddManifestToCache | impl/cache/cache.go:370-384 | the new entries of the two maps, by class of url |
| ImageCaches.ImageCache.Delete | impl/cache/prune.go:276-292 | the entries that go, by class of url |
| ImageCaches.ImageCache.RmManifest | impl/cache/prune.go:258-274 | entries and file go, blobs stay; a url that does not parse changes nothing |
| ImageCaches.ImageCache.CanAddBlobs | impl/cache/cache.go:276-290 | true exactly when the blob that each layer names is on disk |
| ImageCaches.ImageCache.AddBlobsToCache | impl/cache/cache.go:390-403 | the counting loop computes AddBlobs, failure and gauges included: it succeeds exactly when each layer's blob is on disk, and then raises each count by the layers that name the blob |
| ImageCaches.ImageCache.RmBlob | impl/cache/prune.go:306-321 | from any state: one count less, the file deleted and the gauges lowered at zero, an error below zero |
| ImageCaches.ImageCache.RmBlobs | impl/cache/prune.go:294-304 | the releasing loop computes RmBlobs, stopping at the first error: it succeeds exactly when no count is short of the layers that name the blob, and then lowers each by these |
| ImageCaches.ImageCache.AddToCache | impl/cache/cache.go:300-315 | computes Add and earns a credit; keeps the object valid when the blobs are on disk |
| ImageCaches.ImageCache.ReplaceInCache | impl/cache/cache.go:317-364 | computes Replace in all three cases; keeps the object valid |
| ImageCaches.ImageCache.Prune | impl/cache/prune.go:243-256 | computes Prune and spends a credit; keeps the object valid when the credit was there |
| ImageCaches.ImageCache.GetManifestFromCache | impl/cache/cache.go:461-491 | computes Get, and misses exactly when neither docker.io spelling is cached |
| ImageCaches.ImageCache.GetManifestsCompare | impl/cache/query.go:102-134 | in any map order, and whatever the counts, a duplicate-free choice of matching primary entries, as many as match or as the limit allows |
| ImageCaches.MatchingIff | impl/cache/query.go:107-123 | what matches is what is cached under its own url and accepted by the comparer |
| ImageCaches.ImageCache.DoPrune | impl/cache/prune.go:226-241 | a pass keeps the object valid and `latest` paired, prunes exactly what it selected, and without limit leaves no matching primary entry; over everything, from one credit for each cached image, it leaves no count; a dry run changes nothing |
| ImageCaches.ImageCache.Load | impl/cache/cache.go:176-206 | computes LoadFiles over the walk, establishes the invariant and the pairing of `latest`, and adds to the manifest gauge the bytes of what was loaded |
| Servers.Server.EnqueuePull | impl/cache/cache.go:493-508 | the first to ask opens the entry and gets no channel, any other gets a new channel at the end of it |
| Servers.Server.SignalWaiters | impl/cache/cache.go:510-526 | the channels are signalled in order; if all are received on, only this entry goes and the lock is released; at the first that is not, the lock stays held and the entry stays |
| Servers.Server.DoPull | impl/cache/cache.go:140-174 | the manifest file first, then as many blobs as arrive; success exactly when all arrive |
| Servers.Server.PullBlobs | impl/cache/cache.go:165-172 | exactly the blobs that the layers before the first that fails to arrive name are added to the disk, with the sizes that arrive; what was there keeps its file |
| Servers.LandAllSizes | impl/cache/cache.go:165-172 | a blob that is there keeps its file, one that arrives has the size that arrives |
| Servers.Server.PullAndPublish | impl/cache/cache.go:96-113 | a failed pull changes nothing in memory; a completed one replaces or adds, never fails, and is served with all its blobs |
| Servers.Server.GetManifest | impl/cache/cache.go:79-128 | an undisturbed request: a hit is served, a pull in progress is waited for, a failed pull changes nothing in memory, a completed one is served from then on with all its blobs; invariant and pairing are kept throughout |
| Servers.Server.AwaitSignal | impl/cache/cache.go:115-127 | a goroutine that is signalled in time serves what the cache now holds or reports that it holds nothing; one that times out fails and changes nothing |
| LoneRuns.LoneRequest | impl/cache/cache.go:90-128 | a request that misses and finds nobody pulling its url, whatever else is going on, has a run of the transition system that ends in exactly the cache, the answer and the pull table that GetManifest promises |
| LoneRuns.LoneHit | impl/cache/cache.go:90-95 | a hit is a run of one step that ends as GetManifest promises |
| LoneRuns.LoneWait | impl/cache/cache.go:493-505 | a miss while the url is being pulled is a run that ends waiting on a new channel, as GetManifest promises |
| LoneRuns.LoneAwait | impl/cache/cache.go:115-127 | being signalled or timing out is a step that ends as AwaitSignal promises |
| LoneRuns.JamReachable | impl/cache/cache.go:114-125 | from any state with two requests for one url that nobody pulls, a run leads to a jam |
| LoneRuns.JamExample | impl/cache/cache.go:512-524 | a freshly started server with two requests, and a run of it into a jam |
| LoneRuns.DoublePullReachable | impl/cache/cache.go:90-112 | any two requests that miss one free url can each pull it and add it: the first is done before the second enqueues, and both manifests hold a credit |
| LoneRuns.DoublePullRun | impl/cache/cache.go:90-112 | a freshly started server, two requests, and a run after which the layer outlives the prune of the only entry that names it |
| UnsafeRuns.WindowReachable | impl/cache/cache.go:98-112 | a pruner that works between the last blob and the add leaves the image cached without a blob that only the pruned image referenced, although each prune of the run held its credit; the request fails |
| UnsafeRuns.WindowExample | impl/cache/cache.go:98-112 | a server with one image cached and another asked for, and such a run |
| UnsafeRuns.StaleReachable | impl/cache/prune.go:226-241 | two idle pruners can prune one manifest twice while no pull is in progress |
| UnsafeRuns.StaleExample | impl/cache/prune.go:226-241 | a server with two images cached and two pruners, and such a run after which the second image lacks its layer, although no deletion hit a pull |
| OfflinePrune.ExpansionUnique | cmd/subcmd/prune.go:177-197 | there is one expansion of the matches, so map order and seeing inserted keys cannot matter |
| OfflinePrune.ImagesAreLeaves | cmd/subcmd/prune.go:177-197 | when the cached children of the matched and the `latest` lists are images, whatever is closed under expansion is the expansion of the original matches |
| OfflinePrune.OfflinePruner.TallyBlobCount | cmd/subcmd/prune.go:155-171 | each blob that has a file is counted once per layer that names it over all image manifests |
| OfflinePrune.OwedIsNamed | cmd/subcmd/prune.go:157-170 | what is owed for the files on disk is counted by the layers of the images |
| OfflinePrune.OfflinePruner.AddImageManifests | cmd/subcmd/prune.go:173-197 | inserting while walking keeps the matches, inserts only children found in `lts` and misses none of the original lists; when the children of the matched lists are images, the result is their one expansion |
| OfflinePrune.OfflinePruner.DecBlobCounts | cmd/subcmd/prune.go:199-219 | fails exactly when some blob has fewer counts than layers of the matches name it; else subtracts exactly these and nothing goes negative |
| OfflinePrune.OwedIsNamedBy | cmd/subcmd/prune.go:202-217 | and so is what the matches give back |
| OfflinePrune.OfflinePruner.DoPrune | cmd/subcmd/prune.go:115-153 | the matches are expanded; when the counts do not suffice it fails with the disk unchanged, and so it is on a dry run; otherwise exactly the blobs with nothing left and the files of the matches go, or the files of some of them if a url does not parse; the counts left are the tally less what was given back |
| OfflineLaws.ExactCollector | cmd/subcmd/prune.go:115-171 | for matches of distinct files: it succeeds if and only if no matched image lacks a blob, leaves each count at the multiplicity over the surviving images, and keeps exactly the blobs that these reference |
| OfflineLaws.ExactSurvivors | cmd/subcmd/prune.go:143-151 | the manifest files that remain are exactly those not matched |
| OfflineLaws.PruneThenRestart | cmd/subcmd/prune.go:115-153 | a server started after an offline prune of distinct files caches exactly the survivors that were complete before; when all were, its counts map exactly the blob files that are left |
| OfflineLaws.AccountingsAgreeIff | cmd/subcmd/prune.go:157-171 | a restart never counts more than the tally over the same disk; they agree on all blobs if and only if no image with a missing blob names one that is there |
| OfflineLaws.ChildPulledByDigestIff | cmd/subcmd/prune.go:180-190 | what lies in `img` is pruned if and only if it was matched itself |
| OfflineLaws.PrunedIff | cmd/subcmd/prune.go:177-197 | a file is pruned if and only if it was matched or is found in `lts` as a child under a key that no match has |
| OfflineLaws.NamedChildPrunedIff | cmd/subcmd/prune.go:180-190 | the cached manifest that a matched list names as its child, under a key that no match has, is pruned if and only if it lies in `lts` or was matched |
| OfflineLaws.ImgChildExample | cmd/subcmd/prune.go:180-190 | a matched list, its child pulled by digest under a free key, and an expansion that leaves the child out |
| OfflineLaws.DistinctIff | cmd/subcmd/prune.go:185-191 | the expansion stands for distinct files if and only if no found child is matched itself and none is found under two keys |
| OfflineLaws.ExactOnMatches | cmd/subcmd/prune.go:115-171 | under that condition on the original matches the prune is exact |
| OfflineLaws.AffordableIffCovered | cmd/subcmd/prune.go:202-219 | in general the counts suffice if and only if every matched image has its blobs and no blob is given back twice more often than the survivors reference it |
| OfflineLaws.LiveBlobLostIff | cmd/subcmd/prune.go:133-141 | a blob is deleted if and only if the counts suffice and the files with several keys give back as many references too many as the survivors hold |
| OfflineLaws.MatchedTwiceExample | cmd/subcmd/prune.go:185-191 | an image matched by its url and as a child: the prune succeeds and deletes the layer of another image that stays |
| Goroutines.TableKept | impl/cache/cache.go:493-526 | every step of every goroutine keeps the pull table in order |
| Goroutines.ChannelsApart | impl/cache/cache.go:501-504 | two registered channels are the same only at the same place for the same url |
| Goroutines.OnePullPerUrl | impl/cache/cache.go:493-526 | in every reachable state a url is in the table exactly while one goroutine pulls it, and all registered channels are distinct and were made by goroutines that asked for that url |
| GoroutineCaches.AddingKeepsDigests | impl/cache/cache.go:366-384 | an added manifest is served by url and by digest key, and the digest under every other key stays |
| GoroutineCaches.SaneKept | impl/cache/cache.go:90-128 | every step keeps the keys, the files and the log in order, whatever the others do |
| GoroutineCaches.WokenReadsBack | impl/cache/cache.go:114-123 | a goroutine woken after a successful pull reads the digest stored by the puller, or by a later add under the same url, unless the url was lost in between |
| GoroutineCaches.SignalCarriesPromise | impl/cache/cache.go:98-113 | the add precedes the deferred signal: whoever is woken shares the url of the puller, and is handed the place in the log at which the served manifest was stored, if and only if the pull was served |
| GoroutineCaches.CrashRecovers | impl/cache/cache.go:144-206 | a crash at any point of any run is repaired by loading: the invariant holds, and with distinct urls exactly the complete manifests are cached |
| GoroutineSafety.SafeKeptIff | impl/cache/cache.go:303-364 | a step keeps counts, files and the blobs of pulls under way if and only if it prunes nothing without a credit and deletes nothing in the window of a pull |
| GoroutineSafety.PublishKeeps | impl/cache/cache.go:104-112 | in such runs adding and replacing never fail |
| GoroutineSafety.EveryImageIsServable | impl/cache/cache.go:79-174 | in every such interleaving each layer of each primary image has a positive count and a file |
| GoroutineSafety.SerialPassesAreSafe | impl/cache/prune.go:226-241 | any number of pruners take live credits only, when their passes do not overlap and no forced pull replaces what is selected and not yet pruned |
| GoroutineSafety.AddKeepsIff | impl/cache/cache.go:390-403 | an add succeeds, and keeps the invariant, if and only if every blob of the image is still on disk |
| GoroutineSafety.OnePrunerIsSafe | impl/cache/prune.go:69-79 | with one pruner, however often it sweeps, and no forced pulls every prune holds its credit, so only the window has to be respected |
| GoroutineExactness.ExactKeptIff | impl/cache/cache.go:90-128 | a step of any goroutine keeps one credit for each cached image if and only if it displaces no cached image but the one it prunes or replaces |
| GoroutineExactness.CountedIffCached | impl/cache/prune.go:226-321 | in every safe run of such steps a blob is counted if and only if a cached image references it, and then it has its file |
| GoroutineProgress.StepDescends | impl/cache/cache.go:90-128 | every step lowers a lexicographic measure over phases, missing blobs and pending prunes |
| GoroutineProgress.NoDeadlock | impl/cache/cache.go:493-526 | unless a waiter has given up, some goroutine can move until all are done |
| GoroutineProgress.ReceivesIff | impl/cache/cache.go:516-523 | a signal can be sent if and only if its receiver has not given up |
| GoroutineProgress.EveryRequestReturnsIff | impl/cache/cache.go:90-128 | under any scheduling all requests return if and only if no registered waiter ever times out, and then all are answered |
| GoroutineProgress.JamIsForever | impl/cache/cache.go:512-524 | a lock holder about to signal a goroutine that gave up holds the lock for ever, and all that need it, for whatever url, stay |

## Left out

- HTTP handlers, TLS, authentication, configuration, logging, metrics registration, the list and load commands apart from `splitImageRef`: plumbing around the cache.
- The upstream: a pull returns any manifest whose url is the one asked for, or fails; blobs arrive in any order and any of them may fail. The imgpull library is not part of this model.
- JSON, permissions and operating-system errors: reads, writes and removals succeed. Blob digests that hold no 64 hex digits all become the empty name, as in the source, but the model has no file of that name where the source finds the blob directory itself.
- Text: `ToLower` changes ASCII letters only, and no text holds a line break, which would end what the digest pattern matches. Requests of the runs are well formed (lower case, sha256 digests).
- Mutexes of the two maps and of the counts: each section is one atomic step. The source takes the manifest lock before the blob lock everywhere and never with the pull lock, which is why sections do not block one another. The pull lock, held across sends, is modelled as a lock.
- Readers, `GetBlobsSubstr`, regular expressions, dates and durations: the comparer of the pruner is any predicate. The gauge of cached manifests is not modelled.
- `impl/preload`, `WaitPulls`, the timer of the pruner: outside the cache, or wall-clock time only.
- Servers.Server.GetManifest: describes a goroutine that nobody disturbs and ends where it would wait; how it goes on is AwaitSignal, and interleavings are the subject of the transition system, of which these are runs (LoneRequest, LoneHit, LoneWait, LoneAwait).
- OfflinePrune.OfflinePruner.DoPrune: says nothing about the gauges, which nobody reads in the process of that command.
- GoroutineProgress.EveryRequestReturnsIff: gives each pruner a number of passes, any number, per run; a pruner that never stops sweeping could keep a scheduler without fairness busy for ever.
- GoroutineSafety.EveryImageIsServable: needs its two hypotheses. WindowExample and StaleExample are runs that meet one of them in every step and end with a cached image that lacks its layer.
