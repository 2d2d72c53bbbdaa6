/** The image directory: manifests of `latest` urls, other manifests, and blobs. */
module Disks {
  import opened Sums
  import opened PullRequests
  import opened Manifests
  import opened BlobStores
  import opened CacheState
  import opened Recovery

  /** The bytes that the manifest files of a directory take. */
  ghost function Sizes(sizeOf: Manifest -> nat, dir: map<string, Manifest>): map<string, nat> {
    map n | n in dir :: sizeOf(dir[n])
  }

  class FileSystem {
    var img: map<string, Manifest>
    var lts: map<string, Manifest>
    var blobs: map<string, nat>
    /** The exported gauges: cached blobs, their bytes, and the manifest bytes. */
    var blobGauge: int
    var byteGauge: int
    var manifestGauge: int
    /** How long the encoded form of a manifest is. */
    const sizeOf: Manifest -> nat

    constructor (sizeOf: Manifest -> nat)
      ensures img == map[] && lts == map[] && blobs == map[] && this.sizeOf == sizeOf
      ensures blobGauge == byteGauge == manifestGauge == 0
    {
      img, lts, blobs := map[], map[], map[];
      blobGauge, byteGauge, manifestGauge := 0, 0, 0;
      this.sizeOf := sizeOf;
    }

    ghost function ManifestBytes(): nat
      reads this
    {
      Sum(Sizes(sizeOf, img)) + Sum(Sizes(sizeOf, lts))
    }

    /** MhFromFilesystem */
    method ReadManifest(digest: string, isLatest: bool) returns (m: Option<Manifest>)
      ensures var dir, name := if isLatest then lts else img, DigestFrom(digest);
              m == if name in dir then Some(dir[name]) else None
    {
      var dir, name := if isLatest then lts else img, DigestFrom(digest);
      if name in dir {
        return Some(dir[name]);
      }
      return None;
    }

    /** MhToFilesystem: the gauge moves by as many bytes as the directory grows. */
    method WriteManifest(m: Manifest, replace: bool) returns (ok: bool)
      modifies this`img, this`lts, this`manifestGauge
      ensures ok <==> m.IsLatest().Ok?
      ensures !ok ==> img == old(img) && lts == old(lts)
      ensures ok && m.Latest() ==>
                img == old(img) && lts == if m.digest in old(lts) && !replace then old(lts) else old(lts)[m.digest := m]
      ensures ok && !m.Latest() ==>
                lts == old(lts) && img == if m.digest in old(img) && !replace then old(img) else old(img)[m.digest := m]
      ensures manifestGauge - old(manifestGauge) == ManifestBytes() - old(ManifestBytes())
    {
      hide Manifest.Latest, FromUrl;
      var existing := 0;
      var isLatest := m.IsLatest();
      if isLatest.Err? {
        return false;
      }
      var dir := if isLatest.value then lts else img;
      ClassIs(m, isLatest.value);
      if m.digest in dir {
        if !replace {
          return true;
        }
        existing := sizeOf(dir[m.digest]);
      }
      SumUpdate(Sizes(sizeOf, dir), m.digest, sizeOf(m));
      assert Sizes(sizeOf, dir[m.digest := m]) == Sizes(sizeOf, dir)[m.digest := sizeOf(m)];
      if isLatest.value { lts := lts[m.digest := m]; } else { img := img[m.digest := m]; }
      manifestGauge := manifestGauge + (sizeOf(m) - existing);
      return true;
    }

    /** RmManifest: removing a file that is not there is no error and moves no gauge. */
    method RmManifest(m: Manifest) returns (ok: bool)
      modifies this`img, this`lts, this`manifestGauge
      ensures ok <==> m.IsLatest().Ok?
      ensures img == (if ok && !m.Latest() then old(img) - {m.digest} else old(img))
      ensures lts == (if ok && m.Latest() then old(lts) - {m.digest} else old(lts))
      ensures manifestGauge - old(manifestGauge) == ManifestBytes() - old(ManifestBytes())
    {
      hide Manifest.Latest, FromUrl;
      var isLatest := m.IsLatest();
      if isLatest.Err? {
        return false;
      }
      var dir := if isLatest.value then lts else img;
      ClassIs(m, isLatest.value);
      assert m.digest !in dir ==> dir - {m.digest} == dir;
      if m.digest in dir {
        SumRemove(Sizes(sizeOf, dir), m.digest);
        assert Sizes(sizeOf, dir - {m.digest}) == Sizes(sizeOf, dir) - {m.digest};
        manifestGauge := manifestGauge - sizeOf(dir[m.digest]);
        if isLatest.value { lts := lts - {m.digest}; } else { img := img - {m.digest}; }
      }
      return true;
    }

    ghost function Store(counts: map<string, int>): BlobStore
      reads this
    {
      BlobStore(counts, blobs, blobGauge, byteGauge)
    }

    /** RmBlob: removing a file that is not there is no error and moves no gauge. */
    method RmBlob(digest: string)
      modifies this`blobs, this`blobGauge, this`byteGauge
      ensures blobs == old(blobs) - {digest}
      ensures blobGauge == old(blobGauge) - if digest in old(blobs) then 1 else 0
      ensures byteGauge == old(byteGauge) - if digest in old(blobs) then old(blobs)[digest] else 0
      ensures forall counts :: Store(counts) == RmBlobFile(old(Store(counts)), digest)
    {
      if digest in blobs {
        byteGauge := byteGauge - blobs[digest];
        blobGauge := blobGauge - 1;
        blobs := blobs - {digest};
      }
    }

    /** A blob arrives from the upstream. No gauge moves before the blob is counted. */
    method WriteBlob(digest: string, size: nat)
      modifies this`blobs
      ensures blobs == if digest in old(blobs) then old(blobs) else old(blobs)[digest := size]
    {
      if digest !in blobs {
        blobs := blobs[digest := size];
      }
    }

    /** GetAllBlobs: every blob file with a count of zero. */
    method GetAllBlobs() returns (counts: map<string, int>)
      ensures counts.Keys == blobs.Keys && forall d | d in counts :: counts[d] == 0
    {
      counts := map[];
      var todo := blobs.Keys;
      while todo != {}
        invariant todo <= blobs.Keys && counts.Keys == blobs.Keys - todo
        invariant forall d | d in counts :: counts[d] == 0
      {
        var d :| d in todo;
        counts := counts[d := 0];
        todo := todo - {d};
      }
    }

    /** The names in one directory, in some order. */
    method ReadDir(dir: map<string, Manifest>) returns (names: seq<string>)
      ensures Lists(names, dir.Keys)
    {
      names := [];
      var todo := dir.Keys;
      while todo != {}
        invariant todo <= dir.Keys && Lists(names, dir.Keys - todo)
      {
        var n :| n in todo;
        names := names + [n];
        todo := todo - {n};
      }
    }

    ghost function View(): Cache
      reads this
    {
      Cache(map[], map[], Store(map[]), img, lts)
    }

    /** WalkTheCache: the manifest files, those of `lts` first. */
    method WalkTheCache() returns (files: seq<Manifest>)
      ensures Walk(View(), files)
    {
      var inLts := ReadDir(lts);
      var inImg := ReadDir(img);
      files := Contents(lts, inLts) + Contents(img, inImg);
    }
  }

  lemma ClassIs(m: Manifest, isLatest: bool)
    requires m.IsLatest() == Ok(isLatest)
    ensures m.Latest() == isLatest
  {
  }
}
