/** The reference-counted blob files. A count is raised once per layer occurrence; the file goes
    when its count reaches zero. */
module BlobStores {
  import opened Sums

  /** The in-memory counts, the blob files with their sizes, and the two exported gauges. */
  datatype BlobStore = BlobStore(counts: map<string, int>, files: map<string, nat>,
                                 blobGauge: int, byteGauge: int)

  function Count(counts: map<string, int>, d: string): int {
    if d in counts then counts[d] else 0
  }

  // ---------------------------------------------------------------- the two walks

  function AddBlob(st: BlobStore, d: string): (BlobStore, bool) {
    var up := st.(counts := st.counts[d := Count(st.counts, d) + 1]);
    if d !in st.files then (up, false)
    else if up.counts[d] == 1 then
      (up.(blobGauge := up.blobGauge + 1, byteGauge := up.byteGauge + st.files[d]), true)
    else (up, true)
  }

  /** Raises the count of each blob in turn and stops after the first that has no file. */
  function AddBlobs(st: BlobStore, ds: seq<string>): (BlobStore, bool)
    decreases |ds|
  {
    if ds == [] then (st, true)
    else
      var (st', ok) := AddBlob(st, ds[0]);
      if ok then AddBlobs(st', ds[1..]) else (st', false)
  }

  function RmBlobFile(st: BlobStore, d: string): BlobStore {
    if d in st.files then
      st.(files := st.files - {d}, blobGauge := st.blobGauge - 1, byteGauge := st.byteGauge - st.files[d])
    else st
  }

  function RmBlob(st: BlobStore, d: string): (BlobStore, bool) {
    var n := Count(st.counts, d) - 1;
    if n == 0 then (RmBlobFile(st.(counts := st.counts - {d}), d), true)
    else (st.(counts := st.counts[d := n]), n > 0)
  }

  /** Lowers the count of each blob in turn and stops after the first that goes negative. */
  function RmBlobs(st: BlobStore, ds: seq<string>): (BlobStore, bool)
    decreases |ds|
  {
    if ds == [] then (st, true)
    else
      var (st', ok) := RmBlob(st, ds[0]);
      if ok then RmBlobs(st', ds[1..]) else (st', false)
  }

  // ---------------------------------------------------------------- what the counts mean

  /** The counts are the multiplicities of the references owed, and zero is never stored. */
  ghost predicate Balanced(counts: map<string, int>, owed: multiset<string>) {
    forall d :: (d in counts <==> d in owed) && (d in counts ==> counts[d] == owed[d])
  }

  ghost function CountedSizes(st: BlobStore): map<string, nat>
    requires st.counts.Keys <= st.files.Keys
  {
    map d | d in st.counts :: st.files[d]
  }

  /** Counts are exact, every counted blob has its file, and the gauges measure the counted blobs. */
  ghost predicate Sound(st: BlobStore, owed: multiset<string>) {
    && Balanced(st.counts, owed)
    && st.counts.Keys <= st.files.Keys
    && st.blobGauge == |st.counts|
    && st.byteGauge == Sum(CountedSizes(st))
  }

  lemma CountOneMore(counts: map<string, int>, owed: multiset<string>, d: string)
    requires Balanced(counts, owed)
    ensures Balanced(counts[d := Count(counts, d) + 1], owed + multiset{d})
    ensures Count(counts, d) == 0 <==> d !in counts
  {
  }

  lemma AddBlobIs(st: BlobStore, d: string)
    ensures var st' := AddBlob(st, d).0;
            && st'.counts == st.counts[d := Count(st.counts, d) + 1] && st'.files == st.files
            && (AddBlob(st, d).1 <==> d in st.files)
            && (d in st.files && Count(st.counts, d) == 0 ==>
                  st'.blobGauge == st.blobGauge + 1 && st'.byteGauge == st.byteGauge + st.files[d])
            && (d in st.files && Count(st.counts, d) != 0 ==>
                  st'.blobGauge == st.blobGauge && st'.byteGauge == st.byteGauge)
            && (d !in st.files ==> st'.blobGauge == st.blobGauge && st'.byteGauge == st.byteGauge)
  {
  }

  lemma SizesGrow(st: BlobStore, st': BlobStore, d: string)
    requires st.counts.Keys <= st.files.Keys && d in st.files && st'.files == st.files
    requires st'.counts.Keys == st.counts.Keys + {d}
    ensures Sum(CountedSizes(st')) == Sum(CountedSizes(st)) + (if d in st.counts then 0 else st.files[d])
    ensures |st'.counts| == |st.counts| + (if d in st.counts then 0 else 1)
  {
    hide Sum;
    SumUpdate(CountedSizes(st), d, st.files[d]);
    assert CountedSizes(st') == CountedSizes(st)[d := st.files[d]];
    KeysGrow(st.counts, st'.counts, d);
  }

  lemma KeysGrow(counts: map<string, int>, more: map<string, int>, d: string)
    requires more.Keys == counts.Keys + {d}
    ensures |more| == |counts| + (if d in counts then 0 else 1)
  {
    assert |more| == |more.Keys| && |counts| == |counts.Keys|;
    if d in counts {
      assert more.Keys == counts.Keys;
    } else {
      assert more.Keys - {d} == counts.Keys;
    }
  }

  lemma AddBlobSound(st: BlobStore, owed: multiset<string>, d: string)
    requires Sound(st, owed)
    ensures AddBlob(st, d).1 <==> d in st.files
    ensures d in st.files ==> Sound(AddBlob(st, d).0, owed + multiset{d}) && AddBlob(st, d).0.files == st.files
    ensures d !in st.files ==> Balanced(AddBlob(st, d).0.counts, owed + multiset{d})
  {
    hide Balanced, CountedSizes, Sum, AddBlob, Count;
    CountOneMore(st.counts, owed, d);
    AddBlobIs(st, d);
    if d in st.files { SizesGrow(st, AddBlob(st, d).0, d); }
  }

  /** Counting succeeds exactly when every blob has its file; it then owes one reference more per
      occurrence and touches no file. */
  lemma {:induction false} AddBlobsSound(st: BlobStore, owed: multiset<string>, ds: seq<string>)
    requires Sound(st, owed)
    ensures var (st', ok) := AddBlobs(st, ds);
            && (ok <==> forall d | d in ds :: d in st.files)
            && st'.files == st.files
            && (ok ==> Sound(st', owed + multiset(ds)))
    decreases |ds|
  {
    if ds != [] {
      AddBlobSound(st, owed, ds[0]);
      assert ds == [ds[0]] + ds[1..];
      if ds[0] in st.files {
        AddBlobsSound(AddBlob(st, ds[0]).0, owed + multiset{ds[0]}, ds[1..]);
        assert owed + multiset{ds[0]} + multiset(ds[1..]) == owed + multiset(ds);
      }
    } else {
      assert owed + multiset(ds) == owed;
    }
  }

  /** The blobs of `ds` that have no count yet. */
  ghost function Uncounted(st: BlobStore, ds: seq<string>): set<string> {
    set d | d in ds && d !in st.counts
  }

  ghost function SizesOf(files: map<string, nat>, ds: set<string>): map<string, nat> {
    map d | d in ds && d in files :: files[d]
  }

  lemma UncountedNext(st: BlobStore, ds: seq<string>, j: nat)
    requires ds != [] && j <= |ds[1..]| && ds[0] in st.files
    ensures var st1, rest := AddBlob(st, ds[0]).0, ds[1..];
            var unmet, later := Uncounted(st, ds[..j + 1]), Uncounted(st1, rest[..j]);
            && unmet == later + (if ds[0] in st.counts then {} else {ds[0]}) && ds[0] !in later
            && |unmet| == |later| + (if ds[0] in st.counts then 0 else 1)
            && Sum(SizesOf(st.files, unmet))
               == Sum(SizesOf(st.files, later)) + (if ds[0] in st.counts then 0 else st.files[ds[0]])
  {
    hide Sum;
    var d, rest := ds[0], ds[1..];
    var unmet, later := Uncounted(st, ds[..j + 1]), Uncounted(AddBlob(st, d).0, rest[..j]);
    assert ds[..j + 1] == [d] + rest[..j];
    if d in st.counts {
      assert unmet == later;
    } else {
      assert unmet == later + {d};
      assert SizesOf(st.files, unmet) == SizesOf(st.files, later)[d := st.files[d]];
      SumUpdate(SizesOf(st.files, later), d, st.files[d]);
    }
  }

  /** On failure the blobs up to and including the first missing one stay counted. The gauges have moved
      by the blobs before it that had no count yet, and not by the missing one. */
  lemma {:induction false} AddBlobsPartial(st: BlobStore, owed: multiset<string>, ds: seq<string>) returns (k: nat)
    requires Sound(st, owed) && !AddBlobs(st, ds).1
    ensures k < |ds| && ds[k] !in st.files && forall j | 0 <= j < k :: ds[j] in st.files
    ensures Balanced(AddBlobs(st, ds).0.counts, owed + multiset(ds[..k + 1]))
    ensures AddBlobs(st, ds).0.files == st.files
    ensures AddBlobs(st, ds).0.blobGauge == st.blobGauge + |Uncounted(st, ds[..k])|
    ensures AddBlobs(st, ds).0.byteGauge == st.byteGauge + Sum(SizesOf(st.files, Uncounted(st, ds[..k])))
    decreases |ds|
  {
    hide Sound, Balanced, AddBlob, Uncounted, Sum, SizesOf;
    AddBlobSound(st, owed, ds[0]);
    AddBlobIs(st, ds[0]);
    if ds[0] !in st.files {
      k := 0;
      assert ds[..1] == [ds[0]];
      assert ds[..0] == [];
      NoneUncounted(st);
    } else {
      var st1, rest := AddBlob(st, ds[0]).0, ds[1..];
      assert AddBlobs(st, ds) == AddBlobs(st1, rest);
      var j := AddBlobsPartial(st1, owed + multiset{ds[0]}, rest);
      k := j + 1;
      assert ds[..k + 1] == [ds[0]] + rest[..j + 1];
      assert owed + multiset{ds[0]} + multiset(rest[..j + 1]) == owed + multiset(ds[..k + 1]);
      assert forall i | 0 < i < k :: ds[i] == rest[i - 1];
      UncountedNext(st, ds, j);
      CountOneMore(st.counts, owed, ds[0]) by { SoundIsBalanced(st, owed); }
    }
  }

  lemma NoneUncounted(st: BlobStore)
    ensures |Uncounted(st, [])| == 0 && Sum(SizesOf(st.files, Uncounted(st, []))) == 0
  {
    assert SizesOf(st.files, {}) == map[];
  }

  lemma SoundIsBalanced(st: BlobStore, owed: multiset<string>)
    requires Sound(st, owed)
    ensures Balanced(st.counts, owed)
  {
  }

  /** Counting that succeeds raises each count by the occurrences of its blob, whatever the counts were. */
  lemma {:induction false} AddBlobsCounts(st: BlobStore, ds: seq<string>)
    ensures AddBlobs(st, ds).1 <==> forall d | d in ds :: d in st.files
    ensures AddBlobs(st, ds).1 ==>
              forall d :: Count(AddBlobs(st, ds).0.counts, d) == Count(st.counts, d) + multiset(ds)[d]
    decreases |ds|
  {
    hide AddBlob;
    if ds != [] {
      AddBlobIs(st, ds[0]);
      assert ds == [ds[0]] + ds[1..];
      AddBlobsCounts(AddBlob(st, ds[0]).0, ds[1..]);
    }
  }

  /** Releasing that succeeds lowers each count likewise, and it succeeds exactly when no count is short. */
  lemma {:induction false} RmBlobsCounts(st: BlobStore, ds: seq<string>)
    ensures RmBlobs(st, ds).1 <==> forall d | d in ds :: multiset(ds)[d] <= Count(st.counts, d)
    ensures RmBlobs(st, ds).1 ==>
              forall d :: Count(RmBlobs(st, ds).0.counts, d) == Count(st.counts, d) - multiset(ds)[d]
    decreases |ds|
  {
    hide RmBlob;
    if ds != [] {
      var d, rest, st1 := ds[0], ds[1..], RmBlob(st, ds[0]).0;
      RmBlobCount(st, d);
      assert ds == [d] + rest;
      assert multiset(ds)[d] >= 1;
      if RmBlob(st, d).1 {
        RmBlobsCounts(st1, rest);
        assert forall e :: Count(st1.counts, e) == Count(st.counts, e) - if e == d then 1 else 0;
        assert forall e :: multiset(ds)[e] == multiset(rest)[e] + if e == d then 1 else 0;
      }
    }
  }

  lemma RmBlobCount(st: BlobStore, d: string)
    ensures RmBlob(st, d).1 <==> Count(st.counts, d) >= 1
    ensures forall e :: Count(RmBlob(st, d).0.counts, e) == Count(st.counts, e) - if e == d then 1 else 0
    ensures d in RmBlob(st, d).0.counts <==> Count(st.counts, d) != 1
    ensures var st', gone := RmBlob(st, d).0, Count(st.counts, d) == 1 && d in st.files;
            && st'.files == (if gone then st.files - {d} else st.files)
            && st'.blobGauge == st.blobGauge - (if gone then 1 else 0)
            && st'.byteGauge == st.byteGauge - (if gone then st.files[d] else 0)
  {
  }

  lemma {:induction false} AddBlobsNoFiles(st: BlobStore, ds: seq<string>)
    ensures AddBlobs(st, ds).0.files == st.files
    decreases |ds|
  {
    hide AddBlob;
    if ds != [] {
      AddBlobIs(st, ds[0]);
      AddBlobsNoFiles(AddBlob(st, ds[0]).0, ds[1..]);
    }
  }

  lemma {:induction false} RmBlobsNoMore(st: BlobStore, ds: seq<string>)
    ensures RmBlobs(st, ds).0.files.Keys <= st.files.Keys
    decreases |ds|
  {
    if ds != [] { RmBlobsNoMore(RmBlob(st, ds[0]).0, ds[1..]); }
  }

  lemma RmBlobSound(st: BlobStore, owed: multiset<string>, d: string)
    requires Sound(st, owed)
    ensures RmBlob(st, d).1 <==> d in owed
    ensures d in owed ==>
              && Sound(RmBlob(st, d).0, owed - multiset{d})
              && RmBlob(st, d).0.files == (if owed[d] == 1 then st.files - {d} else st.files)
    ensures d !in owed ==> Count(RmBlob(st, d).0.counts, d) == -1 && RmBlob(st, d).0.files == st.files
  {
    var st' := RmBlob(st, d).0;
    if d in owed {
      if owed[d] == 1 {
        SumRemove(CountedSizes(st), d);
        assert CountedSizes(st') == CountedSizes(st) - {d};
        assert st'.counts.Keys == st.counts.Keys - {d};
      } else {
        assert CountedSizes(st') == CountedSizes(st);
        assert st'.counts.Keys == st.counts.Keys;
      }
    }
  }

  lemma OwedSplit(owed: multiset<string>, ds: seq<string>)
    requires ds != []
    ensures multiset(ds) == multiset{ds[0]} + multiset(ds[1..])
    ensures owed - multiset{ds[0]} - multiset(ds[1..]) == owed - multiset(ds)
    ensures multiset(ds) <= owed <==> ds[0] in owed && multiset(ds[1..]) <= owed - multiset{ds[0]}
  {
    assert ds == [ds[0]] + ds[1..];
    var one, rest := multiset{ds[0]}, multiset(ds[1..]);
    if ds[0] in owed && rest <= owed - one {
      assert one + rest <= owed;
    }
    if one + rest <= owed {
      assert (one + rest)[ds[0]] >= 1;
    }
  }

  /** The blobs of `ds` that nobody references once `ds` is released. */
  ghost function Unreferenced(owed: multiset<string>, ds: seq<string>): set<string> {
    set d | d in ds && d !in owed - multiset(ds)
  }

  /** Releasing succeeds exactly when all the references are owed, and then owes that much less. */
  lemma {:induction false} RmBlobsSound(st: BlobStore, owed: multiset<string>, ds: seq<string>)
    requires Sound(st, owed)
    ensures RmBlobs(st, ds).1 <==> multiset(ds) <= owed
    ensures multiset(ds) <= owed ==> Sound(RmBlobs(st, ds).0, owed - multiset(ds))
    decreases |ds|
  {
    if ds == [] {
      assert owed - multiset(ds) == owed;
    } else {
      RmBlobSound(st, owed, ds[0]);
      OwedSplit(owed, ds);
      if ds[0] in owed {
        RmBlobsSound(RmBlob(st, ds[0]).0, owed - multiset{ds[0]}, ds[1..]);
      }
    }
  }

  /** A release that fails leaves a negative count behind. */
  lemma {:induction false} RmBlobsOverdrawn(st: BlobStore, owed: multiset<string>, ds: seq<string>)
    requires Sound(st, owed) && !(multiset(ds) <= owed)
    ensures exists d :: d in RmBlobs(st, ds).0.counts && RmBlobs(st, ds).0.counts[d] < 0
    decreases |ds|
  {
    var d := ds[0];
    RmBlobSound(st, owed, d);
    OwedSplit(owed, ds);
    if d in owed {
      RmBlobsOverdrawn(RmBlob(st, d).0, owed - multiset{d}, ds[1..]);
      assert RmBlobs(st, ds) == RmBlobs(RmBlob(st, d).0, ds[1..]);
    } else {
      assert d in RmBlobs(st, ds).0.counts;
    }
  }

  /** Releasing deletes the files of exactly those blobs that nobody references any more. */
  lemma {:induction false} RmBlobsFiles(st: BlobStore, owed: multiset<string>, ds: seq<string>)
    requires Sound(st, owed) && multiset(ds) <= owed
    ensures RmBlobs(st, ds).0.files == st.files - Unreferenced(owed, ds)
    decreases |ds|
  {
    if ds != [] {
      var d, less := ds[0], owed - multiset{ds[0]};
      RmBlobSound(st, owed, d);
      OwedSplit(owed, ds);
      RmBlobsFiles(RmBlob(st, d).0, less, ds[1..]);
      UnreferencedSplit(owed, ds);
      RemoveTwice(st.files, if owed[d] == 1 then {d} else {}, Unreferenced(less, ds[1..]));
    }
  }

  /** A release stops at the first blob without a reference left; what it deletes are the blobs that
      the part before that point has used up. */
  lemma {:induction false} RmBlobsStops(st: BlobStore, owed: multiset<string>, ds: seq<string>) returns (k: nat)
    requires Sound(st, owed)
    ensures k <= |ds| && multiset(ds[..k]) <= owed && (k < |ds| ==> ds[k] !in owed - multiset(ds[..k]))
    ensures RmBlobs(st, ds).1 <==> k == |ds|
    ensures RmBlobs(st, ds).0.files == st.files - Unreferenced(owed, ds[..k])
    decreases |ds|
  {
    hide Sound, RmBlob, RmBlobs, Unreferenced;
    RmBlobsStep(st, ds);
    if ds == [] {
      k := 0;
      NothingUnreferenced(st.files, owed);
    } else {
      RmBlobSound(st, owed, ds[0]);
      if ds[0] in owed {
        var j := RmBlobsStops(RmBlob(st, ds[0]).0, owed - multiset{ds[0]}, ds[1..]);
        k := j + 1;
        RestCounts(owed, ds, j);
        RestFiles(st, owed, ds, j);
      } else {
        k := 0;
        assert ds[..0] == [];
        NothingUnreferenced(st.files, owed);
      }
    }
  }

  lemma {:induction false} RmBlobsSplit(st: BlobStore, a: seq<string>, b: seq<string>)
    ensures RmBlobs(st, a).1 ==> RmBlobs(st, a + b) == RmBlobs(RmBlobs(st, a).0, b)
    decreases |a|
  {
    hide RmBlob;
    if a == [] {
      assert a + b == b;
    } else {
      assert (a + b)[0] == a[0] && (a + b)[1..] == a[1..] + b;
      RmBlobsSplit(RmBlob(st, a[0]).0, a[1..], b);
    }
  }

  /** A release that stops leaves everything in order but for the count of the blob it stops at, the
      gauges included. */
  lemma RmBlobsLeft(st: BlobStore, owed: multiset<string>, ds: seq<string>, k: nat)
    requires Sound(st, owed) && k < |ds|
    requires multiset(ds[..k]) <= owed && ds[k] !in owed - multiset(ds[..k])
    ensures var stopped := RmBlobs(st, ds[..k]).0;
            && Sound(stopped, owed - multiset(ds[..k]))
            && RmBlobs(st, ds) == (stopped.(counts := stopped.counts[ds[k] := -1]), false)
  {
    hide CountedSizes, Sum;
    RmBlobsSound(st, owed, ds[..k]);
    assert ds == ds[..k] + ds[k..];
    RmBlobsSplit(st, ds[..k], ds[k..]);
    assert ds[k..][0] == ds[k];
  }

  /** What the rest of a release deletes is deleted by the whole of it, up to the same point. */
  lemma RestFiles(st: BlobStore, owed: multiset<string>, ds: seq<string>, j: nat)
    requires Sound(st, owed) && ds != [] && j <= |ds[1..]| && ds[0] in owed
    requires multiset(ds[1..][..j]) <= owed - multiset{ds[0]}
    ensures RmBlob(st, ds[0]).0.files - Unreferenced(owed - multiset{ds[0]}, ds[1..][..j])
         == st.files - Unreferenced(owed, ds[..j + 1])
  {
    hide Sound, RmBlob, Unreferenced;
    var d := ds[0];
    RmBlobSound(st, owed, d);
    PrefixSplit(owed, ds, j);
    UnreferencedSplit(owed, ds[..j + 1]);
    var later := Unreferenced(owed - multiset{d}, ds[1..][..j]);
    RemoveTwice(st.files, if owed[d] == 1 then {d} else {}, later);
    assert owed[d] != 1 ==> {} + later == later;
  }

  lemma RmBlobsStep(st: BlobStore, ds: seq<string>)
    ensures ds == [] ==> RmBlobs(st, ds) == (st, true)
    ensures ds != [] && RmBlob(st, ds[0]).1 ==> RmBlobs(st, ds) == RmBlobs(RmBlob(st, ds[0]).0, ds[1..])
    ensures ds != [] && !RmBlob(st, ds[0]).1 ==> RmBlobs(st, ds) == (RmBlob(st, ds[0]).0, false)
  {
    hide RmBlob;
  }

  lemma RestCounts(owed: multiset<string>, ds: seq<string>, j: nat)
    requires ds != [] && j <= |ds[1..]| && ds[0] in owed
    ensures multiset(ds[1..][..j]) <= owed - multiset{ds[0]} ==> multiset(ds[..j + 1]) <= owed
    ensures j < |ds[1..]| && ds[1..][j] !in owed - multiset{ds[0]} - multiset(ds[1..][..j]) ==>
              ds[j + 1] !in owed - multiset(ds[..j + 1])
  {
    PrefixSplit(owed, ds, j);
  }

  lemma NothingUnreferenced(files: map<string, nat>, owed: multiset<string>)
    ensures files - Unreferenced(owed, []) == files
  {
  }

  lemma PrefixSplit(owed: multiset<string>, ds: seq<string>, j: nat)
    requires ds != [] && j <= |ds[1..]| && ds[0] in owed
    ensures ds[..j + 1] != [] && ds[..j + 1][0] == ds[0] && ds[..j + 1][1..] == ds[1..][..j]
    ensures multiset(ds[1..][..j]) <= owed - multiset{ds[0]} ==> multiset(ds[..j + 1]) <= owed
    ensures owed - multiset{ds[0]} - multiset(ds[1..][..j]) == owed - multiset(ds[..j + 1])
  {
    OwedSplit(owed, ds[..j + 1]);
  }

  lemma RemoveTwice(m: map<string, nat>, a: set<string>, b: set<string>)
    ensures m - a - b == m - (a + b)
  {
  }

  lemma UnreferencedSplit(owed: multiset<string>, ds: seq<string>)
    requires ds != [] && multiset(ds) <= owed
    ensures Unreferenced(owed, ds)
         == (if owed[ds[0]] == 1 then {ds[0]} else {}) + Unreferenced(owed - multiset{ds[0]}, ds[1..])
  {
    OwedSplit(owed, ds);
    var d, rest, left := ds[0], ds[1..], owed - multiset(ds);
    assert forall x :: x in ds <==> x == d || x in rest;
    assert d !in left && owed[d] > 1 ==> multiset(rest)[d] > 0;
  }
}
