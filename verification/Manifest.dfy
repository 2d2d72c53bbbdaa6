/** Manifests, the digests they name, and the blob references they hold. */
module Manifests {
  import opened Text
  import opened PullRequests

  const DIGEST_LENGTH := 64

  predicate IsHex(s: string) {
    forall i | 0 <= i < |s| :: '0' <= s[i] <= '9' || 'a' <= s[i] <= 'f'
  }

  predicate IsDigest(s: string) {
    |s| == DIGEST_LENGTH && IsHex(s)
  }

  /** The last run of 64 hex digits that ends at or before `end`, or "" when there is none. */
  function LastDigest(s: string, end: nat): (d: string)
    requires end <= |s|
    ensures d == "" || IsDigest(d)
  {
    if end < DIGEST_LENGTH then ""
    else if IsHex(s[end - DIGEST_LENGTH..end]) then s[end - DIGEST_LENGTH..end]
    else LastDigest(s, end - 1)
  }

  function DigestFrom(s: string): string {
    LastDigest(s, |s|)
  }

  ghost predicate HexRun(s: string) {
    |s| == 64 && forall i | 0 <= i < 64 :: s[i] in "0123456789abcdef"
  }

  /** 64 hex digits end at `e`. */
  ghost predicate RunEnds(s: string, e: nat) {
    64 <= e <= |s| && HexRun(s[e - 64..e])
  }

  lemma {:induction false} LastDigestIs(s: string, end: nat)
    requires end <= |s|
    ensures LastDigest(s, end) == "" <==> forall e: nat | e <= end :: !RunEnds(s, e)
    ensures LastDigest(s, end) != "" ==>
              exists e: nat :: e <= end && RunEnds(s, e) && LastDigest(s, end) == s[e - 64..e]
                               && forall later: nat | e < later <= end :: !RunEnds(s, later)
  {
    hide HexRun, IsHex;
    if end >= 64 {
      HexRunIs(s[end - 64..end]);
      if RunEnds(s, end) {
        assert forall later: nat | end < later <= end :: !RunEnds(s, later);
      } else {
        LastDigestIs(s, end - 1);
      }
    }
  }

  /** What is extracted from a text is its last run of 64 hex digits, or nothing when it has no such run. */
  lemma DigestFromIs(s: string)
    ensures DigestFrom(s) == "" <==> forall e: nat :: !RunEnds(s, e)
    ensures DigestFrom(s) != "" ==>
              exists e: nat :: RunEnds(s, e) && DigestFrom(s) == s[e - 64..e]
                               && forall later: nat | e < later :: !RunEnds(s, later)
  {
    hide HexRun, LastDigest;
    LastDigestIs(s, |s|);
  }

  lemma HexRunIs(s: string)
    requires |s| == 64
    ensures HexRun(s) <==> IsHex(s)
  {
    forall i | 0 <= i < |s| ensures s[i] in "0123456789abcdef" <==> '0' <= s[i] <= '9' || 'a' <= s[i] <= 'f' {
      HexDigit(s[i]);
    }
  }

  lemma HexDigit(c: char)
    ensures c in "0123456789abcdef" <==> '0' <= c <= '9' || 'a' <= c <= 'f'
  {
    var digits := "0123456789abcdef";
    if '0' <= c <= '9' { assert digits[c as int - 48] == c; }
    if 'a' <= c <= 'f' { assert digits[c as int - 87] == c; }
  }

  datatype Manifest = Manifest(url: string, digest: string, image: bool, layers: seq<string>,
                               children: seq<string>, created: string, pulled: string) {

    /** The blob file names of the layers, config included, with their multiplicity. */
    function Blobs(): (r: seq<string>)
      ensures |r| == |layers|
    {
      seq(|layers|, i requires 0 <= i < |layers| => DigestFrom(layers[i]))
    }

    /** The manifest without the two times that the server stamps on every pull and read. */
    function Core(): Manifest {
      this.(created := "", pulled := "")
    }

    /** The references the manifest holds on blobs; image lists hold none. */
    function Refs(): multiset<string> {
      if image then multiset(Blobs()) else multiset{}
    }

    function IsLatest(): Result<bool> {
      match FromUrl(url)
      case Ok(pr) => Ok(pr.IsLatest())
      case Err(e) => Err(e)
    }

    predicate Latest() {
      IsLatest() == Ok(true)
    }

    /** The url is canonical, the digest is a digest, a by-digest url names that digest, and an
        image list has no layers. */
    predicate WellFormed() {
      && IsDigest(digest)
      && (image || layers == [])
      && FromUrl(url).Ok?
      && var pr := FromUrl(url).value;
      && pr.Url() == url
      && (pr.pullType == ByDigest ==> pr.reference == DIGEST_PREFIX + digest)
    }

    /** The second, by-digest key of the manifest. */
    function Alias(): string {
      match FromUrl(url)
      case Ok(pr) => pr.UrlWithDigest(DIGEST_PREFIX + digest)
      case Err(_) => ""
    }
  }

  lemma DigestClean(d: string)
    requires IsDigest(d)
    ensures Lacks(d, '@') && IsLower(d) && DigestFrom(d) == d
  {
    assert d[|d| - DIGEST_LENGTH..] == d;
  }

  /** How many of the layers name the blob. */
  ghost function Occurs(layers: seq<string>, d: string): nat {
    |Places(layers, d)|
  }

  ghost function Places(layers: seq<string>, d: string): set<int> {
    set i | 0 <= i < |layers| && DigestFrom(layers[i]) == d
  }

  lemma OccursNext(layers: seq<string>, i: nat, d: string)
    requires i < |layers|
    ensures Occurs(layers[..i + 1], d) == Occurs(layers[..i], d) + if DigestFrom(layers[i]) == d then 1 else 0
  {
    hide DigestFrom;
    var before, after := Places(layers[..i], d), Places(layers[..i + 1], d);
    assert after == before + if DigestFrom(layers[i]) == d then {i as int} else {};
  }

  lemma {:induction false} PrefixOccurs(m: Manifest, i: nat, d: string)
    requires i <= |m.layers|
    ensures multiset(m.Blobs()[..i])[d] == Occurs(m.layers[..i], d)
  {
    hide DigestFrom, Occurs;
    if i == 0 {
      assert Occurs([], d) == 0 by { NoPlaces(d); }
    } else {
      PrefixOccurs(m, i - 1, d);
      OccursNext(m.layers, i - 1, d);
      assert m.Blobs()[..i] == m.Blobs()[..i - 1] + [m.Blobs()[i - 1]];
    }
  }

  lemma NoPlaces(d: string)
    ensures Occurs([], d) == 0
  {
    assert Places([], d) == {};
  }

  /** The blobs are those that the layers name, each as often as it is named. */
  lemma BlobsOccur(m: Manifest, d: string)
    ensures multiset(m.Blobs())[d] == Occurs(m.layers, d)
    ensures d in m.Blobs() <==> exists l :: l in m.layers && DigestFrom(l) == d
  {
    hide DigestFrom, Occurs;
    PrefixOccurs(m, |m.layers|, d);
    assert m.Blobs()[..|m.layers|] == m.Blobs() && m.layers[..|m.layers|] == m.layers;
    if d in m.Blobs() {
      var i :| 0 <= i < |m.Blobs()| && m.Blobs()[i] == d;
      assert m.layers[i] in m.layers;
    }
    forall l | l in m.layers && DigestFrom(l) == d ensures d in m.Blobs() {
      var i :| 0 <= i < |m.layers| && m.layers[i] == l;
      assert m.Blobs()[i] == d;
    }
  }

  lemma AllOccur(m: Manifest)
    ensures forall d :: multiset(m.Blobs())[d] == Occurs(m.layers, d)
  {
    hide Occurs, Manifest.Blobs;
    forall d ensures multiset(m.Blobs())[d] == Occurs(m.layers, d) { BlobsOccur(m, d); }
  }

  /** An image holds one reference for each layer that names a blob, whichever layer it is. */
  lemma RefsCount(m: Manifest, d: string)
    ensures m.Refs()[d] == if m.image then Occurs(m.layers, d) else 0
  {
    hide Occurs;
    BlobsOccur(m, d);
  }

  /** The access time of a manifest has no part in its keys or its references. */
  lemma StampSame(m: Manifest, now: string)
    ensures var s := m.(pulled := now);
            && s.Core() == m.Core() && s.Refs() == m.Refs() && s.Alias() == m.Alias()
            && s.WellFormed() == m.WellFormed() && s.Latest() == m.Latest() && s.IsLatest() == m.IsLatest()
  {
    assert m.(pulled := now).Blobs() == m.Blobs();
  }

  /** Nor have the times that its core leaves out. */
  lemma CoreSame(m: Manifest)
    ensures var s := m.Core();
            && s.Refs() == m.Refs() && s.Alias() == m.Alias()
            && s.WellFormed() == m.WellFormed() && s.Latest() == m.Latest() && s.IsLatest() == m.IsLatest()
  {
    assert m.Core().Blobs() == m.Blobs();
  }

  /** How the two keys of a manifest parse: this tells all keys of all manifests apart. */
  lemma KeysParse(m: Manifest)
    requires m.WellFormed()
    ensures FromUrl(m.Alias()).Ok?
    ensures var pr, alias := FromUrl(m.url).value, FromUrl(m.Alias()).value;
            && alias == pr.(pullType := ByDigest, reference := DIGEST_PREFIX + m.digest)
            && !alias.IsLatest()
            && m.Latest() == pr.IsLatest() && m.IsLatest() == Ok(m.Latest())
            && (m.url == m.Alias() <==> pr.pullType == ByDigest)
            && (m.Latest() ==> m.url != m.Alias())
  {
    var pr := FromUrl(m.url).value;
    RoundTripIff(pr);
    DigestClean(m.digest);
    DigestKeyParses(pr, m.digest);
    PrefixClean(m.digest);
    assert "latest"[0] != DIGEST_PREFIX[0];
  }

  /** Two manifests with a digest key in common have the same digest. */
  lemma AliasDetermines(m: Manifest, n: Manifest)
    requires m.WellFormed() && n.WellFormed()
    ensures m.Alias() == n.Alias() ==> m.digest == n.digest
    ensures m.Alias() == n.url ==> m.digest == n.digest && n.url == n.Alias()
  {
    KeysParse(m);
    KeysParse(n);
    assert (DIGEST_PREFIX + m.digest)[|DIGEST_PREFIX|..] == m.digest;
    assert (DIGEST_PREFIX + n.digest)[|DIGEST_PREFIX|..] == n.digest;
  }

  lemma ClassKnown(m: Manifest)
    requires m.WellFormed()
    ensures m.IsLatest() == Ok(m.Latest())
  {
    KeysParse(m);
  }

  /** A `latest` url is no digest key. */
  lemma LatestUrlIsNoAlias(m: Manifest, n: Manifest)
    requires m.WellFormed() && n.WellFormed() && m.Latest()
    ensures m.url != n.Alias()
  {
    KeysParse(m);
    KeysParse(n);
  }

  /** Two `latest` manifests with a digest key in common have the same url. */
  lemma LatestAliasDetermines(m: Manifest, n: Manifest)
    requires m.WellFormed() && n.WellFormed() && m.Latest() && n.Latest()
    ensures m.Alias() == n.Alias() ==> m.url == n.url && m.digest == n.digest
  {
    if m.Alias() == n.Alias() {
      AliasDetermines(m, n);
      KeysParse(m);
      KeysParse(n);
      LatestUrls(m, n);
    }
  }

  lemma LatestUrls(m: Manifest, n: Manifest)
    requires m.WellFormed() && n.WellFormed() && m.Latest() && n.Latest()
    requires FromUrl(m.url).value.remote == FromUrl(n.url).value.remote
    requires FromUrl(m.url).value.repository == FromUrl(n.url).value.repository
    ensures m.url == n.url
  {
    var p, q := FromUrl(m.url).value, FromUrl(n.url).value;
    hide FromUrl;
    RoundTripIff(p);
    RoundTripIff(q);
    LowerFixed(p.reference);
    LowerFixed(q.reference);
    assert p == q;
  }

  // ---------------------------------------------------------------- references owed

  ghost function Pick(ms: multiset<Manifest>): Manifest
    requires ms != multiset{}
    ensures Pick(ms) in ms
  {
    var m :| m in ms; m
  }

  /** All blob references held by a bag of manifests. */
  ghost function Owed(ms: multiset<Manifest>): multiset<string>
    decreases |ms|
  {
    if ms == multiset{} then multiset{}
    else Pick(ms).Refs() + Owed(ms - multiset{Pick(ms)})
  }

  lemma Exchange(a: multiset<string>, b: multiset<string>, c: multiset<string>)
    ensures a + (b + c) == b + (a + c)
  {
  }

  /** The sum does not depend on the order in which it is taken. */
  lemma {:induction false} OwedRemove(ms: multiset<Manifest>, m: Manifest)
    requires m in ms
    ensures Owed(ms) == m.Refs() + Owed(ms - multiset{m})
    decreases |ms|
  {
    var p := Pick(ms);
    if p != m {
      var rest, without := ms - multiset{p}, ms - multiset{m};
      var both := rest - multiset{m};
      assert both == without - multiset{p};
      OwedRemove(rest, m);
      OwedRemove(without, p);
      Exchange(p.Refs(), m.Refs(), Owed(both));
    }
  }

  lemma OwedAdd(ms: multiset<Manifest>, m: Manifest)
    ensures Owed(ms + multiset{m}) == Owed(ms) + m.Refs()
  {
    OwedRemove(ms + multiset{m}, m);
    assert ms + multiset{m} - multiset{m} == ms;
  }

  lemma {:induction false} OwedUnion(ms: multiset<Manifest>, ns: multiset<Manifest>)
    ensures Owed(ms + ns) == Owed(ms) + Owed(ns)
    decreases |ns|
  {
    if ns == multiset{} {
      assert ms + ns == ms;
    } else {
      var n := Pick(ns);
      OwedUnion(ms, ns - multiset{n});
      OwedAdd(ms + (ns - multiset{n}), n);
      assert ms + (ns - multiset{n}) + multiset{n} == ms + ns;
    }
  }

  /** What one holder references is among all that is owed. */
  lemma OwedIncludes(ms: multiset<Manifest>, m: Manifest)
    requires m in ms
    ensures m.Refs() <= Owed(ms)
  {
    OwedRemove(ms, m);
  }

  /** Something is owed only if some holder references it. */
  lemma {:induction false} OwedHasHolder(ms: multiset<Manifest>, d: string)
    requires d in Owed(ms)
    ensures exists m :: m in ms && d in m.Refs()
    decreases |ms|
  {
    var p := Pick(ms);
    if d !in p.Refs() {
      OwedHasHolder(ms - multiset{p}, d);
      var m :| m in ms - multiset{p} && d in m.Refs();
      assert m in ms;
    }
  }
}
