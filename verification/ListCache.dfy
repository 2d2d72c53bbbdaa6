/** The second url parser, used when the cache is listed. */
module ListCache {
  import opened Text
  import opened PullRequests

  /** Splits an image reference at its '@', or else at its last ':'. */
  function SplitImageRef(ref: string): (string, string) {
    var at, colon := Find(ref, '@'), FindLast(ref, ':', |ref|);
    if at < |ref| then
      var digest := ref[at + 1..];
      (ref[..at], if DIGEST_PREFIX <= digest then digest[|DIGEST_PREFIX|..] else digest)
    else if colon >= 0 then (ref[..colon], ref[colon + 1..])
    else (ref, "")
  }

  /** The name and the bare tag or digest of a request. */
  function NameAndReference(pr: PullRequest): (string, string) {
    (pr.remote + "/" + pr.repository,
     if pr.pullType == ByDigest && DIGEST_PREFIX <= pr.reference then pr.reference[|DIGEST_PREFIX|..] else pr.reference)
  }

  lemma SplitAtDigest(name: string, ref: string)
    requires Lacks(name, '@')
    ensures SplitImageRef(name + ['@'] + ref)
         == (name, if DIGEST_PREFIX <= ref then ref[|DIGEST_PREFIX|..] else ref)
  {
    CutJoined(name, '@', ref);
  }

  lemma SplitAtTag(name: string, ref: string)
    requires Lacks(name, '@') && Lacks(ref, '@') && Lacks(ref, ':')
    ensures SplitImageRef(name + [':'] + ref) == (name, ref)
  {
    assert Lacks(name + [':'] + ref, '@');
    FindLastJoined(name, ':', ref);
  }

  lemma SplitBare(name: string)
    requires Lacks(name, '@') && Lacks(name, ':')
    ensures SplitImageRef(name) == (name, "")
  {
  }

  /** The three forms that a reference can have: cut at the first '@', else at the last ':', else whole. */
  lemma SplitForms(name: string, ref: string)
    ensures '@' !in name ==>
              SplitImageRef(name + "@" + ref) == (name, if "sha256:" <= ref then ref[7..] else ref)
    ensures '@' !in name && '@' !in ref && ':' !in ref ==> SplitImageRef(name + ":" + ref) == (name, ref)
    ensures '@' !in name && ':' !in name ==> SplitImageRef(name) == (name, "")
  {
    hide SplitImageRef;
    LacksIff(name, '@');
    LacksIff(name, ':');
    LacksIff(ref, '@');
    LacksIff(ref, ':');
    if '@' !in name {
      SplitAtDigest(name, ref);
      if '@' !in ref && ':' !in ref { SplitAtTag(name, ref); }
      if ':' !in name { SplitBare(name); }
    }
  }

  /** The listing agrees with the request parser on every well-formed url, a remote with a port
      included, exactly when the remote holds no '@'. */
  lemma SplitAgreesIff(pr: PullRequest)
    requires pr.WellFormed()
    ensures SplitImageRef(pr.Url()) == NameAndReference(pr) <==> Lacks(pr.remote, '@')
  {
    var name := pr.remote + "/" + pr.repository;
    assert pr.Url() == name + [Separator(pr.reference)] + pr.reference;
    if !Lacks(pr.remote, '@') {
      assert pr.Url() == pr.remote + ("/" + pr.Path());
      FindInHead(pr.remote, '@', "/" + pr.Path());
    } else {
      assert Lacks(name, '@');
      if pr.pullType == ByDigest { SplitAtDigest(name, pr.reference); } else { SplitAtTag(name, pr.reference); }
    }
  }
}
