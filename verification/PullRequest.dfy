/** Image references: the REST form, the url form, and the cache keys printed from them. */
module PullRequests {
  import opened Text

  datatype Error = UnparsableUrl | NoRemote | NoImageName | TwoNamespaces

  datatype Result<+T> = Ok(value: T) | Err(error: Error)

  datatype Option<+T> = None | Some(value: T)

  datatype PullType = ByTag | ByDigest

  const DIGEST_PREFIX := "sha256:"

  function TypeFromRef(ref: string): PullType {
    if DIGEST_PREFIX <= ref then ByDigest else ByTag
  }

  function Separator(ref: string): char {
    if DIGEST_PREFIX <= ref then '@' else ':'
  }

  datatype PullRequest = PullRequest(pullType: PullType, repository: string, reference: string, remote: string) {

    /** The repository, the separator and the reference: all of the url after the remote. */
    function Path(): string {
      repository + [Separator(reference)] + reference
    }

    function Url(): string {
      remote + "/" + Path()
    }

    function UrlWithDigest(digest: string): string {
      remote + "/" + (repository + "@" + digest)
    }

    /** docker.io/library/x for docker.io/x and back; empty for any other remote. */
    function AltDockerUrl(): string {
      if remote != "docker.io" then ""
      else
        var i := Find(repository, '/');
        if i < |repository| && repository[..i] == "library" then
          remote + "/" + repository[i + 1..] + [Separator(reference)] + reference
        else
          remote + "/" + "library" + "/" + repository + [Separator(reference)] + reference
    }

    predicate IsLatest() {
      ToLower(reference) == "latest"
    }

    /** What a request must satisfy for its url to denote it, but for the case of the reference. */
    predicate Denoted() {
      && pullType == TypeFromRef(reference)
      && Lacks(remote, '/') && !Lacks(remote, '.')
      && repository != "" && Lacks(repository, '@') && Lacks(reference, '@')
      && (pullType == ByTag ==> Lacks(repository, ':') && Lacks(reference, ':'))
      && IsLower(remote) && IsLower(repository)
    }

    /** What a request must satisfy for its url to denote it. */
    predicate WellFormed() {
      Denoted() && IsLower(reference)
    }
  }

  /** The first of the two separators that occurs in `path`, '@' before ':'. */
  function UrlSeparator(path: string): (sep: Option<char>)
    ensures sep.Some? ==> !Lacks(path, sep.value)
  {
    if !Lacks(path, '@') then Some('@') else if !Lacks(path, ':') then Some(':') else None
  }

  /** The request denoted by a remote and everything after its slash. */
  function ParsePath(remote: string, path: string): Result<PullRequest> {
    match UrlSeparator(path)
    case None => Err(UnparsableUrl)
    case Some(sep) =>
      var pieces := Split(path, sep);
      if pieces[0] == "" then Err(UnparsableUrl)
      else Ok(PullRequest(TypeFromRef(pieces[1]), ToLower(pieces[0]), ToLower(pieces[1]), ToLower(remote)))
  }

  /** What parsing an image url means; NewPullRequestFromUrl computes it. */
  function FromUrl(url: string): Result<PullRequest> {
    var slash := Find(url, '/');
    if slash == |url| || slash + 1 == |url| || Lacks(url[..slash], '.') then Err(UnparsableUrl)
    else ParsePath(url[..slash], url[slash + 1..])
  }

  method NewPullRequestFromUrl(url: string) returns (r: Result<PullRequest>)
    ensures r == FromUrl(url)
  {
    var slash := Find(url, '/');
    if slash == |url| || slash + 1 == |url| || Lacks(url[..slash], '.') {
      return Err(UnparsableUrl);
    }
    var remote, path := url[..slash], url[slash + 1..];
    var repository, ref := "", "";
    var seps: seq<char> := ['@', ':'];
    ghost var used: Option<char> := None;
    for i := 0 to 2
      invariant used == None && repository == ""
      invariant forall j | 0 <= j < i :: Lacks(path, seps[j])
    {
      if !Lacks(path, seps[i]) {
        var pieces := Split(path, seps[i]);
        repository, ref := pieces[0], pieces[1];
        used := Some(seps[i]);
        assert i == 1 ==> Lacks(path, seps[0]);
        break;
      }
    }
    assert used == UrlSeparator(path) by { assert seps[0] == '@' && seps[1] == ':'; }
    if repository == "" {
      return Err(UnparsableUrl);
    }
    return Ok(PullRequest(TypeFromRef(ref), ToLower(repository), ToLower(ref), ToLower(remote)));
  }

  /** Builds a request from the REST path segments; the remote comes from the header, the query,
      the first segment when it has a dot, or the configured default, in that order. */
  function NewPullRequest(header: string, ns: Option<string>, defaultNs: string,
                          reference: string, segments: seq<string>): (r: Result<PullRequest>)
    requires header != "" || ns.Some? || segments != []
  {
    var fromPath := header == "" && ns.None? && !Lacks(segments[0], '.');
    var first := if fromPath then 1 else 0;
    if header == "" && ns.None? && !fromPath && defaultNs == "" then Err(NoRemote)
    else if first >= |segments| then Err(NoImageName)
    else if !Lacks(segments[first], '.') then Err(TwoNamespaces)
    else
      var remote := if header != "" then header
                    else if ns.Some? then ns.value
                    else if fromPath then segments[0]
                    else defaultNs;
      Ok(PullRequest(TypeFromRef(reference), Join(segments[first..], "/"), ToLower(reference), remote))
  }

  // ---------------------------------------------------------------- what parses, and to what

  /** A url parses when its first '/' has a '.' before it and, after it, a text that is not empty and
      the separator: '@' if there is one, else ':'. It fails in every other case. */
  lemma ParseFailsIff(before: string, after: string)
    requires '/' !in before
    ensures FromUrl(before) == Err(UnparsableUrl)
    ensures FromUrl(before + "/" + after).Err? ==> FromUrl(before + "/" + after) == Err(UnparsableUrl)
    ensures FromUrl(before + "/" + after).Err?
       <==> || '.' !in before || ('@' !in after && ':' !in after)
            || after[0] == (if '@' in after then '@' else ':')
  {
    LacksIff(before, '/');
    LacksIff(before, '.');
    CutJoined(before, '/', after);
    assert before + "/" + after == before + ['/'] + after;
    LacksIff(after, '@');
    LacksIff(after, ':');
    var used := UrlSeparator(after);
    if used.Some? { FirstPiece(after, used.value); }
  }

  lemma FirstPiece(s: string, c: char)
    requires c in s
    ensures Split(s, c)[0] == "" <==> s[0] == c
  {
    LacksIff(s, c);
  }

  /** What a url parses to: the texts before the first '/', between it and the separator, and between
      the separator and the next one, all in lower case. A pull is by digest when the last of these, as
      it was given, starts with "sha256:". */
  lemma ParsesTo(before: string, repository: string, sep: char, ref: string, rest: string)
    requires '/' !in before && '.' in before && repository != "" && sep !in repository && sep !in ref
    requires rest != "" ==> rest[0] == sep
    requires sep == '@' || (sep == ':' && '@' !in repository && '@' !in ref && '@' !in rest)
    ensures FromUrl(before + "/" + repository + [sep] + ref + rest)
         == Ok(PullRequest(if "sha256:" <= ref then ByDigest else ByTag,
                           ToLower(repository), ToLower(ref), ToLower(before)))
  {
    hide Split, ToLower, FindFrom;
    var after := repository + [sep] + (ref + rest);
    assert before + "/" + repository + [sep] + ref + rest == before + ['/'] + after;
    CutJoined(before, '/', after);
    LacksIff(before, '/');
    LacksIff(before, '.');
    LacksIff(repository, sep);
    PathSeparator(repository, sep, ref + rest);
    LacksIff(ref + rest, '@');
    LacksIff(repository, '@');
    SplitJoined(repository, sep, ref + rest);
    PieceBefore(ref, sep, rest);
  }

  lemma PieceBefore(ref: string, sep: char, rest: string)
    requires sep !in ref && (rest != "" ==> rest[0] == sep)
    ensures (ref + rest)[..Find(ref + rest, sep)] == ref
  {
    var i := Find(ref + rest, sep);
    assert forall k | 0 <= k < |ref| :: (ref + rest)[k] == ref[k];
    assert rest != "" ==> (ref + rest)[|ref|] == sep;
    assert i == |ref|;
  }

  /** The name segments decide whether a request is built, once the remote is known. */
  ghost predicate Builds(built: Result<PullRequest>, remote: string, name: seq<string>, reference: string) {
    if name == [] then built == Err(NoImageName)
    else if '.' in name[0] then built == Err(TwoNamespaces)
    else built == Ok(PullRequest(if "sha256:" <= reference then ByDigest else ByTag,
                                 Join(name, "/"), ToLower(reference), remote))
  }

  /** Where the remote comes from: the header if there is one, else the query, else the first segment
      if it has a dot, else the default; without any of these there is no remote. Only in the third case
      is a segment not part of the name. */
  lemma RemoteSource(header: string, ns: Option<string>, defaultNs: string, reference: string,
                     segments: seq<string>)
    requires header != "" || ns.Some? || segments != []
    ensures var built := NewPullRequest(header, ns, defaultNs, reference, segments);
            && (header != "" ==> Builds(built, header, segments, reference))
            && (header == "" && ns.Some? ==> Builds(built, ns.value, segments, reference))
            && (header == "" && ns.None? && '.' in segments[0] ==>
                  Builds(built, segments[0], segments[1..], reference))
            && (header == "" && ns.None? && '.' !in segments[0] && defaultNs != "" ==>
                  Builds(built, defaultNs, segments, reference))
            && (header == "" && ns.None? && '.' !in segments[0] && defaultNs == "" ==> built == Err(NoRemote))
  {
    hide Join, ToLower;
    assert segments[0..] == segments;
    if segments != [] { LacksIff(segments[0], '.'); }
    if |segments| > 1 { LacksIff(segments[1], '.'); }
  }

  /** The tag `latest` in any case. */
  lemma IsLatestIff(pr: PullRequest)
    ensures pr.IsLatest()
       <==> |pr.reference| == 6 && forall k | 0 <= k < 6 :: pr.reference[k] in ["lL", "aA", "tT", "eE", "sS", "tT"][k]
  {
    var ref, letters := pr.reference, ["lL", "aA", "tT", "eE", "sS", "tT"];
    if |ref| == 6 {
      assert "latest" == ['l', 'a', 't', 'e', 's', 't'];
      forall k | 0 <= k < 6 ensures LowerChar(ref[k]) == "latest"[k] <==> ref[k] in letters[k] {
        assert letters[k] == ["latest"[k], ("latest"[k] as int - 32) as char];
      }
      assert ToLower(ref) == "latest" <==> forall k | 0 <= k < 6 :: LowerChar(ref[k]) == "latest"[k];
    } else {
      assert |ToLower(ref)| == |ref| && |"latest"| == 6;
    }
  }

  /** A tag is printed after ':', a digest after '@'. */
  lemma PrintedUrls()
    ensures PullRequest(ByTag, "a/b", "v1", "r.io").Url() == "r.io/a/b:v1"
    ensures PullRequest(ByTag, "a/b", "v1", "r.io").UrlWithDigest("sha256:d") == "r.io/a/b@sha256:d"
    ensures PullRequest(ByDigest, "a/b", "sha256:d", "r.io").Url() == "r.io/a/b@sha256:d"
    ensures PullRequest(ByTag, "b", "v1", "docker.io").AltDockerUrl() == "docker.io/library/b:v1"
    ensures PullRequest(ByTag, "library/b", "v1", "docker.io").AltDockerUrl() == "docker.io/b:v1"
    ensures PullRequest(ByTag, "library/b", "v1", "r.io").AltDockerUrl() == ""
  {
    assert "v1"[0] != "sha256:"[0];
    assert "sha256:" <= "sha256:d";
    PrintedAlternates();
  }

  /** An image-list line without a tag. */
  lemma UrlWithoutTag()
    ensures FromUrl("docker.io/nginx").Err?
  {
    hide FromUrl;
    assert "docker.io" + "/" + "nginx" == "docker.io/nginx";
    ParseFailsIff("docker.io", "nginx");
  }

  /** The segments that the source documents, and a request with both header and query. */
  lemma DocumentedSegments()
    ensures NewPullRequest("", None, "", "latest", ["docker.io", "foo", "bar"])
         == Ok(PullRequest(ByTag, "foo/bar", "latest", "docker.io"))
    ensures NewPullRequest("quay.io", Some("docker.io"), "", "v1", ["foo"])
         == Ok(PullRequest(ByTag, "foo", "v1", "quay.io"))
  {
    hide NewPullRequest, ToLower;
    RemoteSource("", None, "", "latest", ["docker.io", "foo", "bar"]);
    RemoteSource("quay.io", Some("docker.io"), "", "v1", ["foo"]);
    assert '.' in "docker.io" by { assert "docker.io"[6] == '.'; }
    assert ["docker.io", "foo", "bar"][1..] == ["foo", "bar"];
    assert Join(["foo", "bar"], "/") == "foo/bar";
    LowerFixed("latest");
    LowerFixed("v1");
  }

  // ---------------------------------------------------------------- printing and parsing

  lemma ParsePrinted(pr: PullRequest)
    requires Lacks(pr.remote, '/') && !Lacks(pr.remote, '.')
    ensures FromUrl(pr.Url()) == ParsePath(pr.remote, pr.Path())
  {
    assert pr.Url() == pr.remote + ['/'] + pr.Path();
    CutJoined(pr.remote, '/', pr.Path());
  }

  /** A remote with a slash or without a dot never survives. */
  lemma BadRemote(pr: PullRequest)
    requires !Lacks(pr.remote, '/') || Lacks(pr.remote, '.')
    ensures FromUrl(pr.Url()).Ok? ==> FromUrl(pr.Url()).value.remote != pr.remote
  {
    if Lacks(pr.remote, '/') {
      assert pr.Url() == pr.remote + ['/'] + pr.Path();
      CutJoined(pr.remote, '/', pr.Path());
    } else {
      assert pr.Url() == pr.remote + ("/" + pr.Path());
      FindInHead(pr.remote, '/', "/" + pr.Path());
    }
  }

  predicate CleanPath(repository: string, ref: string) {
    && Lacks(repository, '@') && Lacks(ref, '@')
    && (Separator(ref) == ':' ==> Lacks(repository, ':') && Lacks(ref, ':'))
  }

  lemma PathSeparator(repository: string, sep: char, ref: string)
    ensures var path := repository + [sep] + ref;
            forall c :: Lacks(path, c) <==> Lacks(repository, c) && c != sep && Lacks(ref, c)
  {
    var path := repository + [sep] + ref;
    assert path[|repository|] == sep;
    assert forall i | 0 <= i < |ref| :: path[|repository| + 1 + i] == ref[i];
    assert forall i | 0 <= i < |repository| :: path[i] == repository[i];
  }

  lemma CleanPathSplits(repository: string, ref: string)
    requires CleanPath(repository, ref)
    ensures var path := repository + [Separator(ref)] + ref;
            UrlSeparator(path) == Some(Separator(ref)) && Split(path, Separator(ref))[..2] == [repository, ref]
  {
    PathSeparator(repository, Separator(ref), ref);
    SplitJoined(repository, Separator(ref), ref);
    LacksIff(ref, Separator(ref));
    assert ref[..Find(ref, Separator(ref))] == ref;
  }

  lemma OtherPathSplitsElsewhere(repository: string, ref: string)
    requires !CleanPath(repository, ref)
    ensures var path := repository + [Separator(ref)] + ref;
            UrlSeparator(path).Some?
            && var pieces := Split(path, UrlSeparator(path).value);
               |pieces[0]| != |repository| || |pieces[1]| != |ref|
  {
    var sep := Separator(ref);
    var path := repository + [sep] + ref;
    PathSeparator(repository, sep, ref);
    var used := if Lacks(path, '@') then ':' else '@';
    LacksIff(path, used);
    if !Lacks(repository, used) {
      assert path == repository + ([sep] + ref);
      FindInHead(repository, used, [sep] + ref);
    } else if used == sep {
      SplitJoined(repository, sep, ref);
      LacksIff(ref, sep);
    } else {
      assert path[|repository|] != used && Find(path, used) != |repository|;
    }
  }

  lemma PathParsesIff(pullType: PullType, remote: string, repository: string, ref: string)
    ensures ParsePath(remote, repository + [Separator(ref)] + ref)
              == Ok(PullRequest(pullType, repository, ToLower(ref), remote))
       <==> && pullType == TypeFromRef(ref) && CleanPath(repository, ref) && repository != ""
            && IsLower(remote) && IsLower(repository)
  {
    hide Find, FindFrom, Split, UrlSeparator, CleanPath, IsLower, Lacks;
    LowerFixed(remote);
    LowerFixed(repository);
    var path := repository + [Separator(ref)] + ref;
    if CleanPath(repository, ref) {
      CleanPathSplits(repository, ref);
      var pieces := Split(path, Separator(ref));
      assert pieces[0] == pieces[..2][0] && pieces[1] == pieces[..2][1];
    } else {
      OtherPathSplitsElsewhere(repository, ref);
      var pieces := Split(path, UrlSeparator(path).value);
      assert |ToLower(pieces[0])| == |pieces[0]| && |ToLower(pieces[1])| == |pieces[1]| && |ToLower(ref)| == |ref|;
    }
  }

  /** Printing and parsing gives a request back, with its reference in lower case, exactly when the url
      denotes it. */
  lemma ParsesIff(pr: PullRequest)
    ensures FromUrl(pr.Url()) == Ok(pr.(reference := ToLower(pr.reference))) <==> pr.Denoted()
  {
    hide Find, FindFrom, Split, ToLower, IsLower, FromUrl, ParsePath;
    if !Lacks(pr.remote, '/') || Lacks(pr.remote, '.') {
      BadRemote(pr);
    } else {
      ParsePrinted(pr);
      PathParsesIff(pr.pullType, pr.remote, pr.repository, pr.reference);
    }
  }

  lemma ParsedIsLower(url: string)
    ensures FromUrl(url).Ok? ==> IsLower(FromUrl(url).value.reference)
  {
    hide Find, FindFrom, Split;
  }

  /** Printing and parsing gives a request back exactly when it is well formed. */
  lemma RoundTripIff(pr: PullRequest)
    ensures FromUrl(pr.Url()) == Ok(pr) <==> pr.WellFormed()
  {
    hide FromUrl, PullRequest.Url, PullRequest.Denoted, ToLower, IsLower;
    ParsesIff(pr);
    ParsedIsLower(pr.Url());
    LowerFixed(pr.reference);
  }

  /** Distinct well-formed requests have distinct urls. */
  lemma UrlInjective(p: PullRequest, q: PullRequest)
    requires p.WellFormed() && q.WellFormed() && p.Url() == q.Url()
    ensures p == q
  {
    RoundTripIff(p);
    RoundTripIff(q);
  }

  lemma PrefixClean(digest: string)
    requires Lacks(digest, '@') && IsLower(digest)
    ensures var ref := DIGEST_PREFIX + digest; Lacks(ref, '@') && IsLower(ref) && TypeFromRef(ref) == ByDigest
    ensures (DIGEST_PREFIX + digest)[|DIGEST_PREFIX|..] == digest
  {
    var ref := DIGEST_PREFIX + digest;
    assert DIGEST_PREFIX == ['s', 'h', 'a', '2', '5', '6', ':'];
    assert forall i | 0 <= i < |ref| ::
        ref[i] == if i < |DIGEST_PREFIX| then DIGEST_PREFIX[i] else digest[i - |DIGEST_PREFIX|];
  }

  /** The by-digest key of a request parses to that request with the digest as its reference. */
  lemma DigestKeyParses(pr: PullRequest, digest: string)
    requires pr.WellFormed() && Lacks(digest, '@') && IsLower(digest)
    ensures var d := pr.(pullType := ByDigest, reference := DIGEST_PREFIX + digest);
            d.WellFormed() && d.Url() == pr.UrlWithDigest(DIGEST_PREFIX + digest) && FromUrl(d.Url()) == Ok(d)
  {
    var d := pr.(pullType := ByDigest, reference := DIGEST_PREFIX + digest);
    PrefixClean(digest);
    assert d.Path() == pr.repository + "@" + (DIGEST_PREFIX + digest);
    assert d.WellFormed();
    RoundTripIff(d);
  }

  /** A tag key is never a digest key, and a digest key determines its repository and digest. */
  lemma DigestKeyInjective(p: PullRequest, q: PullRequest, digest: string, other: string)
    requires p.WellFormed() && Lacks(digest, '@') && IsLower(digest)
    requires q.WellFormed() && Lacks(other, '@') && IsLower(other)
    ensures p.pullType == ByTag ==> p.Url() != q.UrlWithDigest(DIGEST_PREFIX + other)
    ensures p.UrlWithDigest(DIGEST_PREFIX + digest) == q.UrlWithDigest(DIGEST_PREFIX + other)
        <==> p.remote == q.remote && p.repository == q.repository && digest == other
  {
    DigestKeyParses(p, digest);
    DigestKeyParses(q, other);
    RoundTripIff(p);
    PrefixClean(digest);
    PrefixClean(other);
  }

  /** A key after the '@' of which anything may stand determines all three parts. */
  lemma KeyParts(p: PullRequest, q: PullRequest, digest: string, other: string)
    requires p.WellFormed() && q.WellFormed()
    ensures p.UrlWithDigest(digest) == q.UrlWithDigest(other) ==>
              p.remote == q.remote && p.repository == q.repository && digest == other
  {
    CutKey(p, digest);
    CutKey(q, other);
  }

  lemma CutKey(p: PullRequest, digest: string)
    requires Lacks(p.remote, '/') && Lacks(p.repository, '@')
    ensures var key := p.UrlWithDigest(digest);
            var slash := Find(key, '/');
            slash < |key| && key[..slash] == p.remote
            && var path := key[slash + 1..];
               var at := Find(path, '@');
               at < |path| && path[..at] == p.repository && path[at + 1..] == digest
  {
    var path := p.repository + ['@'] + digest;
    assert p.UrlWithDigest(digest) == p.remote + ['/'] + path;
    CutJoined(p.remote, '/', path);
    CutJoined(p.repository, '@', digest);
  }

  // ---------------------------------------------------------------- the REST form

  lemma FirstSegment(first: string, rest: string)
    ensures var joined := first + ("/" + rest);
            joined[..Find(joined, '/')] == first[..Find(first, '/')]
  {
    if Lacks(first, '/') {
      assert first + ("/" + rest) == first + ['/'] + rest;
      CutJoined(first, '/', rest);
      LacksIff(first, '/');
    } else {
      FindInHead(first, '/', "/" + rest);
    }
  }

  lemma JoinStep(parts: seq<string>)
    requires |parts| >= 1
    ensures |parts| == 1 ==> Join(parts, "/") == parts[0]
    ensures |parts| > 1 ==> Join(parts, "/") == parts[0] + ("/" + Join(parts[1..], "/"))
  {
    if |parts| > 1 { Prepend(parts[0], Join(parts[1..], "/")); }
  }

  lemma Prepend(first: string, rest: string)
    ensures first + "/" + rest == first + ("/" + rest)
  {
  }

  lemma JoinFirst(parts: seq<string>)
    requires |parts| >= 1
    ensures var joined := Join(parts, "/");
            joined[..Find(joined, '/')] == parts[0][..Find(parts[0], '/')]
  {
    hide Join, Find, FindFrom;
    JoinStep(parts);
    if |parts| > 1 { FirstSegment(parts[0], Join(parts[1..], "/")); }
  }

  /** Whatever supplied the remote, the first segment of a built repository has no dot, so no
      second registry name hides there. */
  lemma NoSecondRemote(header: string, ns: Option<string>, defaultNs: string,
                       reference: string, segments: seq<string>)
    requires header != "" || ns.Some? || segments != []
    requires NewPullRequest(header, ns, defaultNs, reference, segments).Ok?
    ensures var repository := NewPullRequest(header, ns, defaultNs, reference, segments).value.repository;
            Lacks(repository[..Find(repository, '/')], '.')
  {
    var first := if header == "" && ns.None? && !Lacks(segments[0], '.') then 1 else 0;
    JoinFirst(segments[first..]);
    assert segments[first..][0] == segments[first];
  }

  lemma Regroup(a: string, b: string, tail: string)
    ensures a + "/" + b + tail == a + "/" + (b + tail)
  {
  }

  lemma JoinTwo(segments: seq<string>, tail: string)
    requires |segments| >= 2
    ensures Join(segments, "/") + tail == segments[0] + "/" + (Join(segments[1..], "/") + tail)
  {
    var rest := Join(segments[1..], "/");
    assert Join(segments, "/") == segments[0] + "/" + rest;
    Regroup(segments[0], rest, tail);
  }

  lemma RestIs(defaultNs: string, reference: string, segments: seq<string>)
    requires |segments| >= 2 && !Lacks(segments[0], '.') && Lacks(segments[1], '.')
    ensures NewPullRequest("", None, defaultNs, reference, segments)
         == Ok(PullRequest(TypeFromRef(reference), Join(segments[1..], "/"), ToLower(reference), segments[0]))
  {
    hide Join, ToLower;
  }

  /** With the registry in the path, the REST form and the joined url denote the same request exactly
      when the url denotes it at all, whatever the case of the reference. */
  lemma RestMatchesUrl(defaultNs: string, reference: string, segments: seq<string>)
    requires |segments| >= 2 && !Lacks(segments[0], '.') && Lacks(segments[1], '.')
    ensures var built := NewPullRequest("", None, defaultNs, reference, segments);
            var url := Join(segments, "/") + [Separator(reference)] + reference;
            && built.Ok?
            && (FromUrl(url) == built <==> built.value.(reference := reference).Denoted())
            && (IsLower(reference) ==>
                  built.value.Url() == url && (FromUrl(url) == built <==> built.value.WellFormed()))
  {
    hide Join, FromUrl, PullRequest.Denoted, NewPullRequest, Lacks, IsLower, ToLower;
    LowerFixed(reference);
    RestIs(defaultNs, reference, segments);
    var built := NewPullRequest("", None, defaultNs, reference, segments).value;
    var name, tail := Join(segments[1..], "/"), [Separator(reference)] + reference;
    JoinTwo(segments, tail);
    assert name + [Separator(reference)] + reference == name + tail;
    assert Join(segments, "/") + [Separator(reference)] + reference == Join(segments, "/") + tail;
    ParsesIff(built.(reference := reference));
  }

  // ---------------------------------------------------------------- docker.io/library

  /** The repository that AltDockerUrl prints. */
  function AltRepository(repository: string): string {
    if "library/" <= repository then repository[|"library/"|..] else "library/" + repository
  }

  lemma LibraryFirst(repository: string)
    ensures var i := Find(repository, '/');
            (i < |repository| && repository[..i] == "library") <==> "library/" <= repository
    ensures "library/" <= repository ==> Find(repository, '/') == |"library"|
  {
    var lib := "library";
    assert lib == ['l', 'i', 'b', 'r', 'a', 'r', 'y'];
    assert "library/" == lib + ['/'];
    CutIff(lib, '/', repository);
  }

  lemma AltPrints(pr: PullRequest)
    requires pr.remote == "docker.io"
    ensures pr.AltDockerUrl() == pr.(repository := AltRepository(pr.repository)).Url()
  {
    LibraryFirst(pr.repository);
    var alt, sep := AltRepository(pr.repository), [Separator(pr.reference)];
    if "library/" <= pr.repository {
      assert pr.AltDockerUrl() == pr.remote + "/" + alt + sep + pr.reference;
    } else {
      assert alt == "library" + "/" + pr.repository;
      assert pr.AltDockerUrl() == pr.remote + "/" + "library" + "/" + pr.repository + sep + pr.reference;
      assert pr.remote + "/" + "library" + "/" + pr.repository + sep + pr.reference
          == pr.remote + "/" + (alt + sep + pr.reference);
    }
  }

  lemma PrintedAlternates()
    ensures PullRequest(ByTag, "b", "v1", "docker.io").AltDockerUrl() == "docker.io/library/b:v1"
    ensures PullRequest(ByTag, "library/b", "v1", "docker.io").AltDockerUrl() == "docker.io/b:v1"
  {
    AltSpelled(PullRequest(ByTag, "b", "v1", "docker.io"));
    AltSpelled(PullRequest(ByTag, "library/b", "v1", "docker.io"));
    assert "b"[0] != "library/"[0];
    assert "v1"[0] != "sha256:"[0];
    assert "library/b"[8..] == "b";
  }

  /** docker.io/library/x becomes docker.io/x, and docker.io/x becomes docker.io/library/x. */
  lemma AltSpelled(pr: PullRequest)
    requires pr.remote == "docker.io"
    ensures pr.AltDockerUrl()
         == (if "library/" <= pr.repository then "docker.io/" + pr.repository[8..]
             else "docker.io/library/" + pr.repository)
            + (if "sha256:" <= pr.reference then "@" else ":") + pr.reference
  {
    AltPrints(pr);
    assert |"library/"| == 8;
    assert "docker.io" + "/" == "docker.io/" && "docker.io/" + "library/" == "docker.io/library/";
    var alt, tail := AltRepository(pr.repository), [Separator(pr.reference)] + pr.reference;
    assert pr.(repository := alt).Url() == "docker.io" + "/" + (alt + [Separator(pr.reference)] + pr.reference);
  }

  lemma AltClean(pr: PullRequest)
    requires pr.WellFormed() && AltRepository(pr.repository) != ""
    ensures pr.(repository := AltRepository(pr.repository)).WellFormed()
  {
    var alt, lib := AltRepository(pr.repository), "library/";
    assert lib == ['l', 'i', 'b', 'r', 'a', 'r', 'y', '/'];
    if lib <= pr.repository {
      assert forall i | 0 <= i < |alt| :: alt[i] == pr.repository[i + |lib|];
    } else {
      assert forall i | 0 <= i < |alt| :: alt[i] == if i < |lib| then lib[i] else pr.repository[i - |lib|];
    }
  }

  /** The two docker.io spellings name each other exactly when the repository does not start
      with library/library/ and is not the bare library/. */
  lemma AltInvolutionIff(pr: PullRequest)
    requires pr.WellFormed() && pr.remote == "docker.io"
    ensures (var alt := FromUrl(pr.AltDockerUrl());
             alt.Ok? && alt.value.AltDockerUrl() == pr.Url())
       <==> !("library/library/" <= pr.repository) && pr.repository != "library/"
  {
    var alt := pr.(repository := AltRepository(pr.repository));
    AltPrints(pr);
    if alt.repository == "" {
      assert pr.repository == "library/";
      assert FromUrl(alt.Url()).Err? by { EmptyRepository(alt); }
    } else {
      AltClean(pr);
      RoundTripIff(alt);
      AltPrints(alt);
      AltTwice(pr.repository);
      var back := alt.(repository := AltRepository(alt.repository));
      assert |back.Url()| == |back.remote| + 1 + |back.repository| + 1 + |back.reference|;
      assert |pr.Url()| == |pr.remote| + 1 + |pr.repository| + 1 + |pr.reference|;
    }
  }

  lemma AltTwice(repository: string)
    requires repository != "library/"
    ensures var back := AltRepository(AltRepository(repository));
            if "library/library/" <= repository then |back| < |repository| else back == repository
  {
    var lib, alt := "library/", AltRepository(repository);
    assert "library/library/" == lib + lib;
    if lib <= repository {
      assert repository == lib + alt;
      assert lib + lib <= lib + alt <==> lib <= alt by {
        if lib + lib <= lib + alt {
          assert alt[..|lib|] == (lib + alt)[|lib|..][..|lib|] == lib;
        }
      }
    } else {
      assert !(lib + lib <= repository) by { PrefixTrans(lib, lib, repository); }
      assert alt[|lib|..] == repository;
    }
  }

  lemma EmptyRepository(pr: PullRequest)
    requires Lacks(pr.remote, '/') && !Lacks(pr.remote, '.') && pr.repository == ""
    requires Lacks(pr.reference, '@') && (Separator(pr.reference) == ':' ==> Lacks(pr.reference, ':'))
    ensures FromUrl(pr.Url()).Err?
  {
    ParsePrinted(pr);
    CleanPathSplits("", pr.reference);
  }
}
