/** Recognising OCI registry references among policy sources
    (downloader/oci_detector.go): a source naming a known registry or a
    local registry with a port is rewritten to an "oci://" URL with a tag.
    The regular expressions of the source are written out as predicates on
    positions in the string. */
module OciDetector {
  import opened Wrappers
  import opened Strs

  // ---- the registry patterns --------------------------------------------------

  /** A regular expression made of literal characters and `.` matching at
      position `i`. Without the `s` flag, `.` matches any character except
      a line feed. */
  predicate MatchDotted(s: string, i: nat, pat: string) {
    i + |pat| <= |s| && forall k :: 0 <= k < |pat| ==> (pat[k] == '.' && s[i + k] != '\n') || s[i + k] == pat[k]
  }

  /** A match of a pattern without line feeds covers no line feed: a
      registry name is never found across two lines. */
  lemma MatchDottedOneLine(s: string, i: nat, pat: string)
    requires '\n' !in pat && MatchDotted(s, i, pat)
    ensures forall j :: i <= j < i + |pat| ==> s[j] != '\n'
  {
    forall j | i <= j < i + |pat| ensures s[j] != '\n' {
      assert pat[j - i] != '\n';
    }
  }

  /** An unanchored match of such a pattern anywhere in `s`. */
  predicate FindDotted(s: string, pat: string) {
    exists i :: 0 <= i <= |s| - |pat| && MatchDotted(s, i, pat)
  }

  predicate IsEcrRegionChar(c: char) { IsLower(c) || IsDigit(c) || c == '-' }

  /** `[0-9]{12}.dkr.ecr.[a-z0-9-]*.amazonaws.com` matching at `i`, the
      starred class ending at `k`. */
  predicate EcrAt(s: string, i: nat, k: nat) {
    i + 21 <= k <= |s|
    && (forall j :: i <= j < i + 12 ==> IsDigit(s[j]))
    && MatchDotted(s, i + 12, ".dkr.ecr.")
    && (forall j :: i + 21 <= j < k ==> IsEcrRegionChar(s[j]))
    && MatchDotted(s, k, ".amazonaws.com")
  }

  /** containsOCIRegistry: the source mentions Azure, Google or GitLab
      registries or an ECR registry anywhere, or starts with Quay. */
  predicate ContainsOCIRegistry(src: string) {
    FindDotted(src, "azurecr.io")
    || FindDotted(src, "gcr.io")
    || FindDotted(src, "registry.gitlab.com")
    || (exists i, k :: 0 <= i <= k <= |src| && EcrAt(src, i, k))
    || MatchDotted(src, 0, "quay.io")
  }

  /** A case-insensitive match of the lower-case letter `l` under RE2's
      simple case folding: the letter, its upper case, and for "s" also the
      long s U+017F, which folds to it. */
  predicate FoldsTo(c: char, l: char) {
    c == l || (IsLower(l) && c as int == l as int - 32) || (l == 's' && c == '\U{017F}')
  }

  /** `::1`, `127.0.0.1` or `localhost` in any case, starting at `i`. */
  predicate LocalHostAt(s: string, i: nat, h: string) {
    i + |h| <= |s|
    && ((h == "::1" && s[i..i + |h|] == h)
        || (h == "127.0.0.1" && s[i..i + |h|] == h)
        || (h == "localhost" && forall k :: 0 <= k < |h| ==> FoldsTo(s[i + k], h[k])))
  }

  /** For ASCII text, `(?i:localhost)` is strings.EqualFold with "localhost". */
  lemma LocalhostFoldAscii(s: string, i: nat)
    requires i + 9 <= |s| && forall j :: i <= j < i + 9 ==> s[j] as int < 128
    ensures LocalHostAt(s, i, "localhost") <==> EqualFold(s[i..i + 9], "localhost")
  {
    var h := "localhost";
    var w := s[i..i + 9];
    if LocalHostAt(s, i, h) {
      forall k | 0 <= k < 9 ensures LowerChar(w[k]) == LowerChar(h[k]) {
        assert FoldsTo(s[i + k], h[k]);
      }
      assert ToLower(w) == ToLower(h);
    }
    if EqualFold(w, h) {
      forall k | 0 <= k < 9 ensures FoldsTo(s[i + k], h[k]) {
        assert LowerChar(w[k]) == ToLower(w)[k] == ToLower(h)[k] == h[k];
      }
    }
  }

  /** `(?:::1|127\.0\.0\.1|(?i:localhost)):\d{1,5}` matching at `i` with
      host `h` and `n` digits. */
  predicate LocalRegistryAt(s: string, i: nat, h: string, n: nat) {
    LocalHostAt(s, i, h) && 1 <= n <= 5
    && i + |h| + 1 + n <= |s| && s[i + |h|] == ':'
    && forall j :: i + |h| + 1 <= j < i + |h| + 1 + n ==> IsDigit(s[j])
  }

  /** containsLocalRegistry. */
  predicate ContainsLocalRegistry(src: string) {
    exists i, h, n :: 0 <= i <= |src| && h in {"::1", "127.0.0.1", "localhost"} && 0 <= n <= 5
      && LocalRegistryAt(src, i, h, n)
  }

  /** As the match is unanchored, one digit after the port colon suffices. */
  lemma LocalRegistryOneDigit(src: string)
    ensures ContainsLocalRegistry(src) <==>
      exists i, h :: 0 <= i <= |src| && h in {"::1", "127.0.0.1", "localhost"}
        && LocalHostAt(src, i, h) && i + |h| + 1 < |src| && src[i + |h|] == ':' && IsDigit(src[i + |h| + 1])
  {
    if ContainsLocalRegistry(src) {
      var i, h, n :| 0 <= i <= |src| && h in {"::1", "127.0.0.1", "localhost"} && 0 <= n <= 5
        && LocalRegistryAt(src, i, h, n);
      assert IsDigit(src[i + |h| + 1]);
    }
    if exists i, h :: 0 <= i <= |src| && h in {"::1", "127.0.0.1", "localhost"}
        && LocalHostAt(src, i, h) && i + |h| + 1 < |src| && src[i + |h|] == ':' && IsDigit(src[i + |h| + 1]) {
      var i, h :| 0 <= i <= |src| && h in {"::1", "127.0.0.1", "localhost"}
        && LocalHostAt(src, i, h) && i + |h| + 1 < |src| && src[i + |h|] == ':' && IsDigit(src[i + |h| + 1]);
      assert LocalRegistryAt(src, i, h, 1);
    }
  }

  // ---- rewriting --------------------------------------------------

  /** getRepositoryFromURL: ":latest" is added unless the last path
      segment already carries a tag. */
  function GetRepositoryFromURL(url: string): (r: string)
    ensures Contains(LastSegment(url, '/'), ":") ==> r == url
    ensures !Contains(LastSegment(url, '/'), ":") ==> r == url + ":latest"
  {
    var lastPathPart := LastSegment(url, '/');
    if Contains(lastPathPart, ":") then url else url + ":latest"
  }

  /** The result always names a tag in its last segment. */
  lemma RepositoryHasTag(url: string)
    ensures Contains(LastSegment(GetRepositoryFromURL(url), '/'), ":")
  {
    if !Contains(LastSegment(url, '/'), ":") {
      var tag := ":latest";
      assert tag[0] == ':';
      assert forall k :: 0 <= k < |tag| ==> tag[k] != '/';
      LastSegmentAppend(url, tag, '/');
      var last := LastSegment(url, '/') + tag;
      assert last[|last| - 7] == ':';
      ContainsSingle(last, ':');
    }
  }

  /** Applying getRepositoryFromURL twice is applying it once. */
  lemma RepositoryIdempotent(url: string)
    ensures GetRepositoryFromURL(GetRepositoryFromURL(url)) == GetRepositoryFromURL(url)
  {
    RepositoryHasTag(url);
  }

  /** A split on "/" has at least two parts exactly when there is a "/". */
  lemma SplitSlashCount(src: string)
    ensures |Split(src, "/")| >= 2 <==> '/' in src
  {
    ContainsSingle(src, '/');
  }

  const InvalidURL := "URL is not a valid registry URL"

  /** detectHTTP. */
  function DetectHTTP(src: string): (r: Outcome<string>)
    ensures r.Fail? <==> '/' !in src
    ensures r.Fail? ==> r.error == InvalidURL
    ensures r.Ok? ==> r.value == "oci://" + GetRepositoryFromURL(src)
  {
    SplitSlashCount(src);
    var parts := Split(src, "/");
    if |parts| < 2 then Fail(InvalidURL)
    else Ok("oci://" + GetRepositoryFromURL(src))
  }

  /** Detect: the rewritten URL and whether the source is an OCI registry. */
  function Detect(src: string): (r: Outcome<(string, bool)>)
    ensures src == "" ==> r == Ok(("", false))
    ensures src != "" && !ContainsOCIRegistry(src) && !ContainsLocalRegistry(src) ==> r == Ok(("", false))
    ensures src != "" && (ContainsOCIRegistry(src) || ContainsLocalRegistry(src)) ==>
      ('/' in src ==> r == Ok(("oci://" + GetRepositoryFromURL(src), true)))
      && ('/' !in src ==> r == Fail("detect http: " + InvalidURL))
  {
    if |src| == 0 then Ok(("", false))
    else if ContainsOCIRegistry(src) || ContainsLocalRegistry(src) then
      match DetectHTTP(src)
      case Fail(e) => Fail("detect http: " + e)
      case Ok(url) => Ok((url, true))
    else Ok(("", false))
  }

  /** A detected source always comes back as an "oci://" URL with a tag. */
  lemma DetectedIsTagged(src: string)
    requires Detect(src).Ok? && Detect(src).value.1
    ensures HasPrefix(Detect(src).value.0, "oci://")
    ensures Detect(src).value.0 == "oci://" + GetRepositoryFromURL(src)
    ensures Contains(LastSegment(GetRepositoryFromURL(src), '/'), ":")
  {
    RepositoryHasTag(src);
  }

  /** A match needs the pattern's first character, when it is literal. */
  lemma NotFoundByFirst(s: string, pat: string)
    requires |pat| > 0 && pat[0] != '.'
    requires forall i :: 0 <= i <= |s| - |pat| ==> s[i] != pat[0]
    ensures !FindDotted(s, pat)
  {
    forall i | 0 <= i <= |s| - |pat| ensures !MatchDotted(s, i, pat) {
      assert s[i + 0] != pat[0];
    }
  }

  /** No ECR name fits in fewer than 35 characters. */
  lemma NoEcrInShort(s: string)
    requires |s| < 35
    ensures !exists i, k :: 0 <= i <= k <= |s| && EcrAt(s, i, k)
  {
  }

  /** Sources from the table of detector tests, on the pattern side. */
  lemma AzureGcrExamples()
    ensures ContainsOCIRegistry("user.azurecr.io/policies:tag")
    ensures ContainsOCIRegistry("gcr.io/conftest/policies:tag")
  {
    assert MatchDotted("user.azurecr.io/policies:tag", 5, "azurecr.io");
    assert MatchDotted("gcr.io/conftest/policies:tag", 0, "gcr.io");
  }

  lemma GitlabQuayExamples()
    ensures ContainsOCIRegistry("registry.gitlab.com/conftest/policies:tag")
    ensures ContainsOCIRegistry("quay.io/conftest/policies:tag")
  {
    assert MatchDotted("registry.gitlab.com/conftest/policies:tag", 0, "registry.gitlab.com");
    assert MatchDotted("quay.io/conftest/policies:tag", 0, "quay.io");
  }

  lemma LocalRegistryExamples()
    ensures ContainsLocalRegistry("localhost:5000/policies")
    ensures ContainsLocalRegistry("::1:32123/policies:tag")
  {
    assert LocalRegistryAt("localhost:5000/policies", 0, "localhost", 4);
    assert LocalRegistryAt("::1:32123/policies:tag", 0, "::1", 5);
  }

  /** Twelve digits, ".dkr.ecr.", a region of lower-case letters, digits
      and dashes, then ".amazonaws.com" is an ECR registry, whatever follows. */
  lemma EcrName(account: string, region: string, rest: string)
    requires |account| == 12 && forall j :: 0 <= j < 12 ==> IsDigit(account[j])
    requires forall j :: 0 <= j < |region| ==> IsEcrRegionChar(region[j])
    ensures ContainsOCIRegistry(account + ".dkr.ecr." + region + ".amazonaws.com" + rest)
  {
    var s := account + ".dkr.ecr." + region + ".amazonaws.com" + rest;
    var k := 21 + |region|;
    assert forall j :: 0 <= j < 12 ==> s[j] == account[j];
    assert forall j :: 0 <= j < 9 ==> s[12 + j] == ".dkr.ecr."[j];
    assert forall j :: 21 <= j < k ==> s[j] == region[j - 21];
    assert forall j :: 0 <= j < 14 ==> s[k + j] == ".amazonaws.com"[j];
    assert EcrAt(s, 0, k);
  }

  /** The ECR source of the detector tests,
      "123456789012.dkr.ecr.us-east-1.amazonaws.com/conftest/policies:tag",
      written as its parts. */
  lemma EcrExample()
    ensures ContainsOCIRegistry("123456789012" + ".dkr.ecr." + "us-east-1" + ".amazonaws.com" + "/conftest/policies:tag")
  {
    var account, region := "123456789012", "us-east-1";
    assert forall j :: 0 <= j < 12 ==> IsDigit(account[j]);
    assert forall j :: 0 <= j < |region| ==> IsEcrRegionChar(region[j]);
    EcrName(account, region, "/conftest/policies:tag");
  }

  /** The Quay pattern is anchored at the start: a Quay name further in is
      no registry. */
  lemma QuayAnchored()
    ensures !ContainsOCIRegistry("x.quay.io/p")
  {
    var s := "x.quay.io/p";
    assert s[0] == 'x' && s[1] == '.';
    NotFoundByFirst(s, "azurecr.io");
    NotFoundByFirst(s, "gcr.io");
    NoEcrInShort(s);
    assert !MatchDotted(s, 0, "quay.io") by { assert s[0] != "quay.io"[0]; }
  }

  /** A registry name split by a line feed is not detected: the `.` of
      "gcr.io" does not match it. */
  lemma NewlineNotDetected()
    ensures !ContainsOCIRegistry("gcr\nio/x") && !ContainsLocalRegistry("gcr\nio/x")
    ensures Detect("gcr\nio/x") == Ok(("", false))
  {
    var s := "gcr\nio/x";
    assert s[0] == 'g' && s[1] == 'c' && s[2] == 'r' && s[3] == '\n';
    assert !MatchDotted(s, 0, "gcr.io") by { assert "gcr.io"[3] == '.' && s[0 + 3] == '\n'; }
    assert !MatchDotted(s, 1, "gcr.io") by { assert s[1] != "gcr.io"[0]; }
    assert !MatchDotted(s, 2, "gcr.io") by { assert s[2] != "gcr.io"[0]; }
    assert !FindDotted(s, "gcr.io");
    NoEcrInShort(s);
    assert !MatchDotted(s, 0, "quay.io") by { assert s[0] != "quay.io"[0]; }
    assert ':' !in s;
    forall i, h, n | 0 <= i <= |s| && h in {"::1", "127.0.0.1", "localhost"} && 0 <= n <= 5
      ensures !LocalRegistryAt(s, i, h, n)
    {
      if h == "::1" && i + 3 <= |s| {
        assert s[i..i + 3][0] == s[i];
      }
    }
  }

  lemma MatchDottedExtends(src: string, more: string, i: nat, pat: string)
    requires MatchDotted(src, i, pat)
    ensures MatchDotted(src + more, i, pat)
  {
    var t := src + more;
    assert forall j :: i <= j < i + |pat| ==> t[j] == src[j];
  }

  lemma FindDottedExtends(src: string, more: string, pat: string)
    ensures FindDotted(src, pat) ==> FindDotted(src + more, pat)
  {
    if FindDotted(src, pat) {
      var i :| 0 <= i <= |src| - |pat| && MatchDotted(src, i, pat);
      MatchDottedExtends(src, more, i, pat);
    }
  }

  /** Text added after a source never undoes its recognition: every
      registry pattern, anchored or not, still matches where it did. */
  lemma RegistryExtends(src: string, more: string)
    ensures ContainsOCIRegistry(src) ==> ContainsOCIRegistry(src + more)
  {
    var t := src + more;
    FindDottedExtends(src, more, "azurecr.io");
    FindDottedExtends(src, more, "gcr.io");
    FindDottedExtends(src, more, "registry.gitlab.com");
    if MatchDotted(src, 0, "quay.io") {
      MatchDottedExtends(src, more, 0, "quay.io");
    }
    if exists i, k :: 0 <= i <= k <= |src| && EcrAt(src, i, k) {
      var i, k :| 0 <= i <= k <= |src| && EcrAt(src, i, k);
      MatchDottedExtends(src, more, i + 12, ".dkr.ecr.");
      MatchDottedExtends(src, more, k, ".amazonaws.com");
      assert EcrAt(t, i, k);
    }
  }

  /** The same for the local-registry pattern. */
  lemma LocalRegistryExtends(src: string, more: string)
    ensures ContainsLocalRegistry(src) ==> ContainsLocalRegistry(src + more)
  {
    var t := src + more;
    if ContainsLocalRegistry(src) {
      var i, h, n :| 0 <= i <= |src| && h in {"::1", "127.0.0.1", "localhost"} && 0 <= n <= 5
        && LocalRegistryAt(src, i, h, n);
      assert t[i..i + |h|] == src[i..i + |h|];
      assert LocalRegistryAt(t, i, h, n);
    }
  }
}
