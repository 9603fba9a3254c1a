/** Whether a registry reference names a tag (util/repository.go). */
module RepoUtil {
  import opened Strs

  /** RepositoryNameContainsTag: the last "/"-separated segment holds a ":". */
  predicate RepositoryNameContainsTag(name: string) {
    Contains(LastSegment(name, '/'), ":")
  }

  /** The last segment starts at the beginning or right after a separator. */
  lemma {:induction false} LastSegmentStart(s: string)
    ensures exists k :: 0 <= k <= |s| && LastSegment(s, '/') == s[k..] && (k == 0 || s[k - 1] == '/')
    decreases |s|
  {
    LastSegmentStep(s, '/');
    var i := Index(s, "/");
    if i >= 0 {
      var rest := s[i + 1..];
      LastSegmentStart(rest);
      var k :| 0 <= k <= |rest| && LastSegment(rest, '/') == rest[k..] && (k == 0 || rest[k - 1] == '/');
      assert rest[k..] == s[i + 1 + k..];
      IndexSingle(s, '/');
      if k > 0 { assert rest[k - 1] == s[i + k]; }
      assert LastSegment(s, '/') == s[i + 1 + k..];
    } else {
      assert s[0..] == s;
    }
  }

  /** A ":" after the last "/". */
  predicate TagColonAt(name: string, i: int) {
    0 <= i < |name| && name[i] == ':' && forall j :: i < j < |name| ==> name[j] != '/'
  }

  /** A tag is named exactly when some ":" has no "/" after it. */
  lemma ContainsTagIff(name: string)
    ensures RepositoryNameContainsTag(name) <==> exists i :: TagColonAt(name, i)
  {
    LastSegmentStart(name);
    var k :| 0 <= k <= |name| && LastSegment(name, '/') == name[k..] && (k == 0 || name[k - 1] == '/');
    if RepositoryNameContainsTag(name) {
      TagFromSegment(name, k);
    }
    if exists i :: TagColonAt(name, i) {
      var i :| TagColonAt(name, i);
      SegmentFromTag(name, k, i);
    }
  }

  lemma TagFromSegment(name: string, k: nat)
    requires k <= |name| && LastSegment(name, '/') == name[k..]
    requires RepositoryNameContainsTag(name)
    ensures exists i :: TagColonAt(name, i)
  {
    var last := name[k..];
    LastSegmentFacts(name, '/');
    ContainsSingle(last, ':');
    var m :| 0 <= m < |last| && last[m] == ':';
    assert name[k + m] == last[m];
    forall j | k + m < j < |name| ensures name[j] != '/' {
      assert name[j] == last[j - k];
    }
    assert TagColonAt(name, k + m);
  }

  lemma SegmentFromTag(name: string, k: nat, i: int)
    requires k <= |name| && LastSegment(name, '/') == name[k..] && (k == 0 || name[k - 1] == '/')
    requires TagColonAt(name, i)
    ensures RepositoryNameContainsTag(name)
  {
    var last := name[k..];
    if k > 0 {
      assert name[k - 1] == '/';
    }
    assert i >= k;
    assert last[i - k] == ':';
    ContainsSingle(last, ':');
  }

  /** A port in the host is no tag once a path without ":" follows it
      ("localhost:5000/test"). */
  lemma PathHidesPort(host: string, path: string)
    requires ':' !in path && '/' !in path
    ensures !RepositoryNameContainsTag(host + "/" + path)
  {
    var a := host + "/" + path;
    ContainsTagIff(a);
    forall i | 0 <= i < |a| ensures !TagColonAt(a, i) {
      if i < |host| {
        assert a[|host|] == '/';
      } else if i > |host| {
        assert a[i] == path[i - |host| - 1];
      }
    }
  }

  /** A tag free of "/" at the end is always seen, with or without a port
      before it ("localhost:5000/test:1.0"). */
  lemma TagAfterLastSlash(name: string, tag: string)
    requires '/' !in tag
    ensures RepositoryNameContainsTag(name + ":" + tag)
  {
    var a := name + ":" + tag;
    ContainsTagIff(a);
    forall j | |name| < j < |a| ensures a[j] != '/' {
      assert a[j] == tag[j - |name| - 1];
    }
    assert TagColonAt(a, |name|);
  }
}
