/** The registry reference a policy is pulled from (pkg/policy/policy.go). */
module PolicyRepo {
  import opened Strs
  import opened RepoUtil
  import OciDetector

  datatype Policy = Policy(repository: string, tag: string)

  /** getRepositoryFromPolicy: the repository as given when it already names
      a tag, else with the policy's tag, or "latest" when that is empty.
      repositoryContainsTag is RepositoryNameContainsTag. */
  function GetRepositoryFromPolicy(policy: Policy): (repository: string)
    ensures RepositoryNameContainsTag(policy.repository) ==> repository == policy.repository
    ensures !RepositoryNameContainsTag(policy.repository) ==>
      repository == policy.repository + ":" + (if policy.tag == "" then "latest" else policy.tag)
  {
    if RepositoryNameContainsTag(policy.repository) then policy.repository
    else if policy.tag == "" then policy.repository + ":latest"
    else policy.repository + ":" + policy.tag
  }

  /** With a tag free of "/" the reference always names a tag, so asking
      again with the same tag changes nothing. */
  lemma PolicyRepositoryTagged(policy: Policy)
    requires '/' !in policy.tag
    ensures RepositoryNameContainsTag(GetRepositoryFromPolicy(policy))
    ensures GetRepositoryFromPolicy(policy.(repository := GetRepositoryFromPolicy(policy))) == GetRepositoryFromPolicy(policy)
  {
    var r := GetRepositoryFromPolicy(policy);
    ContainsTagIff(r);
    if !RepositoryNameContainsTag(policy.repository) {
      var i := |policy.repository|;
      assert r[i] == ':';
      forall j | i < j < |r| ensures r[j] != '/' {
        if policy.tag == "" {
          assert r[j] == "latest"[j - i - 1];
        } else {
          assert r[j] == policy.tag[j - i - 1];
        }
      }
      assert TagColonAt(r, i);
    }
  }

  /** A tag holding "/" can hide the tag it adds. */
  lemma SlashInTagHidesTag()
    ensures !RepositoryNameContainsTag(GetRepositoryFromPolicy(Policy("repo", "a/b")))
  {
    var r := GetRepositoryFromPolicy(Policy("repo", "a/b"));
    assert !RepositoryNameContainsTag("repo") by {
      ContainsTagIff("repo");
      forall i | 0 <= i < 4 ensures !TagColonAt("repo", i) {
        assert "repo"[i] != ':';
      }
    }
    assert r == "repo:a/b";
    ContainsTagIff(r);
    forall i | 0 <= i < |r| ensures !TagColonAt(r, i) {
      if i < 6 {
        assert r[6] == '/';
      } else {
        assert r[i] != ':';
      }
    }
  }

  /** Without a tag, a policy resolves to the reference the OCI detector
      builds for the same URL. */
  lemma SameAsDetector(url: string)
    ensures GetRepositoryFromPolicy(Policy(url, "")) == OciDetector.GetRepositoryFromURL(url)
  {
    assert url + ":" + "latest" == url + ":latest";
  }
}
