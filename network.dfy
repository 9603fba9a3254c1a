/** Host names of registry references (internal/network/network.go). */
module Network {
  import opened Wrappers
  import opened Strs

  /** Hostname: after a leading "oci://", the text before the first ":",
      or before the first "/" when that comes earlier or there is no ":". */
  function Hostname(reference: string): (host: string)
    ensures HasPrefix(TrimPrefix(reference, "oci://"), host)
  {
    var ref := TrimPrefix(reference, "oci://");
    var colon := Index(ref, ":");
    var slash := Index(ref, "/");
    var cut := if colon == -1 || (colon > slash && slash != -1) then slash else colon;
    if cut < 0 then ref else ref[0..cut]
  }

  /** The cut is at the first ":" unless a "/" comes before it; without
      either the whole stripped reference is the host. */
  lemma HostnameCut(reference: string)
    ensures var ref := TrimPrefix(reference, "oci://");
      (!Contains(ref, ":") && !Contains(ref, "/") ==> Hostname(reference) == ref)
      && (Contains(ref, ":") && (!Contains(ref, "/") || Index(ref, ":") < Index(ref, "/")) ==>
            Hostname(reference) == ref[..Index(ref, ":")])
      && (Contains(ref, "/") && (!Contains(ref, ":") || Index(ref, "/") < Index(ref, ":")) ==>
            Hostname(reference) == ref[..Index(ref, "/")])
  {
  }

  /** The first occurrence of a character: nothing before it is that character. */
  lemma BeforeFirst(s: string, c: char, j: nat)
    requires Index(s, [c]) >= 0 && j < Index(s, [c])
    ensures s[j] != c
  {
    IndexIsFirst(s, [c]);
    assert !HasPrefix(s[j..], [c]);
    assert s[j..][..1] == [s[j]];
  }

  /** The host holds neither ":" nor "/". */
  lemma HostnameClean(reference: string)
    ensures ':' !in Hostname(reference) && '/' !in Hostname(reference)
  {
    var ref := TrimPrefix(reference, "oci://");
    var colon := Index(ref, ":");
    var slash := Index(ref, "/");
    ContainsSingle(ref, ':');
    ContainsSingle(ref, '/');
    var host := Hostname(reference);
    assert host == ref[..|host|];
    forall j | 0 <= j < |host| ensures host[j] != ':' && host[j] != '/' {
      assert host[j] == ref[j];
      if colon >= 0 && j < colon { BeforeFirst(ref, ':', j); }
      if slash >= 0 && j < slash { BeforeFirst(ref, '/', j); }
    }
  }

  /** The addresses that need no lookup. */
  predicate IsLoopbackName(host: string) {
    host == "localhost" || host == "127.0.0.1" || host == "::1" || host == "0:0:0:0:0:0:0:1"
  }

  /** The resolver: for each address of the host, whether it is a loopback
      address, or an error. */
  type Lookup = string -> Outcome<seq<bool>>

  /** IsLoopback. */
  method IsLoopback(lookup: Lookup, host: string) returns (r: bool)
    ensures r <==> (IsLoopbackName(host)
      || (lookup(host).Ok? && exists i :: 0 <= i < |lookup(host).value| && lookup(host).value[i]))
  {
    if IsLoopbackName(host) {
      return true;
    }
    var ips := lookup(host);
    if ips.Fail? {
      return false;
    }
    var i := 0;
    while i < |ips.value|
      invariant 0 <= i <= |ips.value|
      invariant forall j :: 0 <= j < i ==> !ips.value[j]
    {
      if ips.value[i] {
        return true;
      }
      i := i + 1;
    }
    return false;
  }
}
