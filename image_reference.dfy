/**
 * The name of a Docker image reference, `[registry[:port]/]repository[:tag][@digest]`:
 * the reference without its digest, or else without its tag.
 */
module ImageReference {

  /** Index of the first `c` in `s`, or -1 when `s` has none. */
  function IndexOf(s: string, c: char): (i: int)
    ensures -1 <= i < |s|
    ensures i < 0 <==> c !in s
    ensures i >= 0 ==> s[i] == c && c !in s[..i]
  {
    if s == [] then -1
    else if s[0] == c then 0
    else
      var j := IndexOf(s[1..], c);
      assert j >= 0 ==> s[..j + 1] == [s[0]] + s[1..][..j];
      if j < 0 then -1 else j + 1
  }

  /** Index of the last `c` in `s`, or -1 when `s` has none. */
  function LastIndexOf(s: string, c: char): (i: int)
    ensures -1 <= i < |s|
    ensures i < 0 <==> c !in s
    ensures i >= 0 ==> s[i] == c && c !in s[i + 1..]
  {
    if s == [] then -1
    else if s[|s| - 1] == c then |s| - 1
    else
      var j := LastIndexOf(s[..|s| - 1], c);
      assert j >= 0 ==> s[j + 1..] == s[..|s| - 1][j + 1..] + [s[|s| - 1]];
      j
  }

  /**
   * The artifact name of an image reference. An `@` can only introduce a digest, so
   * everything from the first `@` on is dropped. Otherwise the last `:` separates a tag,
   * unless a `/` follows it, in which case it was a registry port and nothing is dropped.
   */
  function ImageName(ref: string): (name: string)
  {
    var at := IndexOf(ref, '@');
    if at >= 0 then ref[..at]
    else
      var colon := LastIndexOf(ref, ':');
      if colon < 0 then ref
      else if '/' in ref[colon..] then ref
      else ref[..colon]
  }

  /** The reference carries an explicit tag: no digest, and a last `:` with no `/` after it. */
  predicate HasTag(ref: string)
  {
    '@' !in ref &&
    var colon := LastIndexOf(ref, ':');
    colon >= 0 && '/' !in ref[colon..]
  }

  /**
   * The name is always a prefix of the reference, and it is the whole reference exactly
   * when the reference has neither digest nor tag.
   */
  lemma ImageNameIsPrefix(ref: string)
    ensures ImageName(ref) <= ref
    ensures ImageName(ref) == ref <==> '@' !in ref && !HasTag(ref)
    ensures HasTag(ref) <==> '@' !in ref && ImageName(ref) != ref
  {
  }

  /** A digest is stripped, whatever the name before it contains (ports, colons, slashes). */
  lemma ImageNameOfDigest(name: string, digest: string)
    requires '@' !in name
    ensures ImageName(name + "@" + digest) == name
    ensures !HasTag(name + "@" + digest)
  {
  }

  /** A tag (no `:`, `/` or `@` in it) after a digest-free name is stripped, and the reference counts as tagged. */
  lemma {:induction false} ImageNameOfTagged(name: string, tag: string)
    requires '@' !in name && '@' !in tag && ':' !in tag && '/' !in tag
    ensures ImageName(name + ":" + tag) == name
    ensures HasTag(name + ":" + tag)
  {
    var ref := name + ":" + tag;
    assert ref[|name|] == ':';
    assert ref[..|name|] == name;
    assert ref[|name| + 1..] == tag;
    assert '@' !in ref by {
      forall i | 0 <= i < |ref| ensures ref[i] != '@' {
        if i < |name| { assert ref[i] == name[i]; }
        else if i > |name| { assert ref[i] == tag[i - |name| - 1]; }
      }
    }
    assert LastIndexOf(ref, ':') == |name| by {
      assert ':' !in ref[|name| + 1..];
    }
    assert ref[|name|..] == [':'] + tag;
  }

  /** A reference with no digest whose every `:` is followed by a `/` is its own name. */
  lemma ImageNameOfUntagged(ref: string)
    requires '@' !in ref
    requires forall i :: 0 <= i < |ref| && ref[i] == ':' ==> '/' in ref[i..]
    ensures ImageName(ref) == ref
    ensures !HasTag(ref)
  {
  }

  // One helper per row of the test table, each an instance of the lemmas above.

  lemma NameOfNginx112() ensures ImageName("nginx:112") == "nginx" {
    var n, t := "nginx", "112";
    assert n + ":" + t == "nginx:112";
    ImageNameOfTagged(n, t);
  }

  lemma NameOfNginxAlpine() ensures ImageName("nginx:1.12-alpine") == "nginx" {
    var n, t := "nginx", "1.12-alpine";
    assert n + ":" + t == "nginx:1.12-alpine";
    ImageNameOfTagged(n, t);
  }

  lemma NameOfDashedRepo() ensures ImageName("my-nginx:100000") == "my-nginx" {
    var n, t := "my-nginx", "100000";
    assert n + ":" + t == "my-nginx:100000";
    ImageNameOfTagged(n, t);
  }

  lemma NameOfDottedRepo() ensures ImageName("my.nginx:100000") == "my.nginx" {
    var n, t := "my.nginx", "100000";
    assert n + ":" + t == "my.nginx:100000";
    ImageNameOfTagged(n, t);
  }

  lemma NameOfRegistryRepo() ensures ImageName("reg/repo:1.2.3") == "reg/repo" {
    var n, t := "reg/repo", "1.2.3";
    assert n + ":" + t == "reg/repo:1.2.3";
    ImageNameOfTagged(n, t);
  }

  lemma NameOfPortLikeDigest() ensures ImageName("reg.repo:123@sha256:13") == "reg.repo:123" {
    var n, t := "reg.repo:123", "sha256:13";
    assert n + "@" + t == "reg.repo:123@sha256:13";
    ImageNameOfDigest(n, t);
  }

  lemma NameOfServiceRegistry() ensures ImageName("reg.default.svc/r/j:485fabc") == "reg.default.svc/r/j" {
    var n, t := "reg.default.svc/r/j", "485fabc";
    assert n + ":" + t == "reg.default.svc/r/j:485fabc";
    ImageNameOfTagged(n, t);
  }

  lemma NameOfPortRegistry() ensures ImageName("reg:5000/r/j:485fabc") == "reg:5000/r/j" {
    var n, t := "reg:5000/r/j", "485fabc";
    assert n + ":" + t == "reg:5000/r/j:485fabc";
    ImageNameOfTagged(n, t);
  }

  lemma NameOfUnderscoreRepo() ensures ImageName("reg:5000/r__j:485fabc") == "reg:5000/r__j" {
    var n, t := "reg:5000/r__j", "485fabc";
    assert n + ":" + t == "reg:5000/r__j:485fabc";
    ImageNameOfTagged(n, t);
  }

  lemma NameOfBareImage() ensures ImageName("clouddriver") == "clouddriver" {
    ImageNameOfUntagged("clouddriver");
  }

  lemma NameOfDigestImage() ensures ImageName("clouddriver@sha256:9145") == "clouddriver" {
    var n, t := "clouddriver", "sha256:9145";
    assert n + "@" + t == "clouddriver@sha256:9145";
    ImageNameOfDigest(n, t);
  }

  lemma NameOfPortRegistryDigest() ensures ImageName("localhost:5000/test/busybox@sha256:cbbf22") == "localhost:5000/test/busybox" {
    var n, t := "localhost:5000/test/busybox", "sha256:cbbf22";
    assert n + "@" + t == "localhost:5000/test/busybox@sha256:cbbf22";
    ImageNameOfDigest(n, t);
  }

  /**
   * The image table of the artifact replacer tests: tags are stripped, registry ports are
   * kept, and a digest is stripped together with everything from the `@` on.
   */
  lemma ImageNameTable()
    ensures ImageName("nginx:112") == "nginx"
    ensures ImageName("nginx:1.12-alpine") == "nginx"
    ensures ImageName("my-nginx:100000") == "my-nginx"
    ensures ImageName("my.nginx:100000") == "my.nginx"
    ensures ImageName("reg/repo:1.2.3") == "reg/repo"
    ensures ImageName("reg.repo:123@sha256:13") == "reg.repo:123"
    ensures ImageName("reg.default.svc/r/j:485fabc") == "reg.default.svc/r/j"
    ensures ImageName("reg:5000/r/j:485fabc") == "reg:5000/r/j"
    ensures ImageName("reg:5000/r__j:485fabc") == "reg:5000/r__j"
    ensures ImageName("clouddriver") == "clouddriver"
    ensures ImageName("clouddriver@sha256:9145") == "clouddriver"
    ensures ImageName("localhost:5000/test/busybox@sha256:cbbf22") == "localhost:5000/test/busybox"
  {
    NameOfNginx112();
    NameOfNginxAlpine();
    NameOfDashedRepo();
    NameOfDottedRepo();
    NameOfRegistryRepo();
    NameOfPortLikeDigest();
    NameOfServiceRegistry();
    NameOfPortRegistry();
    NameOfUnderscoreRepo();
    NameOfBareImage();
    NameOfDigestImage();
    NameOfPortRegistryDigest();
  }
}
