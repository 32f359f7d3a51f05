/** The key and inventory helper of the scenarios: the staleness test of
    the downloaded private key, the ETag quote stripping, the identity URL
    rewrite, the projection of a Terraform state into host attributes and the
    grouping of hosts into an Ansible inventory. */
module ObsCli {
  import opened Basics
  import opened Dicts
  import opened Json
  import opened Utf8

  // ---------------------------------------------------------------------
  // The private key in the object store

  /** `requires_update(file_name, remote_md5)`: `local` is the file's content,
      `None` when there is no such file; `md5` is the hex digest function. */
  function RequiresUpdate(local: Option<seq<byte>>, remoteMd5: string, md5: seq<byte> -> string): (r: bool)
    ensures local.None? ==> r
    ensures local.Some? ==> (r <==> md5(local.value) != remoteMd5)
  {
    local.None? || remoteMd5 != md5(local.value)
  }

  /** `e_tag[1:-1]`, Python slicing included: shorter than two characters
      gives the empty string. */
  function ETagDigest(eTag: string): (digest: string)
    ensures |digest| == if |eTag| < 2 then 0 else |eTag| - 2
    ensures forall i :: 0 <= i < |digest| ==> digest[i] == eTag[i + 1]
  {
    if |eTag| < 2 then "" else eTag[1..|eTag| - 1]
  }

  /** An ETag is the digest in double quotes: stripping gives the digest back. */
  lemma ETagOfDigest(digest: string)
    ensures ETagDigest("\"" + digest + "\"") == digest
  {
    var e := "\"" + digest + "\"";
    assert e[1..|e| - 1] == digest;
  }

  /** The body of `get_key_from_s3` after the ETag is read: the local file
      afterwards, given the key object's content `remote`. The file is
      rewritten only with the object's content, and exactly when it is
      missing or its digest differs from the remote one. */
  function SyncKey(local: Option<seq<byte>>, eTag: string, remote: seq<byte>, md5: seq<byte> -> string)
    : (after: Option<seq<byte>>)
    ensures after != local ==> after == Some(remote) && (local.None? || md5(local.value) != ETagDigest(eTag))
    ensures local.None? ==> after == Some(remote)
    ensures local.Some? && md5(local.value) == ETagDigest(eTag) ==> after == local
    ensures local.Some? && md5(local.value) != ETagDigest(eTag) ==> after == Some(remote)
  {
    if RequiresUpdate(local, ETagDigest(eTag), md5) then Some(remote) else local
  }

  /** When the ETag is the quoted digest of the object, as it is for an
      object stored in one piece, the local key is up to date after the
      download step, the file is left alone when it already was, and a
      second run changes nothing. */
  lemma SyncKeyUpToDate(local: Option<seq<byte>>, eTag: string, remote: seq<byte>, md5: seq<byte> -> string)
    requires eTag == "\"" + md5(remote) + "\""
    ensures !RequiresUpdate(SyncKey(local, eTag, remote, md5), ETagDigest(eTag), md5)
    ensures !RequiresUpdate(local, ETagDigest(eTag), md5) ==> SyncKey(local, eTag, remote, md5) == local
    ensures SyncKey(SyncKey(local, eTag, remote, md5), eTag, remote, md5) == SyncKey(local, eTag, remote, md5)
  {
    ETagOfDigest(md5(remote));
  }

  // ---------------------------------------------------------------------
  // The identity URL rewrite

  /** `s.replace(pat, rep)`: every occurrence, scanning left to right, the
      occurrences not overlapping. */
  function Replace(s: string, pat: string, rep: string): (r: string)
    requires pat != []
    ensures pat <= s ==> rep <= r
    ensures rep == pat ==> r == s
    ensures |rep| >= |pat| ==> |r| >= |s|
    ensures |s| < |pat| ==> r == s
    decreases |s|
  {
    if s == [] then []
    else if pat <= s then
      assert s == pat + s[|pat|..];
      rep + Replace(s[|pat|..], pat, rep)
    else
      assert s == [s[0]] + s[1..];
      [s[0]] + Replace(s[1..], pat, rep)
  }

  /** A replacement that extends the pattern leaves the first characters,
      as many as the pattern has, as they were. */
  lemma {:induction false} ReplaceKeepsPrefix(s: string, pat: string, rep: string, k: nat)
    requires pat != [] && pat <= rep && k <= |s| && k <= |pat|
    ensures |Replace(s, pat, rep)| >= k && Replace(s, pat, rep)[..k] == s[..k]
    decreases |s|
  {
    if k > 0 {
      var r := Replace(s, pat, rep);
      if pat <= s {
        assert r[..k] == rep[..k];
        assert rep[..k] == pat[..k] == s[..k];
      } else {
        var t := Replace(s[1..], pat, rep);
        ReplaceKeepsPrefix(s[1..], pat, rep, k - 1);
        assert r[..k] == [s[0]] + t[..k - 1];
        assert s[..k] == [s[0]] + s[1..][..k - 1];
      }
    }
  }

  /** Text without the pattern is returned as it is. */
  lemma {:induction false} ReplaceAbsent(s: string, pat: string, rep: string)
    requires pat != []
    requires forall i :: 0 <= i <= |s| ==> !(pat <= s[i..])
    ensures Replace(s, pat, rep) == s
    decreases |s|
  {
    if s != [] {
      assert s[0..] == s;
      forall i | 0 <= i <= |s[1..]| ensures !(pat <= s[1..][i..]) {
        assert s[1..][i..] == s[i + 1..];
      }
      ReplaceAbsent(s[1..], pat, rep);
    }
  }

  /** A replacement that begins like the pattern keeps the first character. */
  lemma ReplaceHead(s: string, pat: string, rep: string)
    requires pat != [] && rep != [] && rep[0] == pat[0]
    ensures (Replace(s, pat, rep) == []) == (s == [])
    ensures s != [] ==> Replace(s, pat, rep)[0] == s[0]
  {
  }

  const TokenPath: string := "/OS-CREDENTIAL/securitytokens"

  /** `r` has `/v3` at `i`. */
  predicate V3At(r: string, i: nat)
  {
    i + 3 <= |r| && r[i] == '/' && r[i + 1] == 'v' && r[i + 2] == '3'
  }

  /** The `/v3` at `i` goes on as `/v3.0`. */
  predicate ContinuedAt(r: string, i: nat)
  {
    i + 5 <= |r| && r[i + 3] == '.' && r[i + 4] == '0'
  }

  /** Every `/v3` in `r` goes on as `/v3.0`. */
  predicate V3Continued(r: string)
  {
    forall i: nat :: i < |r| && V3At(r, i) ==> ContinuedAt(r, i)
  }

  /** The security token URL `_get_session_token` posts to: no bare `/v3`
      is left in front of the token path. */
  function TokenUrl(authUrl: string): (url: string)
    ensures |url| >= |authUrl| + |TokenPath|
    ensures url[|url| - |TokenPath|..] == TokenPath
    ensures V3Continued(url[..|url| - |TokenPath|])
  {
    var f := Replace(authUrl, "/v3", "/v3.0");
    RewriteContinuesV3(authUrl);
    assert (f + TokenPath)[..|f|] == f;
    f + TokenPath
  }

  /** After the rewrite, no `/v3` is left that does not go on as `/v3.0`. */
  lemma {:induction false} RewriteContinuesV3(s: string)
    ensures V3Continued(Replace(s, "/v3", "/v3.0"))
    decreases |s|
  {
    var r := Replace(s, "/v3", "/v3.0");
    if s != [] {
      if "/v3" <= s {
        var t := Replace(s[3..], "/v3", "/v3.0");
        assert r == "/v3.0" + t;
        RewriteContinuesV3(s[3..]);
        forall i: nat | i < |r| && V3At(r, i) ensures ContinuedAt(r, i) {
          if i >= 5 {
            assert V3At(t, i - 5);
          }
        }
      } else {
        var t := Replace(s[1..], "/v3", "/v3.0");
        assert r == [s[0]] + t;
        RewriteContinuesV3(s[1..]);
        if |s| >= 3 {
          ReplaceKeepsPrefix(s, "/v3", "/v3.0", 3);
          assert r[..3] == s[..3] != "/v3";
          assert r[0] != '/' || r[1] != 'v' || r[2] != '3';
        }
        assert !V3At(r, 0);
        forall i: nat | i < |r| && V3At(r, i) ensures ContinuedAt(r, i) {
          if i > 0 {
            assert V3At(t, i - 1);
          }
        }
      }
    }
  }

  /** Writing `/v3.0` for every `/v3` loses nothing: replacing every `/v3.0`
      of the result by `/v3` gives the text back. */
  lemma {:induction false} V3RewriteInverse(s: string)
    ensures Replace(Replace(s, "/v3", "/v3.0"), "/v3.0", "/v3") == s
    decreases |s|
  {
    if s != [] {
      var f := Replace(s, "/v3", "/v3.0");
      if "/v3" <= s {
        var t := Replace(s[3..], "/v3", "/v3.0");
        assert f == "/v3.0" + t;
        assert "/v3.0" <= f;
        assert f[5..] == t;
        V3RewriteInverse(s[3..]);
        assert s == "/v3" + s[3..];
      } else {
        var t := Replace(s[1..], "/v3", "/v3.0");
        assert f == [s[0]] + t;
        NoV3Start(s);
        assert f[1..] == t;
        V3RewriteInverse(s[1..]);
        assert s == [s[0]] + s[1..];
      }
    }
  }

  /** A text that does not begin with `/v3` does not rewrite to one that
      begins with `/v3.0`. */
  lemma NoV3Start(s: string)
    requires s != [] && !("/v3" <= s)
    ensures !("/v3.0" <= Replace(s, "/v3", "/v3.0"))
  {
    var f := Replace(s, "/v3", "/v3.0");
    var t := Replace(s[1..], "/v3", "/v3.0");
    assert f == [s[0]] + t;
    ReplaceHead(s[1..], "/v3", "/v3.0");
    if s[0] == '/' && |s| > 1 && s[1] == 'v' {
      assert s[1..][0] == 'v';
      assert s[1..][1..] == s[2..];
      var u := Replace(s[2..], "/v3", "/v3.0");
      assert t == [s[1]] + u;
      ReplaceHead(s[2..], "/v3", "/v3.0");
      if |s| > 2 {
        assert s[..3] == [s[0], s[1], s[2]];
        assert f[2] == s[2];
      } else {
        assert |f| == 2;
      }
    }
    PrefixHead(f);
  }

  /** A text beginning with `/v3.0` begins with `/`, `v` and `3`. */
  lemma PrefixHead(f: string)
    ensures "/v3.0" <= f ==> |f| >= 5 && f[0] == '/' && f[1] == 'v' && f[2] == '3'
  {
    if "/v3.0" <= f {
      assert f[..5] == "/v3.0";
      assert f[0] == f[..5][0] && f[1] == f[..5][1] && f[2] == f[..5][2];
    }
  }

  /** The token URL is the rewritten auth URL followed by the token path;
      the rewrite can be undone; it leaves no bare `/v3`; an auth URL
      without `/v3` is kept as is. */
  lemma TokenUrlParts(authUrl: string)
    ensures var url := TokenUrl(authUrl);
      |url| >= |TokenPath| && url[|url| - |TokenPath|..] == TokenPath
      && Replace(url[..|url| - |TokenPath|], "/v3.0", "/v3") == authUrl
      && V3Continued(url[..|url| - |TokenPath|])
    ensures (forall i :: 0 <= i <= |authUrl| ==> !("/v3" <= authUrl[i..])) ==> TokenUrl(authUrl) == authUrl + TokenPath
  {
    var url := TokenUrl(authUrl);
    var f := Replace(authUrl, "/v3", "/v3.0");
    assert url[..|url| - |TokenPath|] == f;
    assert url[|url| - |TokenPath|..] == TokenPath;
    V3RewriteInverse(authUrl);
    RewriteContinuesV3(authUrl);
    if forall i :: 0 <= i <= |authUrl| ==> !("/v3" <= authUrl[i..]) {
      ReplaceAbsent(authUrl, "/v3", "/v3.0");
    }
  }

  // ---------------------------------------------------------------------
  // Python's subscription and iteration on decoded JSON

  /** `v[k]` for a string key. */
  function Index(v: Json, k: string): (r: Result<Json, PyError>)
    ensures r.Ok? <==> v.JObj? && HasKey(v.members, k)
    ensures r.Ok? ==> Some(r.value) == Get(v.members, k)
  {
    match v
    case JObj(d) => if HasKey(d, k) then Ok(Get(d, k).value) else Err(KeyError(k))
    case JArr(_) => Err(TypeError("list indices must be integers or slices, not str"))
    case JStr(_) => Err(TypeError("string indices must be integers"))
    case _ => Err(TypeError("object is not subscriptable"))
  }

  /** `v[0]` */
  function IndexFirst(v: Json): (r: Result<Json, PyError>)
    ensures r.Ok? <==> (v.JArr? && v.items != []) || (v.JStr? && v.s != [])
    ensures r.Ok? && v.JArr? ==> r.value == v.items[0]
    ensures r.Ok? && v.JStr? ==> r.value == JStr([v.s[0]])
  {
    match v
    case JArr(items) => if items == [] then Err(IndexError("list index out of range")) else Ok(items[0])
    case JStr(s) => if s == [] then Err(IndexError("string index out of range")) else Ok(JStr([s[0]]))
    case JObj(_) => Err(KeyError("0"))
    case _ => Err(TypeError("object is not subscriptable"))
  }

  /** What `for x in v` runs through: a list's items, a dict's keys, a
      string's characters. */
  function Iterate(v: Json): (r: Result<seq<Json>, PyError>)
    ensures r.Ok? <==> v.JArr? || v.JObj? || v.JStr?
    ensures v.JArr? ==> r == Ok(v.items)
    ensures v.JObj? ==> |r.value| == |v.members| && forall i :: 0 <= i < |v.members| ==> r.value[i] == JStr(v.members[i].0)
    ensures v.JStr? ==> |r.value| == |v.s| && forall i :: 0 <= i < |v.s| ==> r.value[i] == JStr([v.s[i]])
  {
    match v
    case JArr(items) => Ok(items)
    case JObj(d) => Ok(seq(|d|, i requires 0 <= i < |d| => JStr(d[i].0)))
    case JStr(s) => Ok(seq(|s|, i requires 0 <= i < |s| => JStr([s[i]])))
    case _ => Err(TypeError("object is not iterable"))
  }

  // ---------------------------------------------------------------------
  // get_instances_info

  /** A yielded host: its name and its attributes. */
  type Host = (Json, Dict<Json>)

  /** What a generator produced: the items yielded, then the exception that
      stopped it, if any. */
  type Yield = (seq<Host>, Option<PyError>)

  const ComputeType: string := "opentelekomcloud_compute_instance_v2"

  /** The host attribute keys, in the order the dict literal lists them. */
  const HostKeys: seq<string> :=
    ["id", "image", "region", "public_ipv4", "ansible_host", "ansible_ssh_user", "tag"]

  /** One instance's name and attributes, the lookups failing in source order. */
  function HostOf(instance: Json): (r: Result<Host, PyError>)
    ensures Index(instance, "attributes").Err? ==> r == Err(Index(instance, "attributes").error)
    ensures r.Ok? ==> Index(instance, "attributes").Ok?
                      && Index(Index(instance, "attributes").value, "name") == Ok(r.value.0)
    ensures r.Ok? ==> |r.value.1| == |HostKeys| && forall i :: 0 <= i < |HostKeys| ==> r.value.1[i].0 == HostKeys[i]
    ensures r.Ok? ==>
      var a := Index(instance, "attributes").value;
      && Index(a, "id") == Ok(r.value.1[0].1)
      && Index(a, "image_name") == Ok(r.value.1[1].1)
      && Index(a, "region") == Ok(r.value.1[2].1)
      && Index(a, "access_ip_v4") == Ok(r.value.1[4].1)
      && Index(a, "tag") == Ok(r.value.1[6].1)
  {
    var attrib :- Index(instance, "attributes");
    var name :- Index(attrib, "name");
    var id :- Index(attrib, "id");
    var image :- Index(attrib, "image_name");
    var region :- Index(attrib, "region");
    var networks :- Index(attrib, "network");
    var network :- IndexFirst(networks);
    var ipv4 :- Index(network, "floating_ip");
    var host :- Index(attrib, "access_ip_v4");
    var tag :- Index(attrib, "tag");
    Ok((name, [("id", id), ("image", image), ("region", region), ("public_ipv4", ipv4),
               ("ansible_host", host), ("ansible_ssh_user", JStr("linux")), ("tag", tag)]))
  }

  /** The inner loop's step: yield the host, or stop. */
  function InstanceStep(instance: Json): Yield
  {
    match HostOf(instance)
    case Ok(h) => ([h], None)
    case Err(e) => ([], Some(e))
  }

  /** The outer loop's step: the hosts of a compute resource, nothing for
      another resource. */
  function ResourceStep(resource: Json): Yield
  {
    match Index(resource, "type")
    case Err(e) => ([], Some(e))
    case Ok(typ) =>
      if typ != JStr(ComputeType) then ([], None)
      else
        match Index(resource, "instances")
        case Err(e) => ([], Some(e))
        case Ok(x) =>
          match Iterate(x)
          case Err(e) => ([], Some(e))
          case Ok(instances) => Chain(instances, InstanceStep)
  }

  /** A loop over `xs` whose body yields what `step` does: the yields in order,
      up to the first exception. */
  function Chain(xs: seq<Json>, step: Json -> Yield): (y: Yield)
  {
    if xs == [] then ([], None)
    else
      var (out, err) := step(xs[0]);
      if err.Some? then (out, err)
      else
        var (more, err') := Chain(xs[1..], step);
        (out + more, err')
  }

  /** `get_instances_info(state)` run to exhaustion. */
  function InstancesInfo(tfState: Json): (y: Yield)
    ensures Index(tfState, "resources").Err? ==> y == ([], Some(Index(tfState, "resources").error))
    ensures y.1.None? ==> Index(tfState, "resources").Ok? && Iterate(Index(tfState, "resources").value).Ok?
  {
    match Index(tfState, "resources")
    case Err(e) => ([], Some(e))
    case Ok(x) =>
      match Iterate(x)
      case Err(e) => ([], Some(e))
      case Ok(resources) => Chain(resources, ResourceStep)
  }

  /** A loop over `a + b` runs the loop over `a` and, unless it stopped,
      continues with the loop over `b`. */
  lemma {:induction false} ChainConcat(a: seq<Json>, b: seq<Json>, step: Json -> Yield)
    ensures Chain(a + b, step)
            == if Chain(a, step).1.Some? then Chain(a, step)
               else (Chain(a, step).0 + Chain(b, step).0, Chain(b, step).1)
  {
    if a == [] {
      assert a + b == b;
      assert [] + Chain(b, step).0 == Chain(b, step).0;
    } else {
      assert (a + b)[0] == a[0];
      assert (a + b)[1..] == a[1..] + b;
      var (out, err) := step(a[0]);
      if err.None? {
        ChainConcat(a[1..], b, step);
        assert (out + Chain(a[1..], step).0) + Chain(b, step).0 == out + (Chain(a[1..], step).0 + Chain(b, step).0);
      }
    }
  }

  /** One more round of the loop: the yields of its step are appended; when
      the step raises, the loop stops there. */
  lemma ChainStep(xs: seq<Json>, i: nat, step: Json -> Yield)
    requires i < |xs| && Chain(xs[..i], step).1 == None
    ensures Chain(xs[..i + 1], step) == (Chain(xs[..i], step).0 + step(xs[i]).0, step(xs[i]).1)
    ensures step(xs[i]).1.Some? ==> Chain(xs, step) == Chain(xs[..i + 1], step)
  {
    var p, q := xs[..i], xs[..i + 1];
    assert p + [xs[i]] == q;
    ChainConcat(p, [xs[i]], step);
    ChainSingle(xs[i], step);
    ChainPrefixStops(xs, i + 1, step);
  }

  /** A loop whose prefix raised ends where the prefix did. */
  lemma ChainPrefixStops(xs: seq<Json>, n: nat, step: Json -> Yield)
    requires n <= |xs|
    ensures Chain(xs[..n], step).1.Some? ==> Chain(xs, step) == Chain(xs[..n], step)
  {
    assert xs[..n] + xs[n..] == xs;
    ChainConcat(xs[..n], xs[n..], step);
  }

  /** A loop over one element is that element's step. */
  lemma ChainSingle(x: Json, step: Json -> Yield)
    ensures Chain([x], step) == step(x)
  {
    assert [x][1..] == [];
    var (out, err) := step(x);
    assert out + [] == out;
  }

  /** What every yielded host looks like: the seven attribute keys in their
      order, distinct, and the SSH user `linux`. */
  predicate HostShaped(h: Host)
  {
    Keys(h.1) == HostKeys && Distinct(h.1) && Get(h.1, "ansible_ssh_user") == Some(JStr("linux"))
  }

  predicate AllShaped(hs: seq<Host>)
  {
    forall j :: 0 <= j < |hs| ==> HostShaped(hs[j])
  }

  /** A projected instance has the host shape, and its public address is
      the floating IP of its first network entry. */
  lemma HostOfShape(instance: Json)
    ensures HostOf(instance).Ok? ==> HostShaped(HostOf(instance).value)
    ensures HostOf(instance).Ok? ==>
      var attrib := Index(instance, "attributes").value;
      var first := IndexFirst(Index(attrib, "network").value).value;
      Get(HostOf(instance).value.1, "public_ipv4") == Some(Index(first, "floating_ip").value)
  {
    if HostOf(instance).Ok? {
      var a := HostOf(instance).value.1;
      HostKeysDistinct();
      LiteralDict(a, HostKeys);
      assert Get(a, HostKeys[3]) == Some(a[3].1);
      assert Get(a, HostKeys[5]) == Some(a[5].1);
    }
  }

  /** The projected attributes are the Terraform fields they are copied
      from: `id`, `image_name`, `region`, `access_ip_v4` and `tag`. */
  lemma HostOfProjections(instance: Json)
    ensures HostOf(instance).Ok? ==>
      var attrib := Index(instance, "attributes").value;
      var h := HostOf(instance).value.1;
      && Get(h, "id") == Some(Index(attrib, "id").value)
      && Get(h, "image") == Some(Index(attrib, "image_name").value)
      && Get(h, "region") == Some(Index(attrib, "region").value)
      && Get(h, "ansible_host") == Some(Index(attrib, "access_ip_v4").value)
      && Get(h, "tag") == Some(Index(attrib, "tag").value)
  {
    if HostOf(instance).Ok? {
      var a := HostOf(instance).value.1;
      HostKeysDistinct();
      LiteralDict(a, HostKeys);
      assert Get(a, HostKeys[0]) == Some(a[0].1);
      assert Get(a, HostKeys[1]) == Some(a[1].1);
      assert Get(a, HostKeys[2]) == Some(a[2].1);
      assert Get(a, HostKeys[4]) == Some(a[4].1);
      assert Get(a, HostKeys[6]) == Some(a[6].1);
    }
  }

  lemma HostKeysDistinct()
    ensures forall i, j :: 0 <= i < j < |HostKeys| ==> HostKeys[i] != HostKeys[j]
  {
    assert HostKeys[1] != HostKeys[0] by { assert HostKeys[1][1] != HostKeys[0][1]; }
    assert HostKeys[4] != HostKeys[5] by { assert HostKeys[4][8] != HostKeys[5][8]; }
    assert forall i :: 0 <= i < |HostKeys| ==> HostKeys[i] != [];
    assert forall i, j :: 0 <= i < j < |HostKeys| && !(i == 0 && j == 1) && !(i == 4 && j == 5) ==>
      HostKeys[i][0] != HostKeys[j][0];
  }

  /** A loop whose every step yields shaped hosts yields shaped hosts. */
  lemma {:induction false} ChainShaped(xs: seq<Json>, step: Json -> Yield)
    requires forall x :: x in xs ==> AllShaped(step(x).0)
    ensures AllShaped(Chain(xs, step).0)
  {
    if xs != [] {
      var (out, err) := step(xs[0]);
      assert xs[0] in xs;
      if err.None? {
        assert forall x :: x in xs[1..] ==> x in xs;
        ChainShaped(xs[1..], step);
        var more := Chain(xs[1..], step).0;
        assert forall j :: 0 <= j < |more| ==> (out + more)[|out| + j] == more[j];
      }
    }
  }

  lemma ResourceStepShaped(resource: Json)
    ensures AllShaped(ResourceStep(resource).0)
  {
    if Index(resource, "type").Ok? && Index(resource, "type").value == JStr(ComputeType)
       && Index(resource, "instances").Ok? && Iterate(Index(resource, "instances").value).Ok? {
      var instances := Iterate(Index(resource, "instances").value).value;
      forall x | x in instances ensures AllShaped(InstanceStep(x).0) {
        HostOfShape(x);
      }
      ChainShaped(instances, InstanceStep);
    }
  }

  /** Every host `get_instances_info` yields has the seven attributes,
      among them `ansible_ssh_user: linux`. */
  lemma InstancesInfoShaped(tfState: Json)
    ensures AllShaped(InstancesInfo(tfState).0)
  {
    if Index(tfState, "resources").Ok? && Iterate(Index(tfState, "resources").value).Ok? {
      var resources := Iterate(Index(tfState, "resources").value).value;
      forall x | x in resources ensures AllShaped(ResourceStep(x).0) {
        ResourceStepShaped(x);
      }
      ChainShaped(resources, ResourceStep);
    }
  }

  /** The resources the generator cannot skip: compute instances, and
      those whose `type` lookup raises. */
  function ComputeOnly(resources: seq<Json>): (kept: seq<Json>)
    ensures |kept| <= |resources|
    ensures forall x :: x in kept ==> x in resources
    ensures forall x :: x in kept ==> Index(x, "type").Err? || Index(x, "type").value == JStr(ComputeType)
  {
    if resources == [] then []
    else
      var r := resources[0];
      if Index(r, "type").Ok? && Index(r, "type").value != JStr(ComputeType) then ComputeOnly(resources[1..])
      else [r] + ComputeOnly(resources[1..])
  }

  /** Only compute instances contribute: dropping every other resource from
      the state changes neither the yields nor the outcome. */
  lemma {:induction false} OnlyComputeInstances(resources: seq<Json>)
    ensures Chain(resources, ResourceStep) == Chain(ComputeOnly(resources), ResourceStep)
  {
    if resources != [] {
      OnlyComputeInstances(resources[1..]);
      var r := resources[0];
      if Index(r, "type").Ok? && Index(r, "type").value != JStr(ComputeType) {
        assert ResourceStep(r) == ([], None);
        assert [] + Chain(resources[1..], ResourceStep).0 == Chain(resources[1..], ResourceStep).0;
      } else {
        assert ([r] + ComputeOnly(resources[1..]))[1..] == ComputeOnly(resources[1..]);
      }
    }
  }

  /** `get_instances_info(tf_state)`, driven to the end by its consumer: the
      hosts in the order it yields them and the exception that ended it. */
  method GetInstancesInfo(tfState: Json) returns (yielded: seq<Host>, err: Option<PyError>)
    ensures (yielded, err) == InstancesInfo(tfState)
  {
    var rs := Index(tfState, "resources");
    if rs.Err? {
      return [], Some(rs.error);
    }
    var it := Iterate(rs.value);
    if it.Err? {
      return [], Some(it.error);
    }
    var resources := it.value;
    yielded := [];
    var i := 0;
    while i < |resources|
      invariant 0 <= i <= |resources|
      invariant Chain(resources[..i], ResourceStep) == (yielded, None)
    {
      ChainStep(resources, i, ResourceStep);
      var out, e := ResourceHosts(resources[i]);
      yielded := yielded + out;
      if e.Some? {
        return yielded, e;
      }
      i := i + 1;
    }
    assert resources[..i] == resources;
    return yielded, None;
  }

  /** One round of the outer loop: the hosts of a compute resource. */
  method ResourceHosts(resource: Json) returns (yielded: seq<Host>, err: Option<PyError>)
    ensures (yielded, err) == ResourceStep(resource)
  {
    var typ := Index(resource, "type");
    if typ.Err? {
      return [], Some(typ.error);
    }
    if typ.value != JStr(ComputeType) {
      return [], None;
    }
    var insts := Index(resource, "instances");
    if insts.Err? {
      return [], Some(insts.error);
    }
    var it := Iterate(insts.value);
    if it.Err? {
      return [], Some(it.error);
    }
    var instances := it.value;
    yielded := [];
    var j := 0;
    while j < |instances|
      invariant 0 <= j <= |instances|
      invariant Chain(instances[..j], InstanceStep) == (yielded, None)
    {
      ChainStep(instances, j, InstanceStep);
      var host := HostOf(instances[j]);
      if host.Err? {
        assert yielded + [] == yielded;
        return yielded, Some(host.error);
      }
      yielded := yielded + [host.value];
      j := j + 1;
    }
    assert instances[..j] == instances;
    return yielded, None;
  }

  // ---------------------------------------------------------------------
  // generate_inventory

  /** A host as the inventory loop receives it: its name and attributes. */
  type Entry = (string, Dict<Json>)

  /** The two dicts the loop fills: `hosts` (name to attributes) and, for
      each group, the `hosts` dict under `children[group]` (name to ''). */
  type InvState = (Dict<Json>, Dict<Dict<Json>>)

  /** `attributes.pop('tag', None) or {}` */
  function TagsOf(attrs: Dict<Json>): (tags: Json)
    ensures Truthy(tags) || tags == JObj([])
    ensures HasKey(attrs, "tag") && Truthy(Get(attrs, "tag").value) ==> tags == Get(attrs, "tag").value
    ensures !(HasKey(attrs, "tag") && Truthy(Get(attrs, "tag").value)) ==> tags == JObj([])
  {
    var tag := GetOr(attrs, "tag", JNull);
    if Truthy(tag) then tag else JObj([])
  }

  /** Whether `sub` occurs in `s`, as Python's `in` on strings. */
  predicate Contains(s: string, sub: string)
  {
    exists i :: 0 <= i <= |s| && sub <= s[i..]
  }

  /** `'group' in tags`: a dict's keys, a list's items, a string's substrings. */
  function HasGroupTag(tags: Json): (r: Result<bool, PyError>)
  {
    match tags
    case JObj(d) => Ok(HasKey(d, "group"))
    case JArr(items) => Ok(JStr("group") in items)
    case JStr(s) => Ok(Contains(s, "group"))
    case _ => Err(TypeError("argument of type is not iterable"))
  }

  /** A `group` tag that is a number, a boolean or null: Python would key
      the children dict by it; the model keys groups by strings. */
  predicate NonStringGroup(attrs: Dict<Json>)
  {
    var tags := TagsOf(attrs);
    tags.JObj? && HasKey(tags.members, "group")
    && (Get(tags.members, "group").value.JInt? || Get(tags.members, "group").value.JBool?
        || Get(tags.members, "group").value.JNull?)
  }

  /** What the inventory loop can take: dicts, and groups named by strings. */
  predicate WellFormed(entries: seq<Entry>)
  {
    forall i :: 0 <= i < |entries| ==> Distinct(entries[i].1) && !NonStringGroup(entries[i].1)
  }

  /** The group a host joins, if any: `tags['group']` when `'group' in tags`,
      which must be hashable to key `children`. */
  function GroupOf(attrs: Dict<Json>): (r: Result<Option<string>, PyError>)
    requires !NonStringGroup(attrs)
    ensures r == Ok(None) <==> HasGroupTag(TagsOf(attrs)) == Ok(false)
    ensures r.Ok? && r.value.Some? ==> Index(TagsOf(attrs), "group") == Ok(JStr(r.value.value))
  {
    var tags := TagsOf(attrs);
    var has :- HasGroupTag(tags);
    if !has then Ok(None)
    else
      var grp :- Index(tags, "group");
      match grp
      case JStr(g) => Ok(Some(g))
      case JArr(_) => Err(TypeError("unhashable type: 'list'"))
      case JObj(_) => Err(TypeError("unhashable type: 'dict'"))
      case _ => assert false; Ok(None)
  }

  /** The host is listed under the group. */
  predicate InGroup(entry: Entry, grp: string)
  {
    !NonStringGroup(entry.1) && GroupOf(entry.1) == Ok(Some(grp))
  }

  /** One round of the loop. The host is stored (its tag popped) before its
      group is looked at, so a failing group lookup loses it with the rest. */
  function Step(st: InvState, entry: Entry): (r: Result<InvState, PyError>)
    requires !NonStringGroup(entry.1)
    ensures r.Ok? <==> GroupOf(entry.1).Ok?
    ensures r.Ok? ==> Get(r.value.0, entry.0) == Some(JObj(Remove(entry.1, "tag")))
    ensures GroupOf(entry.1) == Ok(None) ==> r.value.1 == st.1
  {
    var (hosts, groups) := st;
    var (name, attrs) := entry;
    var hosts' := Set(hosts, name, JObj(Remove(attrs, "tag")));
    GetSet(hosts, name, JObj(Remove(attrs, "tag")), name);
    var grp :- GroupOf(attrs);
    match grp
    case None => Ok((hosts', groups))
    case Some(g) => Ok((hosts', Set(groups, g, Set(GetOr(groups, g, []), name, JStr("")))))
  }

  /** The loop over all entries; the first exception ends it. */
  function Inventory(entries: seq<Entry>): (r: Result<InvState, PyError>)
    requires WellFormed(entries)
    ensures r.Ok? && entries != [] ==> HasKey(r.value.0, entries[|entries| - 1].0)
    decreases |entries|
  {
    if entries == [] then Ok(([], []))
    else
      var st :- Inventory(entries[..|entries| - 1]);
      Step(st, entries[|entries| - 1])
  }

  /** `inv_output`, the value dumped as YAML. */
  function InventoryJson(st: InvState): (v: Json)
    ensures Index(v, "all").Ok?
    ensures Index(Index(v, "all").value, "hosts") == Ok(JObj(st.0))
    ensures Index(Index(v, "all").value, "children") == Ok(JObj(ChildrenJson(st.1)))
  {
    var inner := [("hosts", JObj(st.0)), ("children", JObj(ChildrenJson(st.1)))];
    assert inner[0].0[0] != "children"[0] && inner[0].0 != "children";
    assert Get(inner, "children") == Get(inner[1..], "children") == Some(inner[1].1);
    JObj([("all", JObj(inner))])
  }

  /** `children`: every group as `{'hosts': {name: ''}}`. */
  function ChildrenJson(groups: Dict<Dict<Json>>): (c: Dict<Json>)
    ensures Keys(c) == Keys(groups)
  {
    if groups == [] then []
    else [(groups[0].0, JObj([("hosts", JObj(groups[0].1))]))] + ChildrenJson(groups[1..])
  }

  /** `generate_inventory` over the given hosts: the inventory it builds and
      whether it writes the file, which it does exactly when a host was seen. */
  method GenerateInventory(entries: seq<Entry>) returns (r: Result<(Json, bool), PyError>)
    requires WellFormed(entries)
    ensures Inventory(entries).Err? ==> r == Err(Inventory(entries).error)
    ensures Inventory(entries).Ok? ==>
      r == Ok((InventoryJson(Inventory(entries).value), Inventory(entries).value.0 != []))
  {
    var hosts: Dict<Json> := [];
    var children: Dict<Dict<Json>> := [];
    var i := 0;
    while i < |entries|
      invariant 0 <= i <= |entries|
      invariant WellFormed(entries[..i])
      invariant Inventory(entries[..i]) == Ok((hosts, children))
    {
      var pre := entries[..i + 1];
      assert pre[..i] == entries[..i];
      assert WellFormed(pre);
      var step := AddHost(hosts, children, entries[i].0, entries[i].1);
      assert Inventory(pre) == step;
      if step.Err? {
        InventoryStops(entries, i + 1);
        return Err(step.error);
      }
      hosts, children := step.value.0, step.value.1;
      i := i + 1;
    }
    assert entries[..i] == entries;
    return Ok((InventoryJson((hosts, children)), hosts != []));
  }

  /** The body of the loop for one host. */
  method AddHost(hosts: Dict<Json>, children: Dict<Dict<Json>>, name: string, attributes: Dict<Json>)
    returns (r: Result<InvState, PyError>)
    requires !NonStringGroup(attributes)
    ensures r == Step((hosts, children), (name, attributes))
  {
    var tag := GetOr(attributes, "tag", JNull);
    var attrs := Remove(attributes, "tag");
    var tags := if Truthy(tag) then tag else JObj([]);
    var hosts' := Set(hosts, name, JObj(attrs));
    var has := HasGroupTag(tags);
    if has.Err? {
      return Err(has.error);
    }
    if !has.value {
      return Ok((hosts', children));
    }
    var grp := Index(tags, "group");
    if grp.Err? {
      return Err(grp.error);
    }
    if grp.value.JArr? {
      return Err(TypeError("unhashable type: 'list'"));
    } else if grp.value.JObj? {
      return Err(TypeError("unhashable type: 'dict'"));
    }
    var g := grp.value.s;
    var children' := children;
    if !HasKey(children', g) {
      children' := Set(children', g, []);
      SetTwice(children, g, [], Set([], name, JStr("")));
    }
    GetSet(children, g, [], g);
    children' := Set(children', g, Set(Get(children', g).value, name, JStr("")));
    return Ok((hosts', children'));
  }

  /** Once the loop raises, the remaining entries are never looked at. */
  lemma {:induction false} InventoryStops(entries: seq<Entry>, n: nat)
    requires WellFormed(entries) && n <= |entries|
    requires WellFormed(entries[..n]) && Inventory(entries[..n]).Err?
    ensures Inventory(entries) == Inventory(entries[..n])
    decreases |entries| - n
  {
    if n < |entries| {
      var pre := entries[..n + 1];
      assert pre[..n] == entries[..n];
      assert WellFormed(pre);
      assert Inventory(pre) == Inventory(entries[..n]);
      InventoryStops(entries, n + 1);
    } else {
      assert entries[..n] == entries;
    }
  }

  /** The host names, in the order the loop sees them. */
  function Names(entries: seq<Entry>): (ns: seq<string>)
    ensures |ns| == |entries| && forall i :: 0 <= i < |ns| ==> ns[i] == entries[i].0
  {
    seq(|entries|, i requires 0 <= i < |entries| => entries[i].0)
  }

  lemma NamesLast(entries: seq<Entry>, k: string)
    requires entries != []
    ensures k in Names(entries) <==> k in Names(entries[..|entries| - 1]) || k == entries[|entries| - 1].0
  {
    var pre := entries[..|entries| - 1];
    if k in Names(entries) {
      var i :| 0 <= i < |entries| && Names(entries)[i] == k;
      if i < |pre| { assert Names(pre)[i] == k; }
    }
    if k in Names(pre) {
      var i :| 0 <= i < |pre| && Names(pre)[i] == k;
      assert Names(entries)[i] == k;
    }
    assert Names(entries)[|entries| - 1] == entries[|entries| - 1].0;
  }

  /** A host whose group lookup raises. */
  predicate BadGroup(entry: Entry)
  {
    !NonStringGroup(entry.1) && GroupOf(entry.1).Err?
  }

  /** What a successful round does to the two dicts. */
  lemma StepOk(st: InvState, e: Entry)
    requires !NonStringGroup(e.1)
    ensures Step(st, e).Ok? <==> GroupOf(e.1).Ok?
    ensures Step(st, e).Ok? ==> Step(st, e).value.0 == Set(st.0, e.0, JObj(Remove(e.1, "tag")))
    ensures Step(st, e).Ok? && GroupOf(e.1).value.None? ==> Step(st, e).value.1 == st.1
    ensures Step(st, e).Ok? && GroupOf(e.1).value.Some? ==>
      var g := GroupOf(e.1).value.value;
      Step(st, e).value.1 == Set(st.1, g, Set(GetOr(st.1, g, []), e.0, JStr("")))
  {
  }

  /** The loop over a nonempty list is the loop over all but the last host,
      then one more round. */
  lemma InventoryLast(entries: seq<Entry>)
    requires WellFormed(entries) && entries != []
    ensures WellFormed(entries[..|entries| - 1])
    ensures Inventory(entries).Ok? ==>
      Inventory(entries[..|entries| - 1]).Ok?
      && Inventory(entries) == Step(Inventory(entries[..|entries| - 1]).value, entries[|entries| - 1])
  {
    var pre := entries[..|entries| - 1];
    assert forall i :: 0 <= i < |pre| ==> pre[i] == entries[i];
  }

  /** The loop raises exactly when some host's group lookup raises. */
  lemma {:induction false} InventoryFails(entries: seq<Entry>)
    requires WellFormed(entries)
    ensures Inventory(entries).Err? <==> exists i :: 0 <= i < |entries| && BadGroup(entries[i])
    decreases |entries|
  {
    if entries != [] {
      var n := |entries|;
      var pre := entries[..n - 1];
      InventoryLast(entries);
      InventoryFails(pre);
      assert forall i :: 0 <= i < n - 1 ==> pre[i] == entries[i];
      if Inventory(pre).Ok? {
        StepOk(Inventory(pre).value, entries[n - 1]);
      }
      if exists i :: 0 <= i < n && BadGroup(entries[i]) {
        var i :| 0 <= i < n && BadGroup(entries[i]);
        if i < n - 1 { assert BadGroup(pre[i]); }
      }
    }
  }

  /** `hosts` has a key for every host seen and no other, and is empty only
      when no host was seen (then no file is written). */
  lemma {:induction false} InventoryHosts(entries: seq<Entry>)
    requires WellFormed(entries)
    ensures Inventory(entries).Ok? ==>
      (forall k :: HasKey(Inventory(entries).value.0, k) <==> k in Names(entries))
      && (Inventory(entries).value.0 == [] <==> entries == [])
    decreases |entries|
  {
    if entries != [] && Inventory(entries).Ok? {
      var n := |entries|;
      var pre := entries[..n - 1];
      InventoryLast(entries);
      InventoryHosts(pre);
      var st := Inventory(pre).value;
      var e := entries[n - 1];
      StepOk(st, e);
      var h := Inventory(entries).value.0;
      forall k ensures HasKey(h, k) <==> k in Names(entries) {
        GetSet(st.0, e.0, JObj(Remove(e.1, "tag")), k);
        NamesLast(entries, k);
      }
    }
  }

  /** A host name listed more than once keeps the attributes of its last
      occurrence, less the popped tag. */
  lemma {:induction false} InventoryLastWins(entries: seq<Entry>, i: nat)
    requires WellFormed(entries) && i < |entries|
    requires forall j :: i < j < |entries| ==> entries[j].0 != entries[i].0
    ensures Inventory(entries).Ok? ==>
      Get(Inventory(entries).value.0, entries[i].0) == Some(JObj(Remove(entries[i].1, "tag")))
    decreases |entries|
  {
    if Inventory(entries).Ok? {
      var n := |entries|;
      var pre := entries[..n - 1];
      InventoryLast(entries);
      var st := Inventory(pre).value;
      var e := entries[n - 1];
      StepOk(st, e);
      GetSet(st.0, e.0, JObj(Remove(e.1, "tag")), entries[i].0);
      if i < n - 1 {
        assert pre[i] == entries[i];
        InventoryLastWins(pre, i);
      }
    }
  }

  /** Every stored host is a dict without a `tag` key. */
  lemma {:induction false} InventoryUntagged(entries: seq<Entry>, k: string)
    requires WellFormed(entries)
    ensures Inventory(entries).Ok? && HasKey(Inventory(entries).value.0, k) ==>
      Get(Inventory(entries).value.0, k).value.JObj?
      && !HasKey(Get(Inventory(entries).value.0, k).value.members, "tag")
    decreases |entries|
  {
    if entries != [] && Inventory(entries).Ok? {
      var n := |entries|;
      var pre := entries[..n - 1];
      InventoryLast(entries);
      InventoryUntagged(pre, k);
      var st := Inventory(pre).value;
      var e := entries[n - 1];
      StepOk(st, e);
      GetSet(st.0, e.0, JObj(Remove(e.1, "tag")), k);
      GetRemove(e.1, "tag", "tag");
    }
  }

  /** A group exists exactly when some host is tagged with it. */
  lemma {:induction false} InventoryGroups(entries: seq<Entry>, grp: string)
    requires WellFormed(entries)
    ensures Inventory(entries).Ok? ==>
      (HasKey(Inventory(entries).value.1, grp) <==>
        exists i :: 0 <= i < |entries| && InGroup(entries[i], grp))
    decreases |entries|
  {
    if entries != [] && Inventory(entries).Ok? {
      var pre := entries[..|entries| - 1];
      InventoryLast(entries);
      InventoryGroups(pre, grp);
      StepGroups(Inventory(pre).value, entries[|entries| - 1], grp);
      GroupSplit(entries, pre, grp);
    }
  }

  /** One round creates the host's own group, if it is new, and no other. */
  lemma StepGroups(st: InvState, e: Entry, grp: string)
    requires !NonStringGroup(e.1) && Step(st, e).Ok?
    ensures HasKey(Step(st, e).value.1, grp) <==> HasKey(st.1, grp) || InGroup(e, grp)
  {
    StepOk(st, e);
    var ge := GroupOf(e.1).value;
    if ge.Some? {
      GetSet(st.1, ge.value, Set(GetOr(st.1, ge.value, []), e.0, JStr("")), grp);
    }
  }

  /** A host tagged with a group is in the prefix or is the last one. */
  lemma GroupSplit(entries: seq<Entry>, pre: seq<Entry>, grp: string)
    requires entries != [] && pre == entries[..|entries| - 1]
    ensures (exists i :: 0 <= i < |entries| && InGroup(entries[i], grp))
            <==> (exists i :: 0 <= i < |pre| && InGroup(pre[i], grp)) || InGroup(entries[|entries| - 1], grp)
  {
    var n := |entries|;
    if exists i :: 0 <= i < n && InGroup(entries[i], grp) {
      var i :| 0 <= i < n && InGroup(entries[i], grp);
      if i < n - 1 { assert pre[i] == entries[i]; }
    }
    if exists i :: 0 <= i < n - 1 && InGroup(pre[i], grp) {
      var i :| 0 <= i < n - 1 && InGroup(pre[i], grp);
      assert entries[i] == pre[i];
    }
  }

  /** A group lists exactly the hosts tagged with it. */
  lemma {:induction false} InventoryGroupMembers(entries: seq<Entry>, grp: string, name: string)
    requires WellFormed(entries)
    ensures Inventory(entries).Ok? ==>
      (HasKey(GetOr(Inventory(entries).value.1, grp, []), name) <==>
        exists i :: 0 <= i < |entries| && entries[i].0 == name && InGroup(entries[i], grp))
    decreases |entries|
  {
    if entries != [] && Inventory(entries).Ok? {
      var pre := entries[..|entries| - 1];
      InventoryLast(entries);
      InventoryGroupMembers(pre, grp, name);
      StepMembers(Inventory(pre).value, entries[|entries| - 1], grp, name);
      TaggedSplit(entries, pre, grp, name);
    }
  }

  /** One round adds the host to its own group and changes no other
      membership. */
  lemma StepMembers(st: InvState, e: Entry, grp: string, name: string)
    requires !NonStringGroup(e.1) && Step(st, e).Ok?
    ensures HasKey(GetOr(Step(st, e).value.1, grp, []), name)
            <==> HasKey(GetOr(st.1, grp, []), name) || (e.0 == name && InGroup(e, grp))
  {
    StepOk(st, e);
    var ge := GroupOf(e.1).value;
    if ge.Some? {
      var g := ge.value;
      GetSet(st.1, g, Set(GetOr(st.1, g, []), e.0, JStr("")), grp);
      GetSet(GetOr(st.1, g, []), e.0, JStr(""), name);
    }
  }

  /** A host tagged with a group is in the prefix or is the last one. */
  lemma TaggedSplit(entries: seq<Entry>, pre: seq<Entry>, grp: string, name: string)
    requires entries != [] && pre == entries[..|entries| - 1]
    ensures (exists i :: 0 <= i < |entries| && entries[i].0 == name && InGroup(entries[i], grp))
            <==> (exists i :: 0 <= i < |pre| && pre[i].0 == name && InGroup(pre[i], grp))
                 || (entries[|entries| - 1].0 == name && InGroup(entries[|entries| - 1], grp))
  {
    var n := |entries|;
    if exists i :: 0 <= i < n && entries[i].0 == name && InGroup(entries[i], grp) {
      var i :| 0 <= i < n && entries[i].0 == name && InGroup(entries[i], grp);
      if i < n - 1 { assert pre[i] == entries[i]; }
    }
    if exists i :: 0 <= i < n - 1 && pre[i].0 == name && InGroup(pre[i], grp) {
      var i :| 0 <= i < n - 1 && pre[i].0 == name && InGroup(pre[i], grp);
      assert entries[i] == pre[i];
    }
  }
}
