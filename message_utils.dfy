/** The record helpers every Ansible message module shares: the argument
    specification with the socket option, `create_metric`, the compact
    serialization and the line framing of `push_metric`. */
module MessageUtils {
  import opened Basics
  import opened Dicts
  import opened Json
  import opened JsonEncode
  import opened JsonDecode
  import opened JsonRoundTrip
  import opened Utf8

  /** `message_full_argument_spec(**kwargs)`: a `socket` option whose
      default is the socket environment setting, then the caller's options
      assigned over it. */
  function FullArgumentSpec(kwargs: Dict<Json>, envSocket: string): (spec: Dict<Json>)
    ensures spec != [] && spec[0].0 == "socket"
  {
    UpdateKeepsFirstKey([("socket", SocketOption(envSocket))], kwargs);
    Update([("socket", SocketOption(envSocket))], kwargs)
  }

  /** `dict(default=...)`, the option entry for the socket. */
  function SocketOption(envSocket: string): Json
  {
    JObj([("default", JStr(envSocket))])
  }

  /** The spec always offers `socket`; every caller option appears with its
      value, a caller's `socket` overriding the default one; nothing else is
      added. */
  lemma FullArgumentSpecOptions(kwargs: Dict<Json>, envSocket: string, k: string)
    requires Distinct(kwargs)
    ensures HasKey(FullArgumentSpec(kwargs, envSocket), "socket")
    ensures Get(FullArgumentSpec(kwargs, envSocket), k)
            == if HasKey(kwargs, k) then Get(kwargs, k)
               else if k == "socket" then Some(SocketOption(envSocket))
               else None
  {
    GetUpdate([("socket", SocketOption(envSocket))], kwargs, k);
    GetUpdate([("socket", SocketOption(envSocket))], kwargs, "socket");
  }

  /** The spec is a dict: its keys are distinct. */
  lemma FullArgumentSpecShape(kwargs: Dict<Json>, envSocket: string)
    ensures Distinct(FullArgumentSpec(kwargs, envSocket))
  {
    UpdateKeepsDistinct([("socket", SocketOption(envSocket))], kwargs);
  }

  lemma {:induction false} UpdateKeepsFirstKey(d: Dict<Json>, kw: Dict<Json>)
    requires d != []
    ensures Update(d, kw) != [] && Update(d, kw)[0].0 == d[0].0
    decreases |kw|
  {
    if kw != [] {
      var d' := Set(d, kw[0].0, kw[0].1);
      assert d' != [] && d'[0].0 == d[0].0;
      UpdateKeepsFirstKey(d', kw[1..]);
    }
  }

  /** `serialize(msg)`: `json.dumps(msg, separators=(',', ':'))`. */
  function Serialize(msg: Json): (s: string)
    ensures s != [] && Printable(s)
  {
    DumpsPrintable(msg);
    Dumps(msg)
  }

  /** The text a serialized record reads back as that record. */
  lemma SerializeRoundTrip(msg: Json)
    requires Canonical(msg)
    ensures Loads(Serialize(msg)) == Some(msg)
  {
    LoadsDumps(msg);
  }

  /** The eight keys of a metric record, in the order `create_metric` writes them. */
  const MetricKeys: seq<string> :=
    ["name", "value", "environment", "zone", "metric_type", "az", "timestamp", "__type"]

  /** `create_metric(name, value, environment, zone, **kwargs)` with the clock
      reading `now`; an omitted environment or zone is `None`. */
  function CreateMetric(name: Json, value: Json, environment: Option<Json>, zone: Option<Json>,
                        kwargs: Dict<Json>, now: string): (m: Dict<Json>)
    ensures |m| == |MetricKeys| && forall i :: 0 <= i < |m| ==> m[i].0 == MetricKeys[i]
    ensures m[0].1 == name && m[1].1 == value
  {
    [("name", name),
     ("value", value),
     ("environment", OrNull(environment)),
     ("zone", OrNull(zone)),
     ("metric_type", GetOr(kwargs, "metric_type", JStr("ms"))),
     ("az", GetOr(kwargs, "az", JStr("default"))),
     ("timestamp", GetOr(kwargs, "timestamp", JStr(now))),
     ("__type", GetOr(kwargs, "__type", JStr("metric")))]
  }

  /** Python's `None` for an argument left out. */
  function OrNull(v: Option<Json>): Json
  {
    if v.Some? then v.value else JNull
  }

  /** A created metric: exactly the eight keys, in order and distinct; name
      and value unchanged; environment and zone null unless given; metric
      type `ms`, az `default`, the clock reading and type `metric` unless
      the keyword arguments supply them; every other keyword argument
      dropped. */
  lemma CreateMetricFields(name: Json, value: Json, environment: Option<Json>, zone: Option<Json>,
                           kwargs: Dict<Json>, now: string)
    ensures var m := CreateMetric(name, value, environment, zone, kwargs, now);
      Keys(m) == MetricKeys && Distinct(m) && forall k :: k !in MetricKeys ==> Get(m, k) == None
    ensures var m := CreateMetric(name, value, environment, zone, kwargs, now);
      Get(m, "name") == Some(name) && Get(m, "value") == Some(value)
    ensures var m := CreateMetric(name, value, environment, zone, kwargs, now);
      && Get(m, "environment") == (if environment.Some? then environment else Some(JNull))
      && Get(m, "zone") == (if zone.Some? then zone else Some(JNull))
    ensures var m := CreateMetric(name, value, environment, zone, kwargs, now);
      && Get(m, "metric_type") == (if HasKey(kwargs, "metric_type") then Get(kwargs, "metric_type") else Some(JStr("ms")))
      && Get(m, "az") == (if HasKey(kwargs, "az") then Get(kwargs, "az") else Some(JStr("default")))
      && Get(m, "timestamp") == (if HasKey(kwargs, "timestamp") then Get(kwargs, "timestamp") else Some(JStr(now)))
      && Get(m, "__type") == (if HasKey(kwargs, "__type") then Get(kwargs, "__type") else Some(JStr("metric")))
  {
    var m := CreateMetric(name, value, environment, zone, kwargs, now);
    MetricKeysDistinct();
    LiteralDict(m, MetricKeys);
    assert Get(m, MetricKeys[0]) == Some(m[0].1);
    assert Get(m, MetricKeys[1]) == Some(m[1].1);
    assert Get(m, MetricKeys[2]) == Some(m[2].1);
    assert Get(m, MetricKeys[3]) == Some(m[3].1);
    assert Get(m, MetricKeys[4]) == Some(m[4].1);
    assert Get(m, MetricKeys[5]) == Some(m[5].1);
    assert Get(m, MetricKeys[6]) == Some(m[6].1);
    assert Get(m, MetricKeys[7]) == Some(m[7].1);
  }

  lemma MetricKeysDistinct()
    ensures forall i, j :: 0 <= i < j < |MetricKeys| ==> MetricKeys[i] != MetricKeys[j]
  {
    var initials := "nvezmat_";
    assert forall i :: 0 <= i < |MetricKeys| ==> MetricKeys[i] != [] && MetricKeys[i][0] == initials[i];
    DistinctInitials(MetricKeys);
  }

  /** A created metric is canonical when its values are. */
  lemma CreateMetricCanonical(name: Json, value: Json, environment: Option<Json>, zone: Option<Json>,
                              kwargs: Dict<Json>, now: string)
    requires Canonical(name) && Canonical(value)
    requires environment.Some? ==> Canonical(environment.value)
    requires zone.Some? ==> Canonical(zone.value)
    requires MembersCanonical(kwargs)
    ensures CanonicalDict(CreateMetric(name, value, environment, zone, kwargs, now))
  {
    var m := CreateMetric(name, value, environment, zone, kwargs, now);
    MetricKeysDistinct();
    LiteralDict(m, MetricKeys);
    CreateMetricValues(name, value, environment, zone, kwargs, now);
    CanonicalDictByIndex(m);
  }

  /** Every value of a created metric is canonical when its arguments are. */
  lemma CreateMetricValues(name: Json, value: Json, environment: Option<Json>, zone: Option<Json>,
                           kwargs: Dict<Json>, now: string)
    requires Canonical(name) && Canonical(value)
    requires environment.Some? ==> Canonical(environment.value)
    requires zone.Some? ==> Canonical(zone.value)
    requires MembersCanonical(kwargs)
    ensures var m := CreateMetric(name, value, environment, zone, kwargs, now);
      forall i :: 0 <= i < |m| ==> Canonical(m[i].1)
  {
    GetOrCanonical(kwargs, "metric_type", JStr("ms"));
    GetOrCanonical(kwargs, "az", JStr("default"));
    GetOrCanonical(kwargs, "timestamp", JStr(now));
    GetOrCanonical(kwargs, "__type", JStr("metric"));
  }

  lemma GetOrCanonical(d: Dict<Json>, k: string, default: Json)
    requires MembersCanonical(d) && Canonical(default)
    ensures Canonical(GetOr(d, k, default))
  {
    if HasKey(d, k) {
      GetCanonical(d, k);
    }
  }

  /** `push_metric`'s message: `'%s\n' % serialize(data)`, UTF-8 encoded. */
  function PushFrame(data: Json): (bs: seq<byte>)
    ensures bs != [] && bs[|bs| - 1] == 0x0A
    ensures forall i :: 0 <= i < |bs| - 1 ==> bs[i] != 0x0A
    ensures IsAscii(Serialize(data), bs[..|bs| - 1])
  {
    FrameOfDumps(data);
    Frame(Serialize(data))
  }

  /** What a receiver reading one line of the socket stream gets back is the
      metric itself. */
  lemma PushFrameDecodes(data: Json)
    requires Canonical(data)
    ensures var bs := PushFrame(data);
            bs != [] && bs[|bs| - 1] == 0x0A
            && (forall i :: 0 <= i < |bs| - 1 ==> bs[i] != 0x0A)
            && IsAscii(Serialize(data), bs[..|bs| - 1])
            && Loads(Serialize(data)) == Some(data)
  {
    LoadsDumps(data);
  }
}
