/** The `lb_load_monitoring` Ansible module: it probes a load balancer
    `request_count` times, turns every probe into a metric and, when a
    message socket is configured, pushes the metrics to it in order. HTTP
    outcomes and the clock are inputs; the socket writes are the frames
    returned. */
module LbLoadMonitoring {
  import opened Basics
  import opened Dicts
  import opened Json
  import opened JsonDecode
  import opened Utf8
  import opened MessageUtils

  const LbTiming: string := "csm_lb_timings"
  const LbTimeout: string := "csm_lb_timeout"

  /** The availability zone of each monitoring backend, by its `Server` header. */
  const InstancesAz: Dict<string> := [
    ("lb-monitoring-instance0-prod", "eu-de-01"),
    ("lb-monitoring-instance1-prod", "eu-de-02"),
    ("lb-monitoring-instance2-prod", "eu-de-03")
  ]

  /** The module's options. */
  datatype Params = Params(targetAddress: string, timeout: int, protocol: string, requestCount: int)

  /** What one `requests.get` call did: it timed out; it answered after
      `elapsed` microseconds with this `Server` header, if any; or it raised
      another exception with this message. */
  datatype Probe =
    | TimedOut
    | Responded(elapsed: nat, server: Option<string>)
    | Raised(message: string)

  /** One GET the module issues: the URL and the timeout in seconds. */
  datatype Request = Request(url: string, timeout: int)

  /** How the module ends: `exit_json(changed=True, pushed_metrics=...)` or
      `fail_json(msg=...)`. */
  datatype Exit = ExitJson(changed: bool, pushedMetrics: seq<Dict<Json>>) | FailJson(msg: string)

  /** The URL every probe requests. */
  function Address(p: Params): (url: string)
    ensures |url| == |p.protocol| + 3 + |p.targetAddress|
    ensures url[..|p.protocol|] == p.protocol
    ensures url[|p.protocol|..|p.protocol| + 3] == "://"
    ensures url[|p.protocol| + 3..] == p.targetAddress
  {
    p.protocol + "://" + p.targetAddress
  }

  /** The number of iterations of `range(request_count)`. */
  function RequestCount(p: Params): nat
  {
    if p.requestCount < 0 then 0 else p.requestCount
  }

  /** `INSTANCES_AZ.get(server)`: the zone of a known backend, else `None`. */
  function AzOf(server: string): (az: Json)
    ensures HasKey(InstancesAz, server) ==> az == JStr(Get(InstancesAz, server).value)
    ensures !HasKey(InstancesAz, server) ==> az == JNull
  {
    match Get(InstancesAz, server)
    case Some(zone) => JStr(zone)
    case None => JNull
  }

  /** `int(res.elapsed.microseconds / 1000)`: the whole milliseconds of the
      sub-second part of the elapsed time; whole seconds do not count. */
  function TimingValue(elapsed: nat): (ms: int)
    ensures 0 <= ms <= 999
    ensures ms * 1000 <= elapsed % 1000000 < ms * 1000 + 1000
  {
    (elapsed % 1000000) / 1000
  }

  /** The metric for one probe (the clock reading `now`), or the message of
      the exception that ends the module: a response without a `Server`
      header raises `KeyError('server')`. A probe raises exactly when it
      neither timed out nor answered with a `Server` header. */
  function ProbeMetric(timeout: int, probe: Probe, now: string): (r: Result<Dict<Json>, string>)
    ensures r.Err? <==> probe.Raised? || (probe.Responded? && probe.server.None?)
    ensures probe.Raised? ==> r == Err(probe.message)
  {
    match probe
    case TimedOut =>
      Ok(CreateMetric(JStr(LbTimeout), JInt(timeout * 1000), None, None,
                      ProbeKwargs(JStr("default")), now))
    case Responded(elapsed, server) =>
      if server.None? then Err("'server'")
      else Ok(CreateMetric(JStr(LbTiming), JInt(TimingValue(elapsed)), None, None,
                           ProbeKwargs(AzOf(server.value)), now))
    case Raised(message) => Err(message)
  }

  /** The metric list built by the probe loop, each probe paired with the
      clock reading at its metric; the first exception ends the loop. */
  function Metrics(timeout: int, probes: seq<(Probe, string)>): (r: Result<seq<Dict<Json>>, string>)
    ensures r.Ok? ==> |r.value| == |probes|
    decreases |probes|
  {
    if probes == [] then Ok([])
    else
      var ms :- Metrics(timeout, probes[..|probes| - 1]);
      var m :- ProbeMetric(timeout, probes[|probes| - 1].0, probes[|probes| - 1].1);
      Ok(ms + [m])
  }

  /** The frames `push_metric` writes for the metrics, in list order. */
  function Frames(ms: seq<Dict<Json>>): (fs: seq<seq<byte>>)
    ensures |fs| == |ms| && forall i :: 0 <= i < |ms| ==> fs[i] == PushFrame(JObj(ms[i]))
  {
    seq(|ms|, i requires 0 <= i < |ms| => PushFrame(JObj(ms[i])))
  }

  /** `LbLoadMonitoring.run`, with one outcome per request: the requests it
      issues, the frames it writes to the socket `socket` and how it exits. */
  method Run(p: Params, probes: seq<(Probe, string)>, socket: string)
    returns (requests: seq<Request>, pushed: seq<seq<byte>>, exit: Exit)
    requires |probes| == RequestCount(p)
    ensures |requests| <= |probes|
    ensures forall i :: 0 <= i < |requests| ==> requests[i] == Request(Address(p), p.timeout)
    ensures Metrics(p.timeout, probes).Err? ==>
      pushed == [] && exit == FailJson(Metrics(p.timeout, probes).error)
    ensures Metrics(p.timeout, probes).Err? ==>
      0 < |requests| <= |probes| && Metrics(p.timeout, probes[..|requests| - 1]).Ok?
      && ProbeMetric(p.timeout, probes[|requests| - 1].0, probes[|requests| - 1].1).Err?
    ensures Metrics(p.timeout, probes).Ok? ==> |requests| == |probes|
    ensures Metrics(p.timeout, probes).Ok? && socket != "" ==>
      pushed == Frames(Metrics(p.timeout, probes).value)
      && exit == ExitJson(true, Metrics(p.timeout, probes).value)
    ensures Metrics(p.timeout, probes).Ok? && socket == "" ==>
      pushed == [] && exit == FailJson("socket must be set")
  {
    var timeout := p.timeout;
    var address := Address(p);
    var metrics: seq<Dict<Json>> := [];
    requests, pushed := [], [];
    var i := 0;
    while i < RequestCount(p)
      invariant 0 <= i <= |probes|
      invariant |requests| == i
      invariant forall j :: 0 <= j < i ==> requests[j] == Request(address, timeout)
      invariant Metrics(timeout, probes[..i]) == Ok(metrics)
    {
      requests := requests + [Request(address, timeout)];
      var (probe, now) := probes[i];
      var m := ProbeMetric(timeout, probe, now);
      assert probes[..i + 1][..i] == probes[..i];
      if m.Err? {
        MetricsStops(timeout, probes, i + 1);
        assert |requests| - 1 == i && probes[i] == (probe, now);
        return requests, [], FailJson(m.error);
      }
      metrics := metrics + [m.value];
      i := i + 1;
    }
    assert probes[..i] == probes;
    if socket != "" {
      pushed := PushMetrics(metrics);
      return requests, pushed, ExitJson(true, metrics);
    }
    return requests, [], FailJson("socket must be set");
  }

  /** `for metric in metrics: self.push_metric(metric, SOCKET)`: the frames
      written, one per metric, in list order. */
  method PushMetrics(metrics: seq<Dict<Json>>) returns (pushed: seq<seq<byte>>)
    ensures pushed == Frames(metrics)
  {
    pushed := [];
    var j := 0;
    while j < |metrics|
      invariant 0 <= j <= |metrics|
      invariant pushed == Frames(metrics[..j])
    {
      pushed := pushed + [PushFrame(JObj(metrics[j]))];
      j := j + 1;
    }
    assert metrics[..j] == metrics;
  }

  /** Once a probe raises, the later probes change nothing. */
  lemma {:induction false} MetricsStops(timeout: int, probes: seq<(Probe, string)>, n: nat)
    requires n <= |probes| && Metrics(timeout, probes[..n]).Err?
    ensures Metrics(timeout, probes) == Metrics(timeout, probes[..n])
    decreases |probes| - n
  {
    if n < |probes| {
      assert probes[..n + 1][..n] == probes[..n];
      MetricsStops(timeout, probes, n + 1);
    } else {
      assert probes[..n] == probes;
    }
  }

  /** One metric per probe, in probe order; the loop raises exactly when
      some probe does. */
  lemma {:induction false} MetricsShape(timeout: int, probes: seq<(Probe, string)>)
    ensures Metrics(timeout, probes).Ok? ==>
      |Metrics(timeout, probes).value| == |probes|
      && forall i :: 0 <= i < |probes| ==>
        ProbeMetric(timeout, probes[i].0, probes[i].1) == Ok(Metrics(timeout, probes).value[i])
    ensures Metrics(timeout, probes).Err? <==>
      exists i :: 0 <= i < |probes| && ProbeMetric(timeout, probes[i].0, probes[i].1).Err?
    decreases |probes|
  {
    if probes != [] {
      var n := |probes|;
      var pre := probes[..n - 1];
      MetricsShape(timeout, pre);
      assert forall i :: 0 <= i < n - 1 ==> pre[i] == probes[i];
      if exists i :: 0 <= i < n && ProbeMetric(timeout, probes[i].0, probes[i].1).Err? {
        var i :| 0 <= i < n && ProbeMetric(timeout, probes[i].0, probes[i].1).Err?;
        if i < n - 1 { assert ProbeMetric(timeout, pre[i].0, pre[i].1).Err?; }
      }
    }
  }

  /** The keyword arguments both `create_metric` calls pass. */
  function ProbeKwargs(az: Json): Dict<Json>
  {
    [("metric_type", JStr("ms")), ("az", az)]
  }

  lemma ProbeKwargsFields(az: Json)
    ensures Get(ProbeKwargs(az), "metric_type") == Some(JStr("ms"))
    ensures Get(ProbeKwargs(az), "az") == Some(az)
    ensures !HasKey(ProbeKwargs(az), "timestamp") && !HasKey(ProbeKwargs(az), "__type")
    ensures Canonical(az) ==> MembersCanonical(ProbeKwargs(az))
  {
    var kw := ProbeKwargs(az);
    assert "metric_type"[0] != "timestamp"[0] && "az"[0] != "timestamp"[0];
    assert "metric_type"[0] != "__type"[0] && "az"[0] != "__type"[0];
    GetMissing(kw, "timestamp");
    GetMissing(kw, "__type");
    if Canonical(az) {
      MembersCanonicalByIndex(kw);
    }
  }

  /** A timeout gives `csm_lb_timeout` with the timeout in milliseconds and
      az `default`, type `ms`, kind `metric`, the clock reading and no
      environment or zone. */
  lemma TimeoutMetric(timeout: int, now: string)
    ensures ProbeMetric(timeout, TimedOut, now).Ok?
    ensures var m := ProbeMetric(timeout, TimedOut, now).value;
      Keys(m) == MetricKeys
      && Get(m, "name") == Some(JStr(LbTimeout)) && Get(m, "value") == Some(JInt(timeout * 1000))
      && Get(m, "metric_type") == Some(JStr("ms")) && Get(m, "az") == Some(JStr("default"))
      && Get(m, "__type") == Some(JStr("metric")) && Get(m, "timestamp") == Some(JStr(now))
      && Get(m, "environment") == Some(JNull) && Get(m, "zone") == Some(JNull)
  {
    ProbeKwargsFields(JStr("default"));
    CreateMetricFields(JStr(LbTimeout), JInt(timeout * 1000), None, None, ProbeKwargs(JStr("default")), now);
  }

  /** An answer gives `csm_lb_timings` with the milliseconds of the
      sub-second elapsed time (0 to 999) and the zone of the answering
      backend, type `ms`, kind `metric`, the clock reading and no
      environment or zone. */
  lemma TimingMetric(timeout: int, elapsed: nat, server: string, now: string)
    ensures ProbeMetric(timeout, Responded(elapsed, Some(server)), now).Ok?
    ensures var m := ProbeMetric(timeout, Responded(elapsed, Some(server)), now).value;
      Keys(m) == MetricKeys
      && Get(m, "name") == Some(JStr(LbTiming))
      && Get(m, "value") == Some(JInt((elapsed % 1000000) / 1000))
      && 0 <= (elapsed % 1000000) / 1000 <= 999
      && Get(m, "metric_type") == Some(JStr("ms")) && Get(m, "az") == Some(AzOf(server))
      && Get(m, "__type") == Some(JStr("metric")) && Get(m, "timestamp") == Some(JStr(now))
      && Get(m, "environment") == Some(JNull) && Get(m, "zone") == Some(JNull)
  {
    ProbeKwargsFields(AzOf(server));
    CreateMetricFields(JStr(LbTiming), JInt(TimingValue(elapsed)), None, None, ProbeKwargs(AzOf(server)), now);
  }

  /** The three monitoring backends map to the three zones of eu-de; any
      other server has no zone. */
  lemma InstancesAzZones()
    ensures AzOf("lb-monitoring-instance0-prod") == JStr("eu-de-01")
    ensures AzOf("lb-monitoring-instance1-prod") == JStr("eu-de-02")
    ensures AzOf("lb-monitoring-instance2-prod") == JStr("eu-de-03")
    ensures forall s :: AzOf(s) != JNull ==>
      s == "lb-monitoring-instance0-prod" || s == "lb-monitoring-instance1-prod"
      || s == "lb-monitoring-instance2-prod"
  {
    forall s | AzOf(s) != JNull
      ensures s == "lb-monitoring-instance0-prod" || s == "lb-monitoring-instance1-prod"
              || s == "lb-monitoring-instance2-prod"
    {
      if s != InstancesAz[0].0 && s != InstancesAz[1].0 && s != InstancesAz[2].0 {
        GetMissing(InstancesAz, s);
      }
    }
  }

  /** Every frame pushed decodes, line by line, to its metric. */
  lemma PushedFramesDecode(timeout: int, probes: seq<(Probe, string)>, i: nat)
    requires Metrics(timeout, probes).Ok? && i < |probes|
    ensures var m := Metrics(timeout, probes).value;
      |m| == |probes| && Loads(Serialize(JObj(m[i]))) == Some(JObj(m[i]))
  {
    MetricsShape(timeout, probes);
    var m := Metrics(timeout, probes).value;
    var (probe, now) := probes[i];
    if probe.TimedOut? {
      ProbeKwargsFields(JStr("default"));
      CreateMetricCanonical(JStr(LbTimeout), JInt(timeout * 1000), None, None, ProbeKwargs(JStr("default")), now);
    } else {
      ProbeKwargsFields(AzOf(probe.server.value));
      CreateMetricCanonical(JStr(LbTiming), JInt(TimingValue(probe.elapsed)), None, None,
                            ProbeKwargs(AzOf(probe.server.value)), now);
    }
    SerializeRoundTrip(JObj(m[i]));
  }
}
