/** The `peering_ping.py` probe script: the same probe as `ping.py` across
    a VPC peering, with its own command line and metric name and a ping of
    the default packet size. */
module PeeringPing {
  import opened Basics
  import opened Dicts
  import opened Json
  import opened Ping
  import opened MessageUtils
  import opened JsonDecode

  const Prefix: string := "csm_peering_ping."

  /** The argument errors: too few arguments, or a fourth one that is not an
      integer (with four, `argv[4]` is missing anyway). */
  function ArgvError(argv: seq<string>): (e: Option<PyError>)
    ensures e.None? <==> |argv| >= 6
    ensures |argv| == 4 && PyInt(argv[3]).None? ==> e.value.ValueError?
    ensures |argv| < 6 && !(|argv| == 4 && PyInt(argv[3]).None?) ==> e.value.IndexError?
  {
    if |argv| < 3 then Some(IndexError("list index out of range"))
    else if |argv| == 4 && PyInt(argv[3]).None? then Some(ValueError("invalid literal for int() with base 10"))
    else if |argv| < 6 then Some(IndexError("list index out of range"))
    else None
  }

  /** The command line run: one echo request to `argv[1]`. */
  function PingCommand(argv: seq<string>): seq<string>
    requires |argv| >= 6
  {
    ["ping", "-c", "1", argv[1]]
  }

  /** `main()` as written: as in `ping.py`, a non-zero exit status of `ping`
      raises out of `check_output` uncaught, so a ping without an answer
      crashes the script and no metric is emitted at all. */
  function Main(argv: seq<string>, ping: seq<string> -> PingResult): (o: Outcome)
    ensures |argv| < 6 ==> o == Crashed(ArgvError(argv).value)
    ensures |argv| >= 6 && ping(PingCommand(argv)).returnCode != 0 ==>
              o == Crashed(CalledProcessError(ping(PingCommand(argv)).returnCode))
    ensures o.Emitted? ==> |argv| >= 6 && ping(PingCommand(argv)).returnCode == 0 && PyInt(argv[5]).Some?
  {
    if ArgvError(argv).Some? then Crashed(ArgvError(argv).value)
    else
      var name := Prefix + argv[2];
      var r := ping(PingCommand(argv));
      if r.returnCode != 0 then Crashed(CalledProcessError(r.returnCode))
      else
        var (metric, rc) := PingMetric(name, r.output);
        Emit(argv[4], argv[5], metric, rc)
  }

  /** `main()` as evidently intended: a ping that gets no answer is reported
      as a failed probe. */
  function MainIntended(argv: seq<string>, ping: seq<string> -> PingResult): (o: Outcome)
    ensures o.Crashed? <==> |argv| < 6 || PyInt(argv[5]).None?
  {
    if ArgvError(argv).Some? then Crashed(ArgvError(argv).value)
    else
      var name := Prefix + argv[2];
      var r := ping(PingCommand(argv));
      var (metric, rc) := if r.returnCode != 0 then (FailedMetric(name), 3) else PingMetric(name, r.output);
      Emit(argv[4], argv[5], metric, rc)
  }

  /** With at least six arguments and an integer port, an answered ping of
      `argv[1]` emits one metric named after `csm_peering_ping.argv[2]`,
      sent to `argv[4]:argv[5]`; shorter argument lists end before anything
      is pinged or sent. */
  lemma MainEmits(argv: seq<string>, ping: seq<string> -> PingResult)
    ensures |argv| < 6 ==> Main(argv, ping).Crashed?
    ensures |argv| >= 6 && PyInt(argv[5]).Some? && ping(["ping", "-c", "1", argv[1]]).returnCode == 0 ==>
      var o := Main(argv, ping);
      var output := ping(["ping", "-c", "1", argv[1]]).output;
      o.Emitted? && o.host == argv[4] && o.port == PyInt(argv[5]).value
      && o.frame == PushFrame(JObj(o.metric)) && Loads(Serialize(JObj(o.metric))) == Some(JObj(o.metric))
      && Get(o.metric, "__type") == Some(JStr("metric"))
      && (o.exitCode == 0 <==> SearchTime(output).Some?)
      && (SearchTime(output).Some? ==>
            Get(o.metric, "name") == Some(JStr("csm_peering_ping." + argv[2] + ".success"))
            && Get(o.metric, "value") == Some(JStr(SearchTime(output).value))
            && Get(o.metric, "metric_type") == Some(JStr("ms")))
      && (SearchTime(output).None? ==>
            o.exitCode == 3
            && Get(o.metric, "name") == Some(JStr("csm_peering_ping." + argv[2] + ".failed"))
            && !HasKey(o.metric, "value") && Get(o.metric, "metric_type") == Some(JStr("c")))
  {
    if |argv| >= 6 {
      PingMetricFields(Prefix + argv[2], ping(["ping", "-c", "1", argv[1]]).output);
      PingMetricDecodes(Prefix + argv[2], ping(["ping", "-c", "1", argv[1]]).output);
    }
  }

  /** A concrete case: an unreachable peer (`ping` exits with status 1). */
  lemma UnreachablePeerCrashes()
    ensures var argv := ["peering_ping.py", "192.0.2.1", "vpc-a_vpc-b", "5", "graphite", "2003"];
      Main(argv, (_: seq<string>) => PingResult(1, "1 packets transmitted, 0 received")).Crashed?
  {
  }

  /** As intended, every run with a usable command line emits exactly one
      metric, `.failed` with status 3 for a ping that got no answer. */
  lemma MainIntendedEmits(argv: seq<string>, ping: seq<string> -> PingResult)
    requires |argv| >= 6 && PyInt(argv[5]).Some?
    ensures var o := MainIntended(argv, ping);
      o.Emitted? && o.host == argv[4] && o.port == PyInt(argv[5]).value
      && o.frame == PushFrame(JObj(o.metric)) && Loads(Serialize(JObj(o.metric))) == Some(JObj(o.metric))
      && Get(o.metric, "__type") == Some(JStr("metric"))
      && (o.exitCode == 0 <==>
            ping(PingCommand(argv)).returnCode == 0 && SearchTime(ping(PingCommand(argv)).output).Some?)
      && (o.exitCode == 0 ==> Get(o.metric, "name") == Some(JStr(Prefix + argv[2] + ".success")))
      && (o.exitCode != 0 ==> o.exitCode == 3 && o.metric == FailedMetric(Prefix + argv[2]))
  {
    var r := ping(PingCommand(argv));
    PingMetricFields(Prefix + argv[2], r.output);
    PingMetricFields(Prefix + argv[2], "");
    PingMetricDecodes(Prefix + argv[2], r.output);
    PingMetricDecodes(Prefix + argv[2], "");
  }
}
