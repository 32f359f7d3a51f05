/** The `ping.py` probe script: it pings a host once, reads the round-trip
    time out of the output and emits one metric to a Graphite-style line
    receiver, then exits with a status of its own. The `ping` child process
    is a function parameter from the command line to its exit status and
    output; the socket write is the outcome returned. */
module Ping {
  import opened Basics
  import opened Dicts
  import opened Json
  import opened Numerals
  import opened MessageUtils
  import opened JsonDecode
  import opened Utf8

  /** What `subprocess.check_output` sees of one `ping` run. */
  datatype PingResult = PingResult(returnCode: int, output: string)

  /** How a run ends: the metric is emitted to `host:port` as the bytes
      `frame` and the script exits with `exitCode`, or an uncaught exception
      ends it first. */
  datatype Outcome =
    | Emitted(host: string, port: int, metric: Dict<Json>, frame: seq<byte>, exitCode: int)
    | Crashed(error: PyError)

  // ---------------------------------------------------------------------
  // int() on a command-line argument

  /** `int(s)` on an argument: an optional sign and decimal digits. */
  function PyInt(s: string): (r: Option<int>)
    ensures s != [] && AllDigits(s) ==> r == Some(DecimalValue(s))
    ensures r.Some? ==> s != [] && (s[0] == '-' || s[0] == '+' || IsDigit(s[0]))
    ensures r.Some? ==> AllDigits(s) || (|s| >= 2 && (s[0] == '-' || s[0] == '+') && AllDigits(s[1..]))
    ensures r.Some? && s[0] == '-' ==> r.value == -(DecimalValue(s[1..]) as int)
    ensures r.Some? && s[0] == '+' ==> r.value == DecimalValue(s[1..])
  {
    if s != [] && (s[0] == '-' || s[0] == '+') && |s| > 1 && AllDigits(s[1..]) then
      var magnitude: int := DecimalValue(s[1..]);
      Some(if s[0] == '-' then -magnitude else magnitude)
    else if s != [] && AllDigits(s) then Some(DecimalValue(s))
    else None
  }

  /** `int(str(i)) == i` */
  lemma PyIntOfDecimal(i: int)
    ensures PyInt(IntToDecimal(i)) == Some(i)
  {
    var s := IntToDecimal(i);
    if i < 0 {
      var ds := NatToDecimal(-i);
      DecimalRoundTrip(-i);
      assert s == "-" + ds;
      assert s[0] == '-' && s[1..] == ds;
    } else {
      DecimalRoundTrip(i);
      assert s == NatToDecimal(i) && IsDigit(s[0]);
    }
  }

  // ---------------------------------------------------------------------
  // re.search(r'time=(\d+)', rsp).group(1)

  /** A match of `time=(\d+)` starts at `i`. */
  predicate MatchAt(s: string, i: int)
  {
    0 <= i && i + 6 <= |s| && s[i..i + 5] == "time=" && IsDigit(s[i + 5])
  }

  /** The group of a match at `i`: every digit after `time=` (`\d+` is greedy). */
  function GroupAt(s: string, i: int): (g: string)
    requires MatchAt(s, i)
    ensures g != [] && AllDigits(g) && i + 5 + |g| <= |s|
    ensures g == s[i + 5..i + 5 + |g|]
    ensures i + 5 + |g| < |s| ==> !IsDigit(s[i + 5 + |g|])
  {
    var n := DigitSpan(s[i + 5..]);
    assert s[i + 5..][0] == s[i + 5];
    s[i + 5..][..n]
  }

  /** The group of the leftmost match, or `None` when the search finds none
      (then `.group` raises `AttributeError`). */
  function SearchTime(s: string): (r: Option<string>)
    ensures r.Some? ==> r.value != [] && AllDigits(r.value) && |r.value| + 5 <= |s|
    decreases |s|
  {
    if |s| < 6 then None
    else if s[..5] == "time=" && IsDigit(s[5]) then
      assert s[5..][0] == s[5];
      Some(s[5..][..DigitSpan(s[5..])])
    else SearchTime(s[1..])
  }

  /** The search reports the leftmost match and its whole run of digits, and
      reports none exactly when there is none. */
  lemma {:induction false} SearchTimeSpec(s: string)
    ensures SearchTime(s).None? <==> forall i :: 0 <= i < |s| ==> !MatchAt(s, i)
    ensures SearchTime(s).Some? ==>
      exists i :: MatchAt(s, i) && (forall j :: 0 <= j < i ==> !MatchAt(s, j))
        && SearchTime(s).value == GroupAt(s, i)
    decreases |s|
  {
    if |s| < 6 {
      forall i | 0 <= i < |s| ensures !MatchAt(s, i) { }
    } else if s[..5] == "time=" && IsDigit(s[5]) {
      assert MatchAt(s, 0);
    } else {
      assert !MatchAt(s, 0);
      SearchTimeSpec(s[1..]);
      if SearchTime(s[1..]).Some? {
        var i :| MatchAt(s[1..], i) && (forall j :: 0 <= j < i ==> !MatchAt(s[1..], j))
                 && SearchTime(s[1..]).value == GroupAt(s[1..], i);
        FirstMatchShift(s, i);
      } else {
        NoMatchShift(s);
      }
    }
  }

  lemma FirstMatchShift(s: string, i: nat)
    requires s != [] && !MatchAt(s, 0)
    requires MatchAt(s[1..], i) && forall j :: 0 <= j < i ==> !MatchAt(s[1..], j)
    ensures MatchAt(s, i + 1) && (forall j :: 0 <= j < i + 1 ==> !MatchAt(s, j))
    ensures GroupAt(s, i + 1) == GroupAt(s[1..], i)
  {
    MatchShift(s, i);
    forall j | 0 <= j < i + 1 ensures !MatchAt(s, j) {
      if j > 0 { MatchShift(s, j - 1); }
    }
  }

  lemma NoMatchShift(s: string)
    requires s != [] && !MatchAt(s, 0)
    requires forall i :: 0 <= i < |s[1..]| ==> !MatchAt(s[1..], i)
    ensures forall i :: 0 <= i < |s| ==> !MatchAt(s, i)
  {
    forall i | 0 <= i < |s| ensures !MatchAt(s, i) {
      if 0 < i < |s| - 1 { MatchShift(s, i - 1); }
    }
  }

  lemma MatchShift(s: string, i: nat)
    requires s != [] && i < |s| - 1
    ensures MatchAt(s, i + 1) <==> MatchAt(s[1..], i)
    ensures MatchAt(s, i + 1) ==> GroupAt(s, i + 1) == GroupAt(s[1..], i)
  {
    if i + 7 <= |s| {
      assert s[1..][i..i + 5] == s[i + 1..i + 6];
      assert s[1..][i + 5] == s[i + 6];
      assert s[1..][i + 5..] == s[i + 6..];
    }
  }

  /** A fractional time reports its whole milliseconds, still as a string. */
  lemma SearchFractionalTime()
    ensures SearchTime("time=12.3 ms") == Some("12")
  {
    var s := "time=12.3 ms";
    assert s[..5] == "time=";
    assert s[5..] == "12" + ".3 ms";
    DigitSpanOf("12", ".3 ms");
  }

  // ---------------------------------------------------------------------
  // The metric

  /** The metric for an answered ping: its time in milliseconds as a string. */
  function SuccessMetric(name: string, duration: string): Dict<Json>
  {
    [("name", JStr(name + ".success")), ("value", JStr(duration)),
     ("metric_type", JStr("ms")), ("__type", JStr("metric"))]
  }

  /** The counter metric for an unusable answer: it has no value. */
  function FailedMetric(name: string): Dict<Json>
  {
    [("name", JStr(name + ".failed")), ("metric_type", JStr("c")), ("__type", JStr("metric"))]
  }

  /** The metric and exit status for the output of a successful `ping`. */
  function PingMetric(name: string, output: string): (r: (Dict<Json>, int))
    ensures r.1 == 0 <==> SearchTime(output).Some?
    ensures r.1 == 0 || r.1 == 3
    ensures r.0 != [] && r.0[0] == ("name", JStr(name + if r.1 == 0 then ".success" else ".failed"))
  {
    match SearchTime(output)
    case Some(duration) => (SuccessMetric(name, duration), 0)
    case None => (FailedMetric(name), 3)
  }

  /** With a `time=` reading, the metric is `<name>.success`, of type `ms`,
      valued by the digits after the first such reading, and the status is
      0; without one it is `<name>.failed`, a counter with no value, and the
      status is 3. Either way it is a metric, with distinct keys. */
  lemma PingMetricFields(name: string, output: string)
    ensures var (m, rc) := PingMetric(name, output);
      Distinct(m) && Get(m, "__type") == Some(JStr("metric"))
    ensures var (m, rc) := PingMetric(name, output);
      SearchTime(output).Some? ==>
        Get(m, "name") == Some(JStr(name + ".success"))
        && Get(m, "value") == Some(JStr(SearchTime(output).value))
        && Get(m, "metric_type") == Some(JStr("ms"))
    ensures var (m, rc) := PingMetric(name, output);
      SearchTime(output).None? ==>
        Get(m, "name") == Some(JStr(name + ".failed"))
        && !HasKey(m, "value")
        && Get(m, "metric_type") == Some(JStr("c"))
  {
    var (m, rc) := PingMetric(name, output);
    if SearchTime(output).Some? {
      var ks := ["name", "value", "metric_type", "__type"];
      DistinctInitials(ks);
      LiteralDict(m, ks);
      assert Get(m, ks[0]) == Some(m[0].1) && Get(m, ks[1]) == Some(m[1].1);
      assert Get(m, ks[2]) == Some(m[2].1) && Get(m, ks[3]) == Some(m[3].1);
    } else {
      var ks := ["name", "metric_type", "__type"];
      DistinctInitials(ks);
      LiteralDict(m, ks);
      assert Get(m, ks[0]) == Some(m[0].1) && Get(m, ks[1]) == Some(m[1].1);
      assert Get(m, ks[2]) == Some(m[2].1);
    }
  }

  // ---------------------------------------------------------------------
  // main()

  /** The receiver reads the line sent back as the metric. */
  lemma PingMetricDecodes(name: string, output: string)
    ensures var m := PingMetric(name, output).0;
      Loads(Serialize(JObj(m))) == Some(JObj(m))
  {
    var m := PingMetric(name, output).0;
    PingMetricFields(name, output);
    CanonicalDictByIndex(m);
    SerializeRoundTrip(JObj(m));
  }

  /** `emit_metric(graphite_host, graphite_port, metric)` then `exit(rc)`:
      the port must be an integer; the bytes sent are the compact JSON text
      of the metric and a newline, its only one. */
  function Emit(host: string, port: string, metric: Dict<Json>, rc: int): (o: Outcome)
    ensures o.Emitted? <==> PyInt(port).Some?
    ensures o.Emitted? ==>
      o.host == host && o.port == PyInt(port).value && o.metric == metric && o.exitCode == rc
      && o.frame == PushFrame(JObj(metric))
    ensures o.Emitted? ==>
      o.frame != [] && o.frame[|o.frame| - 1] == 0x0A
      && forall i :: 0 <= i < |o.frame| - 1 ==> o.frame[i] != 0x0A
    ensures o.Crashed? ==> o.error.ValueError?
  {
    match PyInt(port)
    case Some(p) => Emitted(host, p, metric, PushFrame(JObj(metric)), rc)
    case None => Crashed(ValueError("invalid literal for int() with base 10"))
  }

  /** The command line run: one echo request of `packet_size` bytes. */
  function PingCommand(argv: seq<string>): (command: seq<string>)
    requires |argv| >= 7
  {
    ["ping", "-c", "1", "-s", PacketSize(argv), argv[2]]
  }

  /** `argv[7]` with exactly eight arguments, otherwise `'56'`. */
  function PacketSize(argv: seq<string>): string
    requires |argv| >= 7
  {
    if |argv| == 8 then argv[7] else "56"
  }

  /** The argument errors: too few arguments, or a fifth one that is not an
      integer (with five, `argv[5]` is missing anyway). */
  function ArgvError(argv: seq<string>): (e: Option<PyError>)
    ensures e.None? <==> |argv| >= 7
    ensures |argv| == 5 && PyInt(argv[4]).None? ==> e.value.ValueError?
    ensures |argv| < 7 && !(|argv| == 5 && PyInt(argv[4]).None?) ==> e.value.IndexError?
  {
    if |argv| < 4 then Some(IndexError("list index out of range"))
    else if |argv| == 5 && PyInt(argv[4]).None? then Some(ValueError("invalid literal for int() with base 10"))
    else if |argv| < 7 then Some(IndexError("list index out of range"))
    else None
  }

  /** `main()` as written: `check_output` raises on a non-zero exit status of
      `ping`, and only `AttributeError` is caught, so a ping without an
      answer crashes the script and no metric is emitted at all. */
  function Main(argv: seq<string>, ping: seq<string> -> PingResult): (o: Outcome)
    ensures |argv| < 7 ==> o == Crashed(ArgvError(argv).value)
    ensures |argv| >= 7 && ping(PingCommand(argv)).returnCode != 0 ==>
              o == Crashed(CalledProcessError(ping(PingCommand(argv)).returnCode))
    ensures o.Emitted? ==> |argv| >= 7 && ping(PingCommand(argv)).returnCode == 0 && PyInt(argv[6]).Some?
  {
    if ArgvError(argv).Some? then Crashed(ArgvError(argv).value)
    else
      var name := argv[1] + "." + argv[3];
      var r := ping(PingCommand(argv));
      if r.returnCode != 0 then Crashed(CalledProcessError(r.returnCode))
      else
        var (metric, rc) := PingMetric(name, r.output);
        Emit(argv[5], argv[6], metric, rc)
  }

  /** `main()` as evidently intended: a ping that gets no answer is reported
      as a failed probe. */
  function MainIntended(argv: seq<string>, ping: seq<string> -> PingResult): (o: Outcome)
    ensures o.Crashed? <==> |argv| < 7 || PyInt(argv[6]).None?
  {
    if ArgvError(argv).Some? then Crashed(ArgvError(argv).value)
    else
      var name := argv[1] + "." + argv[3];
      var r := ping(PingCommand(argv));
      var (metric, rc) := if r.returnCode != 0 then (FailedMetric(name), 3) else PingMetric(name, r.output);
      Emit(argv[5], argv[6], metric, rc)
  }

  /** With at least seven arguments and an integer port, `argv[2]` is
      pinged once with `argv[7]` bytes (eight arguments) or 56, and an
      answered ping emits one metric named after `argv[1].argv[3]`, sent to
      `argv[5]:argv[6]`; shorter argument lists end before anything is
      pinged or sent. */
  lemma MainEmits(argv: seq<string>, ping: seq<string> -> PingResult)
    ensures |argv| < 7 ==> Main(argv, ping).Crashed?
    ensures |argv| >= 7 ==>
      PingCommand(argv) == ["ping", "-c", "1", "-s", if |argv| == 8 then argv[7] else "56", argv[2]]
    ensures |argv| >= 7 && PyInt(argv[6]).Some? && ping(PingCommand(argv)).returnCode == 0 ==>
      var o := Main(argv, ping);
      var output := ping(PingCommand(argv)).output;
      o.Emitted? && o.host == argv[5] && o.port == PyInt(argv[6]).value
      && o.frame == PushFrame(JObj(o.metric)) && Loads(Serialize(JObj(o.metric))) == Some(JObj(o.metric))
      && Get(o.metric, "__type") == Some(JStr("metric"))
      && (o.exitCode == 0 <==> SearchTime(output).Some?)
      && (SearchTime(output).Some? ==>
            Get(o.metric, "name") == Some(JStr(argv[1] + "." + argv[3] + ".success"))
            && Get(o.metric, "value") == Some(JStr(SearchTime(output).value))
            && Get(o.metric, "metric_type") == Some(JStr("ms")))
      && (SearchTime(output).None? ==>
            o.exitCode == 3
            && Get(o.metric, "name") == Some(JStr(argv[1] + "." + argv[3] + ".failed"))
            && !HasKey(o.metric, "value") && Get(o.metric, "metric_type") == Some(JStr("c")))
  {
    if |argv| >= 7 {
      PingMetricFields(argv[1] + "." + argv[3], ping(PingCommand(argv)).output);
      PingMetricDecodes(argv[1] + "." + argv[3], ping(PingCommand(argv)).output);
    }
  }

  /** A concrete case: an unreachable host (`ping` exits with status 1). */
  lemma UnreachableHostCrashes()
    ensures var argv := ["ping.py", "csm_ping", "192.0.2.1", "eu-de", "5", "graphite", "2003"];
      Main(argv, (_: seq<string>) => PingResult(1, "1 packets transmitted, 0 received")).Crashed?
  {
  }

  /** As intended, every run with a usable command line emits exactly one
      metric: `.success` with status 0 when the time was read, `.failed`
      with status 3 otherwise, including a ping that got no answer. */
  lemma MainIntendedEmits(argv: seq<string>, ping: seq<string> -> PingResult)
    requires |argv| >= 7 && PyInt(argv[6]).Some?
    ensures var o := MainIntended(argv, ping);
      o.Emitted? && o.host == argv[5] && o.port == PyInt(argv[6]).value
      && o.frame == PushFrame(JObj(o.metric)) && Loads(Serialize(JObj(o.metric))) == Some(JObj(o.metric))
      && Get(o.metric, "__type") == Some(JStr("metric"))
      && (o.exitCode == 0 <==>
            ping(PingCommand(argv)).returnCode == 0 && SearchTime(ping(PingCommand(argv)).output).Some?)
      && (o.exitCode == 0 ==> Get(o.metric, "name") == Some(JStr(argv[1] + "." + argv[3] + ".success")))
      && (o.exitCode != 0 ==> o.exitCode == 3 && o.metric == FailedMetric(argv[1] + "." + argv[3]))
  {
    var name := argv[1] + "." + argv[3];
    var r := ping(PingCommand(argv));
    PingMetricFields(name, r.output);
    PingMetricFields(name, "");
    PingMetricDecodes(name, r.output);
    PingMetricDecodes(name, "");
  }
}
