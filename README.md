# csm-test-scenarios: the metric core, modelled in Dafny

The repository runs the cloud service monitoring probes of the Open Telekom
Cloud. Each probe measures something and writes one compact JSON metric per
line to a message socket or to a Graphite-style receiver. This project models
the parts of that pipeline that decide *what* is sent, and proves properties
of the model:

- **Metric records** (`playbooks/library/common/message.py`).
  - `Base` and `Metric` are dicts that build themselves in place; they are
    modelled as the class `CommonMessage.Record` with an ordered `items` field.
  - `serialize` and `__bytes__` are specified functions of the record.
  - `get_message` is a method that pops `__type` from a caller's dict, or
    decodes a text and rebuilds a `Metric`.
  - The central result is the round trip: a serialized `Metric`, read back by
    `get_message`, has the same key/value pairs.
- **Module helpers** (`playbooks/module_utils/message.py`): the argument
  specification with its `socket` option, `create_metric`, `serialize` and the
  line framing of `push_metric`.
- **JSON.**
  - `json.dumps` with compact separators and ASCII escaping, and the
    `json.loads` scanner, as far as integer-valued documents go.
  - Proved: `Loads(Dumps(v)) == Some(v)` for every value whose dicts have
    distinct keys, and dumps output is printable ASCII.
  - With that, a frame is the text, one newline and no other newline.
- **`obs_cli.py`.**
  - The key sync decision: the ETag slice and `requires_update`.
  - The identity URL rewrite.
  - The `get_instances_info` generator: filtering and projecting Terraform
    state, as nested loops.
  - The `generate_inventory` grouping loop, as a loop over the given hosts with
    invariants tying it to a prefix-recursive specification.
- **`lb_load_monitoring.py`**: the probe loop turning HTTP outcomes into
  timing or timeout metrics, the zone lookup, and the socket gate.
- **`ping.py` / `peering_ping.py`**: the command-line rules, the
  `time=(\d+)` search, and the success or failed metric with an exit status.

A Python dict is an ordered association list (`Dicts.Dict<V>`). Assignment
replaces a key in place or appends it, as insertion order does in Python.

The environment is always passed in as a parameter:
- the clock reading (`now`);
- the MD5 digest function;
- the socket setting;
- the `ping` child process, as a function from command line to exit status
  and output;
- the HTTP probe outcomes.

Socket writes are the frames returned.

## Model

| member | source | states |
|---|---|---|
| CommonMessage.Record.Base | playbooks/library/common/message.py:26-40 | the new record holds exactly the `Base` items: name, environment, zone, then the timestamp or the clock reading |
| CommonMessage.Record.Metric | playbooks/library/common/message.py:58-73 | the new record holds the `Base` items with no timestamp argument, then `__type` `metric`, `value`, and the keyword arguments assigned over them |
| CommonMessage.Record.InitBase | playbooks/library/common/message.py:33-40 | the four assignments of `Base.__init__` on an empty dict produce the base items |
| CommonMessage.Record.SetItem | playbooks/library/common/message.py:34 | `self[k] = v` replaces the key in place or appends it, so keys stay distinct |
| CommonMessage.Record.UpdateItems | playbooks/library/common/message.py:73 | `self.update(**kwargs)` leaves the items equal to the fold of assignments over the old items |
| CommonMessage.Record.Pop | playbooks/library/common/message.py:83 | `pop` of a present key returns its value and removes it; a missing key gives `KeyError` and changes nothing |
| CommonMessage.Record.Serialize | playbooks/library/common/message.py:42-47 | the serialization is non-empty printable ASCII and decodes back to the record's items when its values are dicts with distinct keys |
| CommonMessage.Record.Bytes | playbooks/library/common/message.py:49-52 | the bytes are the serialization's character codes and one final newline, with no other newline (the frame `push_metric` at lines 89-96 sends) |
| CommonMessage.BaseItemsFields | playbooks/library/common/message.py:33-40 | a `Base` has exactly the keys name, environment, zone, timestamp in that order; the timestamp is the argument when truthy, else the clock reading |
| CommonMessage.MetricItemsFields | playbooks/library/common/message.py:58-73 | a `Metric` has distinct keys, and its first six are name, environment, zone, timestamp, `__type`, value; timestamp and `__type` default unless a keyword overrides them; every other key is exactly a keyword argument |
| CommonMessage.MetricItemsCanonical | playbooks/library/common/message.py:58-73 | a `Metric` of canonical values is a canonical dict |
| CommonMessage.ExtraKwargsAccepted | playbooks/library/common/message.py:85 | the keywords `Metric(**msg)` passes to `**kwargs` never name self, name, value, environment or zone |
| CommonMessage.GetExtraKwargs | playbooks/library/common/message.py:85 | binding the named parameters removes exactly their keys and keeps every other key's value |
| CommonMessage.MetricCall | playbooks/library/common/message.py:85 | the call fails, always with `TypeError`, exactly when the dict holds `self` or lacks name or value |
| CommonMessage.CallMetric | playbooks/library/common/message.py:85 | `Metric(**d)` fails with `TypeError` when `d` has `self` or lacks name or value, and otherwise returns a fresh record holding the specified items |
| CommonMessage.MessageOfText | playbooks/library/common/message.py:78-86 | text that is not JSON gives `None`; a decoded list or scalar fails; a record comes only from a decoded dict whose `__type` is `metric` |
| CommonMessage.MessageOfDict | playbooks/library/common/message.py:83-86 | a dict without `__type` raises `KeyError`; any type other than `metric` gives `None`; a record is built only for the `metric` type |
| CommonMessage.GetMessage | playbooks/library/common/message.py:76-86 | text that is not JSON gives `None`; a dict loses `__type` in place; a missing `__type` raises `KeyError`; a type other than `metric` gives `None`; the `metric` type builds a new record; list and scalar documents fail as `pop` does |
| CommonMessage.TextOfDict | playbooks/library/common/message.py:78-82 | for a canonical dict, decoding its JSON text first changes nothing about the result |
| CommonMessage.MetricRoundTrip | playbooks/library/common/message.py:42-86 | `get_message` on a serialized `Metric` returns a record with the same key/value pairs, whatever the clock reads the second time |
| CommonMessage.MetricRebuilt | playbooks/library/common/message.py:83-85 | a `Metric` without its `__type` rebuilds, through `Metric(**d)`, to the same key/value pairs |
| CommonMessage.OtherTypeIgnored | playbooks/library/common/message.py:84-86 | a serialized `Metric` whose `__type` keyword is not `metric` reads back as `None` |
| MessageUtils.FullArgumentSpec | playbooks/module_utils/message.py:23-28 | the spec is non-empty and its first option is `socket`, whatever the caller passes |
| MessageUtils.FullArgumentSpecOptions | playbooks/module_utils/message.py:23-28 | the spec always offers `socket`; each caller option keeps its value and a caller's `socket` overrides the default; no other key appears |
| MessageUtils.FullArgumentSpecShape | playbooks/module_utils/message.py:23-28 | the spec has distinct keys |
| MessageUtils.CreateMetric | playbooks/module_utils/message.py:103-114 | the metric has the eight keys of the literal, in order, with name and value first and unchanged |
| MessageUtils.CreateMetricFields | playbooks/module_utils/message.py:89-114 | the metric has exactly the eight keys in order; name and value are unchanged; environment and zone are null unless given; metric_type, az, timestamp and `__type` default to `ms`, `default`, the clock reading and `metric` unless a keyword supplies them; other keywords are dropped |
| MessageUtils.CreateMetricCanonical | playbooks/module_utils/message.py:89-114 | a metric built from canonical values is canonical |
| MessageUtils.Serialize | playbooks/module_utils/message.py:81-87 | the serialization is non-empty printable ASCII |
| MessageUtils.SerializeRoundTrip | playbooks/module_utils/message.py:81-87 | the compact serialization of a canonical value decodes back to that value |
| MessageUtils.PushFrame | playbooks/module_utils/message.py:121-122 | the message sent is the serialization's ASCII bytes and one 0x0A, its only 0x0A |
| MessageUtils.PushFrameDecodes | playbooks/module_utils/message.py:116-122 | the frame written is ASCII ending in its only newline, and the line decodes to the metric |
| JsonRoundTrip.LoadsDumps | playbooks/module_utils/message.py:85 | `json.loads(json.dumps(v, separators=(',', ':'))) == v` for every value whose dicts have distinct keys |
| JsonEncode.DumpsPrintable | playbooks/module_utils/message.py:85 | the serialization contains only printable ASCII, so never a newline |
| JsonDecode.LoadsObjectDistinct | playbooks/library/common/message.py:80 | a decoded object is a dict with distinct keys, as a Python dict is |
| Utf8.FrameOfDumps | playbooks/library/common/message.py:49-52 | the UTF-8 frame of a serialization is its ASCII codes plus one trailing 0x0A, the only 0x0A |
| ObsCli.RequiresUpdate | playbooks/files/obs_cli.py:39-45 | a missing file always needs an update; a present file needs one exactly when its digest differs from the remote one |
| ObsCli.ETagDigest | playbooks/files/obs_cli.py:58 | `e_tag[1:-1]` drops the first and last character, and is empty for fewer than two |
| ObsCli.ETagOfDigest | playbooks/files/obs_cli.py:58 | stripping a quoted digest gives the digest back |
| ObsCli.SyncKeyUpToDate | playbooks/files/obs_cli.py:39-45 | when the ETag is the quoted digest of the object: after the sync no update is required, an up-to-date key is left untouched, and a second sync changes nothing |
| ObsCli.SyncKey | playbooks/files/obs_cli.py:64-66 | the key is replaced only by the object's content, and only when it is missing or its digest differs; a missing key is always downloaded; a present key whose digest differs is replaced by the download; a key with the remote digest is kept |
| ObsCli.Replace | playbooks/files/obs_cli.py:86 | a text that starts with the pattern starts with the replacement; text shorter than the pattern is kept; replacing the pattern by itself changes nothing; a replacement at least as long as the pattern never shortens the text |
| ObsCli.ReplaceKeepsPrefix | playbooks/files/obs_cli.py:86 | when the pattern is a prefix of its replacement, `replace` keeps the text's first characters, up to the pattern's length |
| ObsCli.RewriteContinuesV3 | playbooks/files/obs_cli.py:86 | after `replace('/v3', '/v3.0')` every `/v3` left in the text goes on as `/v3.0`: no bare `/v3` survives |
| ObsCli.ReplaceAbsent | playbooks/files/obs_cli.py:86 | `replace` leaves text without the pattern unchanged |
| ObsCli.V3RewriteInverse | playbooks/files/obs_cli.py:86 | rewriting `/v3` to `/v3.0` loses nothing: replacing `/v3.0` back gives the original URL |
| ObsCli.TokenUrl | playbooks/files/obs_cli.py:86-87 | the token URL ends with `/OS-CREDENTIAL/securitytokens`, is at least that much longer than the auth URL, and before that suffix every `/v3` goes on as `/v3.0` |
| ObsCli.TokenUrlParts | playbooks/files/obs_cli.py:86-87 | the token URL is the rewritten auth URL followed by `/OS-CREDENTIAL/securitytokens`; the rewritten part has no bare `/v3`; the rewrite can be undone; a URL without `/v3` is kept |
| ObsCli.Index | playbooks/files/obs_cli.py:144-158 | `v[k]` succeeds exactly on a dict holding `k` and returns its value |
| ObsCli.IndexFirst | playbooks/files/obs_cli.py:155 | `v[0]` succeeds exactly on a non-empty list or string and returns its first element |
| ObsCli.Iterate | playbooks/files/obs_cli.py:144-147 | `for` runs through a list's items, a dict's keys or a string's characters, and raises otherwise |
| ObsCli.HostOf | playbooks/files/obs_cli.py:148-159 | a missing `attributes` is the error raised; a projected host is named by `attributes.name`, has the seven attribute keys in order, and takes `id`, `image_name`, `region`, `access_ip_v4` and `tag` from the attributes |
| ObsCli.HostOfProjections | playbooks/files/obs_cli.py:151-158 | looked up by key, a host's `id`, `image`, `region`, `ansible_host` and `tag` are the attributes `id`, `image_name`, `region`, `access_ip_v4` and `tag` |
| ObsCli.HostOfShape | playbooks/files/obs_cli.py:148-161 | a projected host has the seven attribute keys in order, and its `public_ipv4` is the first network entry's floating IP |
| ObsCli.ChainConcat | playbooks/files/obs_cli.py:144-161 | running the loop over `a + b` is the loop over `a` and, unless that stopped, the loop over `b` |
| ObsCli.ChainStep | playbooks/files/obs_cli.py:144-161 | one more pass of a loop appends that step's yields, and a failing step ends the generator |
| ObsCli.InstancesInfo | playbooks/files/obs_cli.py:142-161 | a state without `resources` stops the generator at once with that error; a generator that runs to its end found an iterable `resources` |
| ObsCli.InstancesInfoShaped | playbooks/files/obs_cli.py:142-161 | every host the generator yields has the host shape |
| ObsCli.ComputeOnly | playbooks/files/obs_cli.py:146 | the filter keeps at most the input's resources, each of the compute-instance type or one whose type lookup raises |
| ObsCli.OnlyComputeInstances | playbooks/files/obs_cli.py:146 | dropping every non-compute resource changes neither the yields nor the error |
| ObsCli.GetInstancesInfo | playbooks/files/obs_cli.py:142-161 | the generator is driven to its end: it yields the hosts of every compute instance in order, and the first failed lookup stops it |
| ObsCli.ResourceHosts | playbooks/files/obs_cli.py:146-161 | one pass of the outer loop yields exactly the hosts of a compute resource's instances |
| ObsCli.TagsOf | playbooks/files/obs_cli.py:125 | the tags are the `tag` attribute when it is present and truthy, and an empty dict otherwise |
| ObsCli.GroupOf | playbooks/files/obs_cli.py:127-128 | no group exactly when the `'group' in tags` test is false; a group found is the string under the `group` tag |
| ObsCli.Step | playbooks/files/obs_cli.py:125-131 | one round succeeds exactly when the group lookup does, and then stores the host without its tag; a host without a group leaves the children alone |
| ObsCli.Inventory | playbooks/files/obs_cli.py:124-131 | when the loop finishes, the last host seen is among the hosts |
| ObsCli.InventoryJson | playbooks/files/obs_cli.py:116-123 | the inventory holds the hosts under `all.hosts` and the groups under `all.children` |
| ObsCli.GenerateInventory | playbooks/files/obs_cli.py:115-139 | the loop builds the specified hosts and groups, or raises the specified error; the file is written exactly when the hosts are non-empty |
| ObsCli.AddHost | playbooks/files/obs_cli.py:125-131 | one loop body stores the host without its tag, then adds it under its group, creating the group when it is new |
| ObsCli.InventoryFails | playbooks/files/obs_cli.py:127-131 | the loop raises exactly when some host's `'group' in tags` test, subscript or group hash raises |
| ObsCli.InventoryHosts | playbooks/files/obs_cli.py:126-132 | the hosts keys are exactly the host names seen, and they are empty only when no host was seen |
| ObsCli.InventoryLastWins | playbooks/files/obs_cli.py:126 | a repeated host name keeps the attributes of its last occurrence, less the tag |
| ObsCli.InventoryUntagged | playbooks/files/obs_cli.py:125-126 | every stored host is a dict without a `tag` key |
| ObsCli.InventoryGroups | playbooks/files/obs_cli.py:127-130 | a group exists exactly when some host is tagged with it |
| ObsCli.InventoryGroupMembers | playbooks/files/obs_cli.py:131 | a group lists exactly the hosts tagged with it |
| ObsCli.InventoryStops | playbooks/files/obs_cli.py:124-131 | after an exception, the remaining hosts change nothing |
| LbLoadMonitoring.Address | playbooks/library/lb_load_monitoring.py:119 | the URL is the protocol, `://`, then the target address |
| LbLoadMonitoring.AzOf | playbooks/library/lb_load_monitoring.py:99-137 | a known backend's `Server` name gives its zone; any other gives null |
| LbLoadMonitoring.InstancesAzZones | playbooks/library/lb_load_monitoring.py:99-103 | the three monitoring backends map to eu-de-01, eu-de-02 and eu-de-03, and only they have a zone |
| LbLoadMonitoring.TimingValue | playbooks/library/lb_load_monitoring.py:135 | the value is the whole milliseconds of the sub-second part of the elapsed time, always 0 to 999 |
| LbLoadMonitoring.Run | playbooks/library/lb_load_monitoring.py:116-144 | every request goes to the address with the timeout; a raising probe ends the module with its message after exactly as many requests as probes up to and including the first one that raises, the earlier ones all succeeding; otherwise, with a socket every metric is pushed in list order and the module exits changed, and without one nothing is pushed and the module fails with `socket must be set` |
| LbLoadMonitoring.PushMetrics | playbooks/library/lb_load_monitoring.py:140-142 | one frame per metric, each the metric's push frame, in list order |
| LbLoadMonitoring.MetricsStops | playbooks/library/lb_load_monitoring.py:121-139 | once a probe raises, later probes change nothing |
| LbLoadMonitoring.MetricsShape | playbooks/library/lb_load_monitoring.py:120-139 | exactly one metric per probe, in probe order; the loop raises exactly when some probe does |
| LbLoadMonitoring.ProbeMetric | playbooks/library/lb_load_monitoring.py:122-137 | a probe raises exactly when it neither timed out nor answered with a `Server` header, and a raised exception keeps its message |
| LbLoadMonitoring.Metrics | playbooks/library/lb_load_monitoring.py:120-139 | a loop that finishes holds one metric per probe |
| LbLoadMonitoring.TimeoutMetric | playbooks/library/lb_load_monitoring.py:124-131 | a timeout gives `csm_lb_timeout`, the timeout times 1000, az `default`, type `ms`, kind `metric`, the clock reading and null environment and zone |
| LbLoadMonitoring.TimingMetric | playbooks/library/lb_load_monitoring.py:132-138 | an answer gives `csm_lb_timings`, the sub-second milliseconds (0 to 999), the backend's zone, type `ms`, kind `metric`, the clock reading and null environment and zone |
| LbLoadMonitoring.PushedFramesDecode | playbooks/library/lb_load_monitoring.py:140-142 | every pushed frame decodes, line by line, to its metric |
| Ping.PyInt | playbooks/files/ping.py:19 | a digit string converts to its decimal value; a result exists only for digits after at most one sign, and a `-` negates the value |
| Ping.PyIntOfDecimal | playbooks/files/ping.py:28 | `int(str(i)) == i` |
| Ping.SearchTime | playbooks/files/ping.py:44 | a match found is a non-empty digit string taken from the output |
| Ping.GroupAt | playbooks/files/ping.py:44 | the group of a match is the whole non-empty run of digits after `time=` |
| Ping.SearchTimeSpec | playbooks/files/ping.py:44 | the search finds nothing exactly when no `time=` is followed by a digit; otherwise it returns the digits of the leftmost such match |
| Ping.SearchFractionalTime | playbooks/files/ping.py:44 | `time=12.3 ms` reads as the string `12` |
| Ping.PingMetricFields | playbooks/files/ping.py:44-59 | with a reading, the metric is `<name>.success`, valued by the digit string, type `ms`, status 0; without one, it is `<name>.failed`, a counter with no value, status 3; always kind `metric` with distinct keys |
| Ping.PingMetric | playbooks/files/ping.py:44-59 | the status is 0 exactly when a time was read and 3 otherwise; the first key is the name, ending `.success` or `.failed` with the status |
| Ping.PingMetricDecodes | playbooks/files/ping.py:10-21 | the line sent reads back, through `json.loads`, as the metric |
| Ping.Emit | playbooks/files/ping.py:17-21 | the metric is emitted exactly when the port is an integer, as the compact JSON text and one newline, its only one, to that host and port; otherwise `int()` raises `ValueError` |
| Ping.ArgvError | playbooks/files/ping.py:25-36 | the command line is usable exactly with at least seven arguments; with five, a non-integer `argv[4]` raises `ValueError` first, and every other short command line raises `IndexError` |
| Ping.MainEmits | playbooks/files/ping.py:24-63 | `argv[2]` is pinged once with `argv[7]` bytes when there are exactly eight arguments, else 56; an answered ping emits one metric for `argv[1].argv[3]` to `argv[5]:argv[6]` with its status, as a frame that decodes to it |
| Ping.Main | playbooks/files/ping.py:24-63 | as written, a ping with a non-zero exit status ends in `CalledProcessError` and emits nothing; a short command line crashes; a metric is emitted only for an answered ping and an integer port |
| Ping.UnreachableHostCrashes | playbooks/files/ping.py:38-53 | a concrete unreachable host crashes the script |
| Ping.MainIntended | playbooks/files/ping.py:38-63 | as intended, the script crashes only on a command line that is too short or whose port is not an integer |
| Ping.MainIntendedEmits | playbooks/files/ping.py:38-63 | as intended, every usable command line emits exactly one metric: `.success` with status 0 when a time was read, else `.failed` with status 3 |
| PeeringPing.ArgvError | playbooks/files/peering_ping.py:25-32 | the command line is usable exactly with at least six arguments; with four, a non-integer `argv[3]` raises `ValueError` first, and every other short command line raises `IndexError` |
| PeeringPing.MainEmits | playbooks/files/peering_ping.py:24-60 | an answered ping of `argv[1]` emits one metric named after `csm_peering_ping.argv[2]` to `argv[4]:argv[5]`: `.success` with the digit string, type `ms` and status 0, or `.failed`, a counter with no value and status 3; the frame decodes to the metric |
| PeeringPing.Main | playbooks/files/peering_ping.py:24-60 | as written, a ping with a non-zero exit status ends in `CalledProcessError` and emits nothing; a short command line crashes; a metric is emitted only for an answered ping and an integer port |
| PeeringPing.UnreachablePeerCrashes | playbooks/files/peering_ping.py:34-49 | a concrete unreachable peer crashes the script |
| PeeringPing.MainIntended | playbooks/files/peering_ping.py:34-60 | as intended, the script crashes only on a command line that is too short or whose port is not an integer |
| PeeringPing.MainIntendedEmits | playbooks/files/peering_ping.py:34-60 | as intended, every usable command line emits exactly one metric, `.failed` with status 3 for an unanswered ping |

## Left out

- Sockets, HTTP requests, the S3 and OpenStack SDK calls, `subprocess`, MD5, the clock and environment variables are external.
  - They become parameters: the frames returned, the probe outcomes, the `ping` function, the digest function, `now` and the socket string.
  - Connection and write failures are not modelled.
- Floating-point numbers, NaN and Infinity are not part of the JSON value type.
  - `JsonDecode.Loads` returns `None` for documents containing them, as it does for lone surrogates.
  - The lb elapsed time is modelled as integer microseconds, so the float division at `lb_load_monitoring.py:135` is integer division.
- CommonMessage.MessageOfText: models `json.loads(msg, encoding='utf-8')` as on Python versions that ignore the keyword. From Python 3.9 the keyword raises `TypeError` for every text message.
- CommonMessage.GetMessage: because floats are outside the value type, a metric text with a float value (`{"__type":"metric","name":"x","value":1.5}`) gives `None` here, where Python builds a `Metric`; a top-level float document (`1.5`) also gives `None`, where Python raises `AttributeError` on `pop`.
- CommonMessage.GetMessage: an argument that is neither a text nor a dict (bytes, for example) is outside the `Message` type.
- The `except json.JSONDecodeError` branches of the `serialize` functions are not modelled. `json.dumps` never raises that error, and every value of the model can be serialized.
- Ping.SearchTime: `\d` is read as the ASCII digits only. Python's `re` also matches other Unicode decimal digits.
- Ping.PyInt: accepts an optional sign and ASCII digits only. Python's `int()` also allows surrounding whitespace, underscores between digits and other Unicode digits.
- ObsCli.GroupOf: a `group` tag that is a number, a boolean or null is excluded by a precondition. Python would key `children` by that value, but groups are keyed by strings here.
- ObsCli.Inventory: host names are strings. `get_instances_info` can yield any JSON value as a name.
- generate_inventory's own call site is broken: `get_ecs_instances` is undefined at `obs_cli.py:124`, and `args.state` and `args.name` are never parsed. So the loop is modelled over a given sequence of (name, attributes) pairs.
  - `InventoryJson` is the value `yaml.safe_dump` writes.
  - The file path, the write and the printed messages are left out.
- `get_key_from_s3`: a `ClientError` from reading the ETag is re-raised by the source and is not modelled. `SyncKey` is the step after a successful ETag read; the download is the `remote` content.
- ObsCli.Replace: requires a non-empty pattern. The source only calls `replace` with `/v3`, and Python's empty-pattern insertion rule is not modelled.
- `_session_token_request`, `acquire_temporary_ak_sk`, `read_state`, `parse_params`, `main` and `os.chmod` in `obs_cli.py` are SDK, file and argument plumbing.
- The Ansible module lifecycle is reduced to the exit value: `MessageModule.__call__`, `AnsibleModule` and `log`.
  - `LbLoadMonitoring.Run` returns `ExitJson` or `FailJson`.
  - An exception inside `run` becomes `FailJson` with its message.
  - The one-second `sleep` between probes and the log line are left out.
- LbLoadMonitoring.Run: requires one probe outcome for each of the `request_count` requests. The outcomes stand for the HTTP layer.
- The `print` calls of `ping.py`, `peering_ping.py` and `obs_cli.py` are left out. So is the unused `request_timeout`.

## Findings

| source | as written | input that shows it | evidently intended | confidence | as-written member | corrected member |
|---|---|---|---|---|---|---|
| playbooks/files/ping.py:38-59 | `check_output` raises `CalledProcessError` when `ping` exits non-zero, and only `AttributeError` is caught, so the script crashes without emitting a metric | a host that does not answer: `ping -c 1` exits with status 1 | the unanswered ping is reported as `<name>.failed` with exit status 3 | not executed | Ping.UnreachableHostCrashes | Ping.MainIntendedEmits |
| playbooks/files/peering_ping.py:34-55 | the same: an unanswered ping raises `CalledProcessError` uncaught and no metric is emitted | a peer that does not answer: `ping -c 1` exits with status 1 | the unanswered ping is reported as `csm_peering_ping.<pair>.failed` with exit status 3 | not executed | PeeringPing.UnreachablePeerCrashes | PeeringPing.MainIntendedEmits |
