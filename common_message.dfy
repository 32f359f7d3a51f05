/** The record classes of the shared module library: `Base` and `Metric` are
    dict subclasses whose constructors assign their keys one by one, and
    `get_message` reads a record back from a JSON text or a dict. */
module CommonMessage {
  import opened Basics
  import opened Dicts
  import opened Json
  import opened JsonEncode
  import opened JsonDecode
  import opened JsonRoundTrip
  import opened Utf8

  /** The keys `Base.__init__` assigns, in that order. */
  const BaseKeys: seq<string> := ["name", "environment", "zone", "timestamp"]

  /** The keys a `Metric` holds before its keyword arguments are applied. */
  const RecordKeys: seq<string> := ["name", "environment", "zone", "timestamp", "__type", "value"]

  /** What `Base(name, environment, zone, timestamp)` holds with the clock
      reading `now`; an omitted timestamp is `None`, that is `JNull`. */
  function BaseItems(name: Json, environment: Json, zone: Json, timestamp: Json, now: string): Dict<Json>
  {
    [("name", name), ("environment", environment), ("zone", zone),
     ("timestamp", if Truthy(timestamp) then timestamp else JStr(now))]
  }

  /** A `Metric` after its `Base` part (which gets no timestamp) and its own
      two assignments. */
  function MetricBase(name: Json, value: Json, environment: Json, zone: Json, now: string): Dict<Json>
  {
    BaseItems(name, environment, zone, JNull, now) + [("__type", JStr("metric")), ("value", value)]
  }

  /** What `Metric(name, value, environment, zone, **kwargs)` holds: the
      keyword arguments are assigned last, over everything before them. */
  function MetricItems(name: Json, value: Json, environment: Json, zone: Json,
                       kwargs: Dict<Json>, now: string): Dict<Json>
  {
    Update(MetricBase(name, value, environment, zone, now), kwargs)
  }

  /** What Python lets arrive in `Metric`'s `**kwargs`: a dict, none of whose
      keys names a declared parameter (such a key binds to the parameter). */
  predicate MetricKwargs(kwargs: Dict<Json>)
  {
    Distinct(kwargs) && !HasKey(kwargs, "self") && !HasKey(kwargs, "name") && !HasKey(kwargs, "value")
    && !HasKey(kwargs, "environment") && !HasKey(kwargs, "zone")
  }

  /** A `Base` or `Metric` instance. Being a dict, its state is its items. */
  class Record {
    var items: Dict<Json>

    /** A dict never holds the same key twice. */
    predicate Valid()
      reads this
    {
      Distinct(items)
    }

    /** `Base(name, environment, zone, timestamp)` */
    constructor Base(name: Json, environment: Json, zone: Json, timestamp: Json, now: string)
      ensures items == BaseItems(name, environment, zone, timestamp, now)
      ensures Valid()
    {
      items := [];
      new;
      InitBase(name, environment, zone, timestamp, now);
      BaseItemsFields(name, environment, zone, timestamp, now);
    }

    /** `Metric(name, value, environment, zone, **kwargs)`; an omitted
        environment or zone is `JNull`. */
    constructor Metric(name: Json, value: Json, environment: Json, zone: Json,
                       kwargs: Dict<Json>, now: string)
      requires MetricKwargs(kwargs)
      ensures items == MetricItems(name, value, environment, zone, kwargs, now)
      ensures Valid()
    {
      items := [];
      new;
      InitBase(name, environment, zone, JNull, now);
      GetMissing(items, "__type");
      SetAbsentAppends(items, "__type", JStr("metric"));
      SetItem("__type", JStr("metric"));
      GetMissing(items, "value");
      SetAbsentAppends(items, "value", value);
      SetItem("value", value);
      assert items == MetricBase(name, value, environment, zone, now);
      UpdateItems(kwargs);
      MetricItemsFields(name, value, environment, zone, kwargs, now);
    }

    /** The dict `json.loads` builds from an object text. */
    constructor FromItems(d: Dict<Json>)
      ensures items == d
      ensures Distinct(d) ==> Valid()
    {
      items := d;
    }

    /** The body of `Base.__init__`, on the fresh, empty dict. */
    method InitBase(name: Json, environment: Json, zone: Json, timestamp: Json, now: string)
      requires items == []
      modifies this
      ensures items == BaseItems(name, environment, zone, timestamp, now)
    {
      SetItem("name", name);
      GetMissing(items, "environment");
      SetAbsentAppends(items, "environment", environment);
      SetItem("environment", environment);
      GetMissing(items, "zone");
      SetAbsentAppends(items, "zone", zone);
      SetItem("zone", zone);
      GetMissing(items, "timestamp");
      SetAbsentAppends(items, "timestamp", timestamp);
      SetAbsentAppends(items, "timestamp", JStr(now));
      if Truthy(timestamp) {
        SetItem("timestamp", timestamp);
      } else {
        SetItem("timestamp", JStr(now));
      }
    }

    /** `self[k] = v` */
    method SetItem(k: string, v: Json)
      modifies this
      ensures items == Set(old(items), k, v)
      ensures old(Valid()) ==> Valid()
    {
      if Valid() {
        SetKeepsDistinct(items, k, v);
      }
      items := Set(items, k, v);
    }

    /** `self.update(**kw)`: the pairs are assigned one after the other. */
    method UpdateItems(kw: Dict<Json>)
      modifies this
      ensures items == Update(old(items), kw)
      ensures old(Valid()) ==> Valid()
    {
      if Valid() {
        UpdateKeepsDistinct(items, kw);
      }
      var i := 0;
      while i < |kw|
        invariant 0 <= i <= |kw|
        invariant Update(items, kw[i..]) == Update(old(items), kw)
      {
        assert kw[i..][1..] == kw[i + 1..];
        items := Set(items, kw[i].0, kw[i].1);
        i := i + 1;
      }
    }

    /** `self.pop(k)`: the value, which leaves the dict; a missing key
        raises `KeyError` and changes nothing. */
    method Pop(k: string) returns (r: Result<Json, PyError>)
      modifies this
      ensures HasKey(old(items), k) ==> r == Ok(Get(old(items), k).value) && items == Remove(old(items), k)
      ensures !HasKey(old(items), k) ==> r == Err(KeyError(k)) && items == old(items)
      ensures old(Valid()) ==> Valid()
    {
      if Valid() {
        RemoveKeepsDistinct(items, k);
      }
      match Get(items, k)
      case None =>
        r := Err(KeyError(k));
      case Some(v) =>
        r := Ok(v);
        items := Remove(items, k);
    }

    /** `serialize()`: compact JSON, which reads back as this dict. */
    function Serialize(): (s: string)
      reads this
      ensures s != [] && Printable(s)
      ensures CanonicalDict(items) ==> Loads(s) == Some(JObj(items))
    {
      DumpsPrintable(JObj(items));
      DecodesWhenCanonical(JObj(items));
      Dumps(JObj(items))
    }

    /** `bytes(self)`: the serialized text and one newline, UTF-8 encoded;
        the newline is the frame's last byte and its only 0x0A. */
    function Bytes(): (bs: seq<byte>)
      reads this
      ensures bs != [] && bs[|bs| - 1] == 0x0A && forall i :: 0 <= i < |bs| - 1 ==> bs[i] != 0x0A
      ensures IsAscii(Serialize(), bs[..|bs| - 1])
    {
      FrameOfDumps(JObj(items));
      Frame(Serialize())
    }
  }

  /** A `Base` holds exactly name, environment and zone as given and a
      timestamp: the argument when it is truthy, the clock reading otherwise. */
  lemma BaseItemsFields(name: Json, environment: Json, zone: Json, timestamp: Json, now: string)
    ensures var b := BaseItems(name, environment, zone, timestamp, now);
      Keys(b) == BaseKeys && Distinct(b) && forall k :: k !in BaseKeys ==> Get(b, k) == None
    ensures var b := BaseItems(name, environment, zone, timestamp, now);
      && Get(b, "name") == Some(name) && Get(b, "environment") == Some(environment) && Get(b, "zone") == Some(zone)
      && Get(b, "timestamp") == Some(if Truthy(timestamp) then timestamp else JStr(now))
  {
    var b := BaseItems(name, environment, zone, timestamp, now);
    assert forall i :: 0 <= i < |BaseKeys| ==> BaseKeys[i] != [] && BaseKeys[i][0] == "nezt"[i];
    DistinctInitials(BaseKeys);
    LiteralDict(b, BaseKeys);
    assert Get(b, BaseKeys[0]) == Some(b[0].1);
    assert Get(b, BaseKeys[1]) == Some(b[1].1);
    assert Get(b, BaseKeys[2]) == Some(b[2].1);
    assert Get(b, BaseKeys[3]) == Some(b[3].1);
  }

  /** A `Metric` is a dict whose first keys are name, environment, zone,
      timestamp, `__type` and value. Name, value, environment and zone are
      the arguments; timestamp and `__type` are the clock reading and
      `metric` unless a keyword argument supplies them; every other key is
      exactly a keyword argument. */
  lemma MetricItemsFields(name: Json, value: Json, environment: Json, zone: Json,
                          kwargs: Dict<Json>, now: string)
    requires MetricKwargs(kwargs)
    ensures var m := MetricItems(name, value, environment, zone, kwargs, now);
      Distinct(m) && |m| >= |RecordKeys| && Keys(m)[..|RecordKeys|] == RecordKeys
    ensures var m := MetricItems(name, value, environment, zone, kwargs, now);
      && Get(m, "name") == Some(name) && Get(m, "value") == Some(value)
      && Get(m, "environment") == Some(environment) && Get(m, "zone") == Some(zone)
    ensures var m := MetricItems(name, value, environment, zone, kwargs, now);
      && Get(m, "timestamp") == (if HasKey(kwargs, "timestamp") then Get(kwargs, "timestamp") else Some(JStr(now)))
      && Get(m, "__type") == (if HasKey(kwargs, "__type") then Get(kwargs, "__type") else Some(JStr("metric")))
    ensures var m := MetricItems(name, value, environment, zone, kwargs, now);
      forall k :: k !in RecordKeys ==> Get(m, k) == Get(kwargs, k)
  {
    var p := MetricBase(name, value, environment, zone, now);
    var m := MetricItems(name, value, environment, zone, kwargs, now);
    RecordKeysDistinct();
    LiteralDict(p, RecordKeys);
    UpdateKeepsDistinct(p, kwargs);
    KeysUpdatePrefix(p, kwargs);
    forall k ensures Get(m, k) == if HasKey(kwargs, k) then Get(kwargs, k) else Get(p, k) {
      GetUpdate(p, kwargs, k);
    }
    assert Get(p, RecordKeys[0]) == Some(p[0].1);
    assert Get(p, RecordKeys[1]) == Some(p[1].1);
    assert Get(p, RecordKeys[2]) == Some(p[2].1);
    assert Get(p, RecordKeys[3]) == Some(p[3].1);
    assert Get(p, RecordKeys[4]) == Some(p[4].1);
    assert Get(p, RecordKeys[5]) == Some(p[5].1);
  }

  /** A `Metric` built from canonical values is a canonical dict. */
  lemma MetricItemsCanonical(name: Json, value: Json, environment: Json, zone: Json,
                             kwargs: Dict<Json>, now: string)
    requires Canonical(name) && Canonical(value) && Canonical(environment) && Canonical(zone)
    requires MembersCanonical(kwargs)
    ensures CanonicalDict(MetricItems(name, value, environment, zone, kwargs, now))
  {
    var p := MetricBase(name, value, environment, zone, now);
    RecordKeysDistinct();
    LiteralDict(p, RecordKeys);
    assert forall i :: 0 <= i < |p| ==> Canonical(p[i].1);
    CanonicalDictByIndex(p);
    UpdateKeepsCanonical(p, kwargs);
  }

  /** Round trip: `get_message` on the serialization of a `Metric` builds a
      record with the same key/value pairs, the timestamp included, whatever
      the clock reads the second time. */
  lemma MetricRoundTrip(name: Json, value: Json, environment: Json, zone: Json,
                        kwargs: Dict<Json>, now: string, later: string)
    requires MetricKwargs(kwargs)
    requires Canonical(name) && Canonical(value) && Canonical(environment) && Canonical(zone)
    requires MembersCanonical(kwargs)
    requires HasKey(kwargs, "__type") ==> Get(kwargs, "__type") == Some(JStr("metric"))
    ensures var m := MetricItems(name, value, environment, zone, kwargs, now);
      var r := MessageOfText(Dumps(JObj(m)), later);
      r.Ok? && r.value.Some? && SameItems(r.value.value, m)
  {
    var m := MetricItems(name, value, environment, zone, kwargs, now);
    MetricItemsCanonical(name, value, environment, zone, kwargs, now);
    TextOfDict(m, later);
    MetricItemsType(name, value, environment, zone, kwargs, now);
    MetricRebuilt(name, value, environment, zone, kwargs, now, later);
  }

  /** The serialization of a dict reads back as that dict. */
  lemma TextOfDict(d: Dict<Json>, now: string)
    requires CanonicalDict(d)
    ensures MessageOfText(Dumps(JObj(d)), now) == MessageOfDict(d, now)
  {
    LoadsDumps(JObj(d));
  }

  lemma MetricItemsType(name: Json, value: Json, environment: Json, zone: Json,
                        kwargs: Dict<Json>, now: string)
    requires Distinct(kwargs)
    requires HasKey(kwargs, "__type") ==> Get(kwargs, "__type") == Some(JStr("metric"))
    ensures Get(MetricItems(name, value, environment, zone, kwargs, now), "__type") == Some(JStr("metric"))
  {
    GetUpdate(MetricBase(name, value, environment, zone, now), kwargs, "__type");
    MetricBaseGet(name, value, environment, zone, now, "__type");
  }

  /** `Metric(**d)`, for `d` a `Metric` without its `__type`, rebuilds it
      pair for pair. */
  lemma MetricRebuilt(name: Json, value: Json, environment: Json, zone: Json,
                      kwargs: Dict<Json>, now: string, later: string)
    requires MetricKwargs(kwargs)
    requires HasKey(kwargs, "__type") ==> Get(kwargs, "__type") == Some(JStr("metric"))
    ensures var m := MetricItems(name, value, environment, zone, kwargs, now);
      var r := MetricCall(Remove(m, "__type"), later);
      r.Ok? && SameItems(r.value, m)
  {
    var p := MetricBase(name, value, environment, zone, now);
    var m := MetricItems(name, value, environment, zone, kwargs, now);
    var d := Remove(m, "__type");
    MetricBaseGet(name, value, environment, zone, now, "name");
    UpdateKeepsDistinct(p, kwargs);
    assert Distinct(m);
    GetRemove(m, "__type", "self");
    GetUpdate(p, kwargs, "self");
    MetricBaseGet(name, value, environment, zone, now, "self");
    MetricNamed(name, value, environment, zone, kwargs, now, "name");
    MetricNamed(name, value, environment, zone, kwargs, now, "value");
    MetricNamed(name, value, environment, zone, kwargs, now, "environment");
    MetricNamed(name, value, environment, zone, kwargs, now, "zone");
    assert MetricCall(d, later) == Ok(MetricItems(name, value, environment, zone, ExtraKwargs(d), later));
    forall k
      ensures Get(MetricItems(name, value, environment, zone, ExtraKwargs(d), later), k) == Get(m, k)
    {
      RebuiltKey(name, value, environment, zone, kwargs, now, later, k);
    }
  }

  /** A named parameter's value survives in the dict `get_message` passes on. */
  lemma MetricNamed(name: Json, value: Json, environment: Json, zone: Json,
                    kwargs: Dict<Json>, now: string, k: string)
    requires MetricKwargs(kwargs)
    requires k == "name" || k == "value" || k == "environment" || k == "zone"
    ensures var m := MetricItems(name, value, environment, zone, kwargs, now);
      Get(Remove(m, "__type"), k)
      == Some(if k == "name" then name else if k == "value" then value
              else if k == "environment" then environment else zone)
  {
    var p := MetricBase(name, value, environment, zone, now);
    var m := MetricItems(name, value, environment, zone, kwargs, now);
    MetricBaseGet(name, value, environment, zone, now, k);
    UpdateKeepsDistinct(p, kwargs);
    GetRemove(m, "__type", k);
    GetUpdate(p, kwargs, k);
  }

  lemma RebuiltKey(name: Json, value: Json, environment: Json, zone: Json,
                   kwargs: Dict<Json>, now: string, later: string, k: string)
    requires MetricKwargs(kwargs)
    requires HasKey(kwargs, "__type") ==> Get(kwargs, "__type") == Some(JStr("metric"))
    ensures var m := MetricItems(name, value, environment, zone, kwargs, now);
      Get(MetricItems(name, value, environment, zone, ExtraKwargs(Remove(m, "__type")), later), k) == Get(m, k)
  {
    var p := MetricBase(name, value, environment, zone, now);
    var p' := MetricBase(name, value, environment, zone, later);
    var m := MetricItems(name, value, environment, zone, kwargs, now);
    var d := Remove(m, "__type");
    MetricBaseGet(name, value, environment, zone, now, k);
    MetricBaseGet(name, value, environment, zone, later, k);
    UpdateKeepsDistinct(p, kwargs);
    GetRemove(m, "__type", k);
    GetUpdate(p, kwargs, k);
    RemoveKeepsDistinct(m, "__type");
    GetExtraKwargs(d, k);
    GetUpdate(p', ExtraKwargs(d), k);
    MetricBaseGet(name, value, environment, zone, later, "__type");
  }

  /** The pairs of a `Metric` before its keyword arguments. */
  lemma MetricBaseGet(name: Json, value: Json, environment: Json, zone: Json, now: string, k: string)
    ensures Distinct(MetricBase(name, value, environment, zone, now))
    ensures Get(MetricBase(name, value, environment, zone, now), k)
            == if k == "name" then Some(name)
               else if k == "environment" then Some(environment)
               else if k == "zone" then Some(zone)
               else if k == "timestamp" then Some(JStr(now))
               else if k == "__type" then Some(JStr("metric"))
               else if k == "value" then Some(value)
               else None
  {
    var p := MetricBase(name, value, environment, zone, now);
    RecordKeysDistinct();
    LiteralDict(p, RecordKeys);
    if k in RecordKeys {
      var i :| 0 <= i < |RecordKeys| && RecordKeys[i] == k;
      assert Get(p, RecordKeys[i]) == Some(p[i].1);
    }
  }

  lemma RecordKeysDistinct()
    ensures forall i, j :: 0 <= i < j < |RecordKeys| ==> RecordKeys[i] != RecordKeys[j]
  {
    assert forall i :: 0 <= i < |RecordKeys| ==> RecordKeys[i] != [] && RecordKeys[i][0] == "nezt_v"[i];
    DistinctInitials(RecordKeys);
  }

  /** A `Metric` whose `__type` keyword argument is not `metric` reads back
      as `None`. */
  lemma OtherTypeIgnored(name: Json, value: Json, environment: Json, zone: Json,
                         kwargs: Dict<Json>, now: string, later: string)
    requires MetricKwargs(kwargs)
    requires Canonical(name) && Canonical(value) && Canonical(environment) && Canonical(zone)
    requires MembersCanonical(kwargs)
    requires HasKey(kwargs, "__type") && Get(kwargs, "__type") != Some(JStr("metric"))
    ensures MessageOfText(Dumps(JObj(MetricItems(name, value, environment, zone, kwargs, now))), later) == Ok(None)
  {
    var m := MetricItems(name, value, environment, zone, kwargs, now);
    MetricItemsCanonical(name, value, environment, zone, kwargs, now);
    LoadsDumps(JObj(m));
    MetricItemsFields(name, value, environment, zone, kwargs, now);
  }

  lemma DecodesWhenCanonical(v: Json)
    ensures Canonical(v) ==> Loads(Dumps(v)) == Some(v)
  {
    if Canonical(v) {
      LoadsDumps(v);
    }
  }

  /** The argument of `get_message`: a JSON text, or a dict the caller
      holds (which `get_message` changes). */
  datatype Message = Text(text: string) | Object(record: Record)

  /** What `get_message` returns for a JSON text, as the items of the record
      it builds: `None` for text that is not JSON; `pop` on a decoded list
      or scalar fails as it does in Python. */
  function MessageOfText(s: string, now: string): (r: Result<Option<Dict<Json>>, PyError>)
    ensures Loads(s).None? ==> r == Ok(None)
    ensures Loads(s).Some? && !Loads(s).value.JObj? ==> r.Err?
    ensures r.Ok? && r.value.Some? ==>
              Loads(s).Some? && Loads(s).value.JObj?
              && Get(Loads(s).value.members, "__type") == Some(JStr("metric"))
  {
    match Loads(s)
    case None => Ok(None)
    case Some(JObj(d)) => MessageOfDict(d, now)
    case Some(JArr(_)) => Err(TypeError("'str' object cannot be interpreted as an integer"))
    case Some(_) => Err(AttributeError("object has no attribute 'pop'"))
  }

  /** What `get_message` returns for a dict. */
  function MessageOfDict(d: Dict<Json>, now: string): (r: Result<Option<Dict<Json>>, PyError>)
    ensures Get(d, "__type").None? ==> r == Err(KeyError("__type"))
    ensures Get(d, "__type").Some? && Get(d, "__type") != Some(JStr("metric")) ==> r == Ok(None)
    ensures r.Ok? && r.value.Some? ==> Get(d, "__type") == Some(JStr("metric"))
  {
    match Get(d, "__type")
    case None => Err(KeyError("__type"))
    case Some(typ) =>
      if typ != JStr("metric") then Ok(None)
      else
        match MetricCall(Remove(d, "__type"), now)
        case Err(e) => Err(e)
        case Ok(m) => Ok(Some(m))
  }

  /** The keyword arguments left for `**kwargs` once `Metric(**d)` binds its
      named parameters. */
  function ExtraKwargs(d: Dict<Json>): Dict<Json>
  {
    Remove(Remove(Remove(Remove(d, "name"), "value"), "environment"), "zone")
  }

  /** `Metric(**d)`: what the new record holds, or the `TypeError` of a call
      that binds `self` twice or misses a required argument. */
  function MetricCall(d: Dict<Json>, now: string): (r: Result<Dict<Json>, PyError>)
    ensures r.Err? <==> HasKey(d, "self") || !HasKey(d, "name") || !HasKey(d, "value")
    ensures r.Err? ==> r.error.TypeError?
  {
    if HasKey(d, "self") then Err(TypeError("got multiple values for argument 'self'"))
    else if !HasKey(d, "name") || !HasKey(d, "value") then Err(TypeError("missing a required argument"))
    else Ok(MetricItems(Get(d, "name").value, Get(d, "value").value,
                        GetOr(d, "environment", JNull), GetOr(d, "zone", JNull), ExtraKwargs(d), now))
  }

  /** The keyword arguments `Metric(**d)` passes on are the ones Python
      accepts for it. */
  lemma ExtraKwargsAccepted(d: Dict<Json>)
    requires Distinct(d) && !HasKey(d, "self")
    ensures MetricKwargs(ExtraKwargs(d))
  {
    GetExtraKwargs(d, "self");
    GetExtraKwargs(d, "name");
    GetExtraKwargs(d, "value");
    GetExtraKwargs(d, "environment");
    GetExtraKwargs(d, "zone");
  }

  /** Binding the named parameters takes their keys out of the dict and
      keeps the rest. */
  lemma GetExtraKwargs(d: Dict<Json>, k: string)
    requires Distinct(d)
    ensures Distinct(ExtraKwargs(d))
    ensures Get(ExtraKwargs(d), k)
            == if k == "name" || k == "value" || k == "environment" || k == "zone" then None else Get(d, k)
  {
    var d1 := Remove(d, "name");
    var d2 := Remove(d1, "value");
    var d3 := Remove(d2, "environment");
    RemoveKeepsDistinct(d, "name");
    RemoveKeepsDistinct(d1, "value");
    RemoveKeepsDistinct(d2, "environment");
    RemoveKeepsDistinct(d3, "zone");
    GetRemove(d, "name", k);
    GetRemove(d1, "value", k);
    GetRemove(d2, "environment", k);
    GetRemove(d3, "zone", k);
  }

  /** `Metric(**d)` as a call: binds the arguments and builds the record. */
  method CallMetric(d: Dict<Json>, now: string) returns (r: Result<Record, PyError>)
    requires Distinct(d)
    ensures MetricCall(d, now).Err? ==> r == Err(MetricCall(d, now).error)
    ensures MetricCall(d, now).Ok? ==> r.Ok? && fresh(r.value) && r.value.items == MetricCall(d, now).value
    ensures r.Ok? ==> r.value.Valid()
  {
    if HasKey(d, "self") {
      return Err(TypeError("got multiple values for argument 'self'"));
    }
    if !HasKey(d, "name") || !HasKey(d, "value") {
      return Err(TypeError("missing a required argument"));
    }
    ExtraKwargsAccepted(d);
    var m := new Record.Metric(Get(d, "name").value, Get(d, "value").value,
                               GetOr(d, "environment", JNull), GetOr(d, "zone", JNull), ExtraKwargs(d), now);
    return Ok(m);
  }

  /** `get_message(msg)` with the clock reading `now`. A dict argument loses
      its `__type` in place, whether or not a record is then built. */
  method GetMessage(msg: Message, now: string) returns (r: Result<Option<Record>, PyError>)
    requires msg.Object? ==> msg.record.Valid()
    modifies if msg.Object? then {msg.record} else {}
    ensures msg.Object? ==>
      msg.record.items == if HasKey(old(msg.record.items), "__type") then Remove(old(msg.record.items), "__type")
                          else old(msg.record.items)
    ensures var spec := if msg.Text? then MessageOfText(msg.text, now) else MessageOfDict(old(msg.record.items), now);
      && (spec.Err? ==> r == Err(spec.error))
      && (spec.Ok? && spec.value.None? ==> r == Ok(None))
      && (spec.Ok? && spec.value.Some? ==>
            r.Ok? && r.value.Some? && fresh(r.value.value) && r.value.value.items == spec.value.value)
    ensures r.Ok? && r.value.Some? ==> r.value.value.Valid()
  {
    var rec: Record;
    if msg.Text? {
      var v := Loads(msg.text);
      if v.None? {
        return Ok(None);
      }
      if v.value.JArr? {
        return Err(TypeError("'str' object cannot be interpreted as an integer"));
      } else if !v.value.JObj? {
        return Err(AttributeError("object has no attribute 'pop'"));
      }
      LoadsObjectDistinct(msg.text);
      rec := new Record.FromItems(v.value.members);
    } else {
      rec := msg.record;
    }
    ghost var before := rec.items;
    var typ := rec.Pop("__type");
    if typ.Err? {
      return Err(typ.error);
    }
    if typ.value != JStr("metric") {
      return Ok(None);
    }
    RemoveKeepsDistinct(before, "__type");
    var m := CallMetric(rec.items, now);
    if m.Err? {
      return Err(m.error);
    }
    return Ok(Some(m.value));
  }
}
