/** The module-level `dumps` and `loads`: the JSON library with `_default`
    and `_object_hook` plugged in, and `SerializableMixin.loads`, which uses
    the library without the hook. The JSON text itself is not modelled: a
    document is its parsed tree. */
module Codec {
  import opened Dicts
  import opened Values
  import opened Names
  import opened Mixin
  import opened Hooks

  /** `json.loads` without a hook: arrays become lists and objects become
      dicts, with a repeated key keeping its first position and last value. */
  function Parse(j: Json): (v: Value)
    ensures j.JObject? <==> v.Dict?
    ensures v.Dict? ==> DistinctKeys(v.entries)
  {
    match j
    case JNull => Null
    case JBool(b) => Bool(b)
    case JInt(i) => Int(i)
    case JFloat(f) => Float(f)
    case JString(s) => Str(s)
    case JArray(items) => List(seq(|items|, i requires 0 <= i < |items| => Parse(items[i])))
    case JObject(ms) =>
      var vs := seq(|ms|, i requires 0 <= i < |ms| => Parse(ms[i].1));
      Dict(FromPairs(Zip(Keys(ms), vs)))
  }

  /** `loads = partial(json.loads, object_hook=_object_hook)`: the hook is
      applied to every object once its members are decoded, innermost
      first; the first exception raised ends decoding. */
  function Decode(j: Json): (r: Result<Value>)
    ensures r.Ok? && j.JArray? ==> r.value.List? && |r.value.items| == |j.items|
    ensures r.Ok? && j.JObject? ==> (r.value.Dict? <==> TypeAttr !in Keys(j.members))
  {
    match j
    case JNull => Ok(Null)
    case JBool(b) => Ok(Bool(b))
    case JInt(i) => Ok(Int(i))
    case JFloat(f) => Ok(Float(f))
    case JString(s) => Ok(Str(s))
    case JArray(items) =>
      var vs :- AllOk(seq(|items|, i requires 0 <= i < |items| => Decode(items[i])));
      Ok(List(vs))
    case JObject(ms) =>
      var vs :- AllOk(seq(|ms|, i requires 0 <= i < |ms| => Decode(ms[i].1)));
      FromPairsKeys(Zip(Keys(ms), vs), TypeAttr);
      ObjectHookOf(FromPairs(Zip(Keys(ms), vs)))
  }

  /** `dumps = partial(json.dumps, default=_default)` with simplejson, the
      library imported first: JSON values are written as they are, in
      order. simplejson calls an object's `_asdict` method itself (its
      `namedtuple_as_object` default), writing the result when it is a dict
      and raising TypeError otherwise. Anything else is replaced by what
      `_default` returns and written in its place. */
  function Encode(v: Value): (r: Result<Json>)
    decreases Depth(v)
    ensures r.Ok? && v.List? ==> r.value.JArray? && |r.value.items| == |v.items|
    ensures r.Ok? && v.Dict? ==> r.value.JObject? && Keys(r.value.members) == Keys(v.entries)
  {
    match v
    case Null => Ok(JNull)
    case Bool(b) => Ok(JBool(b))
    case Int(i) => Ok(JInt(i))
    case Float(f) => Ok(JFloat(f))
    case Str(s) => Ok(JString(s))
    case List(items) =>
      var js :- AllOk(seq(|items|, i requires 0 <= i < |items| => ItemShallower(items, i); Encode(items[i])));
      Ok(JArray(js))
    case Dict(entries) =>
      var js :- AllOk(seq(|entries|, i requires 0 <= i < |entries| => EntryShallower(entries, i); Encode(entries[i].1)));
      Ok(JObject(Zip(Keys(entries), js)))
    case Opaque(_, Some(d)) =>
      if d.Dict? then Encode(d) else Err(TypeError(AsDictNotDict(d)))
    case _ =>
      var w :- Default(v);
      DefaultShrinks(v);
      Encode(w)
  }

  /** Writing a dict whose values are written as the values of `ms`, key by key. */
  lemma EncodeDict(entries: seq<(string, Value)>, ms: seq<(string, Json)>)
    requires Keys(entries) == Keys(ms)
    requires forall i :: 0 <= i < |ms| ==> Encode(entries[i].1) == Ok(ms[i].1)
    ensures Encode(Dict(entries)) == Ok(JObject(ms))
  {
    var js := seq(|ms|, i requires 0 <= i < |ms| => ms[i].1);
    AllOkOfOks(seq(|entries|, i requires 0 <= i < |entries| => EntryShallower(entries, i); Encode(entries[i].1)), js);
    assert Zip(Keys(entries), js) == ms;
  }

  /** Decoding an object whose members decode to the values of `entries`,
      key by key, hands `dict(entries)` to the hook. */
  lemma DecodeObject(ms: seq<(string, Json)>, entries: seq<(string, Value)>)
    requires Keys(entries) == Keys(ms)
    requires forall i :: 0 <= i < |ms| ==> Decode(ms[i].1) == Ok(entries[i].1)
    ensures Decode(JObject(ms)) == ObjectHookOf(FromPairs(entries))
  {
    var vs := seq(|ms|, i requires 0 <= i < |ms| => entries[i].1);
    AllOkOfOks(seq(|ms|, i requires 0 <= i < |ms| => Decode(ms[i].1)), vs);
    var z := Zip(Keys(ms), vs);
    forall i | 0 <= i < |ms| ensures z[i] == entries[i] {
      assert z[i].0 == Keys(ms)[i] == Keys(entries)[i] == entries[i].0;
    }
    assert z == entries;
  }

  lemma EncodeList(items: seq<Value>, js: seq<Json>)
    requires |items| == |js|
    requires forall i :: 0 <= i < |js| ==> Encode(items[i]) == Ok(js[i])
    ensures Encode(List(items)) == Ok(JArray(js))
  {
    AllOkOfOks(seq(|items|, i requires 0 <= i < |items| => ItemShallower(items, i); Encode(items[i])), js);
  }

  lemma DecodeArray(js: seq<Json>, items: seq<Value>)
    requires |items| == |js|
    requires forall i :: 0 <= i < |js| ==> Decode(js[i]) == Ok(items[i])
    ensures Decode(JArray(js)) == Ok(List(items))
  {
    AllOkOfOks(seq(|js|, i requires 0 <= i < |js| => Decode(js[i])), items);
  }

  /** The members `_datetime_asdict` produces, as written to JSON. */
  function DateTimeMembers(ts: real): seq<(string, Json)> {
    [(TypeAttr, JString(DateTimeName)), (TimestampAttr, JFloat(ts))]
  }

  /** An object tagged as a synthesised record: its fields, then a dotted
      `__type__` that `_make_type` accepts with those fields as slots. */
  ghost predicate RecordShape(ms: seq<(string, Json)>) {
    && |ms| > 0
    && var last := ms[|ms| - 1];
    && last.0 == TypeAttr
    && last.1.JString?
    && '.' in last.1.s
    && MakeType(last.1.s, Keys(ms[..|ms| - 1])).Ok?
    && "self" !in Keys(ms[..|ms| - 1])
  }

  /** The documents `dumps` can produce: objects without repeated keys
      whose `__type__`, if any, is a datetime's or a record's, written as
      `_default` writes it. */
  ghost predicate WellTagged(j: Json) {
    match j
    case JArray(items) => forall i :: 0 <= i < |items| ==> WellTagged(items[i])
    case JObject(ms) =>
      && DistinctKeys(ms)
      && (forall i :: 0 <= i < |ms| ==> WellTagged(ms[i].1))
      && (TypeAttr !in Keys(ms) || (exists ts :: ms == DateTimeMembers(ts)) || RecordShape(ms))
    case _ => true
  }

  /** Decoding a document `dumps` can produce succeeds, and writing the
      decoded value gives the document back. */
  lemma {:induction false} RoundTrip(j: Json)
    requires WellTagged(j)
    ensures Decode(j).Ok? && Encode(Decode(j).value) == Ok(j)
  {
    match j
    case JArray(js) =>
      forall i | 0 <= i < |js| ensures Decode(js[i]).Ok? && Encode(Decode(js[i]).value) == Ok(js[i]) {
        RoundTrip(js[i]);
      }
      var items := seq(|js|, i requires 0 <= i < |js| => Decode(js[i]).value);
      DecodeArray(js, items);
      EncodeList(items, js);
    case JObject(ms) =>
      forall i | 0 <= i < |ms| ensures Decode(ms[i].1).Ok? && Encode(Decode(ms[i].1).value) == Ok(ms[i].1) {
        RoundTrip(ms[i].1);
      }
      var entries := seq(|ms|, i requires 0 <= i < |ms| => (ms[i].0, Decode(ms[i].1).value));
      assert Keys(entries) == Keys(ms);
      DecodeObject(ms, entries);
      FromPairsOfDistinct(entries);
      if TypeAttr !in Keys(ms) {
        ObjectHookPassthrough(entries);
        EncodeDict(entries, ms);
      } else if ts :| ms == DateTimeMembers(ts) {
        DateTimeObject(ms, entries, ts);
      } else {
        RecordObject(ms, entries);
      }
    case _ =>
  }

  lemma DateTimeObject(ms: seq<(string, Json)>, entries: seq<(string, Value)>, ts: real)
    requires ms == DateTimeMembers(ts) && Keys(entries) == Keys(ms)
    requires forall i :: 0 <= i < |ms| ==> Decode(ms[i].1) == Ok(entries[i].1)
    ensures ObjectHookOf(entries) == Ok(DateTime(ts))
    ensures Encode(DateTime(ts)) == Ok(JObject(ms))
  {
    var d := DateTimeAsDict(ts);
    assert entries == d by {
      DecodeString(DateTimeName);
      assert Decode(JFloat(ts)) == Ok(Float(ts));
      assert entries[0] == d[0];
      assert entries[1] == d[1];
    }
    DateTimeRoundTrip(ts);
    DateTimeEncoded(ts);
  }

  /** `dumps` writes a datetime as the two members of `_datetime_asdict`. */
  lemma DateTimeEncoded(ts: real)
    ensures Encode(DateTime(ts)) == Ok(JObject(DateTimeMembers(ts)))
  {
    var d := DateTimeAsDict(ts);
    var ms := DateTimeMembers(ts);
    assert Default(DateTime(ts)) == Ok(Dict(d));
    assert Encode(DateTime(ts)) == Encode(Dict(d)) by {
      EncodeByDefault(DateTime(ts));
    }
    assert Keys(d) == Keys(ms) by {
      assert Keys(d) == [TypeAttr, TimestampAttr] == Keys(ms);
    }
    assert Encode(d[0].1) == Ok(ms[0].1) && Encode(d[1].1) == Ok(ms[1].1);
    EncodeDict(d, ms);
  }

  lemma RecordObject(ms: seq<(string, Json)>, entries: seq<(string, Value)>)
    requires DistinctKeys(ms) && RecordShape(ms) && Keys(entries) == Keys(ms)
    requires forall i :: 0 <= i < |ms| ==> Decode(ms[i].1) == Ok(entries[i].1)
    requires forall i :: 0 <= i < |ms| ==> Encode(entries[i].1) == Ok(ms[i].1)
    ensures ObjectHookOf(entries).Ok? && Encode(ObjectHookOf(entries).value) == Ok(JObject(ms))
  {
    RecordExported(ms, entries);
    var v := ObjectHookOf(entries).value;
    EncodeByDefault(v);
    EncodeDict(entries, ms);
  }

  /** A record-tagged object decodes to an instance that `_default` turns
      back into the same dict. */
  lemma RecordExported(ms: seq<(string, Json)>, entries: seq<(string, Value)>)
    requires DistinctKeys(ms) && RecordShape(ms) && Keys(entries) == Keys(ms)
    requires forall i :: 0 <= i < |ms| ==> Decode(ms[i].1) == Ok(entries[i].1)
    ensures ObjectHookOf(entries).Ok? && ObjectHookOf(entries).value.Instance?
    ensures Default(ObjectHookOf(entries).value) == Ok(Dict(entries))
  {
    var n := |ms| - 1;
    var full := ms[n].1.s;
    var rest := entries[..n];
    assert entries[n] == (TypeAttr, Str(full)) by {
      assert Decode(ms[n].1) == Ok(Str(full));
      assert entries[n].0 == Keys(entries)[n] == Keys(ms)[n];
    }
    Snoc(entries);
    assert DistinctKeys(entries) by {
      assert forall i :: 0 <= i < |ms| ==> entries[i].0 == Keys(entries)[i] == Keys(ms)[i] == ms[i].0;
    }
    assert TypeAttr !in Keys(rest) by {
      assert forall i :: 0 <= i < n ==> Keys(rest)[i] == entries[i].0;
    }
    AppendNew(rest, TypeAttr, Str(full));
    KeysPrefix(entries, ms, n);
    DottedNotDateTime(full);
    ObjectHookRecord(entries, full);
    RecordReExport(entries, full);
  }

  /** A datetime, a mixin instance (whose `_asdict` is `_default`'s) and an
      object without `_asdict` are written as what `_default` makes of them. */
  lemma EncodeByDefault(v: Value)
    requires v.DateTime? || v.Instance? || (v.Opaque? && v.asdict.None?)
    ensures Encode(v) == match Default(v) case Ok(w) => Encode(w) case Err(e) => Err(e)
  {
  }

  /** `dumps` of a list stops at the first item it cannot write: an item
      with neither a JSON form nor `_asdict` is named in the TypeError. */
  lemma ListRejects(items: seq<Value>, k: nat)
    requires k < |items| && items[k].Opaque? && items[k].asdict.None?
    requires forall i :: 0 <= i < k ==> Encode(items[i]).Ok?
    ensures Encode(List(items)) == Err(TypeError(NotSerializable(items[k])))
  {
    var rs := seq(|items|, i requires 0 <= i < |items| => ItemShallower(items, i); Encode(items[i]));
    assert rs[k] == Err(TypeError(NotSerializable(items[k]))) by {
      EncodeByDefault(items[k]);
    }
    FirstFailureAt(rs, k);
  }

  /** `dumps` of a dict writes its values in order and stops at the first
      one it cannot write, naming it in the TypeError. */
  lemma DictRejects(entries: seq<(string, Value)>, k: nat)
    requires k < |entries| && entries[k].1.Opaque? && entries[k].1.asdict.None?
    requires forall i :: 0 <= i < k ==> Encode(entries[i].1).Ok?
    ensures Encode(Dict(entries)) == Err(TypeError(NotSerializable(entries[k].1)))
  {
    var rs := seq(|entries|, i requires 0 <= i < |entries| => EntryShallower(entries, i); Encode(entries[i].1));
    assert rs[k] == Err(TypeError(NotSerializable(entries[k].1))) by {
      EncodeByDefault(entries[k].1);
    }
    FirstFailureAt(rs, k);
  }

  /** A document in which no object has a `__type__` key. */
  ghost predicate Untagged(j: Json) {
    match j
    case JArray(items) => forall i :: 0 <= i < |items| ==> Untagged(items[i])
    case JObject(ms) => TypeAttr !in Keys(ms) && forall i :: 0 <= i < |ms| ==> Untagged(ms[i].1)
    case _ => true
  }

  /** Without tags the hook changes nothing: `loads` decodes a document as
      the JSON library alone does. */
  lemma {:induction false} DecodeUntagged(j: Json)
    requires Untagged(j)
    ensures Decode(j) == Ok(Parse(j))
  {
    match j
    case JArray(js) =>
      forall i | 0 <= i < |js| ensures Decode(js[i]) == Ok(Parse(js[i])) {
        DecodeUntagged(js[i]);
      }
      DecodeArray(js, seq(|js|, i requires 0 <= i < |js| => Parse(js[i])));
    case JObject(ms) =>
      forall i | 0 <= i < |ms| ensures Decode(ms[i].1) == Ok(Parse(ms[i].1)) {
        DecodeUntagged(ms[i].1);
      }
      var vs := seq(|ms|, i requires 0 <= i < |ms| => Parse(ms[i].1));
      var entries := Zip(Keys(ms), vs);
      DecodeObject(ms, entries);
      FromPairsKeys(entries, TypeAttr);
      ObjectHookPassthrough(FromPairs(entries));
    case _ =>
  }

  /** The values `loads` can produce and `dumps` can write: dicts without
      `__type__`, datetimes, and synthesised records, nested in lists and
      dicts and in the records' fields. */
  ghost predicate Canonical(v: Value) {
    match v
    case List(items) => forall i :: 0 <= i < |items| ==> Canonical(items[i])
    case Dict(entries) =>
      && DistinctKeys(entries)
      && TypeAttr !in Keys(entries)
      && forall i :: 0 <= i < |entries| ==> Canonical(entries[i].1)
    case Instance(cls, attrs) =>
      SynthesisedRecord(cls, attrs) && forall i :: 0 <= i < |attrs| ==> Canonical(attrs[i].1)
    case Opaque(_, _) => false
    case _ => true
  }

  /** `loads(dumps(v)) == v`: writing such a value succeeds, and decoding
      the document gives the value back. */
  lemma {:induction false} EncodeThenDecode(v: Value)
    requires Canonical(v)
    ensures Encode(v).Ok? && Decode(Encode(v).value) == Ok(v)
    decreases Depth(v)
  {
    match v
    case List(items) =>
      forall i | 0 <= i < |items| ensures Encode(items[i]).Ok? && Decode(Encode(items[i]).value) == Ok(items[i]) {
        ItemShallower(items, i);
        EncodeThenDecode(items[i]);
      }
      ListThenDecode(items);
    case Dict(entries) =>
      forall i | 0 <= i < |entries| ensures Encode(entries[i].1).Ok? && Decode(Encode(entries[i].1).value) == Ok(entries[i].1) {
        EntryShallower(entries, i);
        EncodeThenDecode(entries[i].1);
      }
      DictThenDecode(entries);
    case DateTime(ts) =>
      DateTimeThenDecode(ts);
    case Instance(cls, attrs) =>
      forall i | 0 <= i < |attrs| ensures Encode(attrs[i].1).Ok? && Decode(Encode(attrs[i].1).value) == Ok(attrs[i].1) {
        AttrShallower(cls, attrs, i);
        EncodeThenDecode(attrs[i].1);
      }
      RecordThenDecode(cls, attrs);
    case _ =>
  }

  lemma ListThenDecode(items: seq<Value>)
    requires forall i :: 0 <= i < |items| ==> Encode(items[i]).Ok? && Decode(Encode(items[i]).value) == Ok(items[i])
    ensures Encode(List(items)).Ok? && Decode(Encode(List(items)).value) == Ok(List(items))
  {
    var js := seq(|items|, i requires 0 <= i < |items| => Encode(items[i]).value);
    EncodeList(items, js);
    DecodeArray(js, items);
  }

  lemma DictThenDecode(entries: seq<(string, Value)>)
    requires DistinctKeys(entries) && TypeAttr !in Keys(entries)
    requires forall i :: 0 <= i < |entries| ==> Encode(entries[i].1).Ok? && Decode(Encode(entries[i].1).value) == Ok(entries[i].1)
    ensures Encode(Dict(entries)).Ok? && Decode(Encode(Dict(entries)).value) == Ok(Dict(entries))
  {
    var ms := seq(|entries|, i requires 0 <= i < |entries| => (entries[i].0, Encode(entries[i].1).value));
    assert Keys(ms) == Keys(entries);
    EncodeDict(entries, ms);
    assert Decode(JObject(ms)) == ObjectHookOf(FromPairs(entries)) by {
      DecodeObject(ms, entries);
    }
    FromPairsOfDistinct(entries);
    ObjectHookPassthrough(entries);
  }

  lemma DateTimeThenDecode(ts: real)
    ensures Encode(DateTime(ts)) == Ok(JObject(DateTimeMembers(ts)))
    ensures Decode(JObject(DateTimeMembers(ts))) == Ok(DateTime(ts))
  {
    var ms := DateTimeMembers(ts);
    var d := DateTimeAsDict(ts);
    assert Keys(d) == Keys(ms) by {
      assert Keys(d) == [TypeAttr, TimestampAttr] == Keys(ms);
    }
    assert Decode(ms[0].1) == Ok(d[0].1) && Decode(ms[1].1) == Ok(d[1].1);
    assert Decode(JObject(ms)) == ObjectHookOf(FromPairs(d)) by {
      DecodeObject(ms, d);
    }
    assert FromPairs(d) == d by {
      assert d[0].0 != d[1].0;
      FromPairsOfDistinct(d);
    }
    DateTimeRoundTrip(ts);
    DateTimeEncoded(ts);
  }

  lemma RecordThenDecode(cls: Class, attrs: seq<(string, Value)>)
    requires SynthesisedRecord(cls, attrs)
    requires forall i :: 0 <= i < |attrs| ==> Encode(attrs[i].1).Ok? && Decode(Encode(attrs[i].1).value) == Ok(attrs[i].1)
    ensures Encode(Instance(cls, attrs)).Ok? && Decode(Encode(Instance(cls, attrs)).value) == Ok(Instance(cls, attrs))
  {
    var d := attrs + [(TypeAttr, TypeTag(cls))];
    var ms := seq(|d|, i requires 0 <= i < |d| => (d[i].0, Encode(d[i].1).value));
    assert Keys(ms) == Keys(d);
    forall i | 0 <= i < |d| ensures Encode(d[i].1) == Ok(ms[i].1) && Decode(ms[i].1) == Ok(d[i].1) {
      if i < |attrs| {
        assert d[i] == attrs[i];
      }
    }
    RecordWritten(cls, attrs, ms);
    RecordRead(cls, attrs, ms);
  }

  /** `loads(dumps(o))` for an instance `o` of any mixin class, with slots
      or without: an instance of the type synthesised from the class's
      module and name, whose slots and fields are `o._get_data()`, when
      those names are slots `type()` accepts other than `__type__` and
      `self`, the class name holds no dot or NUL, and the exported values
      are themselves canonical. */
  lemma MixinThenDecode(cls: Class, attrs: seq<(string, Value)>)
    requires GetData(cls, attrs).Ok?
    requires var d := GetData(cls, attrs).value;
      && TypeAttr !in Keys(d) && "self" !in Keys(d)
      && (forall i :: 0 <= i < |d| ==> AcceptedSlot(d[i].0) && Canonical(d[i].1))
    requires '.' !in cls.name && '\0' !in cls.name
    ensures var d := GetData(cls, attrs).value;
      && Encode(Instance(cls, attrs)).Ok?
      && Decode(Encode(Instance(cls, attrs)).value) == Ok(Instance(Class(cls.moduleName, cls.name, Some(Keys(d))), d))
  {
    var d := GetData(cls, attrs).value;
    var c := Class(cls.moduleName, cls.name, Some(Keys(d)));
    assert SynthesisedRecord(c, d);
    assert Encode(Instance(cls, attrs)) == Encode(Instance(c, d)) by {
      AsDictOfRecord(c, d);
      AppendNew(d, TypeAttr, TypeTag(cls));
      EncodeByDefault(Instance(cls, attrs));
      EncodeByDefault(Instance(c, d));
    }
    forall i | 0 <= i < |d| ensures Encode(d[i].1).Ok? && Decode(Encode(d[i].1).value) == Ok(d[i].1) {
      EncodeThenDecode(d[i].1);
    }
    RecordThenDecode(c, d);
  }

  lemma RecordWritten(cls: Class, attrs: seq<(string, Value)>, ms: seq<(string, Json)>)
    requires SynthesisedRecord(cls, attrs)
    requires var d := attrs + [(TypeAttr, TypeTag(cls))];
      Keys(ms) == Keys(d) && forall i :: 0 <= i < |d| ==> Encode(d[i].1) == Ok(ms[i].1)
    ensures Encode(Instance(cls, attrs)) == Ok(JObject(ms))
  {
    RecordReImport(cls, attrs);
    EncodeByDefault(Instance(cls, attrs));
    EncodeDict(attrs + [(TypeAttr, TypeTag(cls))], ms);
  }

  lemma RecordRead(cls: Class, attrs: seq<(string, Value)>, ms: seq<(string, Json)>)
    requires SynthesisedRecord(cls, attrs)
    requires var d := attrs + [(TypeAttr, TypeTag(cls))];
      Keys(ms) == Keys(d) && forall i :: 0 <= i < |d| ==> Decode(ms[i].1) == Ok(d[i].1)
    ensures Decode(JObject(ms)) == Ok(Instance(cls, attrs))
  {
    var d := attrs + [(TypeAttr, TypeTag(cls))];
    assert Decode(JObject(ms)) == ObjectHookOf(FromPairs(d)) by {
      DecodeObject(ms, d);
    }
    assert FromPairs(d) == d by {
      AppendNew(attrs, TypeAttr, TypeTag(cls));
      FromPairsOfDistinct(d);
    }
    assert ObjectHookOf(d) == Ok(Instance(cls, attrs)) by {
      RecordReImport(cls, attrs);
    }
  }

  /** A document object whose `__type__` is anything but `"datetime"`
      decodes, when it decodes at all, to a record whose fields are exactly
      the other keys of `dict(members)`, in order, each holding the decoded
      value of that key's last member. */
  lemma DecodedRecordFields(ms: seq<(string, Json)>, full: string, v: Value)
    requires Lookup(FromPairs(ms), TypeAttr) == Some(JString(full)) && full != DateTimeName
    requires Decode(JObject(ms)) == Ok(v)
    ensures v.Instance? && Keys(v.attrs) == Keys(Remove(FromPairs(ms), TypeAttr))
    ensures var d := FromPairs(ms);
      forall i :: 0 <= i < |d| && d[i].0 != TypeAttr ==>
        Lookup(v.attrs, d[i].0).Some? && Decode(d[i].1) == Ok(Lookup(v.attrs, d[i].0).value)
  {
    var e := DecodedDict(ms);
    HookedFields(FromPairs(ms), e, full, v);
  }

  /** The record the hook makes of a decoded dict `e` of `d`. */
  lemma HookedFields(d: seq<(string, Json)>, e: seq<(string, Value)>, full: string, v: Value)
    requires DistinctKeys(e) && |e| == |d|
    requires forall i :: 0 <= i < |e| ==> e[i].0 == d[i].0 && Decode(d[i].1) == Ok(e[i].1)
    requires Lookup(d, TypeAttr) == Some(JString(full)) && full != DateTimeName
    requires ObjectHookOf(e) == Ok(v)
    ensures v.Instance? && Keys(v.attrs) == Keys(Remove(d, TypeAttr))
    ensures forall i :: 0 <= i < |d| && d[i].0 != TypeAttr ==>
      Lookup(v.attrs, d[i].0).Some? && Decode(d[i].1) == Ok(Lookup(v.attrs, d[i].0).value)
  {
    SameKeysPointwise(e, d);
    HookedRecord(d, e, full, v);
    RemoveSameKeys(e, d, TypeAttr);
    HookedLookups(d, e, v.attrs);
  }

  /** The hook makes a record of `e` that holds `e` without its tag. */
  lemma HookedRecord(d: seq<(string, Json)>, e: seq<(string, Value)>, full: string, v: Value)
    requires DistinctKeys(e) && Keys(e) == Keys(d)
    requires forall i :: 0 <= i < |e| ==> Decode(d[i].1) == Ok(e[i].1)
    requires Lookup(d, TypeAttr) == Some(JString(full)) && full != DateTimeName
    requires ObjectHookOf(e) == Ok(v)
    ensures v.Instance? && v.attrs == Remove(e, TypeAttr)
  {
    HookedTag(d, e, full);
    ObjectHookRecord(e, full);
  }

  /** Every non-tag key of `d` looks up, in `e` without its tag, the decoded
      value of its member. */
  lemma HookedLookups(d: seq<(string, Json)>, e: seq<(string, Value)>, attrs: seq<(string, Value)>)
    requires DistinctKeys(e) && |e| == |d|
    requires forall i :: 0 <= i < |e| ==> e[i].0 == d[i].0 && Decode(d[i].1) == Ok(e[i].1)
    requires attrs == Remove(e, TypeAttr)
    ensures forall i :: 0 <= i < |d| && d[i].0 != TypeAttr ==>
      Lookup(attrs, d[i].0).Some? && Decode(d[i].1) == Ok(Lookup(attrs, d[i].0).value)
  {
    forall i | 0 <= i < |d| && d[i].0 != TypeAttr
      ensures Lookup(attrs, d[i].0) == Some(e[i].1)
    {
      LookupRemove(e, TypeAttr, d[i].0);
      LookupAt(e, i);
    }
  }

  /** A string tag decodes to the same string. */
  lemma HookedTag(d: seq<(string, Json)>, e: seq<(string, Value)>, full: string)
    requires Keys(e) == Keys(d)
    requires forall i :: 0 <= i < |e| ==> Decode(d[i].1) == Ok(e[i].1)
    requires Lookup(d, TypeAttr) == Some(JString(full))
    ensures Lookup(e, TypeAttr) == Some(Str(full))
  {
    var at := Find(d, TypeAttr);
    FindSameKeys(e, d, TypeAttr);
    assert d[at].1 == JString(full);
    DecodeString(full);
    assert e[at].1 == Str(full);
  }

  lemma DecodeString(s: string)
    ensures Decode(JString(s)) == Ok(Str(s))
  {
  }

  /** The dict the hook sees for an object that decodes: `dict(members)`
      with every value decoded. */
  lemma DecodedDict(ms: seq<(string, Json)>) returns (e: seq<(string, Value)>)
    requires Decode(JObject(ms)).Ok?
    ensures |e| == |FromPairs(ms)| && Decode(JObject(ms)) == ObjectHookOf(e)
    ensures forall i :: 0 <= i < |e| ==> e[i].0 == FromPairs(ms)[i].0 && Decode(FromPairs(ms)[i].1) == Ok(e[i].1)
  {
    var entries := DecodedMembers(ms);
    var f := (j: Json) => if Decode(j).Ok? then Decode(j).value else Null;
    assert Mapped(ms, entries, f) by {
      forall i | 0 <= i < |ms| ensures entries[i] == (ms[i].0, f(ms[i].1)) {
        assert entries[i].0 == Keys(entries)[i] == Keys(ms)[i];
      }
    }
    FromPairsMapped(ms, entries, f);
    e := FromPairs(entries);
    var d := FromPairs(ms);
    forall i | 0 <= i < |e| ensures Decode(d[i].1) == Ok(e[i].1) {
      FromPairsEntries(ms, i);
      var j :| 0 <= j < |ms| && ms[j] == d[i];
      assert Decode(ms[j].1).Ok?;
    }
  }

  /** An object decodes only when all its members do; the hook then sees
      their keys with the decoded values. */
  lemma DecodedMembers(ms: seq<(string, Json)>) returns (entries: seq<(string, Value)>)
    requires Decode(JObject(ms)).Ok?
    ensures Keys(entries) == Keys(ms)
    ensures forall i :: 0 <= i < |ms| ==> Decode(ms[i].1) == Ok(entries[i].1)
    ensures Decode(JObject(ms)) == ObjectHookOf(FromPairs(entries))
  {
    var rs := seq(|ms|, i requires 0 <= i < |ms| => Decode(ms[i].1));
    assert AllOk(rs).Ok?;
    var vs := AllOk(rs).value;
    entries := Zip(Keys(ms), vs);
    DecodeObject(ms, entries);
  }

  /** `SerializableMixin.loads(cls, json_data)`: the JSON library's `loads`,
      without the hook, then `pop('__type__')` on the result and
      `cls(**rest)`, which `construct` stands for. A dict without the key
      raises KeyError; a list refuses a string index; other values have no
      `pop`. */
  method MixinLoads(construct: seq<(string, Value)> -> Result<Value>, document: Json) returns (r: Result<Value>)
    ensures match Parse(document)
      case Dict(e) => r == if TypeAttr in Keys(e) then construct(Remove(e, TypeAttr)) else Err(KeyError(TypeAttr))
      case List(_) => r == Err(TypeError(PopIndexNotInteger))
      case _ => r == Err(AttributeError("pop"))
  {
    var parsed := Parse(document);
    match parsed {
      case Dict(e) =>
        var d := new PyDict(e);
        var tag := d.Pop(TypeAttr);
        if tag.None? {
          return Err(KeyError(TypeAttr));
        }
        r := construct(d.entries);
      case List(_) =>
        r := Err(TypeError(PopIndexNotInteger));
      case _ =>
        r := Err(AttributeError("pop"));
    }
  }

  /** The keyword arguments `Mixin.loads` passes are the document's keys
      other than `__type__`, each once, with the value it parses to. */
  lemma LoadsArguments(e: seq<(string, Value)>)
    requires DistinctKeys(e)
    ensures TypeAttr !in Keys(Remove(e, TypeAttr)) && DistinctKeys(Remove(e, TypeAttr))
    ensures forall k :: k != TypeAttr ==> Lookup(Remove(e, TypeAttr), k) == Lookup(e, k)
  {
    RemoveDistinct(e, TypeAttr);
    forall k | k != TypeAttr ensures Lookup(Remove(e, TypeAttr), k) == Lookup(e, k) {
      LookupRemove(e, TypeAttr, k);
    }
  }

  /** Values the JSON library writes and reads without any hook. */
  ghost predicate Plain(v: Value) {
    match v
    case List(items) => forall i :: 0 <= i < |items| ==> Plain(items[i])
    case Dict(entries) => DistinctKeys(entries) && forall i :: 0 <= i < |entries| ==> Plain(entries[i].1)
    case DateTime(_) => false
    case Instance(_, _) => false
    case Opaque(_, _) => false
    case _ => true
  }

  /** Plain values are written without `_default` and parse back as they were. */
  lemma {:induction false} ParseEncode(v: Value)
    requires Plain(v)
    ensures Encode(v).Ok? && Parse(Encode(v).value) == v
  {
    match v
    case List(items) =>
      forall i | 0 <= i < |items| ensures Encode(items[i]).Ok? && Parse(Encode(items[i]).value) == items[i] {
        ParseEncode(items[i]);
      }
      var js := seq(|items|, i requires 0 <= i < |items| => Encode(items[i]).value);
      EncodeList(items, js);
      ParseArray(js, items);
    case Dict(entries) =>
      forall i | 0 <= i < |entries| ensures Encode(entries[i].1).Ok? && Parse(Encode(entries[i].1).value) == entries[i].1 {
        ParseEncode(entries[i].1);
      }
      var ms := seq(|entries|, i requires 0 <= i < |entries| => (entries[i].0, Encode(entries[i].1).value));
      assert Keys(ms) == Keys(entries);
      EncodeDict(entries, ms);
      ParseObject(ms, entries);
      FromPairsOfDistinct(entries);
    case _ =>
  }

  lemma ParseArray(js: seq<Json>, items: seq<Value>)
    requires |items| == |js|
    requires forall i :: 0 <= i < |js| ==> Parse(js[i]) == items[i]
    ensures Parse(JArray(js)) == List(items)
  {
    assert seq(|js|, i requires 0 <= i < |js| => Parse(js[i])) == items;
  }

  lemma ParseObject(ms: seq<(string, Json)>, entries: seq<(string, Value)>)
    requires Keys(entries) == Keys(ms)
    requires forall i :: 0 <= i < |ms| ==> Parse(ms[i].1) == entries[i].1
    ensures Parse(JObject(ms)) == Dict(FromPairs(entries))
  {
    var vs := seq(|ms|, i requires 0 <= i < |ms| => Parse(ms[i].1));
    var z := Zip(Keys(ms), vs);
    forall i | 0 <= i < |ms| ensures z[i] == entries[i] {
      assert z[i].0 == Keys(ms)[i] == Keys(entries)[i] == entries[i].0;
    }
    assert z == entries;
  }

  /** `cls.loads(obj.dumps())` for an object whose exported state is plain
      data: the parsed document holds `__type__`, and what is left after the
      pop, the keyword arguments of `cls`, is `_get_data()` without any
      `__type__` item of its own. */
  lemma LoadsAfterDumps(cls: Class, attrs: seq<(string, Value)>)
    requires GetData(cls, attrs).Ok? && Plain(Dict(GetData(cls, attrs).value))
    ensures Encode(Instance(cls, attrs)).Ok?
    ensures var p := Parse(Encode(Instance(cls, attrs)).value);
      && p.Dict?
      && TypeAttr in Keys(p.entries)
      && Remove(p.entries, TypeAttr) == Remove(GetData(cls, attrs).value, TypeAttr)
  {
    var data := GetData(cls, attrs).value;
    var d := AsDictOf(cls, attrs).value;
    assert d == Put(data, TypeAttr, TypeTag(cls));
    assert Plain(Dict(d)) by {
      PutEntries(data, TypeAttr, TypeTag(cls));
      forall i | 0 <= i < |d| ensures Plain(d[i].1) {
        if d[i] != (TypeAttr, TypeTag(cls)) {
          var j :| 0 <= j < |data| && data[j] == d[i];
        }
      }
    }
    EncodeByDefault(Instance(cls, attrs));
    ParseEncode(Dict(d));
    AsDictSpec(cls, attrs);
    RemovePut(data, TypeAttr, TypeTag(cls));
  }
}
