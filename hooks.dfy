/** The two hooks handed to the JSON library: `_default` on the way out,
    `_object_hook` on the way in, with the datetime special case and the
    synthesis of record types (`_make_type`). */
module Hooks {
  import opened Dicts
  import opened Values
  import opened Names
  import opened Mixin

  /** `_datetime_asdict`: the tag `"datetime"` and the POSIX timestamp. */
  function DateTimeAsDict(ts: real): (d: seq<(string, Value)>)
    ensures DistinctKeys(d)
    ensures Lookup(d, TypeAttr) == Some(Str(DateTimeName))
    ensures Lookup(d, TimestampAttr) == Some(Float(ts))
  {
    var d := [(TypeAttr, Str(DateTimeName)), (TimestampAttr, Float(ts))];
    assert d[0].0 != d[1].0;
    FindIs(d, TypeAttr, 0);
    FindIs(d, TimestampAttr, 1);
    d
  }

  /** `_datetime_fromdict`: `datetime.fromtimestamp(d['timestamp'])`. A
      missing key raises KeyError; an int, a float or a bool (an int in
      Python) is a timestamp; anything else is refused with TypeError. */
  function DateTimeFromDict(d: seq<(string, Value)>): (r: Result<Value>)
    ensures r.Ok? ==> r.value.DateTime?
  {
    var found: Option<Value> := Lookup(d, TimestampAttr);
    match found
    case None => Err(KeyError(TimestampAttr))
    case Some(Int(i)) => Ok(DateTime(i as real))
    case Some(Float(f)) => Ok(DateTime(f))
    case Some(Bool(b)) => Ok(DateTime(if b then 1.0 else 0.0))
    case Some(x) => Err(TypeError(NotATimestamp(x)))
  }

  /** A tag with a dot in it is never the datetime tag. */
  lemma DottedNotDateTime(full: string)
    requires '.' in full
    ensures full != DateTimeName
  {
    assert '.' !in DateTimeName;
  }

  /** `_default`: a datetime becomes its tagged dict, anything with an
      `_asdict` method becomes what that method returns, and everything else
      raises TypeError. */
  function Default(v: Value): (r: Result<Value>)
    ensures r.Ok? <==>
      v.DateTime? || (v.Instance? && GetData(v.cls, v.attrs).Ok?) || (v.Opaque? && v.asdict.Some?)
    ensures r.Err? && !v.Instance? ==> r.error == TypeError(NotSerializable(v))
    ensures r.Err? && v.Instance? ==> r.error == GetData(v.cls, v.attrs).error
  {
    match v
    case DateTime(ts) => Ok(Dict(DateTimeAsDict(ts)))
    case Instance(cls, attrs) =>
      var d :- AsDictOf(cls, attrs);
      Ok(Dict(d))
    case Opaque(_, Some(d)) => Ok(d)
    case _ => Err(TypeError(NotSerializable(v)))
  }

  /** The first slot name `type()` refuses with a TypeError while it walks
      `__slots__`: one that is not an identifier, or `__dict__` or
      `__weakref__`, which the base class already provides. */
  function BadSlot(fields: seq<string>): (r: Option<Error>)
    ensures r.Some? ==> r.value.TypeError? && (r.value.typeCause.SlotNotIdentifier? || r.value.typeCause.SlotDisallowed?)
  {
    if fields == [] then None
    else if !IsIdentifier(fields[0]) then Some(TypeError(SlotNotIdentifier(fields[0])))
    else if fields[0] == "__dict__" || fields[0] == "__weakref__" then Some(TypeError(SlotDisallowed(fields[0])))
    else BadSlot(fields[1..])
  }

  /** The first slot name that collides with one of the class variables
      `_make_type` puts in the namespace, `__slots__` and `__module__`
      (ValueError). */
  function ConflictingSlot(fields: seq<string>): (r: Option<Error>)
    ensures r.Some? ==> r.value.ValueError? && r.value.valueCause.SlotConflictsWithClassVariable?
  {
    if fields == [] then None
    else if fields[0] == "__slots__" || fields[0] == "__module__" then
      Some(ValueError(SlotConflictsWithClassVariable(fields[0])))
    else ConflictingSlot(fields[1..])
  }

  /** A slot name the synthesised class can declare. */
  predicate AcceptedSlot(k: string) {
    IsIdentifier(k) && k != "__dict__" && k != "__weakref__" && k != "__slots__" && k != "__module__"
  }

  /** `_make_type(full_name, fields)`: `type(name, (_SerializableHook,),
      {'__slots__': fields, '__module__': module})` where `module, _, name =
      full_name.rpartition('.')`, with the checks `type()` makes in the order
      it makes them. */
  function MakeType(fullName: string, fields: seq<string>): (r: Result<Class>)
    ensures r.Ok? ==> r.value.slots == Some(fields) && '.' !in r.value.name && '\0' !in r.value.name
    ensures r.Err? ==> r.error.TypeError? || r.error.ValueError?
  {
    var parts := RPartition(fullName, '.');
    match BadSlot(fields)
    case Some(e) => Err(e)
    case None =>
      match ConflictingSlot(fields)
      case Some(e) => Err(e)
      case None =>
        if '\0' in parts.2 then Err(ValueError(NulInTypeName))
        else Ok(Class(parts.0, parts.2, Some(fields)))
  }

  /** `_object_hook`: an untagged mapping is returned as it is; otherwise the
      tag is popped, and the rest is a datetime or the instance of a type
      synthesised from the tag and the remaining keys. A tag that is not a
      string has no `rpartition`. */
  function ObjectHookOf(entries: seq<(string, Value)>): (r: Result<Value>)
    ensures TypeAttr !in Keys(entries) ==> r == Ok(Dict(entries))
    ensures r.Ok? && TypeAttr in Keys(entries) ==> r.value.DateTime? || r.value.Instance?
  {
    match Lookup(entries, TypeAttr)
    case None => Ok(Dict(entries))
    case Some(tag) =>
      var rest := Remove(entries, TypeAttr);
      if tag == Str(DateTimeName) then DateTimeFromDict(rest)
      else if !tag.Str? then Err(AttributeError("rpartition"))
      else
        var cls :- MakeType(tag.s, Keys(rest));
        Construct(cls, rest)
  }

  /** `_object_hook` as written: it pops the tag out of the dict it is given. */
  method ObjectHook(d: PyDict<Value>) returns (r: Result<Value>)
    requires d.Valid()
    modifies d
    ensures d.Valid()
    ensures r == ObjectHookOf(old(d.entries))
    ensures d.entries == Remove(old(d.entries), TypeAttr)
  {
    var tagged := d.Contains(TypeAttr);
    if !tagged {
      RemoveAbsent(d.entries, TypeAttr);
      return Ok(Dict(d.entries));
    }
    var typeName := d.Pop(TypeAttr);
    var tag := typeName.value;
    if tag == Str(DateTimeName) {
      return DateTimeFromDict(d.entries);
    }
    if !tag.Str? {
      return Err(AttributeError("rpartition"));
    }
    var made := MakeType(tag.s, Keys(d.entries));
    if made.Err? {
      return Err(made.error);
    }
    if "self" in Keys(d.entries) {
      return Err(TypeError(MultipleValuesForSelf));
    }
    var attrs := InitHook(d.entries);
    r := Ok(Instance(made.value, attrs));
  }

  lemma {:induction false} SlotChecks(fields: seq<string>)
    ensures BadSlot(fields).None? && ConflictingSlot(fields).None? <==>
      forall i :: 0 <= i < |fields| ==> AcceptedSlot(fields[i])
  {
    if fields != [] {
      SlotChecks(fields[1..]);
    }
  }

  /** `_make_type` splits the tag at its last dot: the module is what comes
      before it (`""` when there is no dot) and the name what follows; the
      slots are the given fields. It succeeds exactly when every field is an
      acceptable slot name and the name holds no NUL. */
  lemma MakeTypeSpec(fullName: string, fields: seq<string>)
    ensures var parts := RPartition(fullName, '.');
      MakeType(fullName, fields).Ok? <==>
        (forall i :: 0 <= i < |fields| ==> AcceptedSlot(fields[i])) && '\0' !in parts.2
    ensures MakeType(fullName, fields).Ok? ==>
      var c := MakeType(fullName, fields).value;
      && c.slots == Some(fields)
      && '.' !in c.name
      && ('.' in fullName ==> c.moduleName + "." + c.name == fullName)
      && ('.' !in fullName ==> c.moduleName == "" && c.name == fullName)
  {
    SlotChecks(fields);
  }

  /** A mapping without `__type__` comes back unchanged, and only such a
      mapping does. */
  lemma ObjectHookPassthrough(entries: seq<(string, Value)>)
    ensures ObjectHookOf(entries) == Ok(Dict(entries)) <==> TypeAttr !in Keys(entries)
  {
    if TypeAttr in Keys(entries) {
      var tag := Lookup(entries, TypeAttr).value;
      var rest := Remove(entries, TypeAttr);
      if tag != Str(DateTimeName) && tag.Str? && MakeType(tag.s, Keys(rest)).Ok? {
        var cls := MakeType(tag.s, Keys(rest)).value;
        assert ObjectHookOf(entries) == Construct(cls, rest);
      }
    }
  }

  /** For a tag other than `"datetime"`, the decoded instance has exactly the
      non-tag keys as its fields, in order, each holding its value; its class
      comes from `_make_type`. Decoding fails exactly when `type()` refuses
      the names or a field is called `self`. */
  lemma ObjectHookRecord(entries: seq<(string, Value)>, fullName: string)
    requires DistinctKeys(entries)
    requires Lookup(entries, TypeAttr) == Some(Str(fullName)) && fullName != DateTimeName
    ensures var rest := Remove(entries, TypeAttr);
      ObjectHookOf(entries).Ok? <==>
        MakeType(fullName, Keys(rest)).Ok? && "self" !in Keys(rest)
    ensures ObjectHookOf(entries).Ok? ==>
      var v := ObjectHookOf(entries).value;
      && v.Instance?
      && MakeType(fullName, Keys(v.attrs)) == Ok(v.cls)
      && v.attrs == Remove(entries, TypeAttr)
      && TypeAttr !in Keys(v.attrs)
      && DistinctKeys(v.attrs)
      && forall k :: Lookup(v.attrs, k) == if k == TypeAttr then None else Lookup(entries, k)
  {
    var rest := Remove(entries, TypeAttr);
    TaggedHook(entries, fullName);
    RemoveDistinct(entries, TypeAttr);
    assert FromPairs(rest) == rest by {
      FromPairsOfDistinct(rest);
    }
    forall k ensures Lookup(rest, k) == if k == TypeAttr then None else Lookup(entries, k) {
      LookupRemove(entries, TypeAttr, k);
    }
  }

  /** Re-exporting a synthesised record gives back the field map it was
      decoded from, with `__type__` moved to the end: the original tag when
      it holds a dot, `"." + tag` when it does not. */
  lemma RecordReExport(entries: seq<(string, Value)>, fullName: string)
    requires DistinctKeys(entries)
    requires Lookup(entries, TypeAttr) == Some(Str(fullName)) && fullName != DateTimeName
    requires ObjectHookOf(entries).Ok?
    ensures var v := ObjectHookOf(entries).value;
      var tag := if '.' in fullName then fullName else "." + fullName;
      Default(v) == Ok(Dict(Remove(entries, TypeAttr) + [(TypeAttr, Str(tag))]))
  {
    ObjectHookRecord(entries, fullName);
    var v := ObjectHookOf(entries).value;
    var tag := if '.' in fullName then fullName else "." + fullName;
    assert v.cls.slots == Some(Keys(v.attrs)) && TypeTag(v.cls) == Str(tag) by {
      MakeTypeSpec(fullName, Keys(v.attrs));
      SplitThenQualify(fullName);
    }
    assert AsDictOf(v.cls, v.attrs) == Ok(v.attrs + [(TypeAttr, Str(tag))]) by {
      AsDictOfRecord(v.cls, v.attrs);
    }
  }

  /** A `"datetime"` tag decodes from the `timestamp` key alone: without it
      the hook raises KeyError, and every other key is ignored. */
  lemma DateTimeHook(entries: seq<(string, Value)>, others: seq<(string, Value)>)
    requires Lookup(entries, TypeAttr) == Some(Str(DateTimeName))
    requires Lookup(others, TypeAttr) == Some(Str(DateTimeName))
    requires Lookup(others, TimestampAttr) == Lookup(entries, TimestampAttr)
    ensures TimestampAttr !in Keys(entries) ==> ObjectHookOf(entries) == Err(KeyError(TimestampAttr))
    ensures ObjectHookOf(entries) == ObjectHookOf(others)
  {
    DateTimeTagged(entries);
    DateTimeTagged(others);
    var found := Lookup(entries, TimestampAttr);
    assert DateTimeFromDict(Remove(entries, TypeAttr)) == DateTimeFromDict(Remove(others, TypeAttr)) by {
      FromTimestampLookup(Remove(entries, TypeAttr), found);
      FromTimestampLookup(Remove(others, TypeAttr), found);
    }
  }

  /** Unfolds `DateTimeFromDict` for a known lookup of `timestamp`. */
  lemma FromTimestampLookup(d: seq<(string, Value)>, found: Option<Value>)
    requires Lookup(d, TimestampAttr) == found
    ensures DateTimeFromDict(d) == match found
      case None => Err(KeyError(TimestampAttr))
      case Some(Int(i)) => Ok(DateTime(i as real))
      case Some(Float(f)) => Ok(DateTime(f))
      case Some(Bool(b)) => Ok(DateTime(if b then 1.0 else 0.0))
      case Some(x) => Err(TypeError(NotATimestamp(x)))
  {
  }

  /** Under a `"datetime"` tag the hook reads only `timestamp`. */
  lemma DateTimeTagged(entries: seq<(string, Value)>)
    requires Lookup(entries, TypeAttr) == Some(Str(DateTimeName))
    ensures ObjectHookOf(entries) == DateTimeFromDict(Remove(entries, TypeAttr))
    ensures Lookup(Remove(entries, TypeAttr), TimestampAttr) == Lookup(entries, TimestampAttr)
  {
    LookupRemove(entries, TypeAttr, TimestampAttr);
  }

  /** The encoder turns a datetime into a dict with exactly the keys
      `__type__` (`"datetime"`) and `timestamp`, and the decoder turns that
      dict back into the same datetime. */
  lemma DateTimeRoundTrip(ts: real)
    ensures Default(DateTime(ts)) == Ok(Dict(DateTimeAsDict(ts)))
    ensures Keys(DateTimeAsDict(ts)) == [TypeAttr, TimestampAttr]
    ensures ObjectHookOf(DateTimeAsDict(ts)) == Ok(DateTime(ts))
  {
    var d := DateTimeAsDict(ts);
    assert Keys(d) == [TypeAttr, TimestampAttr];
    assert Lookup(d, TypeAttr) == Some(Str(DateTimeName)) by {
      FindIs(d, TypeAttr, 0);
    }
    assert Lookup(d, TimestampAttr) == Some(Float(ts)) by {
      assert d[0].0 != TimestampAttr;
      FindIs(d, TimestampAttr, 1);
    }
    DateTimeTagged(d);
    FromTimestampLookup(Remove(d, TypeAttr), Some(Float(ts)));
  }

  /** Whatever `_default` returns nests less deeply than its input, so the
      JSON writer's calls of the hook come to an end. */
  lemma DefaultShrinks(v: Value)
    requires Default(v).Ok?
    ensures Depth(Default(v).value) < Depth(v)
  {
    match v
    case DateTime(ts) =>
      var d := DateTimeAsDict(ts);
      DictDepth(d);
      assert ValueDepths(d) == [0, 0];
      assert MaxOf([0, 0]) == 0 by {
        assert [0, 0][1..] == [0];
        assert [0][1..] == [];
      }
    case Instance(cls, attrs) =>
      var data := GetData(cls, attrs).value;
      GetDataDepth(cls, attrs);
      PutDepth(data, TypeAttr, TypeTag(cls));
      DictDepth(AsDictOf(cls, attrs).value);
      InstanceDepth(cls, attrs);
    case Opaque(_, _) =>
  }

  /** An instance of a type `_make_type` synthesises: its slots are the
      keys of its attributes in order, every one a name `type()` accepts and
      none of them `__type__` or `self`, and its name is dotless and free of
      NUL characters. */
  ghost predicate SynthesisedRecord(cls: Class, attrs: seq<(string, Value)>) {
    && DistinctKeys(attrs)
    && cls.slots == Some(Keys(attrs))
    && (forall i :: 0 <= i < |attrs| ==> AcceptedSlot(attrs[i].0))
    && TypeAttr !in Keys(attrs)
    && "self" !in Keys(attrs)
    && '.' !in cls.name
    && '\0' !in cls.name
  }

  /** `_make_type` given a synthesised type's own tag and slots builds that
      type again. */
  lemma MakeTypeOfTag(cls: Class, attrs: seq<(string, Value)>)
    requires SynthesisedRecord(cls, attrs)
    ensures MakeType(TypeTag(cls).s, Keys(attrs)) == Ok(cls)
  {
    QualifyThenSplit(cls.moduleName, cls.name);
    SlotChecks(Keys(attrs));
  }

  /** A synthesised record exports as its attributes followed by its tag,
      and the hook turns that dict back into the same record. */
  lemma RecordReImport(cls: Class, attrs: seq<(string, Value)>)
    requires SynthesisedRecord(cls, attrs)
    ensures Default(Instance(cls, attrs)) == Ok(Dict(attrs + [(TypeAttr, TypeTag(cls))]))
    ensures ObjectHookOf(attrs + [(TypeAttr, TypeTag(cls))]) == Ok(Instance(cls, attrs))
  {
    var d := attrs + [(TypeAttr, TypeTag(cls))];
    assert Default(Instance(cls, attrs)) == Ok(Dict(d)) by {
      AsDictOfRecord(cls, attrs);
    }
    var full := TypeTag(cls).s;
    AppendNew(attrs, TypeAttr, TypeTag(cls));
    assert full[|cls.moduleName|] == '.';
    DottedNotDateTime(full);
    assert MakeType(full, Keys(attrs)) == Ok(cls) by {
      MakeTypeOfTag(cls, attrs);
    }
    assert Construct(cls, attrs) == Ok(Instance(cls, attrs)) by {
      FromPairsOfDistinct(attrs);
    }
    TaggedHook(d, full);
  }

  /** Under a tag other than `"datetime"` the hook synthesises a type and
      instantiates it with the remaining items. */
  lemma TaggedHook(entries: seq<(string, Value)>, full: string)
    requires Lookup(entries, TypeAttr) == Some(Str(full)) && full != DateTimeName
    ensures ObjectHookOf(entries) ==
      var rest := Remove(entries, TypeAttr);
      match MakeType(full, Keys(rest))
      case Ok(cls) => Construct(cls, rest)
      case Err(e) => Err(e)
  {
  }
}
