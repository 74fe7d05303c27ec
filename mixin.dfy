/** `SerializableMixin` and `_SerializableHook`: how an instance exports its
    state as a tagged dictionary, and how a synthesised record type is
    instantiated from keyword arguments. */
module Mixin {
  import opened Dicts
  import opened Values
  import opened Names

  /** `k.startswith('_')` */
  predicate IsPrivate(k: string) {
    |k| > 0 && k[0] == '_'
  }

  /** `getattr(self, k)` on an instance whose attributes are `attrs`. */
  function GetAttr(attrs: seq<(string, Value)>, k: string): (r: Result<Value>)
    ensures r.Ok? <==> k in Keys(attrs)
    ensures r.Ok? ==> Lookup(attrs, k) == Some(r.value)
    ensures r.Err? ==> r.error == AttributeError(k)
  {
    match Lookup(attrs, k)
    case None => Err(AttributeError(k))
    case Some(x) => Ok(x)
  }

  /** `{k: getattr(self, k) for k in self.__slots__}`, evaluated left to right. */
  function SlotData(slots: seq<string>, attrs: seq<(string, Value)>): (r: Result<seq<(string, Value)>>)
    ensures r.Err? ==> r.error.AttributeError?
  {
    if slots == [] then Ok([])
    else
      var n := |slots| - 1;
      var data :- SlotData(slots[..n], attrs);
      var x :- GetAttr(attrs, slots[n]);
      Ok(Put(data, slots[n], x))
  }

  /** The slot comprehension builds a dict: no key twice. */
  lemma {:induction false} SlotDataDistinct(slots: seq<string>, attrs: seq<(string, Value)>)
    requires SlotData(slots, attrs).Ok?
    ensures DistinctKeys(SlotData(slots, attrs).value)
  {
    if slots != [] {
      var n := |slots| - 1;
      SlotDataDistinct(slots[..n], attrs);
      PutDistinct(SlotData(slots[..n], attrs).value, slots[n], GetAttr(attrs, slots[n]).value);
    }
  }

  /** The items of `attrs` whose names are not private, in order. */
  function PublicAttributes(attrs: seq<(string, Value)>): (r: seq<(string, Value)>)
    ensures forall i :: 0 <= i < |r| ==> r[i] in attrs && !IsPrivate(r[i].0)
  {
    if attrs == [] then []
    else (if IsPrivate(attrs[0].0) then [] else [attrs[0]]) + PublicAttributes(attrs[1..])
  }

  /** `SerializableMixin._get_data`: the slot values when the class declares
      `__slots__`, otherwise the public part of the instance `__dict__`. */
  function GetData(cls: Class, attrs: seq<(string, Value)>): (r: Result<seq<(string, Value)>>)
    ensures r.Ok? ==> DistinctKeys(r.value)
  {
    match cls.slots
    case Some(slots) =>
      if SlotData(slots, attrs).Ok? then SlotDataDistinct(slots, attrs); SlotData(slots, attrs)
      else SlotData(slots, attrs)
    case None => Ok(FromPairs(PublicAttributes(attrs)))
  }

  /** The value `_asdict` stores under `__type__`. */
  function TypeTag(cls: Class): Value {
    Str(QualifiedName(cls.moduleName, cls.name))
  }

  /** `SerializableMixin._asdict`: `_get_data()` with `__type__` set to
      `'%s.%s' % (module, name)`. */
  function AsDictOf(cls: Class, attrs: seq<(string, Value)>): (r: Result<seq<(string, Value)>>)
    ensures r.Ok? ==> DistinctKeys(r.value)
    ensures r.Ok? ==> Lookup(r.value, TypeAttr) == Some(TypeTag(cls))
  {
    var data :- GetData(cls, attrs);
    PutDistinct(data, TypeAttr, TypeTag(cls));
    LookupPut(data, TypeAttr, TypeTag(cls), TypeAttr);
    Ok(Put(data, TypeAttr, TypeTag(cls)))
  }

  /** `_asdict` as written: builds the dict of `_get_data()`, then writes the
      `__type__` item into it. */
  method AsDict(cls: Class, attrs: seq<(string, Value)>) returns (r: Result<PyDict<Value>>)
    ensures r.Ok? ==> fresh(r.value) && r.value.Valid()
    ensures AsDictOf(cls, attrs) == if r.Ok? then Ok(r.value.entries) else Err(r.error)
  {
    var data := GetData(cls, attrs);
    if data.Err? {
      return Err(data.error);
    }
    var d := new PyDict(data.value);
    d.SetItem(TypeAttr, TypeTag(cls));
    r := Ok(d);
  }

  /** `_SerializableHook.__init__(self, **kwargs)`: one `setattr` per keyword
      argument, in order. */
  method InitHook(kwargs: seq<(string, Value)>) returns (attrs: seq<(string, Value)>)
    ensures attrs == FromPairs(kwargs)
    ensures DistinctKeys(kwargs) ==> attrs == kwargs
  {
    attrs := [];
    for i := 0 to |kwargs|
      invariant attrs == FromPairs(kwargs[..i])
    {
      assert kwargs[..i + 1][..i] == kwargs[..i];
      attrs := Put(attrs, kwargs[i].0, kwargs[i].1);
    }
    assert kwargs[..|kwargs|] == kwargs;
    if DistinctKeys(kwargs) {
      FromPairsOfDistinct(kwargs);
    }
  }

  /** `type_(**kwargs)` for a synthesised type: Python refuses a keyword
      argument named `self`, which `__init__(self, **kwargs)` already binds;
      otherwise the instance holds what `InitHook` stores. */
  function Construct(cls: Class, kwargs: seq<(string, Value)>): (r: Result<Value>)
    ensures r.Ok? ==> r.value.Instance? && r.value.cls == cls
  {
    if "self" in Keys(kwargs) then Err(TypeError(MultipleValuesForSelf))
    else Ok(Instance(cls, FromPairs(kwargs)))
  }

  /** The slot comprehension succeeds exactly when every slot is set, fails
      on the first unset slot otherwise, and holds each slot's value. */
  lemma SlotDataSpec(slots: seq<string>, attrs: seq<(string, Value)>)
    ensures SlotData(slots, attrs).Ok? <==> forall i :: 0 <= i < |slots| ==> slots[i] in Keys(attrs)
    ensures SlotData(slots, attrs).Err? ==>
      exists j :: 0 <= j < |slots| && SlotData(slots, attrs).error == AttributeError(slots[j])
        && slots[j] !in Keys(attrs) && forall i :: 0 <= i < j ==> slots[i] in Keys(attrs)
    ensures SlotData(slots, attrs).Ok? ==>
      forall k :: Lookup(SlotData(slots, attrs).value, k) == if k in slots then Lookup(attrs, k) else None
  {
    SlotDataOk(slots, attrs);
    if SlotData(slots, attrs).Err? {
      var j := SlotDataError(slots, attrs);
    } else {
      forall k ensures Lookup(SlotData(slots, attrs).value, k) == if k in slots then Lookup(attrs, k) else None {
        SlotDataLookup(slots, attrs, k);
      }
    }
  }

  lemma {:induction false} SlotDataOk(slots: seq<string>, attrs: seq<(string, Value)>)
    ensures SlotData(slots, attrs).Ok? <==> forall i :: 0 <= i < |slots| ==> slots[i] in Keys(attrs)
  {
    if slots != [] {
      var n := |slots| - 1;
      SlotDataOk(slots[..n], attrs);
      assert SlotData(slots, attrs).Ok? <==> SlotData(slots[..n], attrs).Ok? && slots[n] in Keys(attrs);
      AllInSnoc(slots, n, Keys(attrs));
    }
  }

  /** The slot whose AttributeError ends the comprehension: the first unset one. */
  lemma {:induction false} SlotDataError(slots: seq<string>, attrs: seq<(string, Value)>) returns (j: nat)
    requires SlotData(slots, attrs).Err?
    ensures j < |slots| && SlotData(slots, attrs).error == AttributeError(slots[j])
    ensures slots[j] !in Keys(attrs) && forall i :: 0 <= i < j ==> slots[i] in Keys(attrs)
  {
    var n := |slots| - 1;
    var init := slots[..n];
    assert forall i :: 0 <= i < n ==> init[i] == slots[i];
    var prefix := SlotData(init, attrs);
    if prefix.Err? {
      j := SlotDataError(init, attrs);
    } else {
      SlotDataOk(init, attrs);
      j := n;
    }
  }

  lemma {:induction false} SlotDataLookup(slots: seq<string>, attrs: seq<(string, Value)>, k: string)
    requires SlotData(slots, attrs).Ok?
    ensures Lookup(SlotData(slots, attrs).value, k) == if k in slots then Lookup(attrs, k) else None
  {
    if slots != [] {
      var n := |slots| - 1;
      var init := slots[..n];
      SlotDataLookup(init, attrs, k);
      var data := SlotData(init, attrs).value;
      var x := GetAttr(attrs, slots[n]).value;
      LookupPut(data, slots[n], x, k);
      Snoc(slots);
      assert k in slots <==> k in init || k == slots[n];
    }
  }

  /** With distinct slot names that are all set, the exported keys are the
      slot names in declaration order. */
  lemma {:induction false} SlotDataKeys(slots: seq<string>, attrs: seq<(string, Value)>)
    requires forall i, j :: 0 <= i < j < |slots| ==> slots[i] != slots[j]
    requires forall i :: 0 <= i < |slots| ==> slots[i] in Keys(attrs)
    ensures SlotData(slots, attrs).Ok? && Keys(SlotData(slots, attrs).value) == slots
  {
    if slots != [] {
      var n := |slots| - 1;
      var init := slots[..n];
      assert forall i :: 0 <= i < n ==> init[i] == slots[i];
      SlotDataKeys(init, attrs);
      var data := SlotData(init, attrs).value;
      var x := GetAttr(attrs, slots[n]).value;
      assert SlotData(slots, attrs) == Ok(Put(data, slots[n], x));
      assert slots[n] !in Keys(data) by {
        assert forall i :: 0 <= i < n ==> Keys(data)[i] != slots[n];
      }
      AppendNew(data, slots[n], x);
      Snoc(slots);
    }
  }

  lemma {:induction false} PublicAttributesSpec(attrs: seq<(string, Value)>, k: string)
    ensures Lookup(PublicAttributes(attrs), k) == if IsPrivate(k) then None else Lookup(attrs, k)
  {
    if attrs != [] {
      PublicAttributesSpec(attrs[1..], k);
      var rest := PublicAttributes(attrs[1..]);
      if IsPrivate(attrs[0].0) {
        assert PublicAttributes(attrs) == rest;
        if attrs[0].0 != k {
          LookupTail(attrs, k);
        }
      } else {
        var r := [attrs[0]] + rest;
        assert PublicAttributes(attrs) == r;
        if attrs[0].0 != k {
          assert r[1..] == rest;
          LookupTail(r, k);
          LookupTail(attrs, k);
        }
      }
    }
  }

  lemma PublicAttributesDistinct(attrs: seq<(string, Value)>)
    requires DistinctKeys(attrs)
    ensures DistinctKeys(PublicAttributes(attrs))
  {
    if attrs != [] {
      PublicAttributesDistinct(attrs[1..]);
      var rest := PublicAttributes(attrs[1..]);
      forall i | 0 <= i < |rest| ensures rest[i].0 != attrs[0].0 {
        assert rest[i] in attrs[1..];
      }
    }
  }

  /** `_get_data` with slots exports exactly the slot names, each with its
      value, and fails with AttributeError on the first unset slot. */
  lemma GetDataOfSlots(cls: Class, attrs: seq<(string, Value)>)
    requires cls.slots.Some?
    ensures GetData(cls, attrs).Ok? <==> forall k :: k in cls.slots.value ==> k in Keys(attrs)
    ensures GetData(cls, attrs).Ok? ==>
      forall k :: Lookup(GetData(cls, attrs).value, k) == if k in cls.slots.value then Lookup(attrs, k) else None
    ensures GetData(cls, attrs).Err? ==>
      exists k :: k in cls.slots.value && k !in Keys(attrs) && GetData(cls, attrs).error == AttributeError(k)
  {
    SlotDataSpec(cls.slots.value, attrs);
  }

  /** `_get_data` without slots exports exactly the attributes whose names
      do not start with `_`, in their order in `__dict__`, and never fails. */
  lemma GetDataOfDict(cls: Class, attrs: seq<(string, Value)>)
    requires cls.slots.None? && DistinctKeys(attrs)
    ensures GetData(cls, attrs) == Ok(PublicAttributes(attrs))
    ensures forall k :: Lookup(GetData(cls, attrs).value, k) == if IsPrivate(k) then None else Lookup(attrs, k)
  {
    PublicAttributesDistinct(attrs);
    FromPairsOfDistinct(PublicAttributes(attrs));
    forall k ensures Lookup(PublicAttributes(attrs), k) == if IsPrivate(k) then None else Lookup(attrs, k) {
      PublicAttributesSpec(attrs, k);
    }
  }

  /** `_asdict` returns every key of `_get_data()` with its value, plus
      `__type__` bound to `module + "." + name`, and nothing else; it fails
      exactly when `_get_data` does. */
  lemma AsDictSpec(cls: Class, attrs: seq<(string, Value)>)
    ensures AsDictOf(cls, attrs).Ok? <==> GetData(cls, attrs).Ok?
    ensures AsDictOf(cls, attrs).Err? ==> AsDictOf(cls, attrs).error == GetData(cls, attrs).error
    ensures AsDictOf(cls, attrs).Ok? ==> forall k ::
      Lookup(AsDictOf(cls, attrs).value, k) ==
        if k == TypeAttr then Some(TypeTag(cls)) else Lookup(GetData(cls, attrs).value, k)
  {
    var data := GetData(cls, attrs);
    if data.Ok? {
      forall k ensures Lookup(AsDictOf(cls, attrs).value, k) ==
          if k == TypeAttr then Some(TypeTag(cls)) else Lookup(data.value, k) {
        LookupPut(data.value, TypeAttr, TypeTag(cls), k);
      }
    }
  }

  /** An instance of a synthesised type, whose slots are the keys of its
      attributes in order, exports those attributes as they stand followed
      by its `__type__`. */
  lemma {:induction false} AsDictOfRecord(cls: Class, attrs: seq<(string, Value)>)
    requires DistinctKeys(attrs) && TypeAttr !in Keys(attrs)
    requires cls.slots == Some(Keys(attrs))
    ensures AsDictOf(cls, attrs) == Ok(attrs + [(TypeAttr, TypeTag(cls))])
  {
    var slots := Keys(attrs);
    SlotDataKeys(slots, attrs);
    SlotDataSpec(slots, attrs);
    var data := SlotData(slots, attrs).value;
    forall k ensures Lookup(data, k) == Lookup(attrs, k) {
      if k !in slots {
        assert Lookup(attrs, k).None?;
      }
    }
    SameLookups(data, attrs);
  }

  /** Every value `_get_data` exports is one of the instance's attribute
      values, so the export is no deeper than the attributes. */
  lemma {:induction false} SlotDataDepth(slots: seq<string>, attrs: seq<(string, Value)>)
    requires SlotData(slots, attrs).Ok?
    ensures MaxOf(ValueDepths(SlotData(slots, attrs).value)) <= MaxOf(ValueDepths(attrs))
  {
    if slots != [] {
      var n := |slots| - 1;
      SlotDataDepth(slots[..n], attrs);
      var data := SlotData(slots[..n], attrs).value;
      var x := GetAttr(attrs, slots[n]).value;
      LookupDepth(attrs, slots[n]);
      PutDepth(data, slots[n], x);
    } else {
      assert ValueDepths([]) == [];
    }
  }

  lemma {:induction false} FromPairsDepth(p: seq<(string, Value)>)
    ensures MaxOf(ValueDepths(FromPairs(p))) <= MaxOf(ValueDepths(p))
  {
    if p == [] {
      assert ValueDepths([]) == [];
    } else {
      var n := |p| - 1;
      FromPairsDepth(p[..n]);
      PutDepth(FromPairs(p[..n]), p[n].0, p[n].1);
      MaxOfAt(ValueDepths(p), n);
      forall i | 0 <= i < n ensures ValueDepths(p[..n])[i] <= MaxOf(ValueDepths(p)) {
        MaxOfAt(ValueDepths(p), i);
      }
      MaxOfAtMost(ValueDepths(p[..n]), MaxOf(ValueDepths(p)));
    }
  }

  lemma GetDataDepth(cls: Class, attrs: seq<(string, Value)>)
    requires GetData(cls, attrs).Ok?
    ensures MaxOf(ValueDepths(GetData(cls, attrs).value)) <= MaxOf(ValueDepths(attrs))
  {
    match cls.slots
    case Some(slots) =>
      SlotDataDepth(slots, attrs);
    case None =>
      var pub := PublicAttributes(attrs);
      FromPairsDepth(pub);
      forall i | 0 <= i < |pub| ensures ValueDepths(pub)[i] <= MaxOf(ValueDepths(attrs)) {
        var j :| 0 <= j < |attrs| && attrs[j] == pub[i];
        MaxOfAt(ValueDepths(attrs), j);
      }
      MaxOfAtMost(ValueDepths(pub), MaxOf(ValueDepths(attrs)));
  }
}
