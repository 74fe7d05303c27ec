/** What the codec works on: the JSON tree the JSON library reads and
    writes, the Python values it turns that tree into, and the errors the
    codec raises. */
module Values {
  import opened Dicts

  /** `TYPE_ATTR`: the reserved key of a tagged dictionary. */
  const TypeAttr: string := "__type__"
  /** `TIMESTAMP_ATTR`: the key of a serialised datetime's POSIX timestamp. */
  const TimestampAttr: string := "timestamp"
  /** `datetime.__name__`: the tag of a serialised datetime. */
  const DateTimeName: string := "datetime"

  /** A JSON document as the JSON library parses or prints it; the members
      of an object are in document order and may repeat a key. */
  datatype Json =
    | JNull
    | JBool(b: bool)
    | JInt(i: int)
    | JFloat(f: real)
    | JString(s: string)
    | JArray(items: seq<Json>)
    | JObject(members: seq<(string, Json)>)

  /** What the codec reads of a Python class: `__module__`, `__name__`, and
      `__slots__` (None when the class declares no slots). */
  datatype Class = Class(moduleName: string, name: string, slots: Option<seq<string>>)

  /** A Python value. The first seven kinds are what the JSON library
      handles natively; the others reach the `default` hook. */
  datatype Value =
    | Null
    | Bool(b: bool)
    | Int(i: int)
    | Float(f: real)
    | Str(s: string)
    | List(items: seq<Value>)
    | Dict(entries: seq<(string, Value)>)
      /** A `datetime`, known by its POSIX timestamp. */
    | DateTime(timestamp: real)
      /** An instance of a `SerializableMixin` subclass, synthesised types
          included: its slot values, or its `__dict__` when it has no slots. */
    | Instance(cls: Class, attrs: seq<(string, Value)>)
      /** Any other object: its `repr`, and the result of its `_asdict()`
          when it has such a method. */
    | Opaque(repr: string, asdict: Option<Value>)

  /** Why a `TypeError` is raised. */
  datatype TypeErrorCause =
      /** `_default`: `repr(obj) + " is not JSON serializable"` */
    | NotSerializable(obj: Value)
      /** `datetime.fromtimestamp` of something that is not a number */
    | NotATimestamp(ts: Value)
      /** `type()`: `__slots__` must be identifiers */
    | SlotNotIdentifier(slot: string)
      /** `type()`: a `__dict__` or `__weakref__` slot, which the base class already has */
    | SlotDisallowed(slot: string)
      /** `__init__(self, **kwargs)` called with a keyword argument `self` */
    | MultipleValuesForSelf
      /** `list.pop` called with the string key `'__type__'` */
    | PopIndexNotInteger
      /** simplejson's writer: `_asdict()` must return a dict */
    | AsDictNotDict(result: Value)

  /** Why a `ValueError` is raised. */
  datatype ValueErrorCause =
      /** `type()`: a slot named like a class variable of the new class */
    | SlotConflictsWithClassVariable(slot: string)
      /** `type()`: the type name holds a NUL character */
    | NulInTypeName

  /** The Python exceptions the codec raises. */
  datatype Error =
    | KeyError(key: string)
    | TypeError(typeCause: TypeErrorCause)
    | ValueError(valueCause: ValueErrorCause)
    | AttributeError(attribute: string)

  /** A result or the exception raised instead. */
  datatype Result<+T> = Ok(value: T) | Err(error: Error) {
    predicate IsFailure() {
      Err?
    }

    function PropagateFailure<U>(): Result<U>
      requires Err?
    {
      Err(error)
    }

    function Extract(): T
      requires Ok?
    {
      value
    }
  }

  /** The index of the first failure among `rs`, or `|rs|` when all succeed. */
  function FirstFailure<T>(rs: seq<Result<T>>): (i: nat)
    ensures i <= |rs|
    ensures i < |rs| ==> rs[i].Err?
    ensures forall j :: 0 <= j < i ==> rs[j].Ok?
  {
    if rs == [] then 0
    else if rs[0].Err? then 0
    else 1 + FirstFailure(rs[1..])
  }

  /** Results computed in order, stopping at the first exception: the
      values of all of them, or the first error raised. */
  function AllOk<T>(rs: seq<Result<T>>): (r: Result<seq<T>>)
    ensures r.Ok? <==> forall i :: 0 <= i < |rs| ==> rs[i].Ok?
    ensures r.Ok? ==> |r.value| == |rs| && forall i :: 0 <= i < |rs| ==> rs[i] == Ok(r.value[i])
  {
    var i := FirstFailure(rs);
    if i < |rs| then Err(rs[i].error)
    else Ok(seq(|rs|, j requires 0 <= j < |rs| => rs[j].value))
  }

  /** When every result before the `k`-th succeeds and the `k`-th fails,
      the `k`-th error is the one raised. */
  lemma FirstFailureAt<T>(rs: seq<Result<T>>, k: nat)
    requires k < |rs| && rs[k].Err?
    requires forall i :: 0 <= i < k ==> rs[i].Ok?
    ensures AllOk(rs) == Err(rs[k].error)
  {
    assert FirstFailure(rs) == k;
  }

  /** Results that all succeed give their values. */
  lemma AllOkOfOks<T>(rs: seq<Result<T>>, xs: seq<T>)
    requires |rs| == |xs| && forall i :: 0 <= i < |rs| ==> rs[i] == Ok(xs[i])
    ensures AllOk(rs) == Ok(xs)
  {
    assert AllOk(rs).value == xs;
  }

  function Max(a: nat, b: nat): nat {
    if a < b then b else a
  }

  function MaxOf(s: seq<nat>): nat {
    if s == [] then 0
    else
      var m := MaxOf(s[1..]);
      if s[0] < m then m else s[0]
  }

  lemma {:induction false} MaxOfAt(s: seq<nat>, i: nat)
    requires i < |s|
    ensures s[i] <= MaxOf(s)
  {
    if i > 0 {
      MaxOfAt(s[1..], i - 1);
    }
  }

  lemma {:induction false} MaxOfAtMost(s: seq<nat>, b: nat)
    requires forall i :: 0 <= i < |s| ==> s[i] <= b
    ensures MaxOf(s) <= b
  {
    if s != [] {
      MaxOfAtMost(s[1..], b);
    }
  }

  /** How deeply a value nests; each step of the JSON writer, the `default`
      hook included, goes down in this measure. */
  ghost function Depth(v: Value): nat {
    match v
    case List(items) => 1 + MaxOf(seq(|items|, i requires 0 <= i < |items| => Depth(items[i])))
    case Dict(entries) => 1 + MaxOf(seq(|entries|, i requires 0 <= i < |entries| => Depth(entries[i].1)))
    case DateTime(_) => 2
    case Instance(_, attrs) => 2 + MaxOf(seq(|attrs|, i requires 0 <= i < |attrs| => Depth(attrs[i].1)))
    case Opaque(_, Some(d)) => 1 + Depth(d)
    case _ => 0
  }

  /** The depths of the values of a dictionary. */
  ghost function ValueDepths(es: seq<(string, Value)>): (ds: seq<nat>)
    ensures |ds| == |es| && forall i :: 0 <= i < |es| ==> ds[i] == Depth(es[i].1)
  {
    seq(|es|, i requires 0 <= i < |es| => Depth(es[i].1))
  }

  lemma ItemShallower(xs: seq<Value>, i: nat)
    requires i < |xs|
    ensures Depth(xs[i]) < Depth(List(xs))
  {
    MaxOfAt(seq(|xs|, i requires 0 <= i < |xs| => Depth(xs[i])), i);
  }

  lemma EntryShallower(es: seq<(string, Value)>, i: nat)
    requires i < |es|
    ensures Depth(es[i].1) < Depth(Dict(es))
  {
    assert ValueDepths(es) == seq(|es|, i requires 0 <= i < |es| => Depth(es[i].1));
    MaxOfAt(ValueDepths(es), i);
  }

  lemma AttrShallower(cls: Class, attrs: seq<(string, Value)>, i: nat)
    requires i < |attrs|
    ensures Depth(attrs[i].1) < Depth(Instance(cls, attrs))
  {
    assert ValueDepths(attrs) == seq(|attrs|, i requires 0 <= i < |attrs| => Depth(attrs[i].1));
    MaxOfAt(ValueDepths(attrs), i);
  }

  lemma DictDepth(es: seq<(string, Value)>)
    ensures Depth(Dict(es)) == 1 + MaxOf(ValueDepths(es))
  {
    assert ValueDepths(es) == seq(|es|, i requires 0 <= i < |es| => Depth(es[i].1));
  }

  lemma InstanceDepth(cls: Class, attrs: seq<(string, Value)>)
    ensures Depth(Instance(cls, attrs)) == 2 + MaxOf(ValueDepths(attrs))
  {
    assert ValueDepths(attrs) == seq(|attrs|, i requires 0 <= i < |attrs| => Depth(attrs[i].1));
  }

  lemma LookupDepth(es: seq<(string, Value)>, k: string)
    requires Lookup(es, k).Some?
    ensures Depth(Lookup(es, k).value) <= MaxOf(ValueDepths(es))
  {
    MaxOfAt(ValueDepths(es), Find(es, k));
  }

  /** `d[k] = x` makes a dictionary no deeper than `d` and `x` are. */
  lemma PutDepth(d: seq<(string, Value)>, k: string, x: Value)
    ensures MaxOf(ValueDepths(Put(d, k, x))) <= Max(MaxOf(ValueDepths(d)), Depth(x))
  {
    var r := Put(d, k, x);
    var b := Max(MaxOf(ValueDepths(d)), Depth(x));
    forall i | 0 <= i < |r| ensures ValueDepths(r)[i] <= b {
      if i < |d| && r[i] == d[i] {
        MaxOfAt(ValueDepths(d), i);
      }
    }
    MaxOfAtMost(ValueDepths(r), b);
  }
}
