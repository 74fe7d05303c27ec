# simplejson_objects: the tagged-dictionary codec

`simplejson_objects.py` adds object serialisation on top of JSON. It hooks into the JSON library in two places:

- `dumps` gives the library a `default` hook, `_default`. That hook turns a `datetime` into the mapping `{"__type__": "datetime", "timestamp": <POSIX time>}`. It turns any object with an `_asdict` method into what that method returns. It rejects everything else with `TypeError`.
- `loads` gives the library an `object_hook`, `_object_hook`. The library calls it on every parsed object, innermost first:
  - an object without `__type__` passes through unchanged;
  - a `"datetime"` tag is read back from `timestamp`;
  - any other tag makes the hook synthesise a slotted class with `_make_type`, named after the tag and with the remaining keys as its slots, and instantiate it with those items.

`SerializableMixin` supplies `_asdict`, which is `_get_data()` plus the `__type__` item. `_get_data` returns a class's slot values, or else the public part of its `__dict__`. The mixin also supplies a class-level `loads` that strips `__type__` and calls the class with the remaining items. `_SerializableHook`, the base of every synthesised class, stores its keyword arguments with `setattr`.

The model works at the level of the JSON tree (`Values.Json`) and of Python values (`Values.Value`):

- A Python dict is an insertion-ordered sequence of items, in module `Dicts`. Assigning to a key updates it in place or appends it, and pop removes it.
- The dict the hooks mutate is the class `Dicts.PyDict`, and the in-place steps of the source are methods on it:
  - the pop of `_object_hook` and of `Mixin.loads`;
  - the `__type__` write of `_asdict`.
- The `setattr` loop of `__init__` is a method with a loop invariant.
- Every method is proved against a function. The properties are lemmas about those functions:
  - passthrough;
  - the shape of a decoded record;
  - re-export;
  - the datetime round trip;
  - `loads(dumps(v)) == v` for canonical values (plain data, datetimes and synthesised records);
  - for an instance `o` of a mixin class, `loads(dumps(o))` is not `o` itself. It is an instance of the class synthesised from the same module and name, with the keys of `d = o._get_data()` as slots and `d` as fields, so private attributes are lost. This holds when those keys are accepted slots other than `__type__` and `self`, the values in `d` are canonical, and the class name has no dot or NUL (`Codec.MixinThenDecode`);
  - `dumps(loads(j)) == j` for well-tagged documents (`Codec.WellTagged`). A well-tagged document has distinct keys in every object. Its datetime objects are exactly the two members `_default` writes. A record object carries a dotted `__type__`, written last, and its other keys are slots `type()` accepts, none of them `self`.

Facts about the code that the model keeps:

- **Writer.** `dumps` is simplejson's, the library imported first on line 5. simplejson calls an object's `_asdict` method itself, because `namedtuple_as_object` is on by default. It writes the result when that is a dict and raises TypeError when it is not. `_default` is consulted only for values simplejson cannot write.
- **Dotless tags.** `_asdict` writes `'%s.%s' % (module, name)`. `_make_type` takes the module from `rpartition('.')`, which gives `""` for a dotless tag. So a record read from the tag `"Point"` re-exports as `".Point"` (`Hooks.RecordReExport`). A dotted tag comes back unchanged.
- **Missing keys.** A `"datetime"` object without `timestamp` raises `KeyError('timestamp')` (line 22). `Mixin.loads` raises `KeyError('__type__')` when the document has no tag (line 72).
- **Unhooked parse.** `Mixin.loads` calls the JSON library's own `loads`, not the hooked partial (line 71). Nested tagged objects therefore reach the constructor as plain dicts, tag included.
- **Key order.** Re-export writes `__type__` after the fields, wherever it stood in the document. `RoundTrip` is stated for documents written that way, which is the way `dumps` writes them.

## Model

| member | source | states |
|---|---|---|
| Dicts.PyDict.Pop | simplejson_objects.py:43 | `pop` returns the value under the key (None for a missing key) and leaves the dict without that key, other items in order |
| Dicts.PyDict.SetItem | simplejson_objects.py:62 | `d[k] = v` replaces the value of an existing key in place or appends a new item, and keeps keys distinct |
| Names.RPartition | simplejson_objects.py:34 | with a dot: head + "." + tail is the input and the tail has no dot; without one: `("", "", s)` |
| Names.QualifiedName | simplejson_objects.py:62 | `'%s.%s' % (module, name)` has the length of module and name plus one, and a dot at the module's length; `SplitThenQualify` and `QualifyThenSplit` state that it undoes `rpartition` and is undone by it |
| Names.SplitThenQualify | simplejson_objects.py:34 | rejoining the halves of the split with `'%s.%s'` gives the name back if it has a dot, and `"." + name` otherwise |
| Names.QualifyThenSplit | simplejson_objects.py:34 | splitting `module + "." + name` for a dotless name gives back `(module, ".", name)` |
| Mixin.GetAttr | simplejson_objects.py:57 | `getattr` succeeds exactly on a set attribute, with its value, and raises AttributeError naming it otherwise |
| Mixin.SlotData | simplejson_objects.py:57 | the slot comprehension reads each slot with `getattr` in declaration order and fails only with AttributeError; `SlotDataSpec` and `SlotDataKeys` state its result |
| Mixin.SlotDataSpec | simplejson_objects.py:57 | the slot comprehension succeeds iff every slot is set; otherwise it fails on the first unset slot; on success every key's lookup is the attribute for slot names and absent otherwise |
| Mixin.SlotDataKeys | simplejson_objects.py:57 | with distinct set slots, the exported keys are exactly the slots in declaration order |
| Mixin.PublicAttributes | simplejson_objects.py:58 | each item kept is an item of `__dict__` whose name does not start with `_` |
| Mixin.PublicAttributesSpec | simplejson_objects.py:58 | a name's lookup in the filtered dict is absent for private names and the `__dict__` value otherwise |
| Mixin.GetData | simplejson_objects.py:56-58 | `_get_data` returns a dict, so no key twice; `GetDataOfSlots` and `GetDataOfDict` state its result in each branch |
| Mixin.GetDataOfSlots | simplejson_objects.py:56-57 | `_get_data` on a slotted class succeeds iff all slots are set, exports exactly the slot names with their values, and otherwise raises AttributeError for an unset slot |
| Mixin.GetDataOfDict | simplejson_objects.py:56-58 | `_get_data` without slots never fails and exports exactly the public attributes, with their values, in order |
| Mixin.AsDictOf | simplejson_objects.py:60-63 | `_asdict` returns a dict holding `__type__` bound to `module.name`; `AsDictSpec` states the rest of its result |
| Mixin.AsDict | simplejson_objects.py:60-63 | the method builds a fresh dict equal to `AsDictOf`, or raises the error of `_get_data` |
| Mixin.AsDictSpec | simplejson_objects.py:60-63 | `_asdict` fails exactly when `_get_data` does, with its error; otherwise it holds every key of `_get_data` with its value plus `__type__` bound to `module.name`, and nothing else |
| Mixin.AsDictOfRecord | simplejson_objects.py:56-63 | a record whose slots are its attribute names in order exports its attributes as they stand, followed by its tag |
| Mixin.InitHook | simplejson_objects.py:81-83 | the `setattr` loop leaves `dict(kwargs)`, and exactly the keyword arguments when they are distinct |
| Mixin.Construct | simplejson_objects.py:81-83 | instantiation succeeds only with an instance of the given class |
| Hooks.DateTimeAsDict | simplejson_objects.py:14-18 | `_datetime_asdict` is a dict that binds `__type__` to `"datetime"` and `timestamp` to the POSIX time |
| Hooks.Default | simplejson_objects.py:25-30 | `_default` succeeds exactly on a datetime, on a mixin instance whose `_get_data` succeeds, and on any other object with `_asdict`; otherwise it raises `TypeError` naming the value, or the error of `_get_data` for a mixin instance |
| Hooks.DateTimeFromDict | simplejson_objects.py:21-22 | a successful `fromtimestamp` gives a datetime |
| Hooks.DateTimeHook | simplejson_objects.py:21-45 | under a `"datetime"` tag, a missing `timestamp` raises KeyError, and two dicts with the same timestamp decode alike whatever their other keys |
| Hooks.DateTimeRoundTrip | simplejson_objects.py:14-45 | `_default` of a datetime is exactly the keys `__type__`, `timestamp`, and the hook turns it back into the same datetime |
| Hooks.DateTimeTagged | simplejson_objects.py:43-45 | under a `"datetime"` tag, popping `__type__` keeps the original `timestamp` for `_datetime_fromdict` to read |
| Hooks.DefaultShrinks | simplejson_objects.py:25-30 | what `_default` returns nests strictly less deeply than its input, so the writer terminates |
| Hooks.BadSlot | simplejson_objects.py:35-38 | the first slot name `type()` refuses is reported as a TypeError, either because it is no identifier or because it is `__dict__` or `__weakref__`; `SlotChecks` states when there is none |
| Hooks.ConflictingSlot | simplejson_objects.py:35-38 | a slot name that collides with the class variables `__slots__` and `__module__` is reported as a ValueError; `SlotChecks` states when there is none |
| Hooks.SlotChecks | simplejson_objects.py:35-38 | `type()` accepts the slot tuple iff every name is an identifier other than `__dict__`, `__weakref__`, `__slots__`, `__module__` |
| Hooks.MakeType | simplejson_objects.py:33-38 | a class made by `_make_type` has exactly the given fields as slots and a name without dot or NUL; a refusal is a TypeError or a ValueError; `MakeTypeSpec` states when it succeeds and which module and name it takes |
| Hooks.MakeTypeSpec | simplejson_objects.py:33-38 | `_make_type` succeeds iff all fields are accepted slots and the name has no NUL; the class has those slots, a dotless name, and module + "." + name equal to a dotted tag, or module `""` and the whole tag when there is no dot |
| Hooks.MakeTypeOfTag | simplejson_objects.py:33-38 | `_make_type` on a synthesised class's own `'%s.%s'` tag and slots rebuilds that class |
| Hooks.ObjectHookOf | simplejson_objects.py:41-48 | `_object_hook` returns an untagged dict unchanged, and turns a tagged one, when it succeeds, into a datetime or an instance; `ObjectHookPassthrough`, `ObjectHookRecord` and `DateTimeTagged` state each branch |
| Hooks.ObjectHook | simplejson_objects.py:41-48 | the method returns what `ObjectHookOf` of the dict it received gives, and leaves that dict without `__type__` |
| Hooks.ObjectHookPassthrough | simplejson_objects.py:42-48 | the hook returns the dict unchanged iff it has no `__type__` |
| Hooks.ObjectHookRecord | simplejson_objects.py:43-47 | for a non-datetime tag, decoding succeeds iff `type()` accepts the remaining keys and none is `self`; the instance's class comes from `_make_type` on its keys, and its fields are exactly the non-tag items, in order, with their values |
| Hooks.RecordReExport | simplejson_objects.py:33-63 | re-exporting a decoded record gives the original items without the tag, followed by `__type__`: the tag itself if dotted, `"." + tag` if not |
| Hooks.RecordReImport | simplejson_objects.py:41-63 | a synthesised record exports as its attributes plus its tag, and the hook rebuilds exactly that record from the export |
| Codec.Encode | simplejson_objects.py:93 | `dumps` writes a list as an array of the same length and a dict as an object with the same keys in order; `RoundTrip`, `EncodeThenDecode`, `ListRejects` and `DictRejects` state what it writes and when it fails |
| Codec.Decode | simplejson_objects.py:94 | `loads` reads an array as a list of the same length, and an object as a dict exactly when it has no `__type__`; `RoundTrip`, `DecodeUntagged` and `DecodedRecordFields` state what it reads |
| Codec.Parse | simplejson_objects.py:71 | exactly JSON objects parse to dicts, and their keys are distinct |
| Codec.DecodeUntagged | simplejson_objects.py:94 | a document without tags decodes exactly as the plain parse does |
| Codec.RoundTrip | simplejson_objects.py:93-94 | every well-tagged document decodes, and writing the result gives the same document. Well-tagged means: distinct keys in every object; datetime objects exactly as `_default` writes them; record objects with a dotted `__type__` written last and other keys that `type()` accepts as slots, none of them `self` |
| Codec.EncodeThenDecode | simplejson_objects.py:93-94 | `dumps` of a canonical value (plain data, datetimes, synthesised records) succeeds, and `loads` returns the same value |
| Codec.MixinThenDecode | simplejson_objects.py:56-63 | `loads(dumps(o))` for an instance of a mixin class, whether slotted or `__dict__`-based, is an instance of the class synthesised from the same module and name, with the keys of `_get_data()` as slots and `_get_data()` as fields. This holds whenever those keys are accepted slots other than `__type__` and `self`, the class name has no dot or NUL, and the values are canonical |
| Codec.DecodedRecordFields | simplejson_objects.py:41-48 | an object whose `dict(members)` has a non-datetime string tag decodes, if at all, to an instance. Its fields are the other keys of `dict(members)`, in first-occurrence order, each holding the decoded value of that key's last member; repeated keys are allowed |
| Codec.DateTimeEncoded | simplejson_objects.py:14-27 | `dumps` writes a datetime as exactly the two members `__type__: "datetime"` and `timestamp` |
| Codec.DateTimeThenDecode | simplejson_objects.py:14-22 | `dumps` writes a datetime as the `_datetime_asdict` members, and `loads` of that object decodes back to the same datetime |
| Codec.ListRejects | simplejson_objects.py:25-30 | `dumps` of a list fails with `TypeError` naming the first item, in writing order, that has no `_asdict` and is neither JSON data nor a datetime, provided every earlier item is written |
| Codec.DictRejects | simplejson_objects.py:25-30 | `dumps` of a dict fails with `TypeError` naming the first value, in writing order, that has no `_asdict` and is neither JSON data nor a datetime, provided every earlier value is written |
| Codec.MixinLoads | simplejson_objects.py:65-74 | for a dict document, the result is the constructor applied to the dict without `__type__`, or KeyError without the tag; a list refuses the string index; other values have no `pop` |
| Codec.LoadsArguments | simplejson_objects.py:72-74 | the constructor's keyword arguments are the document's non-tag keys, each once, with their parsed values |
| Codec.ParseEncode | simplejson_objects.py:71 | plain data is written without `_default` and parses back unchanged |
| Codec.LoadsAfterDumps | simplejson_objects.py:65-77 | for plain exported state, the dumped document holds `__type__`, and what remains after the pop is `_get_data()` minus any `__type__` item of its own |

## Left out

- JSON text: parsing and printing characters is the JSON library's job. The model starts and ends at the parsed tree (`Json`), with object members in document order and duplicate keys resolved as `dict()` resolves them.
- The `json` fallback of the import (lines 4-7): the model follows simplejson. Only for mixin instances do both libraries write the same, a dict. For another object whose `_asdict` returns something other than a dict, simplejson raises TypeError, while the standard `json` would write that result through `_default`. The model does not cover the standard `json` behaviour.
- Floating point: a timestamp is a `real`. The rounding of `timestamp()` and `fromtimestamp()`, time zones and out-of-range timestamps are not modelled.
- `type()` itself: the model keeps only what the codec reads back, which is the module, the name and the slots, and the checks `type()` makes on them. `IsIdentifier` approximates `str.isidentifier` by admitting every non-ASCII character.
- The `__dict__` property and `__repr__` of `_SerializableHook` (lines 85-90): neither changes what the codec writes or reads.
- `register_args` (line 96): it only bundles the two partials with a MIME type and an encoding name.
- The `dumps` method of the mixin (lines 76-77): it is `Codec.Encode` applied to the instance.
- Subclass overrides of `_get_data`: the model exports with the default definition only.
- Instances are values without identity, so aliasing and circular references, and the library's detection of them, are not modelled.
- Tuples, non-string dict keys, NaN and infinity, and the `simplejson` extras other than the `_asdict` call (`for_json`, `tuple_as_array`, and so on) are not modelled.
- Field names that shadow mixin methods and Python's name mangling are not modelled.
- Hooks.AcceptedSlot: special-method names (`__init__`, `__new__`, `__setattr__`, `__getattribute__`, ...) count as ordinary slots. `type()` accepts them, but the slot descriptor then shadows the inherited method. Instantiation on line 47 or the `setattr` on line 83 fails for such a name. `Mixin.Construct`, `Hooks.ObjectHookRecord`, `Codec.RoundTrip`, `Codec.EncodeThenDecode` and `Codec.MixinThenDecode` therefore treat such names as ordinary fields, and promise success where Python fails.
- Codec.MixinLoads: `cls(**dict_)` stands as the `construct` parameter, because the class is the caller's.
- Codec.LoadsAfterDumps: it is stated for classes whose constructor takes the exported fields. Whether a particular `__init__` accepts them is the caller's class and is not part of this model.
