# serde: record ⇄ JSON value-tree converters, modelled in Dafny

The repository holds two drafts of one mechanism that converts instances of
registered record classes to and from JSON.

- `serde.py` is the validating draft. `from_dict` walks a dataclass's fields
  in declaration order and skips the fields whose names are missing. A
  `list[T]` field has its elements rebuilt and then checked with `isinstance`.
  A nested record field is rebuilt by recursion. Every other field must pass
  an `isinstance` check.
- `serdepy.py` is the looser draft. Its `from_dict` walks the class
  annotations and rebuilds only fields whose annotated class has `from_dict`.
  Every other value is stored as given.

In both drafts `to_dict` projects an object onto its declared fields without
converting the values. The JSON encoder's `default` hook replaces every object
that has `to_dict` with its `to_dict()`, so `serialize` writes the fully
expanded tree. `deserialize` parses the text, rejects anything but a JSON
object at the top, and calls `from_dict`. Both files also define a decoder
`object_hook` that is never passed to the parser.

The model works on the value tree the JSON parser produces, not on JSON
text. Its modules:

| file | module | contents |
|---|---|---|
| `values.dfy` | `Values` | runtime values (`None`, `bool`, `int`, opaque `float`, `str`, `list`, `dict` as an ordered entry list, record instances), classes and `isinstance` (with `bool` a subclass of `int`), Python's `in`, subscript and iteration on these values, the schema table, the exceptions |
| `encoding.dfy` | `Encoding` | `to_dict`, the encoder hook's expansion, `serialize`; both drafts compute the same thing here, so it is modelled once |
| `hook.dfy` | `Hook` | the decoder `object_hook`, which is the same code in both files |
| `serde.dfy` | `Serde` | the validating `from_dict` (a specification function and the loop that is proved equal to it), `deserialize`, and their properties, including the round trip |
| `serdepy.dfy` | `SerdePy` | the non-validating `from_dict`, `deserialize`, and their properties, including the round trip and where it stops holding |
| `scenarios.dfy` | `Scenarios` | worked cases over `Point`, `Line`, `Polygon` and `Series` classes |

Reflection (`fields`, `__annotations__`, `is_dataclass`, `hasattr`,
`__origin__`/`__args__`) is replaced by a static `Schema`. It maps each
registered class name to its fields in declaration order. A field type is
either a plain class or `list[T]`. A class named in the schema is registered:
it is a dataclass decorated with `serde`, so it has `from_dict` and `to_dict`.
Any other `Class(n)` is an ordinary class without those methods.

Python exceptions become `Err` values of a `Result`. Each one carries the
names and classes its message reports.

## Model

| member | source | states |
|---|---|---|
| Values.Contains | serde.py:65 | `name in value` is key membership for a dict, occurrence of `name` at some position for a str, and equality with some element for a list; for any other value it raises a not-iterable `TypeError` |
| Values.SubstringAt | serde.py:65 | Python's `k in s` on strings holds exactly when `k` occurs in `s` at some position |
| Values.Iterate | serde.py:70 | `for x in value` visits a list's items; a str yields its one-character strings in order, a dict its keys in order; any other value raises a not-iterable `TypeError` |
| Values.IndexOf | serde.py:66 | `dictionary[name]` reads the entry holding that key, and no earlier entry holds it |
| Encoding.ToDict | serde.py:48-52 | succeeds exactly when every declared field is set; the result has one entry per declared field, in declaration order, holding the attribute unconverted (a nested record stays a record); otherwise `getattr` raises on the first unset field; serdepy.py:47-53 is the same projection over the annotations, and with no annotations the key list is empty, so the result is the empty dict |
| Encoding.Encode | serde.py:10-13 | whatever the encoder writes contains no record; a value that is already plain JSON is written unchanged |
| Encoding.EncodeRecordEntries | serde.py:10-13 | the hook writes a registered record as a dict whose keys are its declared field names, in order, and whose values are the encoded attributes |
| Encoding.Serialize | serde.py:86-90 | on success `serialize` writes a JSON object with exactly the declared field names as keys, in order, and no record anywhere inside |
| Encoding.SerializeIsRecordExpansion | serdepy.py:74-78 | `serialize` writes exactly what the encoder writes for the record itself, so nested records come out expanded recursively |
| Hook.FromDict | serde.py:23-33 | the traversal returns the dictionary it was given, with the same keys: every nested dict, including dicts directly inside lists, is replaced by its own processed self; serdepy.py:24-32 is the same code |
| Serde.Build | serde.py:55-83 | a built record has the requested class; the only errors are the validation `TypeError`s, the not-iterable and bad-subscript `TypeError`s, and a missing `from_dict` |
| Serde.FieldValue | serde.py:62-66 | a field gets a value exactly when the input is a dict holding its name, and that value is the field's conversion of `dictionary[name]` |
| Serde.Convert | serde.py:68-79 | a converted list field is a list of instances of the element class; a converted scalar field is the input value, which is an instance of the declared class; a nested record field holds the nested `from_dict` result |
| Serde.ConvertItem | serde.py:70 | a non-dict element always converts and is kept as it is; a dict element under an unregistered element class raises the missing-`from_dict` `AttributeError`; under a registered one it converts exactly when that class's `from_dict` succeeds, becoming its result, and otherwise fails with its error |
| Serde.FromDict | serde.py:55-83 | the loop with `setattr` computes exactly `Build` |
| Serde.ConvertField | serde.py:66-79 | the loop body (comprehension and its `all` check, nested call, scalar check) computes exactly `Convert` |
| Serde.Deserialize | serde.py:93-101 | it fails with the not-an-object `TypeError`, naming the class and the parsed kind, if and only if the parsed value is not a dict; otherwise it returns `from_dict` of that dict |
| Serde.BuildOkIffFieldsOk | serde.py:61-81 | `from_dict` succeeds if and only if every declared field goes through |
| Serde.BuildFailsAtFirstBadField | serde.py:61-79 | fields are checked in declaration order: the first failing field's error is the error of the whole call |
| Serde.BuildSetsPresentFields | serde.py:61-81 | the fields set are exactly the declared fields whose names occur in the input (missing ones stay unset, undeclared keys add nothing), each with its own conversion result |
| Serde.ConvertItemsElementwise | serde.py:70 | the comprehension succeeds if and only if every element converts; it keeps length and order; on failure its error is the first failing element's |
| Serde.ListFieldConversion | serde.py:68-73 | a list field succeeds if and only if every element converts and every converted element is an instance of the element class; the result has the input's length and order, each dict element replaced by the element class's `from_dict` result and every other element kept; if every element converts but one is not an instance, the `TypeError` names the field |
| Serde.ListFieldFromNonList | serde.py:68-73 | a list field given a str or a dict iterates it and passes only for `list[str]` or an empty value; a str then becomes its list of one-character strings and a dict the list of its keys, in order; otherwise the list-level `TypeError` names the field; given any other non-list value it raises not-iterable |
| Serde.BuildOnNonDict | serde.py:61-66 | given a str or a list instead of a dict, `from_dict` raises the subscript `TypeError` if some declared name is `in` it and otherwise returns an instance with nothing set; given any other non-dict value it raises not-iterable unless the class has no fields |
| Serde.ScalarMismatchRejected | serde.py:78-79 | a present scalar field whose value is not an instance of the declared class makes `from_dict` fail with the field name, the actual class and the expected class, once every earlier field went through |
| Serde.NestedErrorPropagates | serde.py:75-76 | an error inside a nested record's `from_dict` is the error of the outer call, once every earlier field went through |
| Serde.BuildFieldValue | serde.py:66-81 | after a successful build, a present scalar field holds the input value, which is an instance of its class; a nested field holds the nested `from_dict` result; a list field holds instances of its element class |
| Serde.BuildReadsDeclaredKeys | serde.py:61-66 | two input dicts that agree on the declared names give the same result, whatever other keys they hold |
| Serde.ExtraKeyIgnored | serde.py:61-65 | adding a key that names no declared field leaves the result unchanged |
| Serde.BuildFromFieldValues | serde.py:61-81 | if every declared field of a fully populated record's class yields that record's value, `from_dict` builds exactly that record |
| Serde.BuildInvertsEncode | serde.py:55-83 | for a fully populated, well-typed record, the encoder's tree is a dict and `from_dict` rebuilds an equal record from it |
| Serde.ConvertInvertsEncode | serde.py:68-79 | a field value that suits its declared type encodes, and the field conversion of its encoding gives it back |
| Serde.ItemInvertsEncode | serde.py:70 | a list element that suits the element class encodes, and the element conversion of its encoding gives it back |
| Serde.RoundTrip | serde.py:86-101 | `deserialize` of what `serialize` writes for a fully populated, well-typed record without NaN (nested records and lists of records included) is an equal record |
| SerdePy.Build | serdepy.py:56-71 | the looser `from_dict` never raises a type mismatch; its only errors are the not-iterable and bad-subscript `TypeError`s of `in` and `[]` on a non-dict |
| SerdePy.FieldValue | serdepy.py:62-64 | a field gets a value exactly when the input is a dict holding its name, and that value is the field's conversion of `dictionary[name]` |
| SerdePy.Convert | serdepy.py:66-67 | a value for a field whose annotated class is not registered, a list type included, is stored exactly as given; a registered class's field gets that class's `from_dict` result or its error |
| SerdePy.FromDict | serdepy.py:56-71 | the loop with `setattr` computes exactly `Build` |
| SerdePy.Deserialize | serdepy.py:81-90 | it fails with the not-an-object `TypeError` if and only if the parsed value is not a dict; otherwise it returns `from_dict` of that dict |
| SerdePy.BuildOkIffFieldsOk | serdepy.py:62-69 | the looser `from_dict` succeeds if and only if every annotated field goes through |
| SerdePy.BuildSetsPresentFields | serdepy.py:62-69 | the fields set are exactly the annotated fields whose names occur in the input, each with its own conversion result |
| SerdePy.BuildOkOnDict | serdepy.py:62-69 | given a dict, the looser `from_dict` fails only when a field annotated with a registered class holds a value that class's `from_dict` rejects; a class without such fields accepts every dict |
| SerdePy.BuildStoresAsGiven | serdepy.py:62-69 | the fields set are exactly the annotated fields present in the input; a registered-class field holds that class's `from_dict` of its input value; every other field, lists included, holds its input value unchanged |
| SerdePy.BuildFromFieldValues | serdepy.py:62-69 | if every annotated field yields a populated record's value, the looser `from_dict` builds exactly that record |
| SerdePy.BuildInvertsEncode | serdepy.py:56-71 | for a record whose registered-class fields hold such records and whose other fields hold JSON values without NaN, the looser `from_dict` rebuilds it from the encoder's tree |
| SerdePy.RoundTrip | serdepy.py:74-90 | for such a record, with no NaN inside, `deserialize` of what `serialize` writes is an equal record |
| Scenarios.PointRejectsString | serde.py:78-79 | `Point.from_dict({"x": "0", "y": 0})` fails naming field `x`, actual `str`, expected `int` |
| Scenarios.PointAcceptsBool | serde.py:78 | `Point.from_dict({"x": True, "y": 0})` succeeds because `bool` is a subclass of `int` |
| Scenarios.SeriesRejectsDictElement | serde.py:70 | a dict inside a `list[int]` field fails with the missing `int.from_dict` |
| Scenarios.PolygonBadElementNamesInnerField | serde.py:70-73 | a polygon whose second point has `"y": "bad"` fails with the inner point's error, naming `y`, not the list field `points` |
| Scenarios.LineRoundTrip | serde.py:86-101 | a line of two points serializes and deserializes back to an equal line |
| Scenarios.PointRejectsArray | serde.py:99-100 | deserializing the array `[1, 2, 3]` as a `Point` fails naming `Point` and `list` |
| Scenarios.PointFromUnrelatedString | serde.py:61-66 | `Point.from_dict("abc")` returns a `Point` with nothing set, since neither `"x"` nor `"y"` is in `"abc"` |
| Scenarios.PointFromNamingString | serde.py:65-66 | `Point.from_dict("xy")` raises the str-subscript `TypeError`, since `"x"` is in `"xy"` |
| Scenarios.LoosePointKeepsString | serdepy.py:62-69 | the looser `from_dict` stores `"0"` in the `int` field `x` |
| Scenarios.LoosePolygonKeepsDicts | serdepy.py:66-69 | the looser draft reads a serialized polygon back with a list of dicts in `points`, so the round trip does not give back the polygon |

## Behaviour that follows the code

A few behaviours are easy to misread from the docstrings. The model follows
the code in each case:

- Scalar checks use `isinstance`, not exact type equality. `True` is accepted
  for an `int` field (`Scenarios.PointAcceptsBool`).
- A bad element in a list of records fails inside the element class's
  `from_dict`. The exception therefore names the element's field, not the list
  field (`Scenarios.PolygonBadElementNamesInnerField`). The list-level
  `TypeError` of serde.py:73 is raised only when all elements convert and one
  is not an instance. Its message always reports `list`, the type of the
  converted list.
- Failures are not all type mismatches. The code also raises:
  - a not-iterable `TypeError` from `in` or `for` on a scalar;
  - a `TypeError` from subscripting a str or a list;
  - an `AttributeError` when a dict sits where a class without `from_dict` is
    expected, for example in a `list[int]`.
- `deserialize` does not install the decoder `object_hook`. The hook would
  change nothing anyway (`Hook.FromDict`).
- The looser draft's `from_dict` docstring promises type validation, but the
  code does none (`SerdePy.Build`, `SerdePy.Convert`).

## Left out

- JSON text: lexing and printing (`json.loads`, `json.dumps` with `indent`). The model starts from, and ends with, the parsed value tree. Malformed JSON text and the parser's own errors are not modelled.
- The `serde` decorator and reflection (serde.py:36-45, serdepy.py:35-44). They are replaced by the fixed `Schema` table. Every schema class counts as a decorated dataclass. A dataclass that was never decorated, or a decorated class that is not a dataclass, is not modelled.
- Field types other than a class or `list[T]` of a class: `Optional`, `dict[...]`, `list[list[int]]` and the like. With these `isinstance` raises or behaves differently. Also left out: field defaults, `ClassVar`/`InitVar`, inheritance of fields.
- Exact exception message text. Errors carry the names and classes the message reports.
- Float semantics. Floats are opaque 64-bit patterns and are never computed with.
- The half-built object left behind when `from_dict` raises midway. It is never returned, so a failure is an `Err` result.
- Hook.FromDict: works on values, so object identity and the in-place writes into the caller's dict and lists are not modelled. The result is stated as equal to the input.
- SerdePy.Build: a class with no annotations of its own is treated as having no fields and builds an empty record. Whether `obj.__annotations__` raises there depends on the Python version.
- JSON objects with repeated keys. Dict keys are assumed distinct, as in a Python dict; lookups take the first entry.
- The encoder's handling of non-string dict keys and circular references. Dict keys are strings and values are finite trees here.
- Serde.RoundTrip: NaN is excluded (`Values.NoNaN` in `Serde.Fits`). `json.loads` reads every `NaN` back as one canonical NaN, which drops the payload and never compares equal. Infinities and other floats keep their bits. The limit on int-to-string conversion (4300 digits by default since Python 3.11) is not modelled: `VInt` is unbounded, so the lemma also covers ints for which `json.dumps` would raise `ValueError` there.
- SerdePy.RoundTrip: the same two gaps. NaN is excluded through `SerdePy.Suits`, and ints past the digit limit are not modelled.
