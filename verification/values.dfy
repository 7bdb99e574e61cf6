/**
 * The Python runtime values both converters work on: the value tree a JSON
 * parser produces (None, bool, int, float, str, list, dict) together with
 * record instances, the objects of registered classes.  Also the few Python
 * operators the converters apply to these values (`type`, `isinstance`,
 * `in`, subscripting and iteration) and the static schema that replaces
 * reflection over dataclass fields and annotations.
 */
module Values {

  datatype Option<T> = None | Some(value: T)

  /** `type(v)`: the runtime class of a value; `Class(n)` is the user class named `n`. */
  datatype PyType = NoneType | Bool | Int | Float | Str | List | Dict | Class(name: string)

  datatype Value =
    | VNone
    | VBool(b: bool)
    | VInt(i: int)
    | VFloat(bits: bv64)       // opaque: the converters never compute with floats
    | VStr(s: string)
    | VList(items: seq<Value>)
    | VDict(entries: seq<Entry>) // insertion order is kept; keys are strings
    | VRecord(rec: Record)

  datatype Entry = Entry(key: string, val: Value)

  /** A record instance: its class and the attributes set on it so far. */
  datatype Record = Record(cls: string, attrs: map<string, Value>)

  /** A declared field type: a plain class (`int`, `str`, `list`, a record class, ...)
      or a parameterised `list[T]` whose element class is `T`. */
  datatype FieldType = Plain(t: PyType) | ListOf(elem: PyType)

  datatype Field = Field(name: string, ftype: FieldType)

  /** The registered record classes, each with its declared fields in declaration order. */
  type Schema = map<string, seq<Field>>

  /** The exceptions the converters raise, by kind and with the names they report. */
  datatype Error =
    | FieldTypeMismatch(field: string, actual: PyType, expected: PyType) // TypeError "Incorrect type for ..."
    | ListFieldMismatch(field: string, actual: PyType)                   // TypeError "Invalid type for ..."
    | NotIterable(actual: PyType)        // TypeError from `in` or `for` on a non-container
    | BadIndex(container: PyType)        // TypeError from `s[name]` on a str or a list
    | NoFromDict(owner: PyType)          // AttributeError: `T.from_dict` on a class that lacks it
    | MissingAttribute(cls: string, field: string) // AttributeError from `getattr` on an unset field
    | NotSerializable(actual: PyType)    // TypeError from the JSON encoder's fallback
    | NotAnObject(cls: string, actual: PyType)     // TypeError from deserialize's top-level check

  /** The errors a `from_dict` call can raise. */
  predicate IsBuildError(e: Error) {
    e.FieldTypeMismatch? || e.ListFieldMismatch? || e.NotIterable? || e.BadIndex? || e.NoFromDict?
  }

  datatype Result<T> = Ok(value: T) | Err(error: Error) {
    predicate IsFailure() { Err? }
    function PropagateFailure<U>(): Result<U>
      requires Err?
    {
      Err(error)
    }
    function Extract(): T
      requires Ok?
    {
      value
    }
  }

  function TypeOf(v: Value): PyType {
    match v
    case VNone => NoneType
    case VBool(_) => Bool
    case VInt(_) => Int
    case VFloat(_) => Float
    case VStr(_) => Str
    case VList(_) => List
    case VDict(_) => Dict
    case VRecord(r) => Class(r.cls)
  }

  /** Python's subclass relation on these classes: `bool` is a subclass of `int`. */
  predicate IsSubclass(a: PyType, b: PyType) {
    a == b || (a == Bool && b == Int)
  }

  /** `isinstance(v, t)`. */
  predicate IsInstance(v: Value, t: PyType) {
    IsSubclass(TypeOf(v), t)
  }

  /** `all(isinstance(x, t) for x in xs)`. */
  predicate AllInstances(xs: seq<Value>, t: PyType) {
    forall i | 0 <= i < |xs| :: IsInstance(xs[i], t)
  }

  /** `t` is a registered record class, so it has `from_dict` and `to_dict`. */
  predicate Registered(schema: Schema, t: PyType) {
    t.Class? && t.name in schema
  }

  /** A value the JSON encoder writes without calling its `default` hook: no record anywhere inside. */
  predicate IsJson(v: Value) {
    match v
    case VList(items) => forall i | 0 <= i < |items| :: IsJson(items[i])
    case VDict(es) => forall i | 0 <= i < |es| :: IsJson(es[i].val)
    case VRecord(_) => false
    case _ => true
  }

  function Keys(es: seq<Entry>): (ks: seq<string>)
    ensures |ks| == |es| && forall i | 0 <= i < |es| :: ks[i] == es[i].key
  {
    if es == [] then [] else [es[0].key] + Keys(es[1..])
  }

  function Names(fs: seq<Field>): (ns: seq<string>)
    ensures |ns| == |fs| && forall i | 0 <= i < |fs| :: ns[i] == fs[i].name
  {
    if fs == [] then [] else [fs[0].name] + Names(fs[1..])
  }

  /** Dataclass field names are unique within a class. */
  predicate UniqueNames(fs: seq<Field>) {
    forall i, j | 0 <= i < j < |fs| :: fs[i].name != fs[j].name
  }

  /** Where key `k` sits in a dict: its first (in a Python dict, its only) entry. */
  function IndexOf(es: seq<Entry>, k: string): (i: nat)
    requires k in Keys(es)
    ensures i < |es| && es[i].key == k
    ensures forall j | 0 <= j < i :: es[j].key != k
  {
    if es[0].key == k then 0 else 1 + IndexOf(es[1..], k)
  }

  /** `d.get(k)`. */
  function Get(es: seq<Entry>, k: string): Option<Value> {
    if k in Keys(es) then Some(es[IndexOf(es, k)].val) else None
  }

  /** `k in s` for strings: substring containment. */
  predicate IsSubstring(k: string, s: string) {
    k <= s || (|s| > 0 && IsSubstring(k, s[1..]))
  }

  /** `k` occurs in `s` starting at position `i`. */
  predicate OccursAt(k: string, s: string, i: nat) {
    i + |k| <= |s| && s[i..i + |k|] == k
  }

  /** `k in s` holds exactly when `k` occurs in `s` at some position. */
  lemma {:induction false} SubstringAt(k: string, s: string)
    ensures IsSubstring(k, s) <==> exists i: nat :: OccursAt(k, s, i)
  {
    if k <= s {
      assert OccursAt(k, s, 0);
    } else if |s| > 0 {
      SubstringAt(k, s[1..]);
      if IsSubstring(k, s[1..]) {
        var i: nat :| OccursAt(k, s[1..], i);
        assert s[i + 1..i + 1 + |k|] == s[1..][i..i + |k|];
        assert OccursAt(k, s, i + 1);
      }
      if exists i: nat :: OccursAt(k, s, i) {
        var i: nat :| OccursAt(k, s, i);
        if i > 0 {
          assert s[1..][i - 1..i - 1 + |k|] == s[i..i + |k|];
          assert OccursAt(k, s[1..], i - 1);
        }
      }
    }
  }

  /** `k in container` with a string `k`: key membership in a dict, substring
      containment in a str, element equality in a list; any other value is not
      iterable and the operator raises. */
  function Contains(container: Value, k: string): (r: Result<bool>)
    ensures container.VDict? ==> r == Ok(k in Keys(container.entries))
    ensures container.VStr? ==>
      r == Ok(exists i: nat :: OccursAt(k, container.s, i))
    ensures container.VList? ==>
      r == Ok(exists i | 0 <= i < |container.items| :: container.items[i] == VStr(k))
    ensures r.Err? <==> !(container.VDict? || container.VStr? || container.VList?)
  {
    match container
    case VDict(es) => Ok(k in Keys(es))
    case VStr(s) => SubstringAt(k, s); Ok(IsSubstring(k, s))
    case VList(items) => Ok(VStr(k) in items)
    case _ => Err(NotIterable(TypeOf(container)))
  }

  /** The elements `for x in v` visits: a list's items, a string's one-character
      strings, a dict's keys; any other value is not iterable. */
  function Iterate(v: Value): (r: Result<seq<Value>>)
    ensures r.Err? <==> !(v.VList? || v.VStr? || v.VDict?)
    ensures v.VList? ==> r == Ok(v.items)
    ensures v.VStr? ==>
      r.Ok? && |r.value| == |v.s| && forall i | 0 <= i < |v.s| :: r.value[i] == VStr([v.s[i]])
    ensures v.VDict? ==>
      r.Ok? && |r.value| == |v.entries| && forall i | 0 <= i < |v.entries| :: r.value[i] == VStr(v.entries[i].key)
  {
    match v
    case VList(items) => Ok(items)
    case VStr(s) => Ok(seq(|s|, i requires 0 <= i < |s| => VStr([s[i]])))
    case VDict(es) => Ok(seq(|es|, i requires 0 <= i < |es| => VStr(es[i].key)))
    case _ => Err(NotIterable(TypeOf(v)))
  }

  /** A NaN bit pattern: every exponent bit set and a non-zero fraction. */
  predicate IsNaN(bits: bv64) {
    bits & 0x7FF0_0000_0000_0000 == 0x7FF0_0000_0000_0000 && bits & 0x000F_FFFF_FFFF_FFFF != 0
  }

  /** No NaN anywhere inside.  `json.dumps` writes every NaN as `NaN` and
      `json.loads` reads that back as one canonical NaN, which never compares
      equal, so a NaN does not survive a round trip. */
  predicate NoNaN(v: Value) {
    match v
    case VFloat(bits) => !IsNaN(bits)
    case VList(items) => forall i | 0 <= i < |items| :: NoNaN(items[i])
    case VDict(es) => forall i | 0 <= i < |es| :: NoNaN(es[i].val)
    case _ => true
  }

  /** The input is a dict holding key `k`. */
  predicate Present(d: Value, k: string) {
    d.VDict? && k in Keys(d.entries)
  }

  /** `setattr` for a field whose slot is `Some`; a missing field leaves `attrs` as it is. */
  function Assign(attrs: map<string, Value>, name: string, slot: Option<Value>): map<string, Value> {
    if slot.Some? then attrs[name := slot.value] else attrs
  }

  /** The names of the fields in `fs` for which `d` holds a key. */
  function PresentNames(fs: seq<Field>, d: Value): set<string> {
    set f | f in fs && Present(d, f.name) :: f.name
  }

  /** Splits off the first field of a non-empty suffix. */
  lemma PresentNamesStep(fs: seq<Field>, i: nat, d: Value)
    requires i < |fs|
    ensures PresentNames(fs[i..], d)
         == (if Present(d, fs[i].name) then {fs[i].name} else {}) + PresentNames(fs[i + 1..], d)
  {
    assert fs[i..] == [fs[i]] + fs[i + 1..];
  }

  /** What `getattr(obj, name)` would find: the value if it was set. */
  function Slot(attrs: map<string, Value>, name: string): Option<Value> {
    if name in attrs then Some(attrs[name]) else None
  }

  /** Maps with the same keys and the same value at each key are equal. */
  lemma SameMap(m1: map<string, Value>, m2: map<string, Value>)
    requires m1.Keys == m2.Keys && forall n | n in m2 :: m1[n] == m2[n]
    ensures m1 == m2
  {
  }

  /** Where a declared name sits among the fields. */
  lemma FieldIndex(fs: seq<Field>, n: string) returns (i: nat)
    requires n in (set f | f in fs :: f.name)
    ensures i < |fs| && fs[i].name == n
  {
    var f :| f in fs && f.name == n;
    var j :| 0 <= j < |fs| && fs[j] == f;
    i := j;
  }

  /** In a dict whose keys are the declared names, in order and distinct, the
      `i`-th field's name is found at entry `i`. */
  lemma FindDeclaredKey(fs: seq<Field>, es: seq<Entry>, i: nat)
    requires UniqueNames(fs) && Keys(es) == Names(fs) && i < |fs|
    ensures fs[i].name in Keys(es) && IndexOf(es, fs[i].name) == i
  {
    assert Keys(es)[i] == fs[i].name;
    var j := IndexOf(es, fs[i].name);
    assert Keys(es)[j] == fs[j].name;
  }

  /** Appending an entry for another key does not change what `d.get(n)` finds. */
  lemma GetAppendOther(es: seq<Entry>, e: Entry, n: string)
    requires e.key != n
    ensures Get(es + [e], n) == Get(es, n)
  {
    var es' := es + [e];
    var ks, ks' := Keys(es), Keys(es');
    assert ks' == ks + [e.key] by {
      assert |ks'| == |ks| + 1;
      forall j | 0 <= j < |ks'| ensures ks'[j] == (ks + [e.key])[j] {
        if j < |es| {
          assert es'[j] == es[j];
        }
      }
    }
    assert (n in ks') == (n in ks);
    if n in ks {
      var i, i' := IndexOf(es, n), IndexOf(es', n);
      assert es'[i] == es[i];
      assert i' == i;
    }
  }
}
