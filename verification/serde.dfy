/**
 * serde.py: the validating draft.  `from_dict` walks the declared fields in
 * order, skips the ones whose names are missing, rebuilds nested records and
 * list elements through the element class's `from_dict`, and checks every
 * other value with `isinstance`; `deserialize` insists on a top-level JSON
 * object before calling it.
 */
module Serde {
  import opened Values
  import opened Encoding

  /** The record `from_dict` builds for the registered class `cls` from `d`, or the
      exception it raises. */
  function Build(schema: Schema, cls: string, d: Value): (r: Result<Record>)
    requires cls in schema
    ensures r.Ok? ==> r.value.cls == cls
    ensures r.Err? ==> IsBuildError(r.error)
    decreases d, 2
  {
    var attrs :- SetFields(schema, schema[cls], 0, d, map[]);
    Ok(Record(cls, attrs))
  }

  /** The loop over the declared fields `fs` from index `i` on, `attrs` being what
      earlier iterations set. */
  function SetFields(schema: Schema, fs: seq<Field>, i: nat, d: Value, attrs: map<string, Value>)
    : (r: Result<map<string, Value>>)
    requires i <= |fs|
    ensures r.Err? ==> IsBuildError(r.error)
    decreases d, 1, |fs| - i
  {
    if i == |fs| then Ok(attrs)
    else
      var slot :- FieldValue(schema, fs[i], d);
      SetFields(schema, fs, i + 1, d, Assign(attrs, fs[i].name, slot))
  }

  /** One iteration of the loop: `None` when `f.name in d` is false, otherwise the
      converted value of `d[f.name]`; `in` and the subscript are Python's, so a str
      or a list in place of a dict may raise. */
  function FieldValue(schema: Schema, f: Field, d: Value): (r: Result<Option<Value>>)
    ensures r.Err? ==> IsBuildError(r.error)
    ensures r.Ok? ==> (r.value.Some? <==> Present(d, f.name))
    ensures r.Ok? && r.value.Some? ==>
      Convert(schema, f, d.entries[IndexOf(d.entries, f.name)].val) == Ok(r.value.value)
    decreases d, 0
  {
    var present :- Contains(d, f.name);
    if !present then Ok(None)
    else if !d.VDict? then Err(BadIndex(TypeOf(d)))
    else
      var c :- Convert(schema, f, d.entries[IndexOf(d.entries, f.name)].val);
      Ok(Some(c))
  }

  /** The value assigned to field `f` when the input holds `v` for it. */
  function Convert(schema: Schema, f: Field, v: Value): (r: Result<Value>)
    ensures r.Err? ==> IsBuildError(r.error)
    ensures r.Ok? && f.ftype.ListOf? ==> r.value.VList? && AllInstances(r.value.items, f.ftype.elem)
    ensures r.Ok? && f.ftype.Plain? && !Registered(schema, f.ftype.t) ==> r.value == v && IsInstance(v, f.ftype.t)
    ensures r.Ok? && f.ftype.Plain? && Registered(schema, f.ftype.t) ==>
      r.value.VRecord? && Build(schema, f.ftype.t.name, v) == Ok(r.value.rec)
    decreases v, 3
  {
    match f.ftype
    case ListOf(inner) =>
      var xs :- Iterate(v);
      // Iterating a str or a dict yields strs, which the comprehension keeps as they are.
      var ys :- if v.VList? then ConvertItems(schema, inner, v.items, 0, []) else Ok(xs);
      if AllInstances(ys, inner) then Ok(VList(ys))
      else Err(ListFieldMismatch(f.name, List))
    case Plain(t) =>
      if Registered(schema, t) then
        var rec :- Build(schema, t.name, v);
        Ok(VRecord(rec))
      else if IsInstance(v, t) then Ok(v)
      else Err(FieldTypeMismatch(f.name, TypeOf(v), t))
  }

  /** The comprehension `[inner.from_dict(x) if isinstance(x, dict) else x for x in xs]`
      from index `k` on, `acc` holding the elements already produced. */
  function ConvertItems(schema: Schema, inner: PyType, xs: seq<Value>, k: nat, acc: seq<Value>)
    : (r: Result<seq<Value>>)
    requires k <= |xs|
    ensures r.Err? ==> IsBuildError(r.error)
    decreases xs, |xs| - k
  {
    if k == |xs| then Ok(acc)
    else
      var y :- ConvertItem(schema, inner, xs[k]);
      ConvertItems(schema, inner, xs, k + 1, acc + [y])
  }

  /** One element of that comprehension: a dict is rebuilt by the element class's
      `from_dict` (a class without one raises), anything else is kept. */
  function ConvertItem(schema: Schema, inner: PyType, x: Value): (r: Result<Value>)
    ensures r.Err? ==> IsBuildError(r.error)
    ensures !x.VDict? ==> r == Ok(x)
    ensures x.VDict? && !Registered(schema, inner) ==> r == Err(NoFromDict(inner))
    ensures x.VDict? && Registered(schema, inner) ==>
      (r.Ok? <==> Build(schema, inner.name, x).Ok?) &&
      (r.Err? ==> r.error == Build(schema, inner.name, x).error)
    ensures r.Ok? && x.VDict? ==>
      Registered(schema, inner) && r.value.VRecord? && Build(schema, inner.name, x) == Ok(r.value.rec)
    decreases x, 4
  {
    if !x.VDict? then Ok(x)
    else if !Registered(schema, inner) then Err(NoFromDict(inner))
    else
      var rec :- Build(schema, inner.name, x);
      Ok(VRecord(rec))
  }

  /** `from_dict`: starts from an instance with nothing set and assigns the fields
      one by one. */
  method FromDict(schema: Schema, cls: string, d: Value) returns (res: Result<Record>)
    requires cls in schema
    ensures res == Build(schema, cls, d)
    decreases d, 2
  {
    var fs := schema[cls];
    var attrs: map<string, Value> := map[];
    for i := 0 to |fs|
      invariant SetFields(schema, fs, i, d, attrs) == SetFields(schema, fs, 0, d, map[])
    {
      var f := fs[i];
      var present :- Contains(d, f.name);
      if present {
        if !d.VDict? {
          return Err(BadIndex(TypeOf(d)));
        }
        var value := d.entries[IndexOf(d.entries, f.name)].val;
        var converted := ConvertField(schema, f, value);
        if converted.Err? {
          return Err(converted.error);
        }
        attrs := attrs[f.name := converted.value];
      }
    }
    return Ok(Record(cls, attrs));
  }

  /** The body of the loop in `from_dict` once `value` is known: the list
      comprehension and its `all(isinstance(...))` check, the nested `from_dict`,
      or the scalar `isinstance` check. */
  method ConvertField(schema: Schema, f: Field, value: Value) returns (res: Result<Value>)
    ensures res == Convert(schema, f, value)
    decreases value, 3
  {
    match f.ftype {
      case ListOf(inner) =>
        var xs :- Iterate(value);
        var converted := xs;
        if value.VList? {
          converted := [];
          for k := 0 to |value.items|
            invariant ConvertItems(schema, inner, value.items, k, converted)
                   == ConvertItems(schema, inner, value.items, 0, [])
          {
            var x := value.items[k];
            if x.VDict? {
              if !Registered(schema, inner) {
                return Err(NoFromDict(inner));
              }
              var rec :- FromDict(schema, inner.name, x);
              converted := converted + [VRecord(rec)];
            } else {
              converted := converted + [x];
            }
          }
        }
        assert (if value.VList? then ConvertItems(schema, inner, value.items, 0, []) else Ok(xs)) == Ok(converted);
        if !AllInstances(converted, inner) {
          return Err(ListFieldMismatch(f.name, List));
        }
        return Ok(VList(converted));
      case Plain(t) =>
        if Registered(schema, t) {
          var rec :- FromDict(schema, t.name, value);
          return Ok(VRecord(rec));
        } else if !IsInstance(value, t) {
          return Err(FieldTypeMismatch(f.name, TypeOf(value), t));
        }
        return Ok(value);
    }
  }

  /** `deserialize` once `json.loads` has produced `parsed`: anything but a JSON
      object at the top is rejected naming the class and the actual kind, and an
      object goes to `from_dict`. */
  function Deserialize(schema: Schema, cls: string, parsed: Value): (r: Result<Record>)
    requires cls in schema
    ensures (r.Err? && r.error.NotAnObject?) <==> !parsed.VDict?
    ensures !parsed.VDict? ==> r == Err(NotAnObject(cls, TypeOf(parsed)))
    ensures parsed.VDict? ==> r == Build(schema, cls, parsed)
  {
    if !parsed.VDict? then Err(NotAnObject(cls, TypeOf(parsed)))
    else Build(schema, cls, parsed)
  }

  lemma {:induction false} SetFieldsOkIffFieldsOk(schema: Schema, fs: seq<Field>, i: nat, d: Value, acc: map<string, Value>)
    requires i <= |fs|
    ensures SetFields(schema, fs, i, d, acc).Ok? <==> forall j | i <= j < |fs| :: FieldValue(schema, fs[j], d).Ok?
    decreases |fs| - i
  {
    if i < |fs| && FieldValue(schema, fs[i], d).Ok? {
      SetFieldsOkIffFieldsOk(schema, fs, i + 1, d, Assign(acc, fs[i].name, FieldValue(schema, fs[i], d).value));
    }
  }

  lemma {:induction false} SetFieldsFirstError(schema: Schema, fs: seq<Field>, i: nat, d: Value, acc: map<string, Value>, k: nat)
    requires i <= k < |fs|
    requires forall j | i <= j < k :: FieldValue(schema, fs[j], d).Ok?
    requires FieldValue(schema, fs[k], d).Err?
    ensures SetFields(schema, fs, i, d, acc) == Err(FieldValue(schema, fs[k], d).error)
    decreases k - i
  {
    if i < k {
      SetFieldsFirstError(schema, fs, i + 1, d, Assign(acc, fs[i].name, FieldValue(schema, fs[i], d).value), k);
    }
  }

  lemma {:induction false} SetFieldsAssigns(schema: Schema, fs: seq<Field>, i: nat, d: Value, acc: map<string, Value>)
    requires i <= |fs| && UniqueNames(fs) && SetFields(schema, fs, i, d, acc).Ok?
    requires forall j | i <= j < |fs| :: fs[j].name !in acc
    ensures var m := SetFields(schema, fs, i, d, acc).value;
      && m.Keys == acc.Keys + PresentNames(fs[i..], d)
      && (forall k | k in acc :: m[k] == acc[k])
      && forall j | i <= j < |fs| :: FieldValue(schema, fs[j], d) == Ok(Slot(m, fs[j].name))
    decreases |fs| - i
  {
    if i < |fs| {
      var slot := FieldValue(schema, fs[i], d).value;
      var acc' := Assign(acc, fs[i].name, slot);
      SetFieldsAssigns(schema, fs, i + 1, d, acc');
      PresentNamesStep(fs, i, d);
    } else {
      assert fs[i..] == [];
    }
  }

  /** `from_dict` succeeds exactly when every declared field goes through. */
  lemma BuildOkIffFieldsOk(schema: Schema, cls: string, d: Value)
    requires cls in schema
    ensures Build(schema, cls, d).Ok? <==>
      forall i | 0 <= i < |schema[cls]| :: FieldValue(schema, schema[cls][i], d).Ok?
  {
    SetFieldsOkIffFieldsOk(schema, schema[cls], 0, d, map[]);
  }

  /** Fields are handled in declaration order: the first field that fails decides
      the exception `from_dict` raises. */
  lemma BuildFailsAtFirstBadField(schema: Schema, cls: string, d: Value, k: nat)
    requires cls in schema && k < |schema[cls]|
    requires forall j | 0 <= j < k :: FieldValue(schema, schema[cls][j], d).Ok?
    requires FieldValue(schema, schema[cls][k], d).Err?
    ensures Build(schema, cls, d) == Err(FieldValue(schema, schema[cls][k], d).error)
  {
    SetFieldsFirstError(schema, schema[cls], 0, d, map[], k);
  }

  /** On success the fields set are exactly the declared fields whose names occur
      in the input (absent ones stay unset, undeclared keys add nothing), and each
      holds the value its own iteration produced. */
  lemma BuildSetsPresentFields(schema: Schema, cls: string, d: Value)
    requires cls in schema && UniqueNames(schema[cls]) && Build(schema, cls, d).Ok?
    ensures Build(schema, cls, d).value.attrs.Keys == PresentNames(schema[cls], d)
    ensures forall f | f in schema[cls] ::
      FieldValue(schema, f, d) == Ok(Slot(Build(schema, cls, d).value.attrs, f.name))
  {
    var fs := schema[cls];
    SetFieldsAssigns(schema, fs, 0, d, map[]);
    assert fs[0..] == fs;
  }

  lemma {:induction false} SetFieldsOnNonDict(schema: Schema, fs: seq<Field>, i: nat, d: Value, acc: map<string, Value>)
    requires i <= |fs| && !d.VDict?
    ensures SetFields(schema, fs, i, d, acc) ==
      if !(d.VStr? || d.VList?) && i < |fs| then Err(NotIterable(TypeOf(d)))
      else if exists j | i <= j < |fs| :: Contains(d, fs[j].name) == Ok(true) then Err(BadIndex(TypeOf(d)))
      else Ok(acc)
    decreases |fs| - i
  {
    if i < |fs| {
      SetFieldsOnNonDict(schema, fs, i + 1, d, acc);
    }
  }

  /** `from_dict` given a str or a list instead of a dict: `in` tests substrings
      or elements, so the call fails on the first declared name it finds there,
      where the subscript raises, and otherwise returns an instance with nothing
      set; given any other non-dict value, the first `in` raises. */
  lemma BuildOnNonDict(schema: Schema, cls: string, d: Value)
    requires cls in schema && !d.VDict?
    ensures (d.VStr? || d.VList?) ==>
      Build(schema, cls, d) ==
        (if exists j | 0 <= j < |schema[cls]| :: Contains(d, schema[cls][j].name) == Ok(true)
         then Err(BadIndex(TypeOf(d)))
         else Ok(Record(cls, map[])))
    ensures !(d.VStr? || d.VList?) ==>
      Build(schema, cls, d) ==
        (if |schema[cls]| == 0 then Ok(Record(cls, map[])) else Err(NotIterable(TypeOf(d))))
  {
    SetFieldsOnNonDict(schema, schema[cls], 0, d, map[]);
  }

  lemma {:induction false} ConvertItemsElementwise(schema: Schema, inner: PyType, xs: seq<Value>, k: nat, acc: seq<Value>)
    requires k <= |xs|
    ensures var r := ConvertItems(schema, inner, xs, k, acc);
      && (r.Ok? <==> forall j | k <= j < |xs| :: ConvertItem(schema, inner, xs[j]).Ok?)
      && (r.Ok? ==>
            && |r.value| == |acc| + |xs| - k
            && r.value[..|acc|] == acc
            && forall j | k <= j < |xs| :: ConvertItem(schema, inner, xs[j]) == Ok(r.value[|acc| + j - k]))
      && (r.Err? ==>
            exists j | k <= j < |xs| ::
              && (forall l | k <= l < j :: ConvertItem(schema, inner, xs[l]).Ok?)
              && ConvertItem(schema, inner, xs[j]) == Err(r.error))
    decreases |xs| - k
  {
    if k < |xs| {
      var y := ConvertItem(schema, inner, xs[k]);
      if y.Ok? {
        var acc' := acc + [y.value];
        ConvertItemsElementwise(schema, inner, xs, k + 1, acc');
        var r := ConvertItems(schema, inner, xs, k + 1, acc');
        if r.Ok? {
          assert r.value[..|acc'|] == acc';
          assert r.value[..|acc|] == acc'[..|acc|];
        }
      }
    }
  }

  /** A list field keeps the length and order of the input list: each dict element
      is replaced by the element class's `from_dict` result and every other
      element is kept.  The field goes through only if every element does and
      every converted element is an instance of the element class; when only the
      instance check fails, the `TypeError` names the field. */
  lemma ListFieldConversion(schema: Schema, f: Field, items: seq<Value>)
    requires f.ftype.ListOf?
    ensures var inner := f.ftype.elem; var r := Convert(schema, f, VList(items));
      && (r.Ok? <==>
            forall k | 0 <= k < |items| ::
              ConvertItem(schema, inner, items[k]).Ok? && IsInstance(ConvertItem(schema, inner, items[k]).value, inner))
      && (r.Ok? ==>
            && r.value.VList? && |r.value.items| == |items|
            && forall k | 0 <= k < |items| :: ConvertItem(schema, inner, items[k]) == Ok(r.value.items[k]))
      && ((forall k | 0 <= k < |items| :: ConvertItem(schema, inner, items[k]).Ok?) && r.Err? ==>
            r.error == ListFieldMismatch(f.name, List))
  {
    var inner := f.ftype.elem;
    ConvertItemsElementwise(schema, inner, items, 0, []);
    ListFieldUnfolds(schema, f, items);
    var ys := ConvertItems(schema, inner, items, 0, []);
    if ys.Ok? {
      assert forall k | 0 <= k < |items| :: ConvertItem(schema, inner, items[k]) == Ok(ys.value[k]);
    }
  }

  /** A list field's conversion given a list: the comprehension, then the check. */
  lemma ListFieldUnfolds(schema: Schema, f: Field, items: seq<Value>)
    requires f.ftype.ListOf?
    ensures var ys := ConvertItems(schema, f.ftype.elem, items, 0, []);
      Convert(schema, f, VList(items)) ==
        if ys.Err? then Err(ys.error)
        else if AllInstances(ys.value, f.ftype.elem) then Ok(VList(ys.value))
        else Err(ListFieldMismatch(f.name, List))
  {
    assert Iterate(VList(items)) == Ok(items);
  }

  /** A list field given a str or a dict iterates it: the one-character strings or
      the keys become the list, which passes only for `list[str]` or when empty;
      given any other non-list value the iteration raises. */
  lemma ListFieldFromNonList(schema: Schema, f: Field, v: Value)
    requires f.ftype.ListOf? && !v.VList?
    ensures !(v.VStr? || v.VDict?) ==> Convert(schema, f, v) == Err(NotIterable(TypeOf(v)))
    ensures v.VStr? ==>
      (Convert(schema, f, v).Ok? <==> f.ftype.elem == Str || |v.s| == 0)
    ensures v.VStr? && Convert(schema, f, v).Ok? ==>
      Convert(schema, f, v) == Ok(VList(seq(|v.s|, i requires 0 <= i < |v.s| => VStr([v.s[i]]))))
    ensures v.VDict? ==>
      (Convert(schema, f, v).Ok? <==> f.ftype.elem == Str || |v.entries| == 0)
    ensures v.VDict? && Convert(schema, f, v).Ok? ==>
      Convert(schema, f, v) == Ok(VList(seq(|v.entries|, i requires 0 <= i < |v.entries| => VStr(v.entries[i].key))))
    ensures (v.VStr? || v.VDict?) && Convert(schema, f, v).Err? ==>
      Convert(schema, f, v) == Err(ListFieldMismatch(f.name, List))
  {
    if v.VStr? && |v.s| > 0 {
      assert TypeOf(Iterate(v).value[0]) == Str;
    }
    if v.VDict? && |v.entries| > 0 {
      assert TypeOf(Iterate(v).value[0]) == Str;
    }
  }

  /** A scalar field whose value is not an instance of the declared class makes
      `from_dict` raise the `TypeError` naming the field, the actual class and the
      expected one, provided every earlier field went through. */
  lemma ScalarMismatchRejected(schema: Schema, cls: string, es: seq<Entry>, k: nat)
    requires cls in schema && k < |schema[cls]|
    requires schema[cls][k].ftype.Plain? && !Registered(schema, schema[cls][k].ftype.t)
    requires Get(es, schema[cls][k].name).Some?
    requires !IsInstance(Get(es, schema[cls][k].name).value, schema[cls][k].ftype.t)
    requires forall j | 0 <= j < k :: FieldValue(schema, schema[cls][j], VDict(es)).Ok?
    ensures Build(schema, cls, VDict(es)) ==
      Err(FieldTypeMismatch(schema[cls][k].name, TypeOf(Get(es, schema[cls][k].name).value), schema[cls][k].ftype.t))
  {
    BuildFailsAtFirstBadField(schema, cls, VDict(es), k);
  }

  /** A failure inside a nested record's `from_dict` propagates out of the outer
      call unchanged, provided every earlier field went through. */
  lemma NestedErrorPropagates(schema: Schema, cls: string, es: seq<Entry>, k: nat)
    requires cls in schema && k < |schema[cls]|
    requires schema[cls][k].ftype.Plain? && Registered(schema, schema[cls][k].ftype.t)
    requires Get(es, schema[cls][k].name).Some?
    requires Build(schema, schema[cls][k].ftype.t.name, Get(es, schema[cls][k].name).value).Err?
    requires forall j | 0 <= j < k :: FieldValue(schema, schema[cls][j], VDict(es)).Ok?
    ensures Build(schema, cls, VDict(es)) ==
      Err(Build(schema, schema[cls][k].ftype.t.name, Get(es, schema[cls][k].name).value).error)
  {
    BuildFailsAtFirstBadField(schema, cls, VDict(es), k);
  }

  /** What a successful `from_dict` stores in a field the input holds `v` for: a
      scalar field keeps `v`, which is an instance of the declared class; a nested
      record field holds the nested `from_dict` of `v`; a list field holds a list of
      instances of the element class. */
  lemma BuildFieldValue(schema: Schema, cls: string, es: seq<Entry>, f: Field, v: Value)
    requires cls in schema && UniqueNames(schema[cls]) && f in schema[cls]
    requires Get(es, f.name) == Some(v) && Build(schema, cls, VDict(es)).Ok?
    ensures f.name in Build(schema, cls, VDict(es)).value.attrs
    ensures var a := Build(schema, cls, VDict(es)).value.attrs[f.name];
      && (f.ftype.Plain? && !Registered(schema, f.ftype.t) ==> a == v && IsInstance(v, f.ftype.t))
      && (f.ftype.Plain? && Registered(schema, f.ftype.t) ==>
            a.VRecord? && Build(schema, f.ftype.t.name, v) == Ok(a.rec))
      && (f.ftype.ListOf? ==> a.VList? && AllInstances(a.items, f.ftype.elem))
  {
    BuildSetsPresentFields(schema, cls, VDict(es));
  }

  lemma {:induction false} SetFieldsReadsDeclaredKeys(schema: Schema, fs: seq<Field>, i: nat, es1: seq<Entry>, es2: seq<Entry>, acc: map<string, Value>)
    requires i <= |fs|
    requires forall j | i <= j < |fs| :: Get(es1, fs[j].name) == Get(es2, fs[j].name)
    ensures SetFields(schema, fs, i, VDict(es1), acc) == SetFields(schema, fs, i, VDict(es2), acc)
    decreases |fs| - i
  {
    if i < |fs| {
      var slot := FieldValue(schema, fs[i], VDict(es1));
      assert slot == FieldValue(schema, fs[i], VDict(es2));
      if slot.Ok? {
        SetFieldsReadsDeclaredKeys(schema, fs, i + 1, es1, es2, Assign(acc, fs[i].name, slot.value));
      }
    }
  }

  /** `from_dict` reads a dict only at the declared field names: two inputs that
      agree there give the same result, whatever other keys they hold. */
  lemma BuildReadsDeclaredKeys(schema: Schema, cls: string, es1: seq<Entry>, es2: seq<Entry>)
    requires cls in schema
    requires forall f | f in schema[cls] :: Get(es1, f.name) == Get(es2, f.name)
    ensures Build(schema, cls, VDict(es1)) == Build(schema, cls, VDict(es2))
  {
    SetFieldsReadsDeclaredKeys(schema, schema[cls], 0, es1, es2, map[]);
  }

  /** In particular a key that names no declared field is ignored. */
  lemma ExtraKeyIgnored(schema: Schema, cls: string, es: seq<Entry>, k: string, v: Value)
    requires cls in schema && k !in Names(schema[cls])
    ensures Build(schema, cls, VDict(es + [Entry(k, v)])) == Build(schema, cls, VDict(es))
  {
    forall f | f in schema[cls]
      ensures Get(es + [Entry(k, v)], f.name) == Get(es, f.name)
    {
      GetAppendOther(es, Entry(k, v), f.name);
    }
    BuildReadsDeclaredKeys(schema, cls, es + [Entry(k, v)], es);
  }

  /** A fully populated, well-typed record: its class is registered, every declared
      field is set, and each holds a value `from_dict` could have produced from a
      JSON value. */
  predicate WellTyped(schema: Schema, r: Record)
    decreases r, 2
  {
    && r.cls in schema
    && UniqueNames(schema[r.cls])
    && r.attrs.Keys == (set f | f in schema[r.cls] :: f.name)
    && forall f | f in schema[r.cls] :: Fits(schema, f.ftype, r.attrs[f.name])
  }

  /** A value suits a field of type `ft`: a well-typed record of the declared record
      class, a JSON value without NaN that is an instance of the declared class, or
      a list of suitable elements. */
  predicate Fits(schema: Schema, ft: FieldType, v: Value)
    decreases v, 1
  {
    match ft
    case Plain(t) =>
      if Registered(schema, t) then v.VRecord? && v.rec.cls == t.name && WellTyped(schema, v.rec)
      else IsInstance(v, t) && IsJson(v) && NoNaN(v)
    case ListOf(t) =>
      v.VList? && forall i | 0 <= i < |v.items| :: FitsItem(schema, t, v.items[i])
  }

  /** A list element suits element class `t`: a well-typed record of that class, or
      a JSON value without NaN that is an instance of `t` and not a dict (a dict would be
      handed to `t.from_dict`). */
  predicate FitsItem(schema: Schema, t: PyType, x: Value)
    decreases x, 0
  {
    if Registered(schema, t) then x.VRecord? && x.rec.cls == t.name && WellTyped(schema, x.rec)
    else IsInstance(x, t) && IsJson(x) && NoNaN(x) && !x.VDict?
  }

  /** `from_dict` rebuilds a well-typed record from the tree the encoder writes for it. */
  lemma {:induction false} BuildInvertsEncode(schema: Schema, r: Record)
    requires WellTyped(schema, r)
    ensures Encode(schema, VRecord(r)).Ok? && Encode(schema, VRecord(r)).value.VDict?
    ensures Build(schema, r.cls, Encode(schema, VRecord(r)).value) == Ok(r)
    decreases r, 2
  {
    var fs := schema[r.cls];
    forall i | 0 <= i < |fs|
      ensures r.attrs[fs[i].name] == r.attrs[fs[i].name]
      ensures Encode(schema, r.attrs[fs[i].name]).Ok?
      ensures Convert(schema, fs[i], Encode(schema, r.attrs[fs[i].name]).value) == Ok(r.attrs[fs[i].name])
    {
      assert fs[i] in fs;
      ConvertInvertsEncode(schema, fs[i], r.attrs[fs[i].name]);
    }
    EncodeRecordEntries(schema, r);
    var es := Encode(schema, VRecord(r)).value.entries;
    forall i | 0 <= i < |fs|
      ensures FieldValue(schema, fs[i], VDict(es)) == Ok(Some(r.attrs[fs[i].name]))
    {
      FindDeclaredKey(fs, es, i);
    }
    BuildFromFieldValues(schema, r, VDict(es));
  }

  /** When every declared field of `r`'s class yields the value `r` holds for it,
      `from_dict` builds `r`. */
  lemma BuildFromFieldValues(schema: Schema, r: Record, d: Value)
    requires r.cls in schema && UniqueNames(schema[r.cls])
    requires r.attrs.Keys == (set f | f in schema[r.cls] :: f.name)
    requires forall i | 0 <= i < |schema[r.cls]| ::
      FieldValue(schema, schema[r.cls][i], d) == Ok(Some(r.attrs[schema[r.cls][i].name]))
    ensures Build(schema, r.cls, d) == Ok(r)
  {
    var fs := schema[r.cls];
    BuildOkIffFieldsOk(schema, r.cls, d);
    BuildSetsPresentFields(schema, r.cls, d);
    var attrs := Build(schema, r.cls, d).value.attrs;
    forall n | n in r.attrs ensures n in attrs && attrs[n] == r.attrs[n] {
      var i := FieldIndex(fs, n);
      assert fs[i] in fs;
      assert FieldValue(schema, fs[i], d) == Ok(Slot(attrs, n));
    }
    SameMap(attrs, r.attrs);
    assert Build(schema, r.cls, d).value == Record(r.cls, attrs);
  }

  lemma {:induction false} ConvertInvertsEncode(schema: Schema, f: Field, v: Value)
    requires Fits(schema, f.ftype, v)
    ensures Encode(schema, v).Ok?
    ensures Convert(schema, f, Encode(schema, v).value) == Ok(v)
    decreases v, 1
  {
    match f.ftype
    case Plain(t) =>
      if Registered(schema, t) {
        BuildInvertsEncode(schema, v.rec);
      }
    case ListOf(t) =>
      var items := v.items;
      forall k | 0 <= k < |items|
        ensures Encode(schema, items[k]).Ok?
        ensures ConvertItem(schema, t, Encode(schema, items[k]).value) == Ok(items[k])
      {
        ItemInvertsEncode(schema, t, items[k]);
      }
      var ys := EncodeItems(schema, items).value;
      assert Encode(schema, v) == Ok(VList(ys));
      ListFieldConversion(schema, f, ys);
      var zs := Convert(schema, f, VList(ys)).value.items;
      assert zs == items;
  }

  lemma {:induction false} ItemInvertsEncode(schema: Schema, t: PyType, x: Value)
    requires FitsItem(schema, t, x)
    ensures Encode(schema, x).Ok?
    ensures ConvertItem(schema, t, Encode(schema, x).value) == Ok(x)
    decreases x, 0
  {
    if Registered(schema, t) {
      BuildInvertsEncode(schema, x.rec);
    }
  }

  /** Round trip: `deserialize` applied to what `serialize` writes for a fully
      populated, well-typed record gives back an equal record, nested records and
      lists of records included. */
  lemma RoundTrip(schema: Schema, r: Record)
    requires WellTyped(schema, r)
    ensures Serialize(schema, r).Ok?
    ensures Deserialize(schema, r.cls, Serialize(schema, r).value) == Ok(r)
  {
    SerializeIsRecordExpansion(schema, r);
    BuildInvertsEncode(schema, r);
  }
}
