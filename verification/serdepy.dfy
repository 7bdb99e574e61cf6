/**
 * serdepy.py: the looser draft.  Its `from_dict` walks the annotated fields in
 * order, skips the ones whose names are missing, rebuilds a field whose
 * annotated class is itself registered (has `from_dict`) and stores every
 * other value exactly as given: no `isinstance` check, and no element-wise
 * conversion of lists.  Its `to_dict`, encoder and `serialize` compute what
 * the other draft's do and are modelled once, in `Encoding`.
 *
 * The source repeats the validating draft's field loop and `deserialize` here
 * with a different conversion, so the loop lemmas below repeat those of
 * `Serde` for this draft's own `SetFields`.
 */
module SerdePy {
  import opened Values
  import opened Encoding

  /** The record `from_dict` builds for the registered class `cls` from `d`, or the
      exception it raises; it never raises a type mismatch, only the errors of
      Python's `in` and subscript on a value that is not a dict. */
  function Build(schema: Schema, cls: string, d: Value): (r: Result<Record>)
    requires cls in schema
    ensures r.Ok? ==> r.value.cls == cls
    ensures r.Err? ==> r.error.NotIterable? || r.error.BadIndex?
    decreases d, 2
  {
    var attrs :- SetFields(schema, schema[cls], 0, d, map[]);
    Ok(Record(cls, attrs))
  }

  /** The loop over the annotated fields `fs` from index `i` on, `attrs` being what
      earlier iterations set. */
  function SetFields(schema: Schema, fs: seq<Field>, i: nat, d: Value, attrs: map<string, Value>)
    : (r: Result<map<string, Value>>)
    requires i <= |fs|
    ensures r.Err? ==> r.error.NotIterable? || r.error.BadIndex?
    decreases d, 1, |fs| - i
  {
    if i == |fs| then Ok(attrs)
    else
      var slot :- FieldValue(schema, fs[i], d);
      SetFields(schema, fs, i + 1, d, Assign(attrs, fs[i].name, slot))
  }

  /** One iteration of the loop: `None` when `f.name in d` is false, otherwise the
      converted value of `d[f.name]`. */
  function FieldValue(schema: Schema, f: Field, d: Value): (r: Result<Option<Value>>)
    ensures r.Err? ==> r.error.NotIterable? || r.error.BadIndex?
    ensures r.Ok? ==> (r.value.Some? <==> Present(d, f.name))
    ensures r.Ok? && r.value.Some? ==>
      Convert(schema, f, d.entries[IndexOf(d.entries, f.name)].val) == Ok(r.value.value)
    decreases d, 0
  {
    var present :- Contains(d, f.name);
    if !present then Ok(None)
    else if !d.VDict? then Err(BadIndex(TypeOf(d)))
    else
      var c :- Convert(schema, f, d.entries[IndexOf(d.entries, f.name)].val);
      Ok(Some(c))
  }

  /** The value assigned to field `f` when the input holds `v` for it: a field
      annotated with a registered class is rebuilt by that class's `from_dict`,
      anything else (a list type included) is stored as given. */
  function Convert(schema: Schema, f: Field, v: Value): (r: Result<Value>)
    ensures r.Err? ==> r.error.NotIterable? || r.error.BadIndex?
    ensures !(f.ftype.Plain? && Registered(schema, f.ftype.t)) ==> r == Ok(v)
    ensures f.ftype.Plain? && Registered(schema, f.ftype.t) ==>
      match Build(schema, f.ftype.t.name, v)
      case Ok(rec) => r == Ok(VRecord(rec))
      case Err(e) => r == Err(e)
    decreases v, 3
  {
    if f.ftype.Plain? && Registered(schema, f.ftype.t) then
      var rec :- Build(schema, f.ftype.t.name, v);
      Ok(VRecord(rec))
    else Ok(v)
  }

  /** `from_dict`: starts from an instance with nothing set and assigns the
      annotated fields one by one. */
  method FromDict(schema: Schema, cls: string, d: Value) returns (res: Result<Record>)
    requires cls in schema
    ensures res == Build(schema, cls, d)
    decreases d, 2
  {
    var fs := schema[cls];
    var attrs: map<string, Value> := map[];
    for i := 0 to |fs|
      invariant SetFields(schema, fs, i, d, attrs) == SetFields(schema, fs, 0, d, map[])
    {
      var f := fs[i];
      var present :- Contains(d, f.name);
      if present {
        if !d.VDict? {
          return Err(BadIndex(TypeOf(d)));
        }
        var value := d.entries[IndexOf(d.entries, f.name)].val;
        if f.ftype.Plain? && Registered(schema, f.ftype.t) {
          var rec :- FromDict(schema, f.ftype.t.name, value);
          value := VRecord(rec);
        }
        attrs := attrs[f.name := value];
      }
    }
    return Ok(Record(cls, attrs));
  }

  /** `deserialize` once `json.loads` has produced `parsed`: anything but a JSON
      object at the top is rejected naming the class and the actual kind, and an
      object goes to `from_dict`. */
  function Deserialize(schema: Schema, cls: string, parsed: Value): (r: Result<Record>)
    requires cls in schema
    ensures (r.Err? && r.error.NotAnObject?) <==> !parsed.VDict?
    ensures !parsed.VDict? ==> r == Err(NotAnObject(cls, TypeOf(parsed)))
    ensures parsed.VDict? ==> r == Build(schema, cls, parsed)
  {
    if !parsed.VDict? then Err(NotAnObject(cls, TypeOf(parsed)))
    else Build(schema, cls, parsed)
  }

  lemma {:induction false} SetFieldsOkIffFieldsOk(schema: Schema, fs: seq<Field>, i: nat, d: Value, acc: map<string, Value>)
    requires i <= |fs|
    ensures SetFields(schema, fs, i, d, acc).Ok? <==> forall j | i <= j < |fs| :: FieldValue(schema, fs[j], d).Ok?
    decreases |fs| - i
  {
    if i < |fs| && FieldValue(schema, fs[i], d).Ok? {
      SetFieldsOkIffFieldsOk(schema, fs, i + 1, d, Assign(acc, fs[i].name, FieldValue(schema, fs[i], d).value));
    }
  }

  lemma {:induction false} SetFieldsAssigns(schema: Schema, fs: seq<Field>, i: nat, d: Value, acc: map<string, Value>)
    requires i <= |fs| && UniqueNames(fs) && SetFields(schema, fs, i, d, acc).Ok?
    requires forall j | i <= j < |fs| :: fs[j].name !in acc
    ensures var m := SetFields(schema, fs, i, d, acc).value;
      && m.Keys == acc.Keys + PresentNames(fs[i..], d)
      && (forall k | k in acc :: m[k] == acc[k])
      && forall j | i <= j < |fs| :: FieldValue(schema, fs[j], d) == Ok(Slot(m, fs[j].name))
    decreases |fs| - i
  {
    if i < |fs| {
      var slot := FieldValue(schema, fs[i], d).value;
      var acc' := Assign(acc, fs[i].name, slot);
      SetFieldsAssigns(schema, fs, i + 1, d, acc');
      PresentNamesStep(fs, i, d);
    } else {
      assert fs[i..] == [];
    }
  }

  /** `from_dict` succeeds exactly when every annotated field goes through. */
  lemma BuildOkIffFieldsOk(schema: Schema, cls: string, d: Value)
    requires cls in schema
    ensures Build(schema, cls, d).Ok? <==>
      forall i | 0 <= i < |schema[cls]| :: FieldValue(schema, schema[cls][i], d).Ok?
  {
    SetFieldsOkIffFieldsOk(schema, schema[cls], 0, d, map[]);
  }

  /** On success the fields set are exactly the annotated fields whose names occur
      in the input, each holding the value its own iteration produced. */
  lemma BuildSetsPresentFields(schema: Schema, cls: string, d: Value)
    requires cls in schema && UniqueNames(schema[cls]) && Build(schema, cls, d).Ok?
    ensures Build(schema, cls, d).value.attrs.Keys == PresentNames(schema[cls], d)
    ensures forall f | f in schema[cls] ::
      FieldValue(schema, f, d) == Ok(Slot(Build(schema, cls, d).value.attrs, f.name))
  {
    var fs := schema[cls];
    SetFieldsAssigns(schema, fs, 0, d, map[]);
    assert fs[0..] == fs;
  }

  /** Given a dict, `from_dict` goes through unless a field annotated with a
      registered class holds a value that class's `from_dict` rejects; a class
      with no such field accepts every dict. */
  lemma BuildOkOnDict(schema: Schema, cls: string, es: seq<Entry>)
    requires cls in schema
    ensures Build(schema, cls, VDict(es)).Ok? <==>
      forall f | f in schema[cls] && f.ftype.Plain? && Registered(schema, f.ftype.t) && Get(es, f.name).Some? ::
        Build(schema, f.ftype.t.name, Get(es, f.name).value).Ok?
  {
    var fs := schema[cls];
    BuildOkIffFieldsOk(schema, cls, VDict(es));
    if Build(schema, cls, VDict(es)).Ok? {
      forall f | f in fs && f.ftype.Plain? && Registered(schema, f.ftype.t) && Get(es, f.name).Some?
        ensures Build(schema, f.ftype.t.name, Get(es, f.name).value).Ok?
      {
        var i :| 0 <= i < |fs| && fs[i] == f;
        assert FieldValue(schema, fs[i], VDict(es)).Ok?;
      }
    }
  }

  /** On success the fields set are exactly the annotated fields whose names occur
      in the input; a field annotated with a registered class holds that class's
      `from_dict` of the input value, and every other field (lists included) holds
      the input value itself. */
  lemma BuildStoresAsGiven(schema: Schema, cls: string, es: seq<Entry>)
    requires cls in schema && UniqueNames(schema[cls]) && Build(schema, cls, VDict(es)).Ok?
    ensures var attrs := Build(schema, cls, VDict(es)).value.attrs;
      && attrs.Keys == PresentNames(schema[cls], VDict(es))
      && forall f | f in schema[cls] && Get(es, f.name).Some? ::
           if f.ftype.Plain? && Registered(schema, f.ftype.t) then
             attrs[f.name].VRecord? && Build(schema, f.ftype.t.name, Get(es, f.name).value) == Ok(attrs[f.name].rec)
           else
             attrs[f.name] == Get(es, f.name).value
  {
    BuildSetsPresentFields(schema, cls, VDict(es));
  }

  /** A record whose every annotated field is set, fields annotated with a
      registered class holding such records and all others holding JSON values
      without NaN. */
  predicate Populated(schema: Schema, r: Record)
    decreases r, 1
  {
    && r.cls in schema
    && UniqueNames(schema[r.cls])
    && r.attrs.Keys == (set f | f in schema[r.cls] :: f.name)
    && forall f | f in schema[r.cls] :: Suits(schema, f.ftype, r.attrs[f.name])
  }

  predicate Suits(schema: Schema, ft: FieldType, v: Value)
    decreases v, 0
  {
    if ft.Plain? && Registered(schema, ft.t) then
      v.VRecord? && v.rec.cls == ft.t.name && Populated(schema, v.rec)
    else IsJson(v) && NoNaN(v)
  }

  /** When every annotated field of `r`'s class yields the value `r` holds for it,
      `from_dict` builds `r`. */
  lemma BuildFromFieldValues(schema: Schema, r: Record, d: Value)
    requires r.cls in schema && UniqueNames(schema[r.cls])
    requires r.attrs.Keys == (set f | f in schema[r.cls] :: f.name)
    requires forall i | 0 <= i < |schema[r.cls]| ::
      FieldValue(schema, schema[r.cls][i], d) == Ok(Some(r.attrs[schema[r.cls][i].name]))
    ensures Build(schema, r.cls, d) == Ok(r)
  {
    var fs := schema[r.cls];
    BuildOkIffFieldsOk(schema, r.cls, d);
    BuildSetsPresentFields(schema, r.cls, d);
    var attrs := Build(schema, r.cls, d).value.attrs;
    forall n | n in r.attrs ensures n in attrs && attrs[n] == r.attrs[n] {
      var i := FieldIndex(fs, n);
      assert fs[i] in fs;
      assert FieldValue(schema, fs[i], d) == Ok(Slot(attrs, n));
    }
    SameMap(attrs, r.attrs);
    assert Build(schema, r.cls, d).value == Record(r.cls, attrs);
  }

  /** `from_dict` rebuilds a populated record from the tree the encoder writes for it. */
  lemma {:induction false} BuildInvertsEncode(schema: Schema, r: Record)
    requires Populated(schema, r)
    ensures Encode(schema, VRecord(r)).Ok? && Encode(schema, VRecord(r)).value.VDict?
    ensures Build(schema, r.cls, Encode(schema, VRecord(r)).value) == Ok(r)
    decreases r, 1
  {
    var fs := schema[r.cls];
    forall i | 0 <= i < |fs|
      ensures r.attrs[fs[i].name] == r.attrs[fs[i].name]
      ensures Encode(schema, r.attrs[fs[i].name]).Ok?
      ensures Convert(schema, fs[i], Encode(schema, r.attrs[fs[i].name]).value) == Ok(r.attrs[fs[i].name])
    {
      assert fs[i] in fs;
      var v := r.attrs[fs[i].name];
      if fs[i].ftype.Plain? && Registered(schema, fs[i].ftype.t) {
        BuildInvertsEncode(schema, v.rec);
      }
    }
    EncodeRecordEntries(schema, r);
    var es := Encode(schema, VRecord(r)).value.entries;
    forall i | 0 <= i < |fs|
      ensures FieldValue(schema, fs[i], VDict(es)) == Ok(Some(r.attrs[fs[i].name]))
    {
      FindDeclaredKey(fs, es, i);
    }
    BuildFromFieldValues(schema, r, VDict(es));
  }

  /** Round trip: `deserialize` applied to what `serialize` writes for a populated
      record gives back an equal record.  Only fields annotated with a registered
      class are rebuilt, so the fields outside those must hold JSON values: a list
      of records, for one, is written as a list of dicts and stays one. */
  lemma RoundTrip(schema: Schema, r: Record)
    requires Populated(schema, r)
    ensures Serialize(schema, r).Ok?
    ensures Deserialize(schema, r.cls, Serialize(schema, r).value) == Ok(r)
  {
    SerializeIsRecordExpansion(schema, r);
    BuildInvertsEncode(schema, r);
  }
}
