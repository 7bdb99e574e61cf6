/**
 * The map converter and the JSON encoder of both drafts.  `to_dict` projects a
 * record onto its declared fields without converting the values; the
 * encoder's `default` hook gives every object that has `to_dict` its
 * `to_dict()` and lets the encoder go on with the result, so `serialize`
 * writes the fully expanded tree.  The two drafts' encoders are the same
 * code, and their `to_dict`s read the same table (dataclass fields in one,
 * annotations in the other), so one model serves both.
 */
module Encoding {
  import opened Values

  /** `to_dict` over the declared fields `fs` of `r`'s class: one entry per field,
      keyed by its name, holding the attribute unconverted; the first field that
      was never set makes `getattr` raise. */
  function ToDict(r: Record, fs: seq<Field>): (res: Result<seq<Entry>>)
    ensures res.Ok? <==> forall i | 0 <= i < |fs| :: fs[i].name in r.attrs
    ensures res.Ok? ==> Keys(res.value) == Names(fs)
    ensures res.Ok? ==> forall i | 0 <= i < |fs| :: res.value[i].val == r.attrs[fs[i].name]
    ensures res.Err? ==>
      exists i | 0 <= i < |fs| ::
        && fs[i].name !in r.attrs
        && (forall j | 0 <= j < i :: fs[j].name in r.attrs)
        && res.error == MissingAttribute(r.cls, fs[i].name)
  {
    if fs == [] then Ok([])
    else if fs[0].name !in r.attrs then Err(MissingAttribute(r.cls, fs[0].name))
    else
      var rest :- ToDict(r, fs[1..]);
      Ok([Entry(fs[0].name, r.attrs[fs[0].name])] + rest)
  }

  /** The value tree `json.dumps` writes for `v` under the encoder hook: lists and
      dicts are walked in order, scalars are written as they are, an object with
      `to_dict` (a registered record) is replaced by its encoded `to_dict()`, and
      any other object is not serializable. */
  function Encode(schema: Schema, v: Value): (r: Result<Value>)
    ensures r.Ok? ==> IsJson(r.value)
    ensures IsJson(v) ==> r == Ok(v)
    decreases v
  {
    match v
    case VList(items) =>
      var ys :- EncodeItems(schema, items);
      Ok(VList(ys))
    case VDict(es) =>
      var es' :- EncodeEntries(schema, es);
      Ok(VDict(es'))
    case VRecord(rec) =>
      if rec.cls in schema then
        var d :- ToDict(rec, schema[rec.cls]);
        var es :- EncodeAttrs(schema, rec, d);
        Ok(VDict(es))
      else
        Err(NotSerializable(Class(rec.cls)))
    case _ => Ok(v)
  }

  function EncodeItems(schema: Schema, items: seq<Value>): (r: Result<seq<Value>>)
    ensures r.Ok? <==> forall i | 0 <= i < |items| :: Encode(schema, items[i]).Ok?
    ensures r.Ok? ==> |r.value| == |items|
    ensures r.Ok? ==> forall i | 0 <= i < |items| :: Encode(schema, items[i]) == Ok(r.value[i])
    ensures (forall i | 0 <= i < |items| :: IsJson(items[i])) ==> r == Ok(items)
    decreases items
  {
    if items == [] then Ok([])
    else
      assert items == [items[0]] + items[1..];
      var y :- Encode(schema, items[0]);
      var ys :- EncodeItems(schema, items[1..]);
      Ok([y] + ys)
  }

  function EncodeEntries(schema: Schema, es: seq<Entry>): (r: Result<seq<Entry>>)
    ensures r.Ok? <==> forall i | 0 <= i < |es| :: Encode(schema, es[i].val).Ok?
    ensures r.Ok? ==> Keys(r.value) == Keys(es)
    ensures r.Ok? ==> forall i | 0 <= i < |es| :: Encode(schema, es[i].val) == Ok(r.value[i].val)
    ensures (forall i | 0 <= i < |es| :: IsJson(es[i].val)) ==> r == Ok(es)
    decreases es
  {
    if es == [] then Ok([])
    else
      assert es == [Entry(es[0].key, es[0].val)] + es[1..];
      var v :- Encode(schema, es[0].val);
      var rest :- EncodeEntries(schema, es[1..]);
      Ok([Entry(es[0].key, v)] + rest)
  }

  /** Encodes the dict `to_dict` returned for `rec`; its values are `rec`'s attributes. */
  function EncodeAttrs(schema: Schema, rec: Record, d: seq<Entry>): (r: Result<seq<Entry>>)
    requires forall i | 0 <= i < |d| :: d[i].key in rec.attrs && d[i].val == rec.attrs[d[i].key]
    ensures r.Ok? ==> Keys(r.value) == Keys(d)
    ensures r.Ok? ==> forall i | 0 <= i < |d| :: IsJson(r.value[i].val)
    decreases rec, |d|
  {
    if d == [] then Ok([])
    else
      var v :- Encode(schema, rec.attrs[d[0].key]);
      var rest :- EncodeAttrs(schema, rec, d[1..]);
      Ok([Entry(d[0].key, v)] + rest)
  }

  /** `serialize`: `json.dumps(self.to_dict(), cls=Encoder)`, as the value tree it
      writes; the indentation only lays the text out. */
  function Serialize(schema: Schema, r: Record): (res: Result<Value>)
    requires r.cls in schema
    ensures res.Ok? ==> IsJson(res.value)
    ensures res.Ok? ==> res.value.VDict? && Keys(res.value.entries) == Names(schema[r.cls])
  {
    var d :- ToDict(r, schema[r.cls]);
    Encode(schema, VDict(d))
  }

  lemma {:induction false} EncodeAttrsIsEncodeEntries(schema: Schema, rec: Record, d: seq<Entry>)
    requires forall i | 0 <= i < |d| :: d[i].key in rec.attrs && d[i].val == rec.attrs[d[i].key]
    ensures EncodeAttrs(schema, rec, d) == EncodeEntries(schema, d)
    decreases |d|
  {
    if d != [] {
      EncodeAttrsIsEncodeEntries(schema, rec, d[1..]);
    }
  }

  /** The encoder expands a registered record exactly as `serialize` does: it
      writes the encoded `to_dict()`, so nested records come out expanded. */
  lemma SerializeIsRecordExpansion(schema: Schema, r: Record)
    requires r.cls in schema
    ensures Serialize(schema, r) == Encode(schema, VRecord(r))
  {
    var d := ToDict(r, schema[r.cls]);
    if d.Ok? {
      EncodeAttrsIsEncodeEntries(schema, r, d.value);
    }
  }

  /** The encoder writes a record whose fields all encode as the dict of its
      encoded fields, in declaration order. */
  lemma EncodeRecordEntries(schema: Schema, r: Record)
    requires r.cls in schema
    requires forall i | 0 <= i < |schema[r.cls]| ::
      schema[r.cls][i].name in r.attrs && Encode(schema, r.attrs[schema[r.cls][i].name]).Ok?
    ensures Encode(schema, VRecord(r)).Ok? && Encode(schema, VRecord(r)).value.VDict?
    ensures var es := Encode(schema, VRecord(r)).value.entries;
      && Keys(es) == Names(schema[r.cls])
      && forall i | 0 <= i < |es| :: Encode(schema, r.attrs[schema[r.cls][i].name]) == Ok(es[i].val)
  {
    var d := ToDict(r, schema[r.cls]).value;
    EncodeAttrsIsEncodeEntries(schema, r, d);
  }
}
