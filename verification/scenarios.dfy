/**
 * Worked cases over three small record classes: `Point` with `x: int` and
 * `y: int`, `Line` with two `Point`s, and `Polygon` with `points: list[Point]`.
 */
module Scenarios {
  import opened Values
  import opened Encoding
  import Serde
  import SerdePy

  const PointFields: seq<Field> := [Field("x", Plain(Int)), Field("y", Plain(Int))]
  const LineFields: seq<Field> := [Field("a", Plain(Class("Point"))), Field("b", Plain(Class("Point")))]
  const PolygonFields: seq<Field> := [Field("points", ListOf(Class("Point")))]
  const SeriesFields: seq<Field> := [Field("samples", ListOf(Int))]

  const Shapes: Schema :=
    map["Point" := PointFields, "Line" := LineFields, "Polygon" := PolygonFields, "Series" := SeriesFields]

  function Point(x: int, y: int): Record {
    Record("Point", map["x" := VInt(x), "y" := VInt(y)])
  }

  /** A string where an `int` is declared is rejected, naming the field, the
      actual class and the expected one. */
  lemma PointRejectsString()
    ensures Serde.Build(Shapes, "Point", VDict([Entry("x", VStr("0")), Entry("y", VInt(0))]))
         == Err(FieldTypeMismatch("x", Str, Int))
  {
    var es := [Entry("x", VStr("0")), Entry("y", VInt(0))];
    assert Get(es, "x") == Some(VStr("0"));
    Serde.ScalarMismatchRejected(Shapes, "Point", es, 0);
  }

  /** `bool` is a subclass of `int`, so `True` passes an `int` field. */
  lemma PointAcceptsBool()
    ensures Serde.Build(Shapes, "Point", VDict([Entry("x", VBool(true)), Entry("y", VInt(0))]))
         == Ok(Record("Point", map["x" := VBool(true), "y" := VInt(0)]))
  {
    var r := Record("Point", map["x" := VBool(true), "y" := VInt(0)]);
    PointNames();
    Serde.BuildFromFieldValues(Shapes, r, VDict([Entry("x", VBool(true)), Entry("y", VInt(0))]));
  }

  /** A dict inside a `list[int]` is handed to `int.from_dict`, which does not exist. */
  lemma SeriesRejectsDictElement()
    ensures Serde.Build(Shapes, "Series", VDict([Entry("samples", VList([VInt(1), VDict([])]))]))
         == Err(NoFromDict(Int))
  {
    var es := [Entry("samples", VList([VInt(1), VDict([])]))];
    assert Serde.FieldValue(Shapes, SeriesFields[0], VDict(es)) == Err(NoFromDict(Int));
    Serde.BuildFailsAtFirstBadField(Shapes, "Series", VDict(es), 0);
  }

  const GoodPoint: seq<Entry> := [Entry("x", VInt(0)), Entry("y", VInt(0))]
  const BadPoint: seq<Entry> := [Entry("x", VInt(1)), Entry("y", VStr("bad"))]

  lemma BuildGoodPoint()
    ensures Serde.Build(Shapes, "Point", VDict(GoodPoint)) == Ok(Point(0, 0))
  {
    PointNames();
    Serde.BuildFromFieldValues(Shapes, Point(0, 0), VDict(GoodPoint));
  }

  lemma BuildBadPoint()
    ensures Serde.Build(Shapes, "Point", VDict(BadPoint)) == Err(FieldTypeMismatch("y", Str, Int))
  {
    assert Get(BadPoint, "y") == Some(VStr("bad"));
    assert Serde.FieldValue(Shapes, PointFields[0], VDict(BadPoint)).Ok?;
    Serde.ScalarMismatchRejected(Shapes, "Point", BadPoint, 1);
  }

  /** A bad element of a list of records fails inside the element's own
      `from_dict`, so the exception names the element's field `y`, not the list
      field `points`. */
  lemma PolygonBadElementNamesInnerField()
    ensures Serde.Build(Shapes, "Polygon", VDict([Entry("points", VList([VDict(GoodPoint), VDict(BadPoint)]))]))
         == Err(FieldTypeMismatch("y", Str, Int))
  {
    var items := [VDict(GoodPoint), VDict(BadPoint)];
    var es := [Entry("points", VList(items))];
    BuildGoodPoint();
    BuildBadPoint();
    assert Serde.ConvertItem(Shapes, Class("Point"), items[0]) == Ok(VRecord(Point(0, 0)));
    assert Serde.ConvertItem(Shapes, Class("Point"), items[1]) == Err(FieldTypeMismatch("y", Str, Int));
    Serde.ConvertItemsElementwise(Shapes, Class("Point"), items, 0, []);
    Serde.ListFieldUnfolds(Shapes, PolygonFields[0], items);
    assert Serde.FieldValue(Shapes, PolygonFields[0], VDict(es)) == Err(FieldTypeMismatch("y", Str, Int));
    Serde.BuildFailsAtFirstBadField(Shapes, "Polygon", VDict(es), 0);
  }

  lemma PointWellTyped(x: int, y: int)
    ensures Serde.WellTyped(Shapes, Point(x, y))
  {
    PointNames();
  }

  lemma PointNames()
    ensures (set f | f in PointFields :: f.name) == {"x", "y"}
  {
    assert forall f | f in PointFields :: f == PointFields[0] || f == PointFields[1];
  }

  const Segment: Record := Record("Line", map["a" := VRecord(Point(0, 0)), "b" := VRecord(Point(1, 1))])

  lemma SegmentWellTyped()
    ensures Serde.WellTyped(Shapes, Segment)
  {
    PointFits(0, 0);
    PointFits(1, 1);
    SegmentKeys();
    assert forall f | f in LineFields :: f == LineFields[0] || f == LineFields[1];
  }

  lemma SegmentKeys()
    ensures Segment.attrs.Keys == (set f | f in LineFields :: f.name)
  {
    assert forall f | f in LineFields :: f == LineFields[0] || f == LineFields[1];
    assert (set f | f in LineFields :: f.name) == {"a", "b"};
  }

  lemma PointFits(x: int, y: int)
    ensures Serde.Fits(Shapes, Plain(Class("Point")), VRecord(Point(x, y)))
  {
    PointWellTyped(x, y);
  }

  /** A line of two points is read back equal from what `serialize` writes. */
  lemma LineRoundTrip()
    ensures Serialize(Shapes, Segment).Ok?
    ensures Serde.Deserialize(Shapes, "Line", Serialize(Shapes, Segment).value) == Ok(Segment)
  {
    SegmentWellTyped();
    Serde.RoundTrip(Shapes, Segment);
  }

  /** A top-level array is rejected naming the class and the kind found. */
  lemma PointRejectsArray()
    ensures Serde.Deserialize(Shapes, "Point", VList([VInt(1), VInt(2), VInt(3)]))
         == Err(NotAnObject("Point", List))
  {
  }

  /** `from_dict` given a str tests the field names as substrings: when none
      occurs, it returns a `Point` with nothing set. */
  lemma PointFromUnrelatedString()
    ensures Serde.Build(Shapes, "Point", VStr("abc")) == Ok(Record("Point", map[]))
  {
    Serde.BuildOnNonDict(Shapes, "Point", VStr("abc"));
    SubstringAt("x", "abc");
    SubstringAt("y", "abc");
    CharAbsent('x', "abc");
    CharAbsent('y', "abc");
  }

  /** A one-character name that is none of the string's characters is not in it. */
  lemma CharAbsent(c: char, s: string)
    requires forall i | 0 <= i < |s| :: s[i] != c
    ensures forall i: nat :: !OccursAt([c], s, i)
  {
    forall i: nat ensures !OccursAt([c], s, i) {
      if i + 1 <= |s| {
        assert s[i..i + 1][0] == s[i];
      }
    }
  }

  /** When a field name does occur in the str, `"xy"["x"]` raises. */
  lemma PointFromNamingString()
    ensures Serde.Build(Shapes, "Point", VStr("xy")) == Err(BadIndex(Str))
  {
    Serde.BuildOnNonDict(Shapes, "Point", VStr("xy"));
    assert Contains(VStr("xy"), PointFields[0].name) == Ok(true) by {
      assert IsSubstring("x", "xy");
    }
  }

  /** The looser draft checks nothing: a string where an `int` is annotated is
      stored as given. */
  lemma LoosePointKeepsString()
    ensures SerdePy.Build(Shapes, "Point", VDict([Entry("x", VStr("0")), Entry("y", VInt(0))]))
         == Ok(Record("Point", map["x" := VStr("0"), "y" := VInt(0)]))
  {
    var r := Record("Point", map["x" := VStr("0"), "y" := VInt(0)]);
    PointNames();
    SerdePy.BuildFromFieldValues(Shapes, r, VDict([Entry("x", VStr("0")), Entry("y", VInt(0))]));
  }

  const Origin: Record := Point(0, 0)
  const OriginTree: Value := VDict([Entry("x", VInt(0)), Entry("y", VInt(0))])
  const Triangle: Record := Record("Polygon", map["points" := VList([VRecord(Origin)])])
  const TriangleTree: Value := VDict([Entry("points", VList([OriginTree]))])

  lemma EncodeOrigin()
    ensures Encode(Shapes, VRecord(Origin)) == Ok(OriginTree)
  {
    EncodeRecordEntries(Shapes, Origin);
    var es := Encode(Shapes, VRecord(Origin)).value.entries;
    assert Keys(es) == ["x", "y"];
    assert Encode(Shapes, VInt(0)) == Ok(VInt(0));
    assert es[0] == Entry("x", VInt(0)) && es[1] == Entry("y", VInt(0));
    assert es == OriginTree.entries;
  }

  lemma SerializeTriangle()
    ensures Serialize(Shapes, Triangle) == Ok(TriangleTree)
  {
    var points := VList([VRecord(Origin)]);
    assert Encode(Shapes, points) == Ok(VList([OriginTree])) by {
      EncodeOrigin();
      var ys := EncodeItems(Shapes, [VRecord(Origin)]);
      assert Encode(Shapes, [VRecord(Origin)][0]).Ok?;
      assert ys.value == [OriginTree];
    }
    EncodeRecordEntries(Shapes, Triangle);
    SerializeIsRecordExpansion(Shapes, Triangle);
    var es := Encode(Shapes, VRecord(Triangle)).value.entries;
    assert Keys(es) == ["points"];
    assert es[0] == Entry("points", VList([OriginTree]));
    assert es == TriangleTree.entries;
  }

  /** The looser draft does not rebuild list elements: a polygon written by
      `serialize` comes back holding a list of dicts, not of points. */
  lemma LoosePolygonKeepsDicts()
    ensures Serialize(Shapes, Triangle).Ok?
    ensures SerdePy.Deserialize(Shapes, "Polygon", Serialize(Shapes, Triangle).value)
         == Ok(Record("Polygon", map["points" := VList([OriginTree])]))
    ensures SerdePy.Deserialize(Shapes, "Polygon", Serialize(Shapes, Triangle).value) != Ok(Triangle)
  {
    SerializeTriangle();
    var back := Record("Polygon", map["points" := VList([OriginTree])]);
    SerdePy.BuildFromFieldValues(Shapes, back, TriangleTree);
    assert back.attrs["points"] != Triangle.attrs["points"];
  }
}
