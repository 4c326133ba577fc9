/**
 The loops of protocol/primitives.py: writing extends one buffer in place, reading advances a position
 and fills a field map or an item list. Each is proved equal to the specification functions.
 */
module CodecLoops {

  import opened Wrappers
  import opened Primitives

  /** Python's bytearray, as far as serialization uses it. */
  class ByteArray {
    var bytes: seq<Byte>

    constructor ()
      ensures bytes == []
    {
      bytes := [];
    }

    method Extend(more: seq<Byte>)
      modifies this
      ensures bytes == old(bytes) + more
    {
      bytes := bytes + more;
    }
  }

  /** What a write that raises or succeeds leaves in the buffer. */
  ghost predicate Wrote(before: seq<Byte>, after: seq<Byte>, spec: Option<seq<Byte>>, ok: bool)
  {
    ok == spec.Some? && (ok ==> after == before + spec.value)
  }

  method SerializeInto(t: FieldType, v: Value, buffer: ByteArray) returns (ok: bool)
    modifies buffer
    ensures Wrote(old(buffer.bytes), buffer.bytes, Serialize(t, v), ok)
    decreases t, 0
  {
    match t {
      case Array(element) =>
        if !v.List? || |v.items| >= Pow256(4) {
          return false;
        }
        buffer.Extend(LengthPrefix(|v.items|));
        ok := SerializeItemsInto(element, v.items, buffer);
      case Record(fields) =>
        if !v.Obj? {
          return false;
        }
        ok := SerializeFieldsInto(fields, v.attrs, buffer);
      case _ =>
        var scalar := Serialize(t, v);
        if scalar.None? {
          return false;
        }
        buffer.Extend(scalar.value);
        ok := true;
    }
  }

  /** array.serialize_into */
  method SerializeItemsInto(element: FieldType, items: seq<Value>, buffer: ByteArray) returns (ok: bool)
    modifies buffer
    ensures Wrote(old(buffer.bytes), buffer.bytes, SerializeItems(element, items, 0), ok)
    decreases element, 1 + |items|
  {
    ghost var before := buffer.bytes;
    for i := 0 to |items|
      invariant Join(Some(before), SerializeItems(element, items, 0))
             == Join(Some(buffer.bytes), SerializeItems(element, items, i))
    {
      ghost var soFar := buffer.bytes;
      ok := SerializeInto(element, items[i], buffer);
      if !ok {
        return;
      }
      JoinAssociative(soFar, Serialize(element, items[i]), SerializeItems(element, items, i + 1));
    }
    ok := true;
    JoinEnd(before, SerializeItems(element, items, 0), buffer.bytes);
  }

  /** ProtocolDataclass.serialize_into */
  method SerializeFieldsInto(fields: seq<Field>, attrs: Attrs, buffer: ByteArray) returns (ok: bool)
    modifies buffer
    ensures Wrote(old(buffer.bytes), buffer.bytes, SerializeFields(fields, 0, attrs), ok)
    decreases fields, |fields| + 2
  {
    ghost var before := buffer.bytes;
    for k := 0 to |fields|
      invariant Join(Some(before), SerializeFields(fields, 0, attrs))
             == Join(Some(buffer.bytes), SerializeFields(fields, k, attrs))
    {
      var f := fields[k];
      ghost var soFar := buffer.bytes;
      if !HasAttributesFor(f, attrs) {
        return false;
      }
      if IsWritten(f, attrs) {
        ok := SerializeInto(f.typ, attrs[f.name].value, buffer);
        if !ok {
          return;
        }
      } else {
        assert soFar + [] == soFar;
      }
      JoinAssociative(soFar, SerializeField(f, attrs), SerializeFields(fields, k + 1, attrs));
    }
    ok := true;
    JoinEnd(before, SerializeFields(fields, 0, attrs), buffer.bytes);
  }

  lemma JoinAssociative(a: seq<Byte>, b: Option<seq<Byte>>, c: Option<seq<Byte>>)
    requires b.Some?
    ensures Join(Some(a), Join(b, c)) == Join(Some(a + b.value), c)
  {
    if c.Some? {
      assert a + (b.value + c.value) == (a + b.value) + c.value;
    }
  }

  lemma JoinEnd(before: seq<Byte>, all: Option<seq<Byte>>, after: seq<Byte>)
    requires Join(Some(before), all) == Join(Some(after), Some([]))
    ensures Wrote(before, after, all, true)
  {
    assert after + [] == after;
  }

  // ---------------------------------------------------------------- reading

  method Read(t: FieldType, pos: nat, data: seq<Byte>) returns (r: Parsed<Value>)
    ensures r == Deserialize(t, pos, data)
    decreases t, 0
  {
    match t {
      case Array(element) =>
        var n := ReadUInt(4, pos, data);
        if n.None? {
          return Failed;
        }
        var items := ReadItems(element, n.value, pos + 4, data);
        r := if items.Parsed? then Parsed(items.pos, List(items.value)) else Failed;
      case Record(fields) =>
        var attrs := ReadObject(fields, pos, data);
        r := if attrs.Parsed? then Parsed(attrs.pos, Obj(attrs.value)) else Failed;
      case _ =>
        r := Deserialize(t, pos, data);
    }
  }

  ghost function Prepended(items: seq<Value>, rest: Parsed<seq<Value>>): Parsed<seq<Value>>
  {
    if rest.Parsed? then Parsed(rest.pos, items + rest.value) else Failed
  }

  /** array.deserialize */
  method ReadItems(element: FieldType, n: nat, start: nat, data: seq<Byte>) returns (r: Parsed<seq<Value>>)
    ensures r == DeserializeItems(element, n, start, data)
    decreases element, 1 + n
  {
    var pos := start;
    var items: seq<Value> := [];
    PrependedNothing(DeserializeItems(element, n, start, data));
    for i := 0 to n
      invariant DeserializeItems(element, n, start, data)
             == Prepended(items, DeserializeItems(element, n - i, pos, data))
    {
      var item := Read(element, pos, data);
      if item.Failed? {
        return Failed;
      }
      PrependedStep(element, n - i, pos, data, items, item);
      pos := item.pos;
      items := items + [item.value];
    }
    r := Parsed(pos, items);
    assert items + [] == items;
  }

  lemma PrependedNothing(rest: Parsed<seq<Value>>)
    ensures Prepended([], rest) == rest
  {
    if rest.Parsed? {
      assert [] + rest.value == rest.value;
    }
  }

  lemma PrependedStep(
      element: FieldType, n: nat, pos: nat, data: seq<Byte>, items: seq<Value>, item: Parsed<Value>)
    requires n > 0 && item == Deserialize(element, pos, data) && item.Parsed?
    ensures Prepended(items, DeserializeItems(element, n, pos, data))
         == Prepended(items + [item.value], DeserializeItems(element, n - 1, item.pos, data))
  {
    var rest := DeserializeItems(element, n - 1, item.pos, data);
    if rest.Parsed? {
      assert items + ([item.value] + rest.value) == (items + [item.value]) + rest.value;
    }
  }

  /** ProtocolDataclass.deserialize */
  method ReadObject(fields: seq<Field>, start: nat, data: seq<Byte>) returns (r: Parsed<Attrs>)
    ensures r == DeserializeObject(fields, start, data)
    decreases fields, |fields| + 2
  {
    var pos := start;
    var fieldMap: FieldMap := map[];
    for k := 0 to |fields|
      invariant DeserializeFields(fields, 0, map[], start, data) == DeserializeFields(fields, k, fieldMap, pos, data)
    {
      var f := fields[k];
      if !ConditionsKnown(f, fieldMap) {
        return Failed;
      }
      if NeedsDeserialization(f, fieldMap, pos, data) {
        var value := Read(f.typ, pos, data);
        if value.Failed? {
          return Failed;
        }
        pos := value.pos;
        fieldMap := fieldMap[f.name := value.value];
      }
    }
    var attrs := Construct(fields, |fields|, fieldMap);
    r := if attrs.Some? then Parsed(pos, attrs.value) else Failed;
  }
}
