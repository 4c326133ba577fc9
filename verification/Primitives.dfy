/**
 The table-driven codec of protocol/primitives.py.

 A message class is a list of fields with metadata (type, subtype, optional, if_true, if_false). The
 functions of this module are the specification of serialize and deserialize: None stands for a raised
 exception. Strings are their encoded bytes, booleans are the numbers 0 and 1 (as in Python, where
 True == 1), and an object is the map of its attributes.
 */
module Primitives {

  import opened Wrappers

  // ---------------------------------------------------------------- data model

  type Byte = x: int | 0 <= x < 256

  datatype FieldType =
    | UInt(width: nat)
    | Int32
    | Str
    | Bytearr
    | IpAddr
    | Boolean
    | Array(element: FieldType)
    | Record(fields: seq<Field>)

  /** default is None for a field without one, which the constructor then demands. */
  datatype Field = Field(
    name: string,
    typ: FieldType,
    ifTrue: Option<string>,
    ifFalse: Option<string>,
    optional: bool,
    default: Option<Option<Value>>)

  datatype Value =
    | Num(n: int)
    | Bytes(b: seq<Byte>)
    | List(items: seq<Value>)
    | Obj(attrs: Attrs)

  type Attrs = map<string, Option<Value>>
  type FieldMap = map<string, Value>

  // ---------------------------------------------------------------- little-endian numbers

  function Pow256(width: nat): nat
  {
    if width == 0 then 1 else 256 * Pow256(width - 1)
  }

  function LittleEndian(n: nat, width: nat): (s: seq<Byte>)
    ensures |s| == width
  {
    if width == 0 then [] else [n % 256] + LittleEndian(n / 256, width - 1)
  }

  function FromLittleEndian(s: seq<Byte>): nat
  {
    if s == [] then 0 else s[0] + 256 * FromLittleEndian(s[1..])
  }

  lemma LittleEndianRoundTrip(n: nat, width: nat)
    requires n < Pow256(width)
    ensures FromLittleEndian(LittleEndian(n, width)) == n
  {
    if width > 0 {
      LittleEndianRoundTrip(n / 256, width - 1);
      assert LittleEndian(n, width)[1..] == LittleEndian(n / 256, width - 1);
    }
  }

  lemma FromLittleEndianBound(s: seq<Byte>)
    ensures FromLittleEndian(s) < Pow256(|s|)
  {
    if s != [] {
      FromLittleEndianBound(s[1..]);
    }
  }

  const TWO_32 := 0x1_0000_0000

  lemma Pow256Of4()
    ensures Pow256(4) == TWO_32
  {
    assert Pow256(2) == 65536;
  }

  /** A uint32 length prefix; struct.pack raises when the length does not fit. */
  function LengthPrefix(n: nat): seq<Byte>
  {
    LittleEndian(n, 4)
  }

  function Reversed(s: seq<Byte>): (r: seq<Byte>)
    ensures |r| == |s|
  {
    seq(|s|, i requires 0 <= i < |s| => s[|s| - 1 - i])
  }

  // ---------------------------------------------------------------- serialize

  /** bool(value) */
  predicate Truthy(v: Option<Value>)
  {
    match v
    case None => false
    case Some(Num(n)) => n != 0
    case Some(Bytes(b)) => b != []
    case Some(List(items)) => items != []
    case Some(Obj(_)) => true
  }

  /** _get_value_for_field: whether anything is written for the field. */
  predicate IsWritten(f: Field, attrs: Attrs)
    requires HasAttributesFor(f, attrs)
  {
    && attrs[f.name].Some?
    && (f.ifTrue.Some? ==> Truthy(attrs[f.ifTrue.value]))
    && (f.ifTrue.None? && f.ifFalse.Some? ==> !Truthy(attrs[f.ifFalse.value]))
  }

  /** The getattr calls made for the field succeed. */
  predicate HasAttributesFor(f: Field, attrs: Attrs)
  {
    && f.name in attrs
    && (f.ifTrue.Some? ==> f.ifTrue.value in attrs)
    && (f.ifFalse.Some? ==> f.ifFalse.value in attrs)
  }

  function Join(a: Option<seq<Byte>>, b: Option<seq<Byte>>): Option<seq<Byte>>
  {
    if a.Some? && b.Some? then Some(a.value + b.value) else None
  }

  function Serialize(t: FieldType, v: Value): Option<seq<Byte>>
    decreases t, 0
  {
    match t
    case UInt(width) =>
      if v.Num? && 0 <= v.n < Pow256(width) then Some(LittleEndian(v.n, width)) else None
    case Int32 =>
      if v.Num? && -TWO_32 / 2 <= v.n < TWO_32 / 2
      then Some(LittleEndian(if v.n < 0 then v.n + TWO_32 else v.n, 4)) else None
    case Str => SerializeBytes(v)
    case Bytearr => SerializeBytes(v)
    case IpAddr => if v.Bytes? && |v.b| == 4 then Some(Reversed(v.b)) else None
    case Boolean => if v.Num? then Some([if v.n != 0 then 1 else 0]) else None
    case Array(element) =>
      if v.List? && |v.items| < Pow256(4)
      then Join(Some(LengthPrefix(|v.items|)), SerializeItems(element, v.items, 0)) else None
    case Record(fields) => if v.Obj? then SerializeFields(fields, 0, v.attrs) else None
  }

  function SerializeBytes(v: Value): Option<seq<Byte>>
  {
    if v.Bytes? && |v.b| < Pow256(4) then Some(LengthPrefix(|v.b|) + v.b) else None
  }

  /** The items from index i on. */
  function SerializeItems(element: FieldType, items: seq<Value>, i: nat): Option<seq<Byte>>
    requires i <= |items|
    decreases element, 1 + |items| - i
  {
    if i == |items| then Some([])
    else Join(Serialize(element, items[i]), SerializeItems(element, items, i + 1))
  }

  /** The fields from index k on. */
  function SerializeFields(fields: seq<Field>, k: nat, attrs: Attrs): Option<seq<Byte>>
    requires k <= |fields|
    decreases fields, 1 + |fields| - k
  {
    if k == |fields| then Some([])
    else Join(SerializeField(fields[k], attrs), SerializeFields(fields, k + 1, attrs))
  }

  function SerializeField(f: Field, attrs: Attrs): Option<seq<Byte>>
    decreases f, 0
  {
    if !HasAttributesFor(f, attrs) then None
    else if !IsWritten(f, attrs) then Some([])
    else Serialize(f.typ, attrs[f.name].value)
  }

  // ---------------------------------------------------------------- deserialize

  /** The value read and the position after it, or a raised exception. */
  datatype Parsed<+T> = Failed | Parsed(pos: nat, value: T)

  /** The number at pos; struct.unpack_from raises past the end. */
  function ReadUInt(width: nat, pos: nat, data: seq<Byte>): Option<nat>
  {
    if pos + width <= |data| then Some(FromLittleEndian(data[pos..pos + width])) else None
  }

  function Min(a: nat, b: nat): nat
  {
    if a <= b then a else b
  }

  function Deserialize(t: FieldType, pos: nat, data: seq<Byte>): Parsed<Value>
    decreases t, 0
  {
    match t
    case UInt(width) =>
      (match ReadUInt(width, pos, data)
       case None => Failed
       case Some(n) => Parsed(pos + width, Num(n)))
    case Int32 =>
      (match ReadUInt(4, pos, data)
       case None => Failed
       case Some(n) => Parsed(pos + 4, Num(if n >= TWO_32 / 2 then n - TWO_32 else n)))
    case Str =>
      (match ReadUInt(4, pos, data)
       case None => Failed
       case Some(n) =>
         var end := pos + 4 + n;
         if end <= |data| then Parsed(end, Bytes(data[pos + 4..end])) else Failed)
    case Bytearr =>
      // unlike a string, a byte array may be cut short by the end of the message
      (match ReadUInt(4, pos, data)
       case None => Failed
       case Some(n) => Parsed(pos + 4 + n, Bytes(data[pos + 4..Min(pos + 4 + n, |data|)])))
    case IpAddr =>
      if pos + 4 <= |data| then Parsed(pos + 4, Bytes(Reversed(data[pos..pos + 4]))) else Failed
    case Boolean =>
      if pos < |data| then Parsed(pos + 1, Num(if data[pos] != 0 then 1 else 0)) else Failed
    case Array(element) =>
      (match ReadUInt(4, pos, data)
       case None => Failed
       case Some(n) =>
         match DeserializeItems(element, n, pos + 4, data)
         case Failed => Failed
         case Parsed(end, items) => Parsed(end, List(items)))
    case Record(fields) =>
      (match DeserializeObject(fields, pos, data)
       case Failed => Failed
       case Parsed(end, attrs) => Parsed(end, Obj(attrs)))
  }

  function DeserializeItems(element: FieldType, n: nat, pos: nat, data: seq<Byte>): (r: Parsed<seq<Value>>)
    ensures r.Parsed? ==> |r.value| == n
    decreases element, 1 + n
  {
    if n == 0 then Parsed(pos, [])
    else
      match Deserialize(element, pos, data)
      case Failed => Failed
      case Parsed(next, item) =>
        match DeserializeItems(element, n - 1, next, data)
        case Failed => Failed
        case Parsed(end, items) => Parsed(end, [item] + items)
  }

  /** ProtocolDataclass.deserialize */
  function DeserializeObject(fields: seq<Field>, pos: nat, data: seq<Byte>): Parsed<Attrs>
    decreases fields, |fields| + 2
  {
    match DeserializeFields(fields, 0, map[], pos, data)
    case Failed => Failed
    case Parsed(end, fieldMap) =>
      match Construct(fields, |fields|, fieldMap)
      case None => Failed
      case Some(attrs) => Parsed(end, attrs)
  }

  /** field_map[name] does not raise KeyError for the conditions that are looked up. */
  predicate ConditionsKnown(f: Field, fieldMap: FieldMap)
  {
    && (f.ifTrue.Some? ==> f.ifTrue.value in fieldMap)
    && (f.ifFalse.Some? && (f.ifTrue.Some? ==> Truthy(Some(fieldMap[f.ifTrue.value])))
        ==> f.ifFalse.value in fieldMap)
  }

  /** _field_needs_deserialization */
  predicate NeedsDeserialization(f: Field, fieldMap: FieldMap, pos: nat, data: seq<Byte>)
    requires ConditionsKnown(f, fieldMap)
  {
    if f.ifTrue.Some? && !Truthy(Some(fieldMap[f.ifTrue.value])) then false
    else if f.ifFalse.Some? && Truthy(Some(fieldMap[f.ifFalse.value])) then false
    else if f.optional then pos < |data|
    else true
  }

  function DeserializeFields(fields: seq<Field>, k: nat, fieldMap: FieldMap, pos: nat, data: seq<Byte>): Parsed<FieldMap>
    requires k <= |fields|
    decreases fields, 1 + |fields| - k
  {
    if k == |fields| then Parsed(pos, fieldMap)
    else
      match DeserializeField(fields[k], fieldMap, pos, data)
      case Failed => Failed
      case Parsed(next, extended) => DeserializeFields(fields, k + 1, extended, next, data)
  }

  function DeserializeField(f: Field, fieldMap: FieldMap, pos: nat, data: seq<Byte>): Parsed<FieldMap>
    decreases f, 0
  {
    if !ConditionsKnown(f, fieldMap) then Failed
    else if !NeedsDeserialization(f, fieldMap, pos, data) then Parsed(pos, fieldMap)
    else
      match Deserialize(f.typ, pos, data)
      case Failed => Failed
      case Parsed(next, value) => Parsed(next, fieldMap[f.name := value])
  }

  /** cls(**field_map) on the first n fields: None when a field without default is missing. */
  function Construct(fields: seq<Field>, n: nat, fieldMap: FieldMap): Option<Attrs>
    requires n <= |fields|
  {
    if n == 0 then Some(map[])
    else
      match Construct(fields, n - 1, fieldMap)
      case None => None
      case Some(attrs) =>
        var f := fields[n - 1];
        if f.name in fieldMap then Some(attrs[f.name := Some(fieldMap[f.name])])
        else if f.default.Some? then Some(attrs[f.name := f.default.value])
        else None
  }
}
