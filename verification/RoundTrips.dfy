/**
 When an object comes back unchanged: exactly when it is canonical for its field table. Proved in both
 directions for every well-formed table.
 */
module RoundTrips {

  import opened Wrappers
  import opened Primitives

  // ---------------------------------------------------------------- well-formed tables

  predicate Unconditional(f: Field)
  {
    f.ifTrue.None? && f.ifFalse.None? && !f.optional
  }

  /** Every width and nested table is one that the codec can write and read; nested tables have no optional field. */
  predicate WellFormedType(t: FieldType)
    decreases t, 0
  {
    match t
    case UInt(width) => width > 0
    case Array(element) => !element.Array? && WellFormedType(element)
    case Record(fields) => fields != [] && NoneOptional(fields) && WellFormedFields(fields)
    case _ => true
  }

  predicate NoneOptional(fields: seq<Field>)
  {
    forall i :: 0 <= i < |fields| ==> !fields[i].optional
  }

  predicate DistinctNames(fields: seq<Field>)
  {
    forall i, j :: 0 <= i < j < |fields| ==> fields[i].name != fields[j].name
  }

  /** A condition names an earlier field that is always present. */
  predicate EarlierCondition(fields: seq<Field>, i: nat, condition: Option<string>)
    requires i < |fields|
  {
    condition.Some? ==>
      exists j :: 0 <= j < i && fields[j].name == condition.value && Unconditional(fields[j])
  }

  predicate WellFormedFields(fields: seq<Field>)
    decreases fields, 2
  {
    DistinctNames(fields) && forall i :: 0 <= i < |fields| ==> WellFormedField(fields, i)
  }

  predicate WellFormedField(fields: seq<Field>, i: nat)
    requires i < |fields|
    decreases fields, 1
  {
    && WellFormedType(fields[i].typ)
    && EarlierCondition(fields, i, fields[i].ifTrue)
    && EarlierCondition(fields, i, fields[i].ifFalse)
    && (fields[i].ifTrue.None? || fields[i].ifFalse.None?)
    && WellFormedDefault(fields, i)
  }

  /** The default of an optional field is None, or a readable value with no optional field before it. */
  predicate WellFormedDefault(fields: seq<Field>, i: nat)
    requires i < |fields|
    decreases fields, 0
  {
    fields[i].optional && fields[i].default.Some? && fields[i].default.value.Some? ==>
      && Canonical(fields[i].typ, fields[i].default.value.value)
      && forall j :: 0 <= j < i ==> !fields[j].optional
  }

  function Names(fields: seq<Field>): set<string>
  {
    set i | 0 <= i < |fields| :: fields[i].name
  }

  // ---------------------------------------------------------------- canonical values

  /** The condition of f, if any, is met. */
  predicate Enabled(f: Field, attrs: Attrs)
  {
    && (f.ifTrue.Some? ==> f.ifTrue.value in attrs && Truthy(attrs[f.ifTrue.value]))
    && (f.ifFalse.Some? ==> f.ifFalse.value in attrs && !Truthy(attrs[f.ifFalse.value]))
  }

  predicate Canonical(t: FieldType, v: Value)
    decreases t, 0
  {
    match t
    case UInt(width) => v.Num? && 0 <= v.n < Pow256(width)
    case Int32 => v.Num? && -TWO_32 / 2 <= v.n < TWO_32 / 2
    case Str => v.Bytes? && |v.b| < Pow256(4)
    case Bytearr => v.Bytes? && |v.b| < Pow256(4)
    case IpAddr => v.Bytes? && |v.b| == 4
    case Boolean => v == Num(0) || v == Num(1)
    case Array(element) =>
      v.List? && |v.items| < Pow256(4) && CanonicalItems(element, v.items, 0)
    case Record(fields) => v.Obj? && v.attrs.Keys == Names(fields) && CanonicalFields(fields, 0, v.attrs)
  }

  predicate CanonicalItems(element: FieldType, items: seq<Value>, i: nat)
    requires i <= |items|
    decreases element, 1 + |items| - i
  {
    i < |items| ==> Canonical(element, items[i]) && CanonicalItems(element, items, i + 1)
  }

  predicate CanonicalFields(fields: seq<Field>, k: nat, attrs: Attrs)
    requires k <= |fields|
    decreases fields, 1 + |fields| - k
  {
    k < |fields| ==>
      && CanonicalField(fields[k], attrs, SerializeFields(fields, k + 1, attrs) == Some([]))
      && CanonicalFields(fields, k + 1, attrs)
  }

  /**
   A disabled field holds its default. An enabled one holds a canonical value, or, when it is optional
   and defaults to None, None: then nothing may be written after it.
   */
  predicate CanonicalField(f: Field, attrs: Attrs, nothingFollows: bool)
    decreases f, 0
  {
    && f.name in attrs
    && if !Enabled(f, attrs) then f.default == Some(attrs[f.name])
       else if attrs[f.name].Some? then Canonical(f.typ, attrs[f.name].value)
       else f.optional && f.default == Some(None) && nothingFollows
  }

  // ---------------------------------------------------------------- writing then reading

  /** data holds bytes at position pos. */
  predicate At(data: seq<Byte>, pos: nat, bytes: seq<Byte>)
  {
    pos + |bytes| <= |data| && data[pos..pos + |bytes|] == bytes
  }

  lemma AtSplit(data: seq<Byte>, pos: nat, a: seq<Byte>, b: seq<Byte>)
    requires At(data, pos, a + b)
    ensures At(data, pos, a) && At(data, pos + |a|, b)
  {
    assert data[pos..pos + |a|] == (a + b)[..|a|];
    assert data[pos + |a|..pos + |a| + |b|] == (a + b)[|a|..];
  }

  lemma ReadBack(n: nat, width: nat, pos: nat, data: seq<Byte>)
    requires n < Pow256(width) && At(data, pos, LittleEndian(n, width))
    ensures ReadUInt(width, pos, data) == Some(n)
  {
    LittleEndianRoundTrip(n, width);
  }

  lemma FirstFieldUnconditional(fields: seq<Field>)
    requires WellFormedType(Record(fields))
    ensures Unconditional(fields[0]) && WellFormedType(fields[0].typ)
  {
    assert WellFormedField(fields, 0);
  }

  /** Every canonical value takes at least one byte. */
  lemma {:induction false} WritesSomething(t: FieldType, v: Value)
    requires WellFormedType(t) && Canonical(t, v) && Serialize(t, v).Some?
    ensures |Serialize(t, v).value| > 0
    decreases t
  {
    if t.Record? {
      var f, attrs := t.fields[0], v.attrs;
      FirstFieldUnconditional(t.fields);
      assert CanonicalFields(t.fields, 0, attrs);
      assert CanonicalField(f, attrs, SerializeFields(t.fields, 1, attrs) == Some([]));
      assert SerializeFields(t.fields, 0, attrs).Some?;
      assert SerializeField(f, attrs) == Serialize(f.typ, attrs[f.name].value);
      WritesSomething(f.typ, attrs[f.name].value);
    }
  }

  /** What has been read after the first k fields: the written attributes, the others being defaults. */
  ghost predicate Agrees(fields: seq<Field>, k: nat, attrs: Attrs, fieldMap: FieldMap)
    requires k <= |fields|
  {
    && fieldMap.Keys <= Names(fields[..k])
    && (forall i :: 0 <= i < k ==>
      && fields[i].name in attrs
      && (fields[i].name in fieldMap ==> attrs[fields[i].name] == Some(fieldMap[fields[i].name]))
      && (fields[i].name !in fieldMap ==> fields[i].default == Some(attrs[fields[i].name]))
      && (Unconditional(fields[i]) ==> fields[i].name in fieldMap))
  }

  lemma ConditionAgrees(fields: seq<Field>, k: nat, attrs: Attrs, fieldMap: FieldMap, condition: Option<string>)
    requires k < |fields| && Agrees(fields, k, attrs, fieldMap) && EarlierCondition(fields, k, condition)
    ensures condition.Some? ==>
              && condition.value in fieldMap
              && condition.value in attrs && attrs[condition.value] == Some(fieldMap[condition.value])
  {
  }

  lemma ConditionsAgree(fields: seq<Field>, k: nat, attrs: Attrs, fieldMap: FieldMap, pos: nat, data: seq<Byte>)
    requires k < |fields| && WellFormedFields(fields) && Agrees(fields, k, attrs, fieldMap)
    ensures var f := fields[k];
            && ConditionsKnown(f, fieldMap)
            && NeedsDeserialization(f, fieldMap, pos, data) == (Enabled(f, attrs) && (f.optional ==> pos < |data|))
  {
    assert WellFormedField(fields, k);
    ConditionAgrees(fields, k, attrs, fieldMap, fields[k].ifTrue);
    ConditionAgrees(fields, k, attrs, fieldMap, fields[k].ifFalse);
  }

  lemma NamesAppend(fields: seq<Field>, n: nat)
    requires n < |fields|
    ensures Names(fields[..n + 1]) == Names(fields[..n]) + {fields[n].name}
  {
    assert fields[..n + 1] == fields[..n] + [fields[n]];
    assert fields[..n + 1][n] == fields[n];
    forall i | 0 <= i < n ensures fields[i].name in Names(fields[..n + 1]) {
      assert fields[..n + 1][i] == fields[i];
    }
  }

  lemma AgreesExtend(fields: seq<Field>, k: nat, attrs: Attrs, fieldMap: FieldMap)
    requires k < |fields| && DistinctNames(fields) && Agrees(fields, k, attrs, fieldMap) && fields[k].name in attrs
    ensures attrs[fields[k].name].Some? ==>
              Agrees(fields, k + 1, attrs, fieldMap[fields[k].name := attrs[fields[k].name].value])
    ensures !Unconditional(fields[k]) && fields[k].default == Some(attrs[fields[k].name]) ==>
              Agrees(fields, k + 1, attrs, fieldMap)
  {
    NamesAppend(fields, k);
    assert fields[k].name !in Names(fields[..k]);
  }

  /** The next field is read back, or left out where it was not written. */
  lemma {:induction false} FieldReadBack(
      fields: seq<Field>, k: nat, attrs: Attrs, fieldMap: FieldMap, pos: nat, bytes: seq<Byte>, data: seq<Byte>)
    returns (extended: FieldMap)
    requires k < |fields| && WellFormedFields(fields) && Agrees(fields, k, attrs, fieldMap)
    requires CanonicalField(fields[k], attrs, pos + |bytes| == |data|)
    requires SerializeField(fields[k], attrs) == Some(bytes) && At(data, pos, bytes)
    ensures DeserializeField(fields[k], fieldMap, pos, data) == Parsed(pos + |bytes|, extended)
    ensures Agrees(fields, k + 1, attrs, extended)
    decreases fields[k], 2
  {
    var f := fields[k];
    assert WellFormedField(fields, k);
    ConditionsAgree(fields, k, attrs, fieldMap, pos, data);
    AgreesExtend(fields, k, attrs, fieldMap);
    if Enabled(f, attrs) && attrs[f.name].Some? {
      var v := attrs[f.name].value;
      WritesSomething(f.typ, v);
      RoundTrip(f.typ, v, pos, data);
      extended := fieldMap[f.name := v];
    } else {
      extended := fieldMap;
    }
  }

  lemma FieldsUnfold(fields: seq<Field>, k: nat, attrs: Attrs) returns (mine: seq<Byte>, rest: seq<Byte>)
    requires k < |fields| && SerializeFields(fields, k, attrs).Some? && CanonicalFields(fields, k, attrs)
    ensures SerializeFields(fields, k, attrs) == Some(mine + rest)
    ensures SerializeField(fields[k], attrs) == Some(mine) && CanonicalField(fields[k], attrs, rest == [])
    ensures SerializeFields(fields, k + 1, attrs) == Some(rest) && CanonicalFields(fields, k + 1, attrs)
  {
    mine := SerializeField(fields[k], attrs).value;
    rest := SerializeFields(fields, k + 1, attrs).value;
  }

  lemma ReadFieldsUnfold(
      fields: seq<Field>, k: nat, fieldMap: FieldMap, pos: nat, data: seq<Byte>, next: nat, extended: FieldMap)
    requires k < |fields| && DeserializeField(fields[k], fieldMap, pos, data) == Parsed(next, extended)
    ensures DeserializeFields(fields, k, fieldMap, pos, data) == DeserializeFields(fields, k + 1, extended, next, data)
  {
  }

  lemma CanonicalFieldAtEnd(f: Field, attrs: Attrs, nothingFollows: bool, atEnd: bool)
    requires CanonicalField(f, attrs, nothingFollows) && (nothingFollows && f.optional ==> atEnd)
    ensures CanonicalField(f, attrs, atEnd)
  {
  }

  /** Reading field k leaves the reader in front of the bytes of the remaining fields. */
  lemma {:induction false} FieldsReadBackStep(
      fields: seq<Field>, k: nat, attrs: Attrs, fieldMap: FieldMap, pos: nat, bytes: seq<Byte>, data: seq<Byte>)
    returns (next: nat, rest: seq<Byte>, extended: FieldMap)
    requires k < |fields| && WellFormedFields(fields) && Agrees(fields, k, attrs, fieldMap)
    requires CanonicalFields(fields, k, attrs)
    requires SerializeFields(fields, k, attrs) == Some(bytes) && At(data, pos, bytes)
    requires pos + |bytes| == |data| || NoneOptional(fields)
    ensures SerializeFields(fields, k + 1, attrs) == Some(rest) && CanonicalFields(fields, k + 1, attrs)
    ensures next + |rest| == pos + |bytes| && At(data, next, rest)
    ensures Agrees(fields, k + 1, attrs, extended)
    ensures DeserializeFields(fields, k, fieldMap, pos, data) == DeserializeFields(fields, k + 1, extended, next, data)
    decreases fields, |fields| - k, 0
  {
    var mine;
    mine, rest := FieldsUnfold(fields, k, attrs);
    AtSplit(data, pos, mine, rest);
    next := pos + |mine|;
    assert next + |rest| == pos + |bytes|;
    CanonicalFieldAtEnd(fields[k], attrs, rest == [], next == |data|);
    extended := FieldReadBack(fields, k, attrs, fieldMap, pos, mine, data);
    ReadFieldsUnfold(fields, k, fieldMap, pos, data, next, extended);
  }

  lemma {:induction false} FieldsReadBack(
      fields: seq<Field>, k: nat, attrs: Attrs, fieldMap: FieldMap, pos: nat, bytes: seq<Byte>, data: seq<Byte>)
    returns (readBack: FieldMap)
    requires k <= |fields| && WellFormedFields(fields) && Agrees(fields, k, attrs, fieldMap)
    requires CanonicalFields(fields, k, attrs)
    requires SerializeFields(fields, k, attrs) == Some(bytes) && At(data, pos, bytes)
    requires pos + |bytes| == |data| || NoneOptional(fields)
    ensures DeserializeFields(fields, k, fieldMap, pos, data) == Parsed(pos + |bytes|, readBack)
    ensures Agrees(fields, |fields|, attrs, readBack)
    decreases fields, |fields| - k, 1
  {
    if k == |fields| {
      readBack := fieldMap;
    } else {
      var next, rest, extended := FieldsReadBackStep(fields, k, attrs, fieldMap, pos, bytes, data);
      readBack := FieldsReadBack(fields, k + 1, attrs, extended, next, rest, data);
    }
  }

  /** attrs, cut down to the first n fields. */
  function Restricted(fields: seq<Field>, n: nat, attrs: Attrs): Attrs
    requires n <= |fields| && Names(fields) <= attrs.Keys
  {
    map name | name in Names(fields[..n]) && name in attrs :: attrs[name]
  }

  /** The constructor rebuilds the attributes from what was read. */
  lemma {:induction false} ConstructAgrees(fields: seq<Field>, n: nat, attrs: Attrs, fieldMap: FieldMap)
    requires n <= |fields| && Names(fields) <= attrs.Keys && Agrees(fields, |fields|, attrs, fieldMap)
    ensures Construct(fields, n, fieldMap) == Some(Restricted(fields, n, attrs))
  {
    if n > 0 {
      var f := fields[n - 1];
      ConstructAgrees(fields, n - 1, attrs, fieldMap);
      NamesAppend(fields, n - 1);
      assert f.name in Names(fields);
      assert Restricted(fields, n, attrs) == Restricted(fields, n - 1, attrs)[f.name := attrs[f.name]];
    } else {
      assert Names(fields[..0]) == {};
      assert Restricted(fields, 0, attrs) == map[];
    }
  }

  lemma {:induction false} ObjectReadBack(
      fields: seq<Field>, attrs: Attrs, pos: nat, bytes: seq<Byte>, data: seq<Byte>)
    requires WellFormedFields(fields) && attrs.Keys == Names(fields)
    requires CanonicalFields(fields, 0, attrs)
    requires SerializeFields(fields, 0, attrs) == Some(bytes) && At(data, pos, bytes)
    requires pos + |bytes| == |data| || NoneOptional(fields)
    ensures DeserializeObject(fields, pos, data) == Parsed(pos + |bytes|, attrs)
    decreases fields, |fields| + 1
  {
    var fieldMap := FieldsReadBack(fields, 0, attrs, map[], pos, bytes, data);
    ConstructAgrees(fields, |fields|, attrs, fieldMap);
    RestrictedToAll(fields, attrs);
  }

  lemma RestrictedToAll(fields: seq<Field>, attrs: Attrs)
    requires attrs.Keys == Names(fields)
    ensures fields[..|fields|] == fields && Restricted(fields, |fields|, attrs) == attrs
  {
    assert fields[..|fields|] == fields;
  }

  lemma ItemsUnfold(element: FieldType, items: seq<Value>, i: nat) returns (mine: seq<Byte>, rest: seq<Byte>)
    requires i < |items| && SerializeItems(element, items, i).Some? && CanonicalItems(element, items, i)
    ensures SerializeItems(element, items, i) == Some(mine + rest)
    ensures Serialize(element, items[i]) == Some(mine) && Canonical(element, items[i])
    ensures SerializeItems(element, items, i + 1) == Some(rest) && CanonicalItems(element, items, i + 1)
  {
    mine := Serialize(element, items[i]).value;
    rest := SerializeItems(element, items, i + 1).value;
  }

  lemma ReadItemsUnfold(
      element: FieldType, items: seq<Value>, i: nat, pos: nat, data: seq<Byte>, next: nat, end: nat)
    requires i < |items| && Deserialize(element, pos, data) == Parsed(next, items[i])
    requires DeserializeItems(element, |items| - i - 1, next, data) == Parsed(end, items[i + 1..])
    ensures DeserializeItems(element, |items| - i, pos, data) == Parsed(end, items[i..])
  {
    assert [items[i]] + items[i + 1..] == items[i..];
  }

  lemma {:induction false} ItemsReadBackStep(
      element: FieldType, items: seq<Value>, i: nat, pos: nat, bytes: seq<Byte>, data: seq<Byte>)
    returns (next: nat, rest: seq<Byte>)
    requires i < |items| && WellFormedType(element) && CanonicalItems(element, items, i)
    requires SerializeItems(element, items, i) == Some(bytes) && At(data, pos, bytes)
    ensures SerializeItems(element, items, i + 1) == Some(rest) && CanonicalItems(element, items, i + 1)
    ensures next + |rest| == pos + |bytes| && At(data, next, rest)
    ensures Deserialize(element, pos, data) == Parsed(next, items[i])
    decreases element, 1 + |items| - i, 0
  {
    var mine;
    mine, rest := ItemsUnfold(element, items, i);
    AtSplit(data, pos, mine, rest);
    next := pos + |mine|;
    RoundTrip(element, items[i], pos, data);
  }

  lemma {:induction false} ItemsReadBack(
      element: FieldType, items: seq<Value>, i: nat, pos: nat, bytes: seq<Byte>, data: seq<Byte>)
    requires i <= |items| && WellFormedType(element) && CanonicalItems(element, items, i)
    requires SerializeItems(element, items, i) == Some(bytes) && At(data, pos, bytes)
    ensures DeserializeItems(element, |items| - i, pos, data) == Parsed(pos + |bytes|, items[i..])
    decreases element, 1 + |items| - i, 1
  {
    if i < |items| {
      var next, rest := ItemsReadBackStep(element, items, i, pos, bytes, data);
      ItemsReadBack(element, items, i + 1, next, rest, data);
      ReadItemsUnfold(element, items, i, pos, data, next, pos + |bytes|);
    } else {
      assert items[i..] == [];
    }
  }

  lemma SizedReadBack(n: nat, body: seq<Byte>, pos: nat, data: seq<Byte>)
    requires n < Pow256(4) && At(data, pos, LengthPrefix(n) + body)
    ensures ReadUInt(4, pos, data) == Some(n) && At(data, pos + 4, body)
  {
    AtSplit(data, pos, LengthPrefix(n), body);
    ReadBack(n, 4, pos, data);
  }

  lemma Int32ReadBack(n: int, pos: nat, data: seq<Byte>)
    requires Serialize(Int32, Num(n)).Some? && At(data, pos, Serialize(Int32, Num(n)).value)
    ensures Deserialize(Int32, pos, data) == Parsed(pos + 4, Num(n))
  {
    Pow256Of4();
    ReadBack(if n < 0 then n + TWO_32 else n, 4, pos, data);
  }

  /**
   Reading back any canonical value of any well-formed type, at any offset and with anything behind it,
   gives the value and consumes exactly its bytes.
   */
  lemma {:induction false} RoundTrip(t: FieldType, v: Value, pos: nat, data: seq<Byte>)
    requires WellFormedType(t) && Canonical(t, v) && Serialize(t, v).Some?
    requires At(data, pos, Serialize(t, v).value)
    ensures Deserialize(t, pos, data) == Parsed(pos + |Serialize(t, v).value|, v)
    decreases t, 0
  {
    match t {
      case UInt(width) => ReadBack(v.n, width, pos, data);
      case Int32 => Int32ReadBack(v.n, pos, data);
      case Str => SizedReadBack(|v.b|, v.b, pos, data);
      case Bytearr => SizedReadBack(|v.b|, v.b, pos, data);
      case IpAddr => assert Reversed(Reversed(v.b)) == v.b;
      case Boolean =>
      case Array(element) =>
        var body := SerializeItems(element, v.items, 0).value;
        SizedReadBack(|v.items|, body, pos, data);
        ItemsReadBack(element, v.items, 0, pos + 4, body, data);
      case Record(fields) => ObjectReadBack(fields, v.attrs, pos, Serialize(t, v).value, data);
    }
  }

  // ---------------------------------------------------------------- reading gives canonical values

  lemma ReadsSomething(t: FieldType, pos: nat, data: seq<Byte>)
    requires WellFormedType(t) && pos >= |data|
    ensures Deserialize(t, pos, data).Failed?
    decreases t
  {
    if t.Record? {
      var f := t.fields[0];
      FirstFieldUnconditional(t.fields);
      ReadsSomething(f.typ, pos, data);
      assert DeserializeField(f, map[], pos, data).Failed?;
      assert DeserializeFields(t.fields, 0, map[], pos, data).Failed?;
    }
  }

  /** attrs are the attributes that the constructor makes of the complete field map. */
  ghost predicate Constructed(fields: seq<Field>, n: nat, fieldMap: FieldMap, attrs: Attrs)
    requires n <= |fields|
  {
    forall i :: 0 <= i < n ==>
      && fields[i].name in attrs
      && (fields[i].name in fieldMap ==> attrs[fields[i].name] == Some(fieldMap[fields[i].name]))
      && (fields[i].name !in fieldMap ==> fields[i].default == Some(attrs[fields[i].name]))
  }

  lemma {:induction false} ConstructorConstructs(fields: seq<Field>, n: nat, fieldMap: FieldMap, attrs: Attrs)
    requires n <= |fields| && DistinctNames(fields) && Construct(fields, n, fieldMap) == Some(attrs)
    ensures Constructed(fields, n, fieldMap, attrs) && attrs.Keys == Names(fields[..n])
  {
    if n > 0 {
      var earlier, v := ConstructStep(fields, n, fieldMap, attrs);
      ConstructorConstructs(fields, n - 1, fieldMap, earlier);
      NamesAppend(fields, n - 1);
      NameNotEarlier(fields, n - 1);
      OneMoreConstructed(fields, n - 1, fieldMap, earlier, v);
    }
  }

  /** The constructor's value for the last field */
  lemma ConstructStep(fields: seq<Field>, n: nat, fieldMap: FieldMap, attrs: Attrs) returns (earlier: Attrs, v: Option<Value>)
    requires 0 < n <= |fields| && Construct(fields, n, fieldMap) == Some(attrs)
    ensures Construct(fields, n - 1, fieldMap) == Some(earlier) && attrs == earlier[fields[n - 1].name := v]
    ensures var f := fields[n - 1];
            if f.name in fieldMap then v == Some(fieldMap[f.name]) else f.default == Some(v)
  {
    earlier := Construct(fields, n - 1, fieldMap).value;
    v := attrs[fields[n - 1].name];
  }

  lemma OneMoreConstructed(fields: seq<Field>, k: nat, fieldMap: FieldMap, earlier: Attrs, v: Option<Value>)
    requires k < |fields| && Constructed(fields, k, fieldMap, earlier)
    requires forall i :: 0 <= i < k ==> fields[i].name != fields[k].name
    requires var f := fields[k]; if f.name in fieldMap then v == Some(fieldMap[f.name]) else f.default == Some(v)
    ensures Constructed(fields, k + 1, fieldMap, earlier[fields[k].name := v])
  {
  }

  lemma NameNotEarlier(fields: seq<Field>, k: nat)
    requires k < |fields| && DistinctNames(fields)
    ensures forall i :: 0 <= i < k ==> fields[i].name != fields[k].name
  {
  }

  /** What is known of the field map in front of field k. */
  ghost predicate ReadSoFar(fields: seq<Field>, k: nat, fieldMap: FieldMap, complete: FieldMap)
    requires k <= |fields|
  {
    && fieldMap.Keys <= Names(fields[..k])
    && (forall name :: name in fieldMap ==> name in complete && complete[name] == fieldMap[name])
    && (forall i :: 0 <= i < k && Unconditional(fields[i]) ==> fields[i].name in fieldMap)
    && (forall i :: 0 <= i < k && fields[i].name in complete ==> fields[i].name in fieldMap)
  }

  predicate OptionalBefore(fields: seq<Field>, k: nat)
    requires k <= |fields|
  {
    exists j :: 0 <= j < k && fields[j].optional
  }

  lemma NameNotBefore(fields: seq<Field>, k: nat)
    requires k < |fields| && DistinctNames(fields)
    ensures fields[k].name !in Names(fields[..k])
  {
  }

  lemma ConditionKnown(
      fields: seq<Field>, k: nat, fieldMap: FieldMap, complete: FieldMap, attrs: Attrs, condition: Option<string>)
    requires k < |fields| && EarlierCondition(fields, k, condition)
    requires ReadSoFar(fields, k, fieldMap, complete) && Constructed(fields, |fields|, complete, attrs)
    ensures condition.Some? ==>
              && condition.value in fieldMap
              && condition.value in attrs && attrs[condition.value] == Some(fieldMap[condition.value])
  {
  }

  /** Whether field k is read is decided by the attributes of the finished object. */
  lemma DecisionKnown(
      fields: seq<Field>, k: nat, fieldMap: FieldMap, complete: FieldMap, attrs: Attrs, pos: nat, data: seq<Byte>)
    requires k < |fields| && WellFormedFields(fields)
    requires ReadSoFar(fields, k, fieldMap, complete) && Constructed(fields, |fields|, complete, attrs)
    ensures var f := fields[k];
            && ConditionsKnown(f, fieldMap) && HasAttributesFor(f, attrs)
            && IsWritten(f, attrs) == (Enabled(f, attrs) && attrs[f.name].Some?)
            && NeedsDeserialization(f, fieldMap, pos, data) == (Enabled(f, attrs) && (f.optional ==> pos < |data|))
  {
    assert WellFormedField(fields, k);
    ConditionKnown(fields, k, fieldMap, complete, attrs, fields[k].ifTrue);
    ConditionKnown(fields, k, fieldMap, complete, attrs, fields[k].ifFalse);
  }

  /** The field map only grows, by the name of the field that was read. */
  lemma {:induction false} FieldMapGrows(
      fields: seq<Field>, k: nat, fieldMap: FieldMap, pos: nat, data: seq<Byte>, name: string)
    requires k <= |fields| && DeserializeFields(fields, k, fieldMap, pos, data).Parsed?
    requires forall i :: k <= i < |fields| ==> fields[i].name != name
    ensures var complete := DeserializeFields(fields, k, fieldMap, pos, data).value;
            && (name in complete <==> name in fieldMap)
            && (name in fieldMap ==> complete[name] == fieldMap[name])
    decreases |fields| - k
  {
    if k < |fields| {
      var r := DeserializeField(fields[k], fieldMap, pos, data);
      assert DeserializeFields(fields, k, fieldMap, pos, data)
          == DeserializeFields(fields, k + 1, r.value, r.pos, data);
      FieldMapGrows(fields, k + 1, r.value, r.pos, data, name);
    }
  }

  lemma ReadSoFarSkip(
      fields: seq<Field>, k: nat, fieldMap: FieldMap, complete: FieldMap, pos: nat, data: seq<Byte>)
    requires k < |fields| && DistinctNames(fields) && ReadSoFar(fields, k, fieldMap, complete)
    requires DeserializeFields(fields, k + 1, fieldMap, pos, data).Parsed?
    requires DeserializeFields(fields, k + 1, fieldMap, pos, data).value == complete
    requires !Unconditional(fields[k])
    ensures ReadSoFar(fields, k + 1, fieldMap, complete) && fields[k].name !in complete
  {
    NameNotBefore(fields, k);
    FieldMapGrows(fields, k + 1, fieldMap, pos, data, fields[k].name);
    NamesAppend(fields, k);
  }

  lemma SkippedAtEnd(
      fields: seq<Field>, k: nat, fieldMap: FieldMap, complete: FieldMap, attrs: Attrs, pos: nat, data: seq<Byte>)
    requires k < |fields| && WellFormedFields(fields) && OptionalBefore(fields, k) && pos >= |data|
    requires DeserializeFields(fields, k, fieldMap, pos, data).Parsed?
    requires DeserializeFields(fields, k, fieldMap, pos, data).value == complete
    requires ReadSoFar(fields, k, fieldMap, complete) && Constructed(fields, |fields|, complete, attrs)
    ensures DeserializeField(fields[k], fieldMap, pos, data) == Parsed(pos, fieldMap)
    ensures SerializeField(fields[k], attrs) == Some([])
    ensures ReadSoFar(fields, k + 1, fieldMap, complete)
  {
    var f := fields[k];
    assert WellFormedField(fields, k);
    DecisionKnown(fields, k, fieldMap, complete, attrs, pos, data);
    ReadsSomething(f.typ, pos, data);
    assert DeserializeField(f, fieldMap, pos, data) == Parsed(pos, fieldMap);
    ReadFieldsUnfold(fields, k, fieldMap, pos, data, pos, fieldMap);
    ReadSoFarSkip(fields, k, fieldMap, complete, pos, data);
  }

  /** Past the end of the message nothing more is read, and what the object holds for it is not written either. */
  lemma {:induction false} NothingAfterEnd(
      fields: seq<Field>, k: nat, fieldMap: FieldMap, complete: FieldMap, attrs: Attrs, pos: nat, data: seq<Byte>)
    requires k <= |fields| && WellFormedFields(fields) && OptionalBefore(fields, k) && pos >= |data|
    requires DeserializeFields(fields, k, fieldMap, pos, data).Parsed?
    requires DeserializeFields(fields, k, fieldMap, pos, data).value == complete
    requires ReadSoFar(fields, k, fieldMap, complete) && Constructed(fields, |fields|, complete, attrs)
    ensures SerializeFields(fields, k, attrs) == Some([])
    decreases |fields| - k
  {
    if k < |fields| {
      SkippedAtEnd(fields, k, fieldMap, complete, attrs, pos, data);
      ReadFieldsUnfold(fields, k, fieldMap, pos, data, pos, fieldMap);
      NothingAfterEnd(fields, k + 1, fieldMap, complete, attrs, pos, data);
      var none: seq<Byte> := [];
      assert none + none == none;
    }
  }

  lemma {:induction false} ItemsImage(element: FieldType, n: nat, pos: nat, data: seq<Byte>)
    requires WellFormedType(element) && DeserializeItems(element, n, pos, data).Parsed?
    ensures CanonicalItems(element, DeserializeItems(element, n, pos, data).value, 0)
    decreases element, 1 + n
  {
    if n > 0 {
      var first := Deserialize(element, pos, data);
      var rest := DeserializeItems(element, n - 1, first.pos, data);
      Image(element, pos, data);
      ItemsImage(element, n - 1, first.pos, data);
      CanonicalItemsShift(element, first.value, rest.value, 0);
    }
  }

  lemma {:induction false} CanonicalItemsShift(element: FieldType, item: Value, items: seq<Value>, i: nat)
    requires i <= |items| && CanonicalItems(element, items, i)
    ensures CanonicalItems(element, [item] + items, i + 1)
    decreases |items| - i
  {
    if i < |items| {
      CanonicalItemsShift(element, item, items, i + 1);
    }
  }

  /** A field that was read is canonical; so is one that was skipped. */
  lemma {:induction false} FieldImage(
      fields: seq<Field>, k: nat, fieldMap: FieldMap, complete: FieldMap, attrs: Attrs, pos: nat, data: seq<Byte>)
    requires k < |fields| && WellFormedFields(fields)
    requires DeserializeFields(fields, k, fieldMap, pos, data).Parsed?
    requires DeserializeFields(fields, k, fieldMap, pos, data).value == complete
    requires ReadSoFar(fields, k, fieldMap, complete) && Constructed(fields, |fields|, complete, attrs)
    ensures CanonicalField(fields[k], attrs, SerializeFields(fields, k + 1, attrs) == Some([]))
    ensures DeserializeField(fields[k], fieldMap, pos, data).Parsed?
    ensures ReadSoFar(fields, k + 1, DeserializeField(fields[k], fieldMap, pos, data).value, complete)
    decreases fields[k], 2
  {
    var f := fields[k];
    assert WellFormedField(fields, k);
    DecisionKnown(fields, k, fieldMap, complete, attrs, pos, data);
    var r := DeserializeField(f, fieldMap, pos, data);
    ReadFieldsUnfold(fields, k, fieldMap, pos, data, r.pos, r.value);
    if NeedsDeserialization(f, fieldMap, pos, data) {
      Image(f.typ, pos, data);
      FieldMapGrows(fields, k + 1, r.value, r.pos, data, f.name);
      NamesAppend(fields, k);
    } else {
      ReadSoFarSkip(fields, k, fieldMap, complete, pos, data);
      if Enabled(f, attrs) && attrs[f.name].None? {
        assert OptionalBefore(fields, k + 1);
        NothingAfterEnd(fields, k + 1, fieldMap, complete, attrs, pos, data);
      }
    }
  }

  lemma {:induction false} FieldsImage(
      fields: seq<Field>, k: nat, fieldMap: FieldMap, complete: FieldMap, attrs: Attrs, pos: nat, data: seq<Byte>)
    requires k <= |fields| && WellFormedFields(fields)
    requires DeserializeFields(fields, k, fieldMap, pos, data).Parsed?
    requires DeserializeFields(fields, k, fieldMap, pos, data).value == complete
    requires ReadSoFar(fields, k, fieldMap, complete) && Constructed(fields, |fields|, complete, attrs)
    ensures CanonicalFields(fields, k, attrs)
    decreases fields, |fields| - k
  {
    if k < |fields| {
      FieldImage(fields, k, fieldMap, complete, attrs, pos, data);
      var r := DeserializeField(fields[k], fieldMap, pos, data);
      ReadFieldsUnfold(fields, k, fieldMap, pos, data, r.pos, r.value);
      FieldsImage(fields, k + 1, r.value, complete, attrs, r.pos, data);
    }
  }

  lemma {:induction false} ObjectImage(fields: seq<Field>, pos: nat, data: seq<Byte>)
    requires WellFormedFields(fields) && DeserializeObject(fields, pos, data).Parsed?
    ensures DeserializeObject(fields, pos, data).value.Keys == Names(fields)
    ensures CanonicalFields(fields, 0, DeserializeObject(fields, pos, data).value)
    decreases fields, |fields| + 1
  {
    var complete := DeserializeFields(fields, 0, map[], pos, data).value;
    var attrs := DeserializeObject(fields, pos, data).value;
    ConstructorConstructs(fields, |fields|, complete, attrs);
    assert fields[..|fields|] == fields;
    FieldsImage(fields, 0, map[], complete, attrs, pos, data);
  }

  /** Whatever bytes are read, at any offset: a value that comes out is canonical. */
  lemma {:induction false} Image(t: FieldType, pos: nat, data: seq<Byte>)
    requires WellFormedType(t) && Deserialize(t, pos, data).Parsed?
    ensures Canonical(t, Deserialize(t, pos, data).value)
    decreases t, 0
  {
    match t {
      case Array(element) =>
        FromLittleEndianBound(data[pos..pos + 4]);
        ItemsImage(element, FromLittleEndian(data[pos..pos + 4]), pos + 4, data);
      case Record(fields) => ObjectImage(fields, pos, data);
      case _ => LeafImage(t, pos, data);
    }
  }

  lemma LeafImage(t: FieldType, pos: nat, data: seq<Byte>)
    requires !t.Array? && !t.Record? && Deserialize(t, pos, data).Parsed?
    ensures Canonical(t, Deserialize(t, pos, data).value)
  {
    match t {
      case UInt(width) => FromLittleEndianBound(data[pos..pos + width]);
      case Int32 =>
        FromLittleEndianBound(data[pos..pos + 4]);
        Pow256Of4();
      case Str => FromLittleEndianBound(data[pos..pos + 4]);
      case Bytearr => FromLittleEndianBound(data[pos..pos + 4]);
      case IpAddr =>
      case Boolean =>
    }
  }

  // ---------------------------------------------------------------- the exact condition

  /**
   An object whose table may have optional fields, written at the end of a message, comes back unchanged
   if and only if it is canonical.
   */
  lemma {:induction false} ObjectRoundTripExactly(
      fields: seq<Field>, attrs: Attrs, pos: nat, bytes: seq<Byte>, data: seq<Byte>)
    requires WellFormedFields(fields) && attrs.Keys == Names(fields)
    requires SerializeFields(fields, 0, attrs) == Some(bytes)
    requires At(data, pos, bytes) && pos + |bytes| == |data|
    ensures CanonicalFields(fields, 0, attrs) <==> DeserializeObject(fields, pos, data) == Parsed(|data|, attrs)
  {
    if CanonicalFields(fields, 0, attrs) {
      ObjectReadBack(fields, attrs, pos, bytes, data);
    }
    if DeserializeObject(fields, pos, data) == Parsed(|data|, attrs) {
      ObjectImage(fields, pos, data);
    }
  }

  /** A value of a type without optional fields comes back, wherever it is written, exactly when it is canonical. */
  lemma {:induction false} RoundTripExactly(t: FieldType, v: Value, pos: nat, data: seq<Byte>)
    requires WellFormedType(t) && Serialize(t, v).Some? && At(data, pos, Serialize(t, v).value)
    ensures Canonical(t, v) <==> Deserialize(t, pos, data) == Parsed(pos + |Serialize(t, v).value|, v)
  {
    if Canonical(t, v) {
      RoundTrip(t, v, pos, data);
    }
    if Deserialize(t, pos, data) == Parsed(pos + |Serialize(t, v).value|, v) {
      Image(t, pos, data);
    }
  }
}
