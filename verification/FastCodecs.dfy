/**
 The hand-written codecs of Attribute, FileData and DirectoryData in protocol/primitives.py, and their
 equality with the field-driven codec.
 */
module FastCodecs {

  import opened Wrappers
  import opened Primitives
  import opened RoundTrips

  function Plain(name: string, typ: FieldType): Field
  {
    Field(name, typ, None, None, false, None)
  }

  const ATTRIBUTE_FIELDS := [Plain("key", UInt(4)), Plain("value", UInt(4))]
  const ATTRIBUTE := Record(ATTRIBUTE_FIELDS)

  const FILE_DATA_FIELDS := [
    Plain("unknown", UInt(1)), Plain("filename", Str), Plain("filesize", UInt(8)), Plain("extension", Str),
    Plain("attributes", Array(ATTRIBUTE))]
  const FILE_DATA := Record(FILE_DATA_FIELDS)

  const DIRECTORY_DATA_FIELDS := [Plain("name", Str), Plain("files", Array(FILE_DATA))]
  const DIRECTORY_DATA := Record(DIRECTORY_DATA_FIELDS)

  // ---------------------------------------------------------------- reading

  /** Attribute.deserialize: one unpack of two uint32. */
  function ReadAttribute(pos: nat, data: seq<Byte>): Parsed<Value>
  {
    if pos + 8 <= |data| then
      Parsed(pos + 8, Obj(map[
        "key" := Some(Num(FromLittleEndian(data[pos..pos + 4]))),
        "value" := Some(Num(FromLittleEndian(data[pos + 4..pos + 8])))]))
    else Failed
  }

  /** array.deserialize over any element reader. */
  function ReadAll(read: (nat, seq<Byte>) -> Parsed<Value>, n: nat, pos: nat, data: seq<Byte>): Parsed<seq<Value>>
  {
    if n == 0 then Parsed(pos, [])
    else
      match read(pos, data)
      case Failed => Failed
      case Parsed(next, item) =>
        match ReadAll(read, n - 1, next, data)
        case Failed => Failed
        case Parsed(end, items) => Parsed(end, [item] + items)
  }

  function ReadArray(read: (nat, seq<Byte>) -> Parsed<Value>, pos: nat, data: seq<Byte>): Parsed<Value>
  {
    match ReadUInt(4, pos, data)
    case None => Failed
    case Some(n) =>
      match ReadAll(read, n, pos + 4, data)
      case Failed => Failed
      case Parsed(end, items) => Parsed(end, List(items))
  }

  /** FileData.deserialize: five reads in a row, then the attributes set one by one. */
  function ReadFileData(pos: nat, data: seq<Byte>): Parsed<Value>
  {
    match Deserialize(UInt(1), pos, data)
    case Failed => Failed
    case Parsed(pos, unknown) =>
    match Deserialize(Str, pos, data)
    case Failed => Failed
    case Parsed(pos, filename) =>
    match Deserialize(UInt(8), pos, data)
    case Failed => Failed
    case Parsed(pos, filesize) =>
    match Deserialize(Str, pos, data)
    case Failed => Failed
    case Parsed(pos, extension) =>
    match ReadArray(ReadAttribute, pos, data)
    case Failed => Failed
    case Parsed(pos, attributes) =>
      Parsed(pos, Obj(map[
        "unknown" := Some(unknown), "filename" := Some(filename), "filesize" := Some(filesize),
        "extension" := Some(extension), "attributes" := Some(attributes)]))
  }

  /** DirectoryData.deserialize */
  function ReadDirectoryData(pos: nat, data: seq<Byte>): Parsed<Value>
  {
    match Deserialize(Str, pos, data)
    case Failed => Failed
    case Parsed(pos, name) =>
    match ReadArray(ReadFileData, pos, data)
    case Failed => Failed
    case Parsed(pos, files) =>
      Parsed(pos, Obj(map["name" := Some(name), "files" := Some(files)]))
  }

  /** One unconditional field, followed by whatever the rest of the table gives. */
  lemma PlainFieldRead(fields: seq<Field>, k: nat, fieldMap: FieldMap, pos: nat, data: seq<Byte>)
    requires k < |fields| && fields[k] == Plain(fields[k].name, fields[k].typ)
    ensures DeserializeFields(fields, k, fieldMap, pos, data) ==
            match Deserialize(fields[k].typ, pos, data)
            case Failed => Failed
            case Parsed(next, v) => DeserializeFields(fields, k + 1, fieldMap[fields[k].name := v], next, data)
  {
  }

  /** The values read for the first n fields, as attributes. */
  function Picked(fields: seq<Field>, n: nat, fieldMap: FieldMap): Attrs
    requires n <= |fields|
  {
    map name | name in fieldMap && name in Names(fields[..n]) :: Some(fieldMap[name])
  }

  lemma {:induction false} ConstructAll(fields: seq<Field>, n: nat, fieldMap: FieldMap)
    requires n <= |fields| && forall i :: 0 <= i < |fields| ==> fields[i].name in fieldMap
    ensures Construct(fields, n, fieldMap) == Some(Picked(fields, n, fieldMap))
  {
    if n > 0 {
      var name := fields[n - 1].name;
      ConstructAll(fields, n - 1, fieldMap);
      NamesAppend(fields, n - 1);
      assert Picked(fields, n, fieldMap) == Picked(fields, n - 1, fieldMap)[name := Some(fieldMap[name])];
    } else {
      assert Names(fields[..0]) == {};
      assert Picked(fields, 0, fieldMap) == map[];
    }
  }

  /** When every field of a table has been read, the object has just those values. */
  lemma ObjectOfAll(fields: seq<Field>, pos: nat, data: seq<Byte>, end: nat, fieldMap: FieldMap, attrs: Attrs)
    requires DeserializeFields(fields, 0, map[], pos, data) == Parsed(end, fieldMap)
    requires fieldMap.Keys == Names(fields) == attrs.Keys
    requires forall name :: name in attrs ==> attrs[name] == Some(fieldMap[name])
    ensures Deserialize(Record(fields), pos, data) == Parsed(end, Obj(attrs))
  {
    ConstructAll(fields, |fields|, fieldMap);
    assert fields[..|fields|] == fields;
    assert Picked(fields, |fields|, fieldMap) == attrs;
  }

  lemma AttributeNames()
    ensures Names(ATTRIBUTE_FIELDS) == {"key", "value"}
  {
    assert ATTRIBUTE_FIELDS[0].name == "key" && ATTRIBUTE_FIELDS[1].name == "value";
  }

  /** One unpack of eight bytes reads what two uint32 fields read, and fails on the same input. */
  lemma ReadAttributeIsGeneric(pos: nat, data: seq<Byte>)
    ensures ReadAttribute(pos, data) == Deserialize(ATTRIBUTE, pos, data)
  {
    PlainFieldRead(ATTRIBUTE_FIELDS, 0, map[], pos, data);
    if pos + 4 <= |data| {
      var key := Num(FromLittleEndian(data[pos..pos + 4]));
      PlainFieldRead(ATTRIBUTE_FIELDS, 1, map["key" := key], pos + 4, data);
      if pos + 8 <= |data| {
        var value := Num(FromLittleEndian(data[pos + 4..pos + 8]));
        var fieldMap := map["key" := key, "value" := value];
        assert map["key" := key]["value" := value] == fieldMap;
        AttributeNames();
        ObjectOfAll(ATTRIBUTE_FIELDS, pos, data, pos + 8, fieldMap, ReadAttribute(pos, data).value.attrs);
      }
    }
  }

  lemma {:induction false} ReadAllIsGeneric(
      read: (nat, seq<Byte>) -> Parsed<Value>, element: FieldType, n: nat, pos: nat, data: seq<Byte>)
    requires forall p: nat :: read(p, data) == Deserialize(element, p, data)
    ensures ReadAll(read, n, pos, data) == DeserializeItems(element, n, pos, data)
  {
    if n > 0 {
      var item := read(pos, data);
      if item.Parsed? {
        ReadAllIsGeneric(read, element, n - 1, item.pos, data);
      }
    }
  }

  lemma ReadArrayIsGeneric(
      read: (nat, seq<Byte>) -> Parsed<Value>, element: FieldType, pos: nat, data: seq<Byte>)
    requires forall p: nat :: read(p, data) == Deserialize(element, p, data)
    ensures ReadArray(read, pos, data) == Deserialize(Array(element), pos, data)
  {
    var n := ReadUInt(4, pos, data);
    if n.Some? {
      ReadAllIsGeneric(read, element, n.value, pos + 4, data);
    }
  }

  lemma FileDataNames()
    ensures Names(FILE_DATA_FIELDS) == {"unknown", "filename", "filesize", "extension", "attributes"}
  {
    var f := FILE_DATA_FIELDS;
    assert f[0].name == "unknown" && f[1].name == "filename" && f[2].name == "filesize";
    assert f[3].name == "extension" && f[4].name == "attributes";
  }

  /** Four of the five fields have been read; the attribute list is the last one. */
  lemma ReadFileDataLast(
      pos: nat, data: seq<Byte>, last: nat, unknown: Value, filename: Value, filesize: Value, extension: Value)
    requires DeserializeFields(FILE_DATA_FIELDS, 0, map[], pos, data)
          == DeserializeFields(
               FILE_DATA_FIELDS, 4,
               map["unknown" := unknown, "filename" := filename, "filesize" := filesize, "extension" := extension],
               last, data)
    ensures Deserialize(FILE_DATA, pos, data) ==
            match ReadArray(ReadAttribute, last, data)
            case Failed => Failed
            case Parsed(end, attributes) =>
              Parsed(end, Obj(map[
                "unknown" := Some(unknown), "filename" := Some(filename), "filesize" := Some(filesize),
                "extension" := Some(extension), "attributes" := Some(attributes)]))
  {
    var four := map["unknown" := unknown, "filename" := filename, "filesize" := filesize, "extension" := extension];
    PlainFieldRead(FILE_DATA_FIELDS, 4, four, last, data);
    forall p: nat ensures ReadAttribute(p, data) == Deserialize(ATTRIBUTE, p, data) {
      ReadAttributeIsGeneric(p, data);
    }
    ReadArrayIsGeneric(ReadAttribute, ATTRIBUTE, last, data);
    var r := ReadArray(ReadAttribute, last, data);
    if r.Parsed? {
      var five := four["attributes" := r.value];
      FileDataNames();
      ObjectOfAll(FILE_DATA_FIELDS, pos, data, r.pos, five, map[
        "unknown" := Some(unknown), "filename" := Some(filename), "filesize" := Some(filesize),
        "extension" := Some(extension), "attributes" := Some(r.value)]);
    }
  }

  lemma ReadFileDataIsGeneric(pos: nat, data: seq<Byte>)
    ensures ReadFileData(pos, data) == Deserialize(FILE_DATA, pos, data)
  {
    var fields := FILE_DATA_FIELDS;
    PlainFieldRead(fields, 0, map[], pos, data);
    var u := Deserialize(UInt(1), pos, data);
    if u.Parsed? {
      var one := map["unknown" := u.value];
      PlainFieldRead(fields, 1, one, u.pos, data);
      var n := Deserialize(Str, u.pos, data);
      if n.Parsed? {
        var two := one["filename" := n.value];
        PlainFieldRead(fields, 2, two, n.pos, data);
        var s := Deserialize(UInt(8), n.pos, data);
        if s.Parsed? {
          var three := two["filesize" := s.value];
          PlainFieldRead(fields, 3, three, s.pos, data);
          var e := Deserialize(Str, s.pos, data);
          if e.Parsed? {
            ReadFileDataLast(pos, data, e.pos, u.value, n.value, s.value, e.value);
          }
        }
      }
    }
  }

  lemma DirectoryDataNames()
    ensures Names(DIRECTORY_DATA_FIELDS) == {"name", "files"}
  {
    assert DIRECTORY_DATA_FIELDS[0].name == "name" && DIRECTORY_DATA_FIELDS[1].name == "files";
  }

  lemma ReadDirectoryDataIsGeneric(pos: nat, data: seq<Byte>)
    ensures ReadDirectoryData(pos, data) == Deserialize(DIRECTORY_DATA, pos, data)
  {
    PlainFieldRead(DIRECTORY_DATA_FIELDS, 0, map[], pos, data);
    var n := Deserialize(Str, pos, data);
    if n.Parsed? {
      var one := map["name" := n.value];
      PlainFieldRead(DIRECTORY_DATA_FIELDS, 1, one, n.pos, data);
      forall p: nat ensures ReadFileData(p, data) == Deserialize(FILE_DATA, p, data) {
        ReadFileDataIsGeneric(p, data);
      }
      ReadArrayIsGeneric(ReadFileData, FILE_DATA, n.pos, data);
      var r := ReadArray(ReadFileData, n.pos, data);
      if r.Parsed? {
        DirectoryDataNames();
        ObjectOfAll(DIRECTORY_DATA_FIELDS, pos, data, r.pos, one["files" := r.value],
          map["name" := Some(n.value), "files" := Some(r.value)]);
      }
    }
  }

  // ---------------------------------------------------------------- writing

  /** str(None) */
  const NONE_TEXT: seq<Byte> := [78, 111, 110, 101]

  lemma NoneText()
    ensures |NONE_TEXT| == |"None"| && forall i :: 0 <= i < |NONE_TEXT| ==> NONE_TEXT[i] == "None"[i] as int
  {
  }

  /** The bytes of an attribute: None is spelled where a string is written, and raises where a number is. */
  function WriteField(t: FieldType, name: string, attrs: Attrs): Option<seq<Byte>>
  {
    if name !in attrs then None
    else match attrs[name]
      case Some(v) => Serialize(t, v)
      case None => if t == Str then Serialize(Str, Bytes(NONE_TEXT)) else None
  }

  /** Attribute.serialize_into: one pack of two uint32. */
  function WriteAttribute(v: Value): Option<seq<Byte>>
  {
    if v.Obj? then Join(WriteField(UInt(4), "key", v.attrs), WriteField(UInt(4), "value", v.attrs)) else None
  }

  /** array.serialize_into over any element writer. */
  function WriteAll(write: Value -> Option<seq<Byte>>, items: seq<Value>, i: nat): Option<seq<Byte>>
    requires i <= |items|
    decreases |items| - i
  {
    if i == |items| then Some([]) else Join(write(items[i]), WriteAll(write, items, i + 1))
  }

  function WriteArray(write: Value -> Option<seq<Byte>>, name: string, attrs: Attrs): Option<seq<Byte>>
  {
    if name in attrs && attrs[name].Some? && attrs[name].value.List? && |attrs[name].value.items| < Pow256(4)
    then Join(Some(LengthPrefix(|attrs[name].value.items|)), WriteAll(write, attrs[name].value.items, 0))
    else None
  }

  /** FileData.serialize_into */
  function WriteFileData(v: Value): Option<seq<Byte>>
  {
    if !v.Obj? then None
    else
      Join(WriteField(UInt(1), "unknown", v.attrs),
      Join(WriteField(Str, "filename", v.attrs),
      Join(WriteField(UInt(8), "filesize", v.attrs),
      Join(WriteField(Str, "extension", v.attrs),
           WriteArray(WriteAttribute, "attributes", v.attrs)))))
  }

  /** DirectoryData.serialize */
  function WriteDirectoryData(v: Value): Option<seq<Byte>>
  {
    if v.Obj? then Join(WriteField(Str, "name", v.attrs), WriteArray(WriteFileData, "files", v.attrs)) else None
  }

  /** No attribute of the object is None, nor, for the types in use, of an object in its lists. */
  predicate Complete(t: FieldType, v: Value)
    decreases t, 0
  {
    match t
    case Array(element) => v.List? && CompleteItems(element, v.items, 0)
    case Record(fields) => v.Obj? && CompleteFields(fields, 0, v.attrs)
    case _ => true
  }

  predicate CompleteItems(element: FieldType, items: seq<Value>, i: nat)
    requires i <= |items|
    decreases element, 1 + |items| - i
  {
    i < |items| ==> Complete(element, items[i]) && CompleteItems(element, items, i + 1)
  }

  predicate CompleteFields(fields: seq<Field>, k: nat, attrs: Attrs)
    requires k <= |fields|
    decreases fields, 1 + |fields| - k
  {
    k < |fields| ==>
      && fields[k].name in attrs && attrs[fields[k].name].Some?
      && Complete(fields[k].typ, attrs[fields[k].name].value)
      && CompleteFields(fields, k + 1, attrs)
  }

  /** A table without optional and conditional fields */
  predicate AllPlain(t: FieldType)
  {
    match t
    case Array(element) => AllPlain(element)
    case Record(fields) =>
      forall i :: 0 <= i < |fields| ==> fields[i] == Plain(fields[i].name, fields[i].typ) && AllPlain(fields[i].typ)
    case _ => true
  }

  /** Serialization that leaves nothing out: what the hand-written writers are to return. */
  function Demanded(t: FieldType, v: Value): Option<seq<Byte>>
    decreases t, 0
  {
    match t
    case Array(element) =>
      if v.List? && |v.items| < Pow256(4)
      then Join(Some(LengthPrefix(|v.items|)), DemandedItems(element, v.items, 0)) else None
    case Record(fields) => if v.Obj? then DemandedFields(fields, 0, v.attrs) else None
    case _ => Serialize(t, v)
  }

  function DemandedItems(element: FieldType, items: seq<Value>, i: nat): Option<seq<Byte>>
    requires i <= |items|
    decreases element, 1 + |items| - i
  {
    if i == |items| then Some([]) else Join(Demanded(element, items[i]), DemandedItems(element, items, i + 1))
  }

  function DemandedFields(fields: seq<Field>, k: nat, attrs: Attrs): Option<seq<Byte>>
    requires k <= |fields|
    decreases fields, 1 + |fields| - k
  {
    if k == |fields| then Some([]) else Join(DemandedField(fields[k], attrs), DemandedFields(fields, k + 1, attrs))
  }

  function DemandedField(f: Field, attrs: Attrs): Option<seq<Byte>>
    decreases f, 0
  {
    if f.name in attrs && attrs[f.name].Some? then Demanded(f.typ, attrs[f.name].value)
    else if f.name in attrs && f.typ == Str then Serialize(Str, Bytes(NONE_TEXT))
    else None
  }

  /** a is what the generic codec writes, b what is demanded; where something was left out b is longer. */
  predicate Fits(a: Option<seq<Byte>>, b: Option<seq<Byte>>, complete: bool)
  {
    (complete ==> b == a) && (!complete && a.Some? && b.Some? ==> |b.value| > |a.value|)
  }

  lemma JoinFits(a: Option<seq<Byte>>, b: Option<seq<Byte>>, ok: bool, a': Option<seq<Byte>>, b': Option<seq<Byte>>, ok': bool)
    requires Fits(a, b, ok) && Fits(a', b', ok')
    ensures Fits(Join(a, a'), Join(b, b'), ok && ok')
  {
  }

  lemma {:induction false} DemandedFits(t: FieldType, v: Value)
    requires AllPlain(t)
    ensures Fits(Serialize(t, v), Demanded(t, v), Complete(t, v))
    decreases t, 0
  {
    match t
    case Array(element) => if v.List? && |v.items| < Pow256(4) {
      var prefix := Some(LengthPrefix(|v.items|));
      ItemsFit(element, v.items, 0);
      JoinFits(prefix, prefix, true,
               SerializeItems(element, v.items, 0), DemandedItems(element, v.items, 0), CompleteItems(element, v.items, 0));
    }
    case Record(fields) => if v.Obj? { FieldsFit(fields, 0, v.attrs); }
    case _ =>
  }

  lemma {:induction false} ItemsFit(element: FieldType, items: seq<Value>, i: nat)
    requires AllPlain(element) && i <= |items|
    ensures Fits(SerializeItems(element, items, i), DemandedItems(element, items, i), CompleteItems(element, items, i))
    decreases element, 1 + |items| - i
  {
    if i < |items| {
      DemandedFits(element, items[i]);
      ItemsFit(element, items, i + 1);
      JoinFits(Serialize(element, items[i]), Demanded(element, items[i]), Complete(element, items[i]),
               SerializeItems(element, items, i + 1), DemandedItems(element, items, i + 1), CompleteItems(element, items, i + 1));
    }
  }

  predicate CompleteField(f: Field, attrs: Attrs)
  {
    f.name in attrs && attrs[f.name].Some? && Complete(f.typ, attrs[f.name].value)
  }

  lemma {:induction false} FieldsFit(fields: seq<Field>, k: nat, attrs: Attrs)
    requires AllPlain(Record(fields)) && k <= |fields|
    ensures Fits(SerializeFields(fields, k, attrs), DemandedFields(fields, k, attrs), CompleteFields(fields, k, attrs))
    decreases fields, 1 + |fields| - k
  {
    if k < |fields| {
      FieldFits(fields[k], attrs);
      FieldsFit(fields, k + 1, attrs);
      JoinFits(SerializeField(fields[k], attrs), DemandedField(fields[k], attrs), CompleteField(fields[k], attrs),
               SerializeFields(fields, k + 1, attrs), DemandedFields(fields, k + 1, attrs), CompleteFields(fields, k + 1, attrs));
    }
  }

  lemma {:induction false} FieldFits(f: Field, attrs: Attrs)
    requires f == Plain(f.name, f.typ) && AllPlain(f.typ)
    ensures Fits(SerializeField(f, attrs), DemandedField(f, attrs), CompleteField(f, attrs))
    decreases f, 0
  {
    if f.name in attrs {
      if attrs[f.name].Some? {
        DemandedFits(f.typ, attrs[f.name].value);
      }
    }
  }

  /**
   The hand-written writers and the field-driven one, which leaves out what is None, write the same exactly
   when nothing is None; a None that is not text raises in the hand-written ones.
   */
  lemma DemandedExactly(t: FieldType, v: Value)
    requires AllPlain(t) && Serialize(t, v).Some?
    ensures Demanded(t, v) == Serialize(t, v) <==> Complete(t, v)
  {
    DemandedFits(t, v);
  }

  lemma DemandedEnd(fields: seq<Field>, attrs: Attrs)
    ensures DemandedFields(fields, |fields|, attrs) == Some([])
  {
  }

  lemma JoinNothing(a: Option<seq<Byte>>)
    ensures Join(a, Some([])) == a
  {
    if a.Some? {
      assert a.value + [] == a.value;
    }
  }

  lemma OneMoreField(fields: seq<Field>, k: nat, attrs: Attrs)
    requires k < |fields|
    ensures DemandedFields(fields, k, attrs) == Join(DemandedField(fields[k], attrs), DemandedFields(fields, k + 1, attrs))
  {
  }

  /** The three tables, from the inside out */
  lemma TablesArePlain()
    ensures AllPlain(ATTRIBUTE) && AllPlain(FILE_DATA) && AllPlain(DIRECTORY_DATA)
  {
    assert AllPlain(ATTRIBUTE) && AllPlain(Array(ATTRIBUTE));
    assert AllPlain(FILE_DATA) && AllPlain(Array(FILE_DATA));
  }

  lemma WriteAttributeIsDemanded(v: Value)
    ensures WriteAttribute(v) == Demanded(ATTRIBUTE, v)
  {
    if v.Obj? {
      OneMoreField(ATTRIBUTE_FIELDS, 0, v.attrs);
      OneMoreField(ATTRIBUTE_FIELDS, 1, v.attrs);
      DemandedEnd(ATTRIBUTE_FIELDS, v.attrs);
      JoinNothing(WriteField(UInt(4), "value", v.attrs));
    }
  }

  lemma WriteAttributeIsGeneric(v: Value)
    ensures WriteAttribute(v) == Demanded(ATTRIBUTE, v)
    ensures Serialize(ATTRIBUTE, v).Some? ==> (WriteAttribute(v) == Serialize(ATTRIBUTE, v) <==> Complete(ATTRIBUTE, v))
  {
    WriteAttributeIsDemanded(v);
    TablesArePlain();
    if Serialize(ATTRIBUTE, v).Some? { DemandedExactly(ATTRIBUTE, v); }
  }

  lemma {:induction false} WriteAllIsGeneric(
      write: Value -> Option<seq<Byte>>, element: FieldType, items: seq<Value>, i: nat)
    requires i <= |items| && forall v :: write(v) == Demanded(element, v)
    ensures WriteAll(write, items, i) == DemandedItems(element, items, i)
    decreases |items| - i
  {
    if i < |items| {
      WriteAllIsGeneric(write, element, items, i + 1);
      assert write(items[i]) == Demanded(element, items[i]);
    }
  }

  lemma WriteArrayIsGeneric(
      write: Value -> Option<seq<Byte>>, element: FieldType, name: string, attrs: Attrs)
    requires forall v :: write(v) == Demanded(element, v)
    ensures WriteArray(write, name, attrs) ==
            if name in attrs && attrs[name].Some? then Demanded(Array(element), attrs[name].value) else None
  {
    if name in attrs && attrs[name].Some? && attrs[name].value.List? {
      WriteAllIsGeneric(write, element, attrs[name].value.items, 0);
    }
  }

  lemma FileFields(attrs: Attrs)
    ensures DemandedFields(FILE_DATA_FIELDS, 0, attrs) ==
            Join(DemandedField(Plain("unknown", UInt(1)), attrs),
            Join(DemandedField(Plain("filename", Str), attrs),
            Join(DemandedField(Plain("filesize", UInt(8)), attrs),
            Join(DemandedField(Plain("extension", Str), attrs),
                 DemandedField(Plain("attributes", Array(ATTRIBUTE)), attrs)))))
  {
    OneMoreField(FILE_DATA_FIELDS, 0, attrs);
    OneMoreField(FILE_DATA_FIELDS, 1, attrs);
    OneMoreField(FILE_DATA_FIELDS, 2, attrs);
    OneMoreField(FILE_DATA_FIELDS, 3, attrs);
    OneMoreField(FILE_DATA_FIELDS, 4, attrs);
    DemandedEnd(FILE_DATA_FIELDS, attrs);
    JoinNothing(DemandedField(Plain("attributes", Array(ATTRIBUTE)), attrs));
  }

  lemma WriteAttributesIsDemanded(attrs: Attrs)
    ensures WriteArray(WriteAttribute, "attributes", attrs) == DemandedField(Plain("attributes", Array(ATTRIBUTE)), attrs)
  {
    forall a ensures WriteAttribute(a) == Demanded(ATTRIBUTE, a) {
      WriteAttributeIsDemanded(a);
    }
    WriteArrayIsGeneric(WriteAttribute, ATTRIBUTE, "attributes", attrs);
  }

  lemma WriteFileDataIsDemanded(v: Value)
    ensures WriteFileData(v) == Demanded(FILE_DATA, v)
  {
    if v.Obj? {
      FileFields(v.attrs);
      WriteAttributesIsDemanded(v.attrs);
    }
  }

  lemma WriteFileDataIsGeneric(v: Value)
    ensures WriteFileData(v) == Demanded(FILE_DATA, v)
    ensures Serialize(FILE_DATA, v).Some? ==> (WriteFileData(v) == Serialize(FILE_DATA, v) <==> Complete(FILE_DATA, v))
  {
    WriteFileDataIsDemanded(v);
    TablesArePlain();
    if Serialize(FILE_DATA, v).Some? { DemandedExactly(FILE_DATA, v); }
  }

  lemma WriteFilesIsDemanded(attrs: Attrs)
    ensures WriteArray(WriteFileData, "files", attrs) == DemandedField(Plain("files", Array(FILE_DATA)), attrs)
  {
    forall f ensures WriteFileData(f) == Demanded(FILE_DATA, f) {
      WriteFileDataIsDemanded(f);
    }
    WriteArrayIsGeneric(WriteFileData, FILE_DATA, "files", attrs);
  }

  lemma WriteDirectoryDataIsDemanded(v: Value)
    ensures WriteDirectoryData(v) == Demanded(DIRECTORY_DATA, v)
  {
    if v.Obj? {
      OneMoreField(DIRECTORY_DATA_FIELDS, 0, v.attrs);
      OneMoreField(DIRECTORY_DATA_FIELDS, 1, v.attrs);
      DemandedEnd(DIRECTORY_DATA_FIELDS, v.attrs);
      WriteFilesIsDemanded(v.attrs);
      JoinNothing(WriteArray(WriteFileData, "files", v.attrs));
    }
  }

  lemma WriteDirectoryDataIsGeneric(v: Value)
    ensures WriteDirectoryData(v) == Demanded(DIRECTORY_DATA, v)
    ensures Serialize(DIRECTORY_DATA, v).Some? ==>
              (WriteDirectoryData(v) == Serialize(DIRECTORY_DATA, v) <==> Complete(DIRECTORY_DATA, v))
  {
    WriteDirectoryDataIsDemanded(v);
    TablesArePlain();
    if Serialize(DIRECTORY_DATA, v).Some? { DemandedExactly(DIRECTORY_DATA, v); }
  }
}
