/**
 Messages of protocol/messages.py: the field tables with optional or conditional fields, the message
 header, and the dispatch of received data to a message class by its ID.
 */
module Messages {

  import opened Wrappers
  import opened Primitives
  import opened RoundTrips
  import opened FastCodecs

  // ---------------------------------------------------------------- field tables

  /** An optional field; default is what a missing one is given. */
  function Optional(name: string, typ: FieldType, default: Option<Value>): Field
  {
    Field(name, typ, None, None, true, Some(default))
  }

  function IfTrue(name: string, typ: FieldType, condition: string): Field
  {
    Field(name, typ, Some(condition), None, false, Some(None))
  }

  function IfFalse(name: string, typ: FieldType, condition: string): Field
  {
    Field(name, typ, None, Some(condition), false, Some(None))
  }

  const USER_STATS := Record([
    Plain("avg_speed", UInt(4)), Plain("uploads", UInt(8)), Plain("shared_file_count", UInt(4)),
    Plain("shared_folder_count", UInt(4))])

  const LOGIN_RESPONSE := [
    Plain("success", Boolean), IfTrue("greeting", Str, "success"), IfTrue("ip", IpAddr, "success"),
    IfTrue("md5hash", Str, "success"), IfTrue("privileged", Boolean, "success"),
    IfFalse("reason", Str, "success")]

  const SET_LISTEN_PORT_REQUEST := [
    Plain("port", UInt(4)), Optional("obfuscated_port_amount", UInt(4), None),
    Optional("obfuscated_port", UInt(4), None)]

  const GET_PEER_ADDRESS_RESPONSE := [
    Plain("username", Str), Plain("ip", IpAddr), Plain("port", UInt(4)),
    Optional("obfuscated_port_amount", UInt(4), None), Optional("obfuscated_port", UInt(2), None)]

  const ADD_USER_RESPONSE := [
    Plain("username", Str), Plain("exists", Boolean), IfTrue("status", UInt(4), "exists"),
    IfTrue("user_stats", USER_STATS, "exists"),
    Field("country_code", Str, Some("exists"), None, true, Some(None))]

  const JOIN_ROOM_REQUEST := [Plain("room", Str), Optional("is_private", UInt(4), Some(Num(0)))]

  const JOIN_ROOM_RESPONSE := [
    Plain("room", Str), Plain("users", Array(Str)), Plain("users_status", Array(UInt(4))),
    Plain("users_stats", Array(USER_STATS)), Plain("users_slots_free", Array(UInt(4))),
    Plain("users_countries", Array(Str)), Optional("owner", Str, None), Optional("operators", Array(Str), None)]

  const PRIVATE_CHAT_MESSAGE_RESPONSE := [
    Plain("chat_id", UInt(4)), Plain("timestamp", UInt(4)), Plain("username", Str), Plain("message", Str),
    Optional("is_direct", Boolean, Some(Num(0)))]

  const CONNECT_TO_PEER_RESPONSE := [
    Plain("username", Str), Plain("typ", Str), Plain("ip", IpAddr), Plain("port", UInt(4)), Plain("ticket", UInt(4)),
    Plain("privileged", Boolean), Optional("obfuscated_port_amount", UInt(4), None),
    Optional("obfuscated_port", UInt(4), None)]

  const PEER_SHARES_REQUEST := [Optional("ticket", UInt(4), None)]

  const PEER_SEARCH_REPLY := [
    Plain("username", Str), Plain("ticket", UInt(4)), Plain("results", Array(FILE_DATA)),
    Plain("has_slots_free", Boolean), Plain("avg_speed", UInt(4)), Plain("queue_size", UInt(4)),
    Field("unknown", UInt(4), None, None, false, Some(Some(Num(0)))),
    Optional("locked_results", Array(FILE_DATA), None)]

  const PEER_SHARES_REPLY := [
    Plain("directories", Array(DIRECTORY_DATA)),
    Field("unknown", UInt(4), None, None, false, Some(Some(Num(0)))),
    Optional("locked_directories", Array(DIRECTORY_DATA), None)]

  const PEER_USER_INFO_REPLY := [
    Plain("description", Str), Plain("has_picture", Boolean), IfTrue("picture", Bytearr, "has_picture"),
    Field("upload_slots", UInt(4), None, None, false, Some(Some(Num(0)))),
    Field("queue_size", UInt(4), None, None, false, Some(Some(Num(0)))),
    Field("has_slots_free", Boolean, None, None, false, Some(Some(Num(0)))),
    Optional("upload_permissions", UInt(4), None)]

  const PEER_TRANSFER_REQUEST := [
    Plain("direction", UInt(4)), Plain("ticket", UInt(4)), Plain("filename", Str),
    Optional("filesize", UInt(8), None)]

  const PEER_TRANSFER_REPLY := [
    Plain("ticket", UInt(4)), Plain("allowed", Boolean),
    Field("filesize", UInt(8), Some("allowed"), None, true, Some(None)),
    Field("reason", Str, None, Some("allowed"), true, Some(None))]

  lemma RecordTypesWellFormed()
    ensures WellFormedType(USER_STATS) && WellFormedType(ATTRIBUTE)
  {
    PlainTableWellFormed(USER_STATS.fields);
    PlainTableWellFormed(ATTRIBUTE_FIELDS);
  }

  lemma PlainTableWellFormed(fields: seq<Field>)
    requires fields != [] && DistinctNames(fields)
    requires forall i :: 0 <= i < |fields| ==>
      fields[i] == Plain(fields[i].name, fields[i].typ) && WellFormedType(fields[i].typ)
    ensures WellFormedType(Record(fields))
  {
  }

  lemma DirectoryDataWellFormed()
    ensures WellFormedType(FILE_DATA) && WellFormedType(DIRECTORY_DATA)
  {
    RecordTypesWellFormed();
    PlainTableWellFormed(FILE_DATA_FIELDS);
    PlainTableWellFormed(DIRECTORY_DATA_FIELDS);
  }

  lemma LoginResponseWellFormed()
    ensures WellFormedFields(LOGIN_RESPONSE)
  {
    assert Unconditional(LOGIN_RESPONSE[0]) && LOGIN_RESPONSE[0].name == "success";
  }

  lemma SetListenPortWellFormed()
    ensures WellFormedFields(SET_LISTEN_PORT_REQUEST)
  {
  }

  lemma GetPeerAddressWellFormed()
    ensures WellFormedFields(GET_PEER_ADDRESS_RESPONSE)
  {
  }

  lemma ConnectToPeerWellFormed()
    ensures WellFormedFields(CONNECT_TO_PEER_RESPONSE)
  {
  }

  lemma PeerSearchReplyWellFormed()
    ensures WellFormedFields(PEER_SEARCH_REPLY)
  {
    DirectoryDataWellFormed();
    var fields := PEER_SEARCH_REPLY;
    assert WellFormedType(fields[2].typ) && WellFormedType(fields[7].typ);
  }

  lemma AddUserWellFormed()
    ensures WellFormedFields(ADD_USER_RESPONSE)
  {
    var fields := ADD_USER_RESPONSE;
    RecordTypesWellFormed();
    assert Unconditional(fields[1]) && fields[1].name == "exists";
    assert WellFormedField(fields, 2) && WellFormedField(fields, 3) && WellFormedField(fields, 4);
  }

  lemma JoinRoomWellFormed()
    ensures WellFormedFields(JOIN_ROOM_REQUEST)
  {
    assert Canonical(UInt(4), Num(0));
  }

  lemma JoinRoomResponseWellFormed()
    ensures WellFormedFields(JOIN_ROOM_RESPONSE)
  {
    RecordTypesWellFormed();
    var fields := JOIN_ROOM_RESPONSE;
    assert WellFormedType(fields[1].typ) && WellFormedType(fields[2].typ) && WellFormedType(fields[3].typ);
    assert WellFormedType(fields[4].typ) && WellFormedType(fields[5].typ) && WellFormedType(fields[7].typ);
  }

  lemma PrivateChatMessageWellFormed()
    ensures WellFormedFields(PRIVATE_CHAT_MESSAGE_RESPONSE)
  {
    assert Canonical(Boolean, Num(0));
  }

  lemma PeerSharesReplyWellFormed()
    ensures WellFormedFields(PEER_SHARES_REPLY)
  {
    DirectoryDataWellFormed();
  }

  lemma PeerUserInfoReplyWellFormed()
    ensures WellFormedFields(PEER_USER_INFO_REPLY)
  {
    assert Unconditional(PEER_USER_INFO_REPLY[1]) && PEER_USER_INFO_REPLY[1].name == "has_picture";
  }

  lemma PeerTransferWellFormed()
    ensures WellFormedFields(PEER_TRANSFER_REQUEST) && WellFormedFields(PEER_TRANSFER_REPLY)
  {
    assert Unconditional(PEER_TRANSFER_REPLY[1]) && PEER_TRANSFER_REPLY[1].name == "allowed";
  }

  /**
   Where the codec does lose something: an absent optional field with a present one behind it. For every
   port and obfuscated port, the reader takes the port for the amount.
   */
  lemma AbsentOptionalShiftsTheNext(port: nat, obfuscatedPort: nat)
    requires port < Pow256(4) && obfuscatedPort < Pow256(4)
    ensures var fields := SET_LISTEN_PORT_REQUEST;
            var sent := map["port" := Some(Num(port)), "obfuscated_port_amount" := None,
                            "obfuscated_port" := Some(Num(obfuscatedPort))];
            && SerializeFields(fields, 0, sent).Some?
            && DeserializeObject(fields, 0, SerializeFields(fields, 0, sent).value) ==
               Parsed(8, map["port" := Some(Num(port)), "obfuscated_port_amount" := Some(Num(obfuscatedPort)),
                             "obfuscated_port" := None])
  {
    var bytes := LittleEndian(port, 4) + LittleEndian(obfuscatedPort, 4);
    PortsWritten(port, obfuscatedPort);
    PortsRead(port, obfuscatedPort, bytes);
  }

  lemma PortsWritten(port: nat, obfuscatedPort: nat)
    requires port < Pow256(4) && obfuscatedPort < Pow256(4)
    ensures SerializeFields(SET_LISTEN_PORT_REQUEST, 0,
              map["port" := Some(Num(port)), "obfuscated_port_amount" := None,
                  "obfuscated_port" := Some(Num(obfuscatedPort))]) ==
            Some(LittleEndian(port, 4) + LittleEndian(obfuscatedPort, 4))
  {
    var fields := SET_LISTEN_PORT_REQUEST;
    var sent := map["port" := Some(Num(port)), "obfuscated_port_amount" := None,
                    "obfuscated_port" := Some(Num(obfuscatedPort))];
    var last := LittleEndian(obfuscatedPort, 4);
    assert SerializeFields(fields, 3, sent) == Some([]);
    assert SerializeFields(fields, 2, sent) == Some(last + []);
    assert SerializeFields(fields, 1, sent) == Some([] + (last + []));
    assert [] + (last + []) == last;
  }

  lemma PortsRead(port: nat, obfuscatedPort: nat, bytes: seq<Byte>)
    requires port < Pow256(4) && obfuscatedPort < Pow256(4)
    requires bytes == LittleEndian(port, 4) + LittleEndian(obfuscatedPort, 4)
    ensures DeserializeObject(SET_LISTEN_PORT_REQUEST, 0, bytes) ==
            Parsed(8, map["port" := Some(Num(port)), "obfuscated_port_amount" := Some(Num(obfuscatedPort)),
                          "obfuscated_port" := None])
  {
    var fields := SET_LISTEN_PORT_REQUEST;
    assert bytes[0..4] == LittleEndian(port, 4) && bytes[4..8] == LittleEndian(obfuscatedPort, 4);
    LittleEndianRoundTrip(port, 4);
    LittleEndianRoundTrip(obfuscatedPort, 4);
    var one: FieldMap := map["port" := Num(port)];
    var two: FieldMap := map["port" := Num(port), "obfuscated_port_amount" := Num(obfuscatedPort)];
    assert DeserializeField(fields[0], map[], 0, bytes) == Parsed(4, one);
    assert DeserializeField(fields[1], one, 4, bytes) == Parsed(8, two);
    assert DeserializeField(fields[2], two, 8, bytes) == Parsed(8, two);
    assert DeserializeFields(fields, 3, two, 8, bytes) == Parsed(8, two);
    assert DeserializeFields(fields, 2, two, 8, bytes) == Parsed(8, two);
    assert DeserializeFields(fields, 1, one, 4, bytes) == Parsed(8, two);
    PortsConstructed(port, obfuscatedPort, two);
  }

  lemma PortsConstructed(port: nat, obfuscatedPort: nat, fieldMap: FieldMap)
    requires fieldMap == map["port" := Num(port), "obfuscated_port_amount" := Num(obfuscatedPort)]
    ensures Construct(SET_LISTEN_PORT_REQUEST, 3, fieldMap) ==
            Some(map["port" := Some(Num(port)), "obfuscated_port_amount" := Some(Num(obfuscatedPort)),
                     "obfuscated_port" := None])
  {
    var fields := SET_LISTEN_PORT_REQUEST;
    assert Construct(fields, 0, fieldMap) == Some(map[]);
    assert Construct(fields, 1, fieldMap) == Some(map["port" := Some(Num(port))]);
    assert Construct(fields, 2, fieldMap) ==
      Some(map["port" := Some(Num(port)), "obfuscated_port_amount" := Some(Num(obfuscatedPort))]);
  }

  // ---------------------------------------------------------------- header and dispatch

  datatype MessageClass = MessageClass(idWidth: nat, id: nat, fields: seq<Field>)

  predicate WellFormedClass(c: MessageClass)
  {
    c.idWidth > 0 && c.id < Pow256(c.idWidth) && WellFormedFields(c.fields)
  }

  /** MessageDataclass.serialize, without compression. */
  function SerializeMessage(c: MessageClass, attrs: Attrs): Option<seq<Byte>>
  {
    match SerializeFields(c.fields, 0, attrs)
    case None => None
    case Some(body) =>
      if c.id < Pow256(c.idWidth) && c.idWidth + |body| < Pow256(4)
      then Some(LengthPrefix(c.idWidth + |body|) + (LittleEndian(c.id, c.idWidth) + body))
      else None
  }

  /** MessageDataclass.deserialize: bytes left over only cause a warning. */
  function DeserializeMessage(c: MessageClass, data: seq<Byte>): Option<Attrs>
  {
    if ReadUInt(4, 0, data).None? || ReadUInt(c.idWidth, 4, data) != Some(c.id) then None
    else
      match DeserializeObject(c.fields, 4 + c.idWidth, data)
      case Failed => None
      case Parsed(_, attrs) => Some(attrs)
  }

  datatype Received = Malformed | UnknownMessage(id: nat) | Message(index: nat, attrs: Attrs)

  /** The deserialize_request functions: the ID behind the length selects the first class that has it. */
  function Dispatch(classes: seq<MessageClass>, peekWidth: nat, data: seq<Byte>): Received
  {
    match ReadUInt(peekWidth, 4, data)
    case None => Malformed
    case Some(id) => DispatchFrom(classes, 0, id, data)
  }

  function DispatchFrom(classes: seq<MessageClass>, i: nat, id: nat, data: seq<Byte>): Received
    requires i <= |classes|
    decreases |classes| - i
  {
    if i == |classes| then UnknownMessage(id)
    else if classes[i].id == id then
      match DeserializeMessage(classes[i], data)
      case None => Malformed
      case Some(attrs) => Message(i, attrs)
    else DispatchFrom(classes, i + 1, id, data)
  }

  lemma MessageLayout(c: MessageClass, attrs: Attrs, data: seq<Byte>) returns (body: seq<Byte>)
    requires SerializeMessage(c, attrs) == Some(data)
    ensures SerializeFields(c.fields, 0, attrs) == Some(body)
    ensures |data| == 4 + c.idWidth + |body|
    ensures At(data, 0, LengthPrefix(c.idWidth + |body|)) && At(data, 4, LittleEndian(c.id, c.idWidth))
    ensures At(data, 4 + c.idWidth, body)
  {
    body := SerializeFields(c.fields, 0, attrs).value;
    var header := LittleEndian(c.id, c.idWidth);
    assert At(data, 0, data);
    AtSplit(data, 0, LengthPrefix(c.idWidth + |body|), header + body);
    AtSplit(data, 4, header, body);
  }

  /** A message that was written comes back if and only if it is canonical for its class. */
  lemma MessageRoundTripExactly(c: MessageClass, attrs: Attrs, data: seq<Byte>)
    requires WellFormedClass(c) && attrs.Keys == Names(c.fields) && SerializeMessage(c, attrs) == Some(data)
    ensures CanonicalFields(c.fields, 0, attrs) <==> DeserializeMessage(c, data) == Some(attrs)
  {
    var body := MessageLayout(c, attrs, data);
    ReadBack(c.idWidth + |body|, 4, 0, data);
    ReadBack(c.id, c.idWidth, 4, data);
    ObjectRoundTripExactly(c.fields, attrs, 4 + c.idWidth, body, data);
    if DeserializeMessage(c, data) == Some(attrs) {
      ObjectImage(c.fields, 4 + c.idWidth, data);
    }
  }

  /** The low bytes of a small number hold all of it. */
  lemma {:induction false} ReadLowBytes(n: nat, width: nat, peekWidth: nat, pos: nat, data: seq<Byte>)
    requires peekWidth <= width && n < Pow256(peekWidth) && At(data, pos, LittleEndian(n, width))
    ensures ReadUInt(peekWidth, pos, data) == Some(n)
  {
    LittleEndianPrefix(n, width, peekWidth);
    assert data[pos..pos + peekWidth] == LittleEndian(n, width)[..peekWidth];
    LittleEndianRoundTrip(n, peekWidth);
  }

  lemma {:induction false} LittleEndianPrefix(n: nat, width: nat, peekWidth: nat)
    requires peekWidth <= width
    ensures LittleEndian(n, width)[..peekWidth] == LittleEndian(n, peekWidth)
  {
    if peekWidth > 0 {
      LittleEndianPrefix(n / 256, width - 1, peekWidth - 1);
    }
  }

  /** The classes of one kind of connection: the peeked bytes tell them apart. */
  predicate WellFormedClasses(classes: seq<MessageClass>, peekWidth: nat)
  {
    && (forall i :: 0 <= i < |classes| ==>
      WellFormedClass(classes[i]) && peekWidth <= classes[i].idWidth && classes[i].id < Pow256(peekWidth))
    && forall i, j :: 0 <= i < j < |classes| ==> classes[i].id != classes[j].id
  }

  lemma {:induction false} DispatchFinds(classes: seq<MessageClass>, i: nat, k: nat, data: seq<Byte>)
    requires i <= k < |classes| && forall j :: i <= j < k ==> classes[j].id != classes[k].id
    ensures DispatchFrom(classes, i, classes[k].id, data) ==
            match DeserializeMessage(classes[k], data) case None => Malformed case Some(attrs) => Message(k, attrs)
    decreases k - i
  {
    if i < k {
      DispatchFinds(classes, i + 1, k, data);
    }
  }

  /** Dispatching a written message finds its class and its attributes, exactly when the attributes are canonical. */
  lemma DispatchRoundTripExactly(classes: seq<MessageClass>, peekWidth: nat, k: nat, attrs: Attrs, data: seq<Byte>)
    requires WellFormedClasses(classes, peekWidth) && k < |classes|
    requires attrs.Keys == Names(classes[k].fields) && SerializeMessage(classes[k], attrs) == Some(data)
    ensures CanonicalFields(classes[k].fields, 0, attrs) <==> Dispatch(classes, peekWidth, data) == Message(k, attrs)
  {
    var c := classes[k];
    var body := MessageLayout(c, attrs, data);
    ReadLowBytes(c.id, c.idWidth, peekWidth, 4, data);
    DispatchFinds(classes, 0, k, data);
    MessageRoundTripExactly(c, attrs, data);
  }

  /**
   The messages of a distributed connection. Their IDs are one byte wide except for the deprecated search
   request, whose four-byte ID is looked up by its first byte.
   */
  const DISTRIBUTED_MESSAGES := [
    MessageClass(1, 0x00, []),
    MessageClass(1, 0x01, [
      Plain("unknown1", UInt(4)), Plain("unknown2", UInt(4)), Plain("unknown3", UInt(1)), Plain("port", UInt(4))]),
    MessageClass(1, 0x03, [
      Plain("unknown", UInt(4)), Plain("username", Str), Plain("ticket", UInt(4)), Plain("query", Str)]),
    MessageClass(1, 0x04, [Plain("level", UInt(4))]),
    MessageClass(1, 0x05, [Plain("username", Str)]),
    MessageClass(1, 0x07, [Plain("depth", UInt(4))]),
    MessageClass(4, 0x5D, [
      Plain("distributed_code", UInt(1)), Plain("unknown", UInt(4)), Plain("username", Str),
      Plain("ticket", UInt(4)), Plain("query", Str)])]

  lemma DistributedClassWellFormed(i: nat)
    requires i < |DISTRIBUTED_MESSAGES|
    ensures WellFormedFields(DISTRIBUTED_MESSAGES[i].fields)
  {
    if i != 0 {
      PlainTableWellFormed(DISTRIBUTED_MESSAGES[i].fields);
    }
  }

  lemma DistributedMessagesWellFormed()
    ensures WellFormedClasses(DISTRIBUTED_MESSAGES, 1)
  {
    assert Pow256(1) == 256;
    Pow256Of4();
    forall i: nat | i < |DISTRIBUTED_MESSAGES| ensures WellFormedClass(DISTRIBUTED_MESSAGES[i]) {
      DistributedClassWellFormed(i);
    }
  }

  /** The messages between peers, with four-byte IDs; zlib around the payload of some of them is left out. */
  const PEER_MESSAGES := [
    MessageClass(4, 0x04, PEER_SHARES_REQUEST),
    MessageClass(4, 0x05, PEER_SHARES_REPLY),
    MessageClass(4, 0x09, PEER_SEARCH_REPLY),
    MessageClass(4, 0x0F, []),
    MessageClass(4, 0x10, PEER_USER_INFO_REPLY),
    MessageClass(4, 0x24, [Plain("ticket", UInt(4)), Plain("directory", Str)]),
    MessageClass(4, 0x25, [Plain("ticket", UInt(4)), Plain("directory", Str), Plain("directories", Array(DIRECTORY_DATA))]),
    MessageClass(4, 0x28, PEER_TRANSFER_REQUEST),
    MessageClass(4, 0x29, PEER_TRANSFER_REPLY),
    MessageClass(4, 0x2B, [Plain("filename", Str)]),
    MessageClass(4, 0x2C, [Plain("filename", Str), Plain("place", UInt(4))]),
    MessageClass(4, 0x2E, [Plain("filename", Str)]),
    MessageClass(4, 0x32, [Plain("filename", Str), Plain("reason", Str)]),
    MessageClass(4, 0x33, [Plain("filename", Str)]),
    MessageClass(4, 0x34, [])]

  lemma PeerClassWellFormed(i: nat)
    requires i < |PEER_MESSAGES|
    ensures WellFormedFields(PEER_MESSAGES[i].fields)
  {
    DirectoryDataWellFormed();
    PeerSharesReplyWellFormed();
    PeerSearchReplyWellFormed();
    PeerUserInfoReplyWellFormed();
    PeerTransferWellFormed();
    if i in {5, 6, 9, 10, 11, 12, 13} {
      PlainTableWellFormed(PEER_MESSAGES[i].fields);
    }
  }

  lemma PeerIds()
    ensures forall i, j :: 0 <= i < j < |PEER_MESSAGES| ==> PEER_MESSAGES[i].id < PEER_MESSAGES[j].id
    ensures forall i :: 0 <= i < |PEER_MESSAGES| ==> PEER_MESSAGES[i].idWidth == 4 && PEER_MESSAGES[i].id < 0x35
  {
  }

  lemma PeerMessagesWellFormed()
    ensures WellFormedClasses(PEER_MESSAGES, 4)
  {
    Pow256Of4();
    PeerIds();
    forall i: nat | i < |PEER_MESSAGES| ensures WellFormedClass(PEER_MESSAGES[i]) {
      PeerClassWellFormed(i);
    }
  }
}
