/** The bytes on the wire, written out: what a peer that knows nothing of this codec has to agree with. */
module WireFormat {

  import opened Wrappers
  import opened Primitives
  import opened Messages
  import opened RoundTrips
  import Obfuscation

  // ---------------------------------------------------------------- primitives

  /** Little-endian: the byte at position i has weight 256 to the power of i. */
  lemma {:induction false} LittleEndianAt(n: nat, width: nat, i: nat)
    requires i < width
    ensures Pow256(i) > 0 && LittleEndian(n, width)[i] == n / Pow256(i) % 256
  {
    if i > 0 {
      LittleEndianAt(n / 256, width - 1, i - 1);
      DivideTwice(n, Pow256(i - 1));
    }
  }

  lemma DivideTwice(n: nat, p: nat)
    requires p > 0
    ensures n / 256 / p == n / (256 * p)
  {
    var q, r := n / 256 / p, n / 256 % p;
    var whole, rest := 256 * p, 256 * r + n % 256;
    assert n / 256 == q * p + r;
    assert 256 * (q * p) == q * whole;
    Quotient(n, q, whole, rest);
  }

  lemma Quotient(n: nat, q: nat, whole: nat, rest: nat)
    requires rest < whole && n == q * whole + rest
    ensures n / whole == q
  {
    var d := n / whole - q;
    assert d * whole == n / whole * whole - q * whole;
    if d != 0 { Multiple(d, whole); }
  }

  lemma Multiple(d: int, whole: nat)
    requires d != 0
    ensures d * whole >= whole || d * whole + whole <= 0
  {
    if d > 0 {
      assert (d - 1) * whole >= 0;
    } else {
      assert (-d - 1) * whole >= 0;
    }
  }

  lemma Weights()
    ensures Pow256(0) == 1 && Pow256(1) == 0x100 && Pow256(2) == 0x1_0000 && Pow256(3) == 0x100_0000
  {
  }

  /** An IP address is written with its last number first, and read so. */
  lemma AddressOnWire(a: Byte, b: Byte, c: Byte, d: Byte, before: seq<Byte>, behind: seq<Byte>)
    ensures Serialize(IpAddr, Bytes([a, b, c, d])) == Some([d, c, b, a])
    ensures Deserialize(IpAddr, |before|, before + [d, c, b, a] + behind) == Parsed(|before| + 4, Bytes([a, b, c, d]))
  {
    var data := before + [d, c, b, a] + behind;
    assert data[|before|..|before| + 4] == [d, c, b, a];
    assert Reversed([a, b, c, d]) == [d, c, b, a] && Reversed([d, c, b, a]) == [a, b, c, d];
  }

  /** A boolean is one byte, 1 for true; every byte but 0 is read as true. */
  lemma BooleanOnWire(n: int, before: seq<Byte>, b: Byte, behind: seq<Byte>)
    ensures Serialize(Boolean, Num(n)) == Some([if n == 0 then 0 else 1])
    ensures Deserialize(Boolean, |before|, before + [b] + behind) == Parsed(|before| + 1, Num(if b == 0 then 0 else 1))
  {
    assert (before + [b] + behind)[|before|] == b;
  }

  /** Numbers are little-endian, negative ones in two's complement; strings and byte arrays follow their length. */
  lemma ScalarsOnWire(n: nat, width: nat, z: int, b: seq<Byte>)
    requires n < Pow256(width) && -0x8000_0000 <= z < 0x8000_0000 && |b| < 0x1_0000_0000
    ensures Serialize(UInt(width), Num(n)) == Some(LittleEndian(n, width))
    ensures Serialize(Int32, Num(z)) == Some(LittleEndian(if z >= 0 then z else 0x1_0000_0000 + z, 4))
    ensures Serialize(Str, Bytes(b)) == Some(LittleEndian(|b|, 4) + b)
    ensures Serialize(Bytearr, Bytes(b)) == Some(LittleEndian(|b|, 4) + b)
  {
    Pow256Of4();
  }

  /** What does not fit is not written at all. */
  lemma NotOnWire(n: int, width: nat, b: seq<Byte>, element: FieldType, items: seq<Value>)
    ensures Serialize(UInt(width), Num(n)) == None <==> n < 0 || n >= Pow256(width)
    ensures Serialize(Int32, Num(n)) == None <==> n < -0x8000_0000 || n >= 0x8000_0000
    ensures Serialize(Str, Bytes(b)) == None <==> |b| >= 0x1_0000_0000
    ensures Serialize(Bytearr, Bytes(b)) == None <==> |b| >= 0x1_0000_0000
    ensures Serialize(IpAddr, Bytes(b)) == None <==> |b| != 4
    ensures |items| >= 0x1_0000_0000 ==> Serialize(Array(element), List(items)) == None
  {
    Pow256Of4();
  }

  // ---------------------------------------------------------------- arrays

  function Flatten(parts: seq<seq<Byte>>): seq<Byte>
  {
    if parts == [] then [] else parts[0] + Flatten(parts[1..])
  }

  lemma {:induction false} ItemsOnWire(element: FieldType, items: seq<Value>, i: nat, parts: seq<seq<Byte>>)
    requires |parts| == |items| && forall k :: 0 <= k < |items| ==> Serialize(element, items[k]) == Some(parts[k])
    requires i <= |items|
    ensures SerializeItems(element, items, i) == Some(Flatten(parts[i..]))
    decreases |items| - i
  {
    if i < |items| {
      ItemsOnWire(element, items, i + 1, parts);
      assert parts[i..][0] == parts[i] && parts[i..][1..] == parts[i + 1..];
    }
  }

  /** An array is the number of its items and the items one behind the other. */
  lemma ArrayOnWire(element: FieldType, items: seq<Value>, parts: seq<seq<Byte>>)
    requires |parts| == |items| < 0x1_0000_0000
    requires forall k :: 0 <= k < |items| ==> Serialize(element, items[k]) == Some(parts[k])
    ensures Serialize(Array(element), List(items)) == Some(LittleEndian(|items|, 4) + Flatten(parts))
  {
    Pow256Of4();
    ItemsOnWire(element, items, 0, parts);
    assert parts[0..] == parts;
  }

  // ---------------------------------------------------------------- messages

  /** The bytes from field k on, when those of field k and those behind it are known. */
  lemma FieldThen(fields: seq<Field>, k: nat, attrs: Attrs, first: seq<Byte>, rest: seq<Byte>)
    requires k < |fields| && SerializeField(fields[k], attrs) == Some(first)
    requires SerializeFields(fields, k + 1, attrs) == Some(rest)
    ensures SerializeFields(fields, k, attrs) == Some(first + rest)
  {
  }

  lemma JoinedNothing(s: seq<Byte>)
    ensures s + [] == s && [] + s == s
  {
  }

  lemma NoFieldThen(fields: seq<Field>, k: nat, attrs: Attrs, rest: seq<Byte>)
    requires k < |fields| && SerializeField(fields[k], attrs) == Some([]) && SerializeFields(fields, k + 1, attrs) == Some(rest)
    ensures SerializeFields(fields, k, attrs) == Some(rest)
  {
    JoinedNothing(rest);
  }

  function Sized(b: seq<Byte>): seq<Byte>
  {
    LittleEndian(|b|, 4) + b
  }

  /** A login response with all its attributes, whatever they are */
  predicate IsLogin(attrs: Attrs, success: int)
  {
    && attrs.Keys == {"success", "greeting", "ip", "md5hash", "privileged", "reason"}
    && attrs["success"] == Some(Num(success))
  }

  lemma LoginFieldLeftOut(attrs: Attrs, success: int, k: nat)
    requires IsLogin(attrs, success) && k < 6 && if success == 0 then 1 <= k <= 4 else k == 5
    ensures SerializeField(LOGIN_RESPONSE[k], attrs) == Some([])
  {
  }

  /** A refused login: a zero byte and the reason, whatever the other attributes are. */
  lemma LoginRefusedOnWire(attrs: Attrs, reason: seq<Byte>)
    requires |reason| < 0x1_0000_0000 && IsLogin(attrs, 0) && attrs["reason"] == Some(Bytes(reason))
    ensures SerializeFields(LOGIN_RESPONSE, 0, attrs) == Some([0] + (LittleEndian(|reason|, 4) + reason))
  {
    var fields := LOGIN_RESPONSE;
    RefusedReason(attrs, reason);
    assert SerializeFields(fields, 6, attrs) == Some([]);
    FieldThen(fields, 5, attrs, Sized(reason), []);
    JoinedNothing(Sized(reason));
    forall k: nat | 1 <= k <= 4 ensures SerializeField(fields[k], attrs) == Some([]) { LoginFieldLeftOut(attrs, 0, k); }
    NoFieldThen(fields, 4, attrs, Sized(reason));
    NoFieldThen(fields, 3, attrs, Sized(reason));
    NoFieldThen(fields, 2, attrs, Sized(reason));
    NoFieldThen(fields, 1, attrs, Sized(reason));
    SuccessByte(attrs, 0);
    FieldThen(fields, 0, attrs, [0], Sized(reason));
  }

  lemma SuccessByte(attrs: Attrs, success: int)
    requires IsLogin(attrs, success) && 0 <= success <= 1
    ensures SerializeField(LOGIN_RESPONSE[0], attrs) == Some([success])
  {
  }

  lemma RefusedReason(attrs: Attrs, reason: seq<Byte>)
    requires |reason| < 0x1_0000_0000 && IsLogin(attrs, 0) && attrs["reason"] == Some(Bytes(reason))
    ensures SerializeField(LOGIN_RESPONSE[5], attrs) == Some(Sized(reason))
  {
    ScalarsOnWire(0, 1, 0, reason);
  }

  /** An accepted one: a one, the greeting, the address reversed, the hash and the privileges, and never a reason. */
  lemma LoginAcceptedOnWire(attrs: Attrs, greeting: seq<Byte>, a: Byte, b: Byte, c: Byte, d: Byte, hash: seq<Byte>)
    requires |greeting| < 0x1_0000_0000 && |hash| < 0x1_0000_0000 && IsLogin(attrs, 1)
    requires attrs["greeting"] == Some(Bytes(greeting)) && attrs["ip"] == Some(Bytes([a, b, c, d]))
    requires attrs["md5hash"] == Some(Bytes(hash)) && attrs["privileged"] == Some(Num(0))
    ensures SerializeFields(LOGIN_RESPONSE, 0, attrs) ==
            Some([1] + ((LittleEndian(|greeting|, 4) + greeting) + ([d, c, b, a] + ((LittleEndian(|hash|, 4) + hash) + [0]))))
  {
    var fields := LOGIN_RESPONSE;
    assert SerializeFields(fields, 6, attrs) == Some([]);
    LoginFieldLeftOut(attrs, 1, 5);
    NoFieldThen(fields, 5, attrs, []);
    AcceptedFields(attrs, greeting, a, b, c, d, hash);
    FieldThen(fields, 4, attrs, [0], []);
    JoinedNothing([0]);
    FieldThen(fields, 3, attrs, Sized(hash), [0]);
    FieldThen(fields, 2, attrs, [d, c, b, a], Sized(hash) + [0]);
    FieldThen(fields, 1, attrs, Sized(greeting), [d, c, b, a] + (Sized(hash) + [0]));
    SuccessByte(attrs, 1);
    FieldThen(fields, 0, attrs, [1], Sized(greeting) + ([d, c, b, a] + (Sized(hash) + [0])));
  }

  lemma AcceptedFields(attrs: Attrs, greeting: seq<Byte>, a: Byte, b: Byte, c: Byte, d: Byte, hash: seq<Byte>)
    requires |greeting| < 0x1_0000_0000 && |hash| < 0x1_0000_0000 && IsLogin(attrs, 1)
    requires attrs["greeting"] == Some(Bytes(greeting)) && attrs["ip"] == Some(Bytes([a, b, c, d]))
    requires attrs["md5hash"] == Some(Bytes(hash)) && attrs["privileged"] == Some(Num(0))
    ensures SerializeField(LOGIN_RESPONSE[1], attrs) == Some(Sized(greeting))
    ensures SerializeField(LOGIN_RESPONSE[2], attrs) == Some([d, c, b, a])
    ensures SerializeField(LOGIN_RESPONSE[3], attrs) == Some(Sized(hash))
    ensures SerializeField(LOGIN_RESPONSE[4], attrs) == Some([0])
  {
    ScalarsOnWire(0, 1, 0, greeting);
    ScalarsOnWire(0, 1, 0, hash);
    AddressOnWire(a, b, c, d, [], []);
  }

  /** A login response of the server: what it says in case of success, and in case of failure, can be sent. */
  predicate IsLoginToSend(attrs: Attrs, success: int)
  {
    && IsLogin(attrs, success) && 0 <= success <= 1
    && if success == 0 then IsShort(attrs["reason"])
       else
         && IsShort(attrs["greeting"]) && IsShort(attrs["md5hash"])
         && IsShort(attrs["ip"]) && |attrs["ip"].value.b| == 4
         && (attrs["privileged"] == Some(Num(0)) || attrs["privileged"] == Some(Num(1)))
  }

  predicate IsShort(v: Option<Value>)
  {
    v.Some? && v.value.Bytes? && |v.value.b| < 0x1_0000_0000
  }

  /** Such a response comes back exactly if what does not belong to its case is None. */
  lemma LoginComesBack(fields: seq<Field>, attrs: Attrs, success: int, bytes: seq<Byte>)
    requires fields == LOGIN_RESPONSE && IsLoginToSend(attrs, success) && SerializeFields(fields, 0, attrs) == Some(bytes)
    ensures DeserializeObject(fields, 0, bytes) == Parsed(|bytes|, attrs) <==>
            if success == 0 then attrs["greeting"] == attrs["ip"] == attrs["md5hash"] == attrs["privileged"] == None
            else attrs["reason"] == None
  {
    LoginBackIfCanonical(fields, attrs, success, bytes);
    LoginCanonical(fields, attrs, success);
  }

  lemma LoginBackIfCanonical(fields: seq<Field>, attrs: Attrs, success: int, bytes: seq<Byte>)
    requires fields == LOGIN_RESPONSE && IsLogin(attrs, success) && SerializeFields(fields, 0, attrs) == Some(bytes)
    ensures CanonicalFields(fields, 0, attrs) <==> DeserializeObject(fields, 0, bytes) == Parsed(|bytes|, attrs)
  {
    assert WellFormedFields(fields) by { LoginResponseWellFormed(); }
    assert attrs.Keys == Names(fields) by { LoginNames(); }
    Whole(bytes);
    ObjectRoundTripExactly(fields, attrs, 0, bytes, bytes);
  }

  lemma Whole(bytes: seq<Byte>)
    ensures At(bytes, 0, bytes)
  {
  }

  lemma LoginCanonical(fields: seq<Field>, attrs: Attrs, success: int)
    requires fields == LOGIN_RESPONSE && IsLoginToSend(attrs, success)
    ensures CanonicalFields(fields, 0, attrs) <==>
            if success == 0 then attrs["greeting"] == attrs["ip"] == attrs["md5hash"] == attrs["privileged"] == None
            else attrs["reason"] == None
  {
    if success == 0 { RefusedCanonical(attrs); } else { AcceptedCanonical(attrs); }
  }

  lemma LoginNames()
    ensures Names(LOGIN_RESPONSE) == {"success", "greeting", "ip", "md5hash", "privileged", "reason"}
  {
    var f := LOGIN_RESPONSE;
    assert f[0].name == "success" && f[1].name == "greeting" && f[2].name == "ip" && f[3].name == "md5hash";
    assert f[4].name == "privileged" && f[5].name == "reason";
  }

  lemma FieldByField(attrs: Attrs, success: int)
    requires IsLogin(attrs, success)
    ensures CanonicalFields(LOGIN_RESPONSE, 0, attrs) <==>
            forall k :: 0 <= k < 6 ==> CanonicalField(LOGIN_RESPONSE[k], attrs, false)
  {
    forall k: nat, b: bool | k < 6 ensures CanonicalField(LOGIN_RESPONSE[k], attrs, b) == CanonicalField(LOGIN_RESPONSE[k], attrs, false) {
      assert !LOGIN_RESPONSE[k].optional;
    }
    FieldsFrom(attrs, 0);
  }

  lemma {:induction false} FieldsFrom(attrs: Attrs, k: nat)
    requires k <= 6
    requires forall i: nat, b: bool :: i < 6 ==> CanonicalField(LOGIN_RESPONSE[i], attrs, b) == CanonicalField(LOGIN_RESPONSE[i], attrs, false)
    ensures CanonicalFields(LOGIN_RESPONSE, k, attrs) <==>
            forall i :: k <= i < 6 ==> CanonicalField(LOGIN_RESPONSE[i], attrs, false)
    decreases 6 - k
  {
    if k < 6 { FieldsFrom(attrs, k + 1); }
  }

  lemma RefusedCanonical(attrs: Attrs)
    requires IsLoginToSend(attrs, 0)
    ensures CanonicalFields(LOGIN_RESPONSE, 0, attrs) <==>
            attrs["greeting"] == attrs["ip"] == attrs["md5hash"] == attrs["privileged"] == None
  {
    FieldByField(attrs, 0);
    Pow256Of4();
    assert CanonicalField(LOGIN_RESPONSE[0], attrs, false) && CanonicalField(LOGIN_RESPONSE[5], attrs, false);
    assert CanonicalField(LOGIN_RESPONSE[1], attrs, false) <==> attrs["greeting"] == None;
    assert CanonicalField(LOGIN_RESPONSE[2], attrs, false) <==> attrs["ip"] == None;
    assert CanonicalField(LOGIN_RESPONSE[3], attrs, false) <==> attrs["md5hash"] == None;
    assert CanonicalField(LOGIN_RESPONSE[4], attrs, false) <==> attrs["privileged"] == None;
  }

  lemma AcceptedCanonical(attrs: Attrs)
    requires IsLoginToSend(attrs, 1)
    ensures CanonicalFields(LOGIN_RESPONSE, 0, attrs) <==> attrs["reason"] == None
  {
    FieldByField(attrs, 1);
    Pow256Of4();
    assert forall k :: 0 <= k < 5 ==> CanonicalField(LOGIN_RESPONSE[k], attrs, false);
    assert CanonicalField(LOGIN_RESPONSE[5], attrs, false) <==> attrs["reason"] == None;
  }

  /** A message is the length of what follows, its ID and its fields, and is not written when it is too long. */
  lemma MessageOnWire(c: MessageClass, attrs: Attrs, body: seq<Byte>)
    requires SerializeFields(c.fields, 0, attrs) == Some(body) && c.id < Pow256(c.idWidth)
    ensures SerializeMessage(c, attrs) ==
            if c.idWidth + |body| < 0x1_0000_0000
            then Some(LittleEndian(c.idWidth + |body|, 4) + (LittleEndian(c.id, c.idWidth) + body)) else None
  {
    Pow256Of4();
  }

  /** The branch level of the distributed network, byte by byte */
  lemma BranchLevelOnWire(n: nat)
    requires n < 0x1_0000_0000
    ensures SerializeMessage(DISTRIBUTED_MESSAGES[3], map["level" := Some(Num(n))]) ==
            Some([5, 0, 0, 0] + ([4] + LittleEndian(n, 4)))
  {
    var c := DISTRIBUTED_MESSAGES[3];
    var attrs: Attrs := map["level" := Some(Num(n))];
    Pow256Of4();
    Weights();
    assert SerializeFields(c.fields, 1, attrs) == Some([]);
    FieldThen(c.fields, 0, attrs, LittleEndian(n, 4), []);
    assert LittleEndian(n, 4) + [] == LittleEndian(n, 4);
    MessageOnWire(c, attrs, LittleEndian(n, 4));
    FiveAndFour();
  }

  lemma FiveAndFour()
    ensures LittleEndian(5, 4) == [5, 0, 0, 0] && LittleEndian(4, 1) == [4]
  {
    assert LittleEndian(5, 4) == [5] + LittleEndian(0, 3);
    assert LittleEndian(0, 3) == [0] + LittleEndian(0, 2);
    assert LittleEndian(0, 2) == [0] + LittleEndian(0, 1);
    assert LittleEndian(0, 1) == [0] + LittleEndian(0, 0);
    assert LittleEndian(4, 1) == [4] + LittleEndian(0, 0);
  }

  // ---------------------------------------------------------------- obfuscation

  /** The key goes first, in clear. */
  lemma KeyOnWire(data: seq<Obfuscation.Octet>, key: Obfuscation.Key)
    ensures Obfuscation.Encoded(data, key)[..4] == key && |Obfuscation.Encoded(data, key)| == 4 + |data|
  {
  }

  lemma KnownKeys(key: Obfuscation.Key)
    requires key == [0x99, 0xAB, 0xCD, 0xEF]
    ensures Obfuscation.ToBytes(Obfuscation.Word(Obfuscation.FromBytes(key), 1)) == [0x33, 0x57, 0x9B, 0xDF]
    ensures Obfuscation.ToBytes(Obfuscation.Word(Obfuscation.FromBytes(key), 2)) == [0x67, 0xAE, 0x36, 0xBF]
  {
    var w := Obfuscation.FromBytes(key);
    assert w == 0xEFCD_AB99;
    assert Obfuscation.Word(w, 0) == w;
    assert Obfuscation.Word(w, 1) == Obfuscation.Rotate(w, 31) == 0xDF9B_5733;
    assert Obfuscation.Word(w, 2) == Obfuscation.Rotate(0xDF9B_5733, 31) == 0xBF36_AE67;
  }

  /** The example of tests/unit/protocol/test_obfuscation.py: hello under the key 99 AB CD EF */
  lemma KnownMessage()
    ensures Obfuscation.Encoded([0x68, 0x65, 0x6C, 0x6C, 0x6F], [0x99, 0xAB, 0xCD, 0xEF]) ==
            [0x99, 0xAB, 0xCD, 0xEF, 0x5B, 0x32, 0xF7, 0xB3, 0x08]
  {
    var data: seq<Obfuscation.Octet> := [0x68, 0x65, 0x6C, 0x6C, 0x6F];
    var key: Obfuscation.Key := [0x99, 0xAB, 0xCD, 0xEF];
    KnownKeys(key);
    var x := Obfuscation.Xored(data, key);
    assert x[0] == 0x68 ^ 0x33 && x[1] == 0x65 ^ 0x57 && x[2] == 0x6C ^ 0x9B && x[3] == 0x6C ^ 0xDF && x[4] == 0x6F ^ 0x67;
    assert x == [0x5B, 0x32, 0xF7, 0xB3, 0x08];
  }
}
