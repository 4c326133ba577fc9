/** Message bytes as numbers (the codec) and as bit patterns (the wire). */
module Octets {

  import opened Obfuscation
  import opened Primitives

  lemma OctetRoundTrip(b: int)
    requires 0 <= b < 256
    ensures (b as bv8) as int == b
  {
  }

  function ToOctets(s: seq<Byte>): (r: seq<Octet>)
    ensures |r| == |s|
  {
    seq(|s|, i requires 0 <= i < |s| => s[i] as bv8)
  }

  function FromOctets(s: seq<Octet>): (r: seq<Byte>)
    ensures |r| == |s|
  {
    seq(|s|, i requires 0 <= i < |s| => s[i] as int)
  }

  lemma OctetsRoundTrip(s: seq<Byte>)
    ensures FromOctets(ToOctets(s)) == s
  {
    forall i | 0 <= i < |s| ensures FromOctets(ToOctets(s))[i] == s[i] {
      OctetRoundTrip(s[i]);
    }
  }

  /** An octet is the number it stands for. */
  lemma OctetsAre(s: seq<Byte>, i: nat)
    requires i < |s|
    ensures ToOctets(s)[i] as int == s[i]
  {
    OctetRoundTrip(s[i]);
  }

  lemma FromOctetsPrefix(s: seq<Octet>, n: nat)
    requires n <= |s|
    ensures FromOctets(s[..n]) == FromOctets(s)[..n]
  {
  }
}

/**
 The framing of network/connection.py: messages with a length prefix on one byte stream, where an
 obfuscated message is preceded by its key and only its header is decoded to learn its length.
 */
module Framing {

  import opened Wrappers
  import opened Obfuscation
  import opened Primitives
  import opened RoundTrips
  import opened Messages
  import opened Octets

  /** HEADER_SIZE_OBFUSCATED and HEADER_SIZE_UNOBFUSCATED */
  function HeaderSize(obfuscated: bool): nat
  {
    if obfuscated then KEY_SIZE + 4 else 4
  }

  /** encode_message_data on serialized data, with the key that would be generated. */
  function EncodeData(obfuscated: bool, key: Key, data: seq<Byte>): seq<Octet>
  {
    if obfuscated then Encoded(ToOctets(data), key) else ToOctets(data)
  }

  /** decode_message_data, up to the deserialization. */
  function DecodeData(obfuscated: bool, message: seq<Octet>): seq<Byte>
  {
    FromOctets(if obfuscated then Decoded(message) else message)
  }

  /** The length that the decoded header announces. */
  function AnnouncedLength(obfuscated: bool, header: seq<Octet>): nat
    requires |header| == HeaderSize(obfuscated)
  {
    FromLittleEndian(DecodeData(obfuscated, header))
  }

  /** The number of bytes of the first message of the stream, when they have all arrived. */
  function FirstMessage(obfuscated: bool, stream: seq<Octet>): (r: Option<nat>)
    ensures r.Some? ==> 4 <= r.value <= |stream|
  {
    var h := HeaderSize(obfuscated);
    if |stream| < h then None
    else
      var size := h + AnnouncedLength(obfuscated, stream[..h]);
      if |stream| < size then None else Some(size)
  }

  /** The decoded messages that repeated reads take off the stream. */
  function ReadAll(obfuscated: bool, stream: seq<Octet>): seq<seq<Byte>>
    decreases |stream|
  {
    match FirstMessage(obfuscated, stream)
    case None => []
    case Some(size) => [DecodeData(obfuscated, stream[..size])] + ReadAll(obfuscated, stream[size..])
  }

  /** Serialized data: a length prefix that counts the rest. */
  predicate IsFrame(data: seq<Byte>)
  {
    |data| >= 4 && FromLittleEndian(data[..4]) == |data| - 4
  }

  /** What the sender puts on the stream for a list of messages, each with its own key. */
  function Sent(obfuscated: bool, keys: seq<Key>, frames: seq<seq<Byte>>): seq<Octet>
    requires |keys| == |frames|
  {
    if frames == [] then []
    else EncodeData(obfuscated, keys[0], frames[0]) + Sent(obfuscated, keys[1..], frames[1..])
  }

  lemma DecodeEncodeData(obfuscated: bool, key: Key, data: seq<Byte>)
    ensures DecodeData(obfuscated, EncodeData(obfuscated, key, data)) == data
  {
    DecodeEncode(ToOctets(data), key);
    OctetsRoundTrip(data);
  }

  /** The decoded header of a message is the start of the decoded message. */
  lemma HeaderIsPrefix(obfuscated: bool, key: Key, data: seq<Byte>)
    requires |data| >= 4
    ensures var message := EncodeData(obfuscated, key, data);
            && |message| == HeaderSize(obfuscated) + |data| - 4
            && DecodeData(obfuscated, message[..HeaderSize(obfuscated)]) == data[..4]
  {
    var message := EncodeData(obfuscated, key, data);
    if obfuscated {
      DecodePrefix(message, KEY_SIZE + 4);
      FromOctetsPrefix(Decoded(message), 4);
    } else {
      FromOctetsPrefix(message, 4);
    }
    DecodeEncodeData(obfuscated, key, data);
  }

  /** The first message on the stream ends where its bytes end, whatever follows. */
  lemma FirstMessageFound(obfuscated: bool, key: Key, data: seq<Byte>, rest: seq<Octet>)
    requires IsFrame(data)
    ensures FirstMessage(obfuscated, EncodeData(obfuscated, key, data) + rest)
         == Some(|EncodeData(obfuscated, key, data)|)
  {
    var message := EncodeData(obfuscated, key, data);
    var h := HeaderSize(obfuscated);
    HeaderIsPrefix(obfuscated, key, data);
    assert (message + rest)[..h] == message[..h];
  }

  /** Any list of frames is split back into the same list, with or without obfuscation, for any keys. */
  lemma {:induction false} SplitSent(obfuscated: bool, keys: seq<Key>, frames: seq<seq<Byte>>)
    requires |keys| == |frames| && forall i :: 0 <= i < |frames| ==> IsFrame(frames[i])
    ensures ReadAll(obfuscated, Sent(obfuscated, keys, frames)) == frames
  {
    if frames != [] {
      var message := EncodeData(obfuscated, keys[0], frames[0]);
      var rest := Sent(obfuscated, keys[1..], frames[1..]);
      FirstMessageFound(obfuscated, keys[0], frames[0], rest);
      assert (message + rest)[..|message|] == message && (message + rest)[|message|..] == rest;
      DecodeEncodeData(obfuscated, keys[0], frames[0]);
      SplitSent(obfuscated, keys[1..], frames[1..]);
    }
  }

  lemma SerializedIsFrame(c: MessageClass, attrs: Attrs, data: seq<Byte>)
    requires SerializeMessage(c, attrs) == Some(data)
    ensures IsFrame(data)
  {
    var body := MessageLayout(c, attrs, data);
    ReadBack(c.idWidth + |body|, 4, 0, data);
  }

  // ---------------------------------------------------------------- whole messages

  datatype Outgoing = Outgoing(index: nat, attrs: Attrs)

  /** The message can be written and is canonical for its class. */
  predicate Sendable(classes: seq<MessageClass>, m: Outgoing)
  {
    && m.index < |classes|
    && m.attrs.Keys == Names(classes[m.index].fields)
    && CanonicalFields(classes[m.index].fields, 0, m.attrs)
    && SerializeMessage(classes[m.index], m.attrs).Some?
  }

  function FramesOf(classes: seq<MessageClass>, messages: seq<Outgoing>): (r: seq<seq<Byte>>)
    requires forall i :: 0 <= i < |messages| ==> Sendable(classes, messages[i])
    ensures |r| == |messages|
  {
    seq(|messages|, i requires 0 <= i < |messages| && Sendable(classes, messages[i]) =>
      SerializeMessage(classes[messages[i].index], messages[i].attrs).value)
  }

  /** From message objects to bytes and back to message objects: nothing is lost, added or reordered. */
  lemma EndToEnd(
      classes: seq<MessageClass>, peekWidth: nat, obfuscated: bool, keys: seq<Key>, messages: seq<Outgoing>)
    requires WellFormedClasses(classes, peekWidth) && |keys| == |messages|
    requires forall i :: 0 <= i < |messages| ==> Sendable(classes, messages[i])
    ensures var received := ReadAll(obfuscated, Sent(obfuscated, keys, FramesOf(classes, messages)));
            && |received| == |messages|
            && forall i :: 0 <= i < |messages| ==>
              Dispatch(classes, peekWidth, received[i]) == Message(messages[i].index, messages[i].attrs)
  {
    var frames := FramesOf(classes, messages);
    forall i | 0 <= i < |messages| ensures IsFrame(frames[i]) {
      SerializedIsFrame(classes[messages[i].index], messages[i].attrs, frames[i]);
    }
    SplitSent(obfuscated, keys, frames);
    forall i | 0 <= i < |messages|
      ensures Dispatch(classes, peekWidth, frames[i]) == Message(messages[i].index, messages[i].attrs)
    {
      DispatchRoundTripExactly(classes, peekWidth, messages[i].index, messages[i].attrs, frames[i]);
    }
  }

  // ---------------------------------------------------------------- the reader

  /** asyncio's StreamReader once the sender has closed: readexactly raises when too little is left. */
  class StreamReader {
    var buffer: seq<Octet>

    constructor (stream: seq<Octet>)
      ensures buffer == stream
    {
      buffer := stream;
    }

    method ReadExactly(n: nat) returns (r: Option<seq<Octet>>)
      modifies this
      ensures r.Some? <==> n <= |old(buffer)|
      ensures r.Some? ==> r.value == old(buffer)[..n] && buffer == old(buffer)[n..]
      ensures r.None? ==> buffer == old(buffer)
    {
      if |buffer| < n {
        return None;
      }
      r := Some(buffer[..n]);
      buffer := buffer[n..];
    }
  }

  lemma HeaderAndBody(stream: seq<Octet>, h: nat, n: nat)
    requires h + n <= |stream|
    ensures stream[..h] + stream[h..][..n] == stream[..h + n] && stream[h..][n..] == stream[h + n..]
  {
  }

  /** Taking one message off the stream. */
  lemma ReceivedMore(obfuscated: bool, received: seq<seq<Byte>>, stream: seq<Octet>, size: nat)
    requires FirstMessage(obfuscated, stream) == Some(size)
    ensures size <= |stream|
    ensures received + ReadAll(obfuscated, stream) ==
            received + [DecodeData(obfuscated, stream[..size])] + ReadAll(obfuscated, stream[size..])
  {
    var rest := ReadAll(obfuscated, stream[size..]);
    var message := DecodeData(obfuscated, stream[..size]);
    assert ReadAll(obfuscated, stream) == [message] + rest;
    assert received + ([message] + rest) == received + [message] + rest;
  }

  class DataConnection {
    const obfuscated: bool
    const reader: StreamReader

    constructor (obfuscated: bool, reader: StreamReader)
      ensures this.obfuscated == obfuscated && this.reader == reader
    {
      this.obfuscated := obfuscated;
      this.reader := reader;
    }

    /** _read_message: the whole message, still obfuscated. */
    method ReadMessage() returns (r: Option<seq<Octet>>)
      modifies reader
      ensures var first := FirstMessage(obfuscated, old(reader.buffer));
              if first.None? then r.None?
              else r == Some(old(reader.buffer)[..first.value]) && reader.buffer == old(reader.buffer)[first.value..]
    {
      ghost var stream := reader.buffer;
      var header := reader.ReadExactly(HeaderSize(obfuscated));
      if header.None? {
        return None;
      }
      var messageLen := AnnouncedLength(obfuscated, header.value);
      var message := reader.ReadExactly(messageLen);
      if message.None? {
        return None;
      }
      HeaderAndBody(stream, HeaderSize(obfuscated), messageLen);
      r := Some(header.value + message.value);
    }

    /** The reader loop: every message of the stream is decoded and handed on, in order. */
    method ReceiveAll() returns (received: seq<seq<Byte>>)
      modifies reader
      ensures received == ReadAll(obfuscated, old(reader.buffer))
    {
      received := [];
      while true
        invariant ReadAll(obfuscated, old(reader.buffer)) == received + ReadAll(obfuscated, reader.buffer)
        decreases |reader.buffer|
      {
        ghost var stream := reader.buffer;
        var message := ReadMessage();
        if message.None? {
          assert ReadAll(obfuscated, stream) == [];
          return;
        }
        ReceivedMore(obfuscated, received, stream, |message.value|);
        received := received + [DecodeData(obfuscated, message.value)];
      }
    }
  }
}
