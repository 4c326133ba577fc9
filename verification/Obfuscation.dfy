/**
 The stream cipher of protocol/obfuscation.py.

 The encoder rotates its key by 31 bits before every fourth byte. The decoder first lays out a table
 of the key rotated by 31, 30, ... bits, at most 32 of them, and cycles through it. Both are proved
 to apply one and the same key stream.
 */
module Obfuscation {

  type Octet = bv8

  type Key = k: seq<Octet> | |k| == KEY_SIZE witness [0, 0, 0, 0]

  const KEY_SIZE := 4
  const MAX_KEYS := 32

  // ---------------------------------------------------------------- words and rotations

  /** int.from_bytes(key, 'little') */
  function FromBytes(k: Key): bv32
  {
    k[0] as bv32 | (k[1] as bv32 << 8) | (k[2] as bv32 << 16) | (k[3] as bv32 << 24)
  }

  /** to_bytes(4, 'little') */
  function ToBytes(w: bv32): Key
  {
    [(w & 0xFF) as bv8, ((w >> 8) & 0xFF) as bv8, ((w >> 16) & 0xFF) as bv8, (w >> 24) as bv8]
  }

  lemma FromToBytes(w: bv32)
    ensures FromBytes(ToBytes(w)) == w
  {
  }

  /** rotate_key on the word; the five bits of r are the shifts 0..31 for which Python does not raise. */
  function Rotate(w: bv32, r: bv5): bv32
  {
    (w >> r) | (w << (32 - r as bv6))
  }

  function RotateKey(k: Key, r: bv5): Key
  {
    ToBytes(Rotate(FromBytes(k), r))
  }

  /** _rotate_key_orig, with its masked shift amounts. */
  function RotateKeyOrig(k: Key, const_: bv32): Key
  {
    var w := FromBytes(k);
    var c := const_ & 31;
    ToBytes((w >> c) | (w << ((0xFFFF_FFFF - (c - 1)) & 31)))
  }

  lemma MaskedLeftShift(c: bv32)
    requires c <= 31
    ensures (0xFFFF_FFFF - (c - 1)) & 31 == if c == 0 then 0 else 32 - c
  {
  }

  lemma RotateWordOrig(w: bv32, r: bv5, c: bv32)
    requires c == r as bv32
    ensures (w >> c) | (w << ((0xFFFF_FFFF - (c - 1)) & 31)) == Rotate(w, r)
  {
    MaskedLeftShift(c);
  }

  /** The rewritten rotation computes what the original one did, for all 32 shifts. */
  lemma RotateKeyIsOriginal(k: Key, r: bv5)
    ensures RotateKey(k, r) == RotateKeyOrig(k, r as bv32)
  {
    var c := r as bv32;
    assert c & 31 == c;
    RotateWordOrig(FromBytes(k), r, c);
  }

  /** Rotating right by r and then by 31 undoes one bit of r, modulo 32. */
  lemma RotateThenRotate31(w: bv32, r: bv5)
    ensures Rotate(Rotate(w, r), 31) == Rotate(w, r - 1)
  {
  }

  // ---------------------------------------------------------------- the key stream

  /** The encoder's key after n rotations. */
  function Word(w: bv32, n: nat): bv32
  {
    if n == 0 then w else Rotate(Word(w, n - 1), 31)
  }

  /** The byte xored with position i of the message. */
  function KeyByte(key: Key, i: nat): Octet
  {
    ToBytes(Word(FromBytes(key), i / KEY_SIZE + 1))[i % KEY_SIZE]
  }

  function Xored(data: seq<Octet>, key: Key): (r: seq<Octet>)
    ensures |r| == |data|
  {
    seq(|data|, i requires 0 <= i < |data| => data[i] ^ KeyByte(key, i))
  }

  function Encoded(data: seq<Octet>, key: Key): seq<Octet>
  {
    key + Xored(data, key)
  }

  /** What decode returns: nothing when not even the key is complete. */
  function Decoded(data: seq<Octet>): seq<Octet>
  {
    if |data| <= KEY_SIZE then [] else Xored(data[KEY_SIZE..], data[..KEY_SIZE])
  }

  /** De-obfuscation undoes obfuscation, for every key and every message. */
  lemma DecodeEncode(data: seq<Octet>, key: Key)
    ensures Decoded(Encoded(data, key)) == data
  {
    var e := Encoded(data, key);
    if data != [] {
      assert e[..KEY_SIZE] == key && e[KEY_SIZE..] == Xored(data, key);
      forall i | 0 <= i < |data| ensures Xored(Xored(data, key), key)[i] == data[i] {
        var k := KeyByte(key, i);
        assert (data[i] ^ k) ^ k == data[i];
      }
    }
  }

  lemma XoredPrefix(data: seq<Octet>, key: Key, n: nat)
    requires n <= |data|
    ensures Xored(data[..n], key) == Xored(data, key)[..n]
  {
    forall i | 0 <= i < n ensures Xored(data[..n], key)[i] == Xored(data, key)[..n][i] {
      assert data[..n][i] == data[i];
    }
  }

  /** Decoding the first m bytes of a message alone gives the start of the decoded message. */
  lemma DecodePrefix(data: seq<Octet>, m: nat)
    requires KEY_SIZE <= m <= |data|
    ensures |Decoded(data)| == |data| - KEY_SIZE
    ensures Decoded(data[..m]) == Decoded(data)[..m - KEY_SIZE]
  {
    var p := data[..m];
    if m > KEY_SIZE {
      assert p[..KEY_SIZE] == data[..KEY_SIZE];
      assert p[KEY_SIZE..] == data[KEY_SIZE..][..m - KEY_SIZE];
      XoredPrefix(data[KEY_SIZE..], data[..KEY_SIZE], m - KEY_SIZE);
    } else {
      assert Decoded(p) == [] == Decoded(data)[..0];
    }
  }

  // ---------------------------------------------------------------- the decoder's direct rotations

  /** The shift after n steps down from r, modulo 32. */
  function Down(r: bv5, n: nat): bv5
  {
    if n == 0 then r else Down(r, n - 1) - 1
  }

  lemma DownAdd(r: bv5, m: nat, n: nat)
    ensures Down(r, m + n) == Down(Down(r, m), n)
  {
  }

  lemma Down32(r: bv5)
    ensures Down(r, 32) == r
  {
    forall s: bv5 ensures Down(s, 4) == s - 4 {
      assert Down(s, 1) == s - 1;
      DownAdd(s, 1, 1);
      DownAdd(s, 2, 2);
    }
    forall s: bv5 ensures Down(s, 16) == s - 16 {
      DownAdd(s, 4, 4);
      DownAdd(s, 8, 4);
      DownAdd(s, 12, 4);
    }
    DownAdd(r, 16, 16);
  }

  lemma DownPeriod(r: bv5, n: nat)
    ensures Down(r, n) == Down(r, n % 32)
  {
    if n >= 32 {
      DownPeriod(r, n - 32);
      Down32(r);
      DownAdd(r, 32, n - 32);
    }
  }

  /** n + 1 rotations by 31 equal one direct rotation by 31 - n. */
  lemma WordIsDirect(w: bv32, n: nat)
    ensures Word(w, n + 1) == Rotate(w, Down(31, n))
  {
    if n > 0 {
      WordIsDirect(w, n - 1);
      RotateThenRotate31(w, Down(31, n - 1));
    } else {
      assert Word(w, 0) == w;
    }
  }

  /** The encoder's rotations repeat after 32 blocks, 128 bytes. */
  lemma WordPeriod(w: bv32, n: nat)
    ensures Word(w, n + 1) == Word(w, n % 32 + 1)
  {
    WordIsDirect(w, n);
    WordIsDirect(w, n % 32);
    DownPeriod(31, n);
  }

  // ---------------------------------------------------------------- the two loops

  /** The encoder's key after n rotations; before the first one it is the key as given. */
  ghost function EncoderKey(key: Key, n: nat): Key
  {
    if n == 0 then key else ToBytes(Word(FromBytes(key), n))
  }

  lemma EncoderKeyStep(key: Key, n: nat)
    ensures RotateKey(EncoderKey(key, n), 31) == EncoderKey(key, n + 1)
  {
    if n > 0 {
      FromToBytes(Word(FromBytes(key), n));
    } else {
      assert Word(FromBytes(key), 0) == FromBytes(key);
    }
  }

  /** The rotations made in front of position idx: one more at the start of every block. */
  function Rotations(idx: nat): nat
  {
    (idx + 3) / KEY_SIZE
  }

  lemma RotationsStep(idx: nat)
    ensures Rotations(idx) + (if idx % KEY_SIZE == 0 then 1 else 0) == Rotations(idx + 1) == idx / KEY_SIZE + 1
  {
  }

  /** The key for position idx, and the byte encoded with it. */
  lemma EncodeStep(data: seq<Octet>, key: Key, idx: nat, now: Key, next: Key)
    requires idx < |data| && now == EncoderKey(key, Rotations(idx))
    requires next == if idx % KEY_SIZE == 0 then RotateKey(now, 31) else now
    ensures next == EncoderKey(key, Rotations(idx + 1)) && next[idx % KEY_SIZE] == KeyByte(key, idx)
  {
    RotationsStep(idx);
    EncoderKeyStep(key, Rotations(idx));
    EncoderKeyByte(key, idx);
  }

  lemma EncoderKeyByte(key: Key, idx: nat)
    ensures EncoderKey(key, idx / KEY_SIZE + 1)[idx % KEY_SIZE] == KeyByte(key, idx)
  {
  }

  lemma XoredAppend(data: seq<Octet>, key: Key, idx: nat)
    requires idx < |data|
    ensures Xored(data, key)[..idx + 1] == Xored(data, key)[..idx] + [data[idx] ^ KeyByte(key, idx)]
  {
  }

  method Encode(data: seq<Octet>, origKey: Key) returns (r: seq<Octet>)
    ensures r == Encoded(data, origKey)
  {
    var key := origKey;
    var message: seq<Octet> := [];
    for idx := 0 to |data|
      invariant message == Xored(data, origKey)[..idx]
      invariant key == EncoderKey(origKey, Rotations(idx))
    {
      ghost var before := key;
      if idx % KEY_SIZE == 0 {
        key := RotateKey(key, 31);
      }
      EncodeStep(data, origKey, idx, before, key);
      XoredAppend(data, origKey, idx);
      message := message + [key[idx % KEY_SIZE] ^ data[idx]];
    }
    r := origKey + message;
  }

  /** The table of directly rotated keys holds the first count blocks of the encoder's key stream. */
  ghost predicate IsKeyTable(table: seq<Octet>, key: Key, count: nat)
  {
    |table| == count * KEY_SIZE && forall i :: 0 <= i < |table| ==> table[i] == KeyByte(key, i)
  }

  lemma KeyTableAppend(table: seq<Octet>, key: Key, count: nat, r: bv5)
    requires IsKeyTable(table, key, count) && r == Down(31, count)
    ensures IsKeyTable(table + RotateKey(key, r), key, count + 1)
  {
    WordIsDirect(FromBytes(key), count);
  }

  lemma IndexModulo128(i: nat)
    ensures (i % 128) / 4 == (i / 4) % 32 && (i % 128) % 4 == i % 4
  {
  }

  lemma KeyBytePeriod(key: Key, i: nat)
    ensures KeyByte(key, i % 128) == KeyByte(key, i)
  {
    IndexModulo128(i);
    WordPeriod(FromBytes(key), i / KEY_SIZE);
  }

  lemma SmallModulo(i: nat, len: nat)
    requires i < len
    ensures i % len == i
  {
  }

  lemma TableIndex(n: nat, i: nat, len: nat)
    requires i < n && len == KeysFor(n) * KEY_SIZE
    ensures len > 0 && i % len < len && (i % len == i || len == 128)
  {
    if len < 128 {
      SmallModulo(i, len);
    }
  }

  /** Cycling through the table, however short, reads the key stream. */
  lemma KeyTableLookup(table: seq<Octet>, key: Key, n: nat, i: nat)
    requires IsKeyTable(table, key, KeysFor(n)) && i < n
    ensures |table| > 0 && table[i % |table|] == KeyByte(key, i)
  {
    TableIndex(n, i, |table|);
    KeyBytePeriod(key, i);
  }

  lemma DecodedByte(table: seq<Octet>, key: Key, data: seq<Octet>, i: nat)
    requires IsKeyTable(table, key, KeysFor(|data|)) && i < |data|
    ensures |table| > 0 && data[i] ^ table[i % |table|] == Xored(data, key)[i]
  {
    KeyTableLookup(table, key, |data|, i);
  }

  /** min(ceil(n / 4), 32) */
  function KeysFor(n: nat): (r: nat)
    ensures r <= 32 && 4 * r < n + 4 && (r == 32 || 4 * r >= n)
  {
    var blocks := (n + KEY_SIZE - 1) / KEY_SIZE;
    if blocks <= MAX_KEYS then blocks else MAX_KEYS
  }

  /** The keys rotated by 31, 30 and so on, one after the other */
  method KeyTable(key: Key, keyAmount: nat) returns (fullKey: seq<Octet>)
    ensures IsKeyTable(fullKey, key, keyAmount)
  {
    fullKey := [];
    var rotBits: bv5 := 31;
    for count := 0 to keyAmount
      invariant rotBits == Down(31, count)
      invariant IsKeyTable(fullKey, key, count)
    {
      KeyTableAppend(fullKey, key, count, rotBits);
      fullKey := fullKey + RotateKey(key, rotBits);
      rotBits := rotBits - 1;
    }
  }

  method Decode(data: seq<Octet>) returns (r: seq<Octet>)
    ensures r == Decoded(data)
  {
    if |data| <= KEY_SIZE {
      return [];
    }
    var key := data[..KEY_SIZE];
    var messageLen := |data| - KEY_SIZE;
    var fullKey := KeyTable(key, KeysFor(messageLen));
    var message := new Octet[messageLen];
    ghost var plain := Xored(data[KEY_SIZE..], key);
    forall i | 0 <= i < message.Length {
      message[i] := data[KEY_SIZE + i];
    }
    for idx := 0 to messageLen
      invariant message[..idx] == plain[..idx] && message[idx..] == data[KEY_SIZE..][idx..]
    {
      DecodedByte(fullKey, key, data[KEY_SIZE..], idx);
      assert message[idx] == data[KEY_SIZE..][idx];
      message[idx] := message[idx] ^ fullKey[idx % |fullKey|];
    }
    assert message[..] == message[..messageLen] && plain[..messageLen] == plain;
    r := message[..];
  }
}
