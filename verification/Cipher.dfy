/** The byte-feedback cipher and the mixed clear and encrypted envelopes around every packet. */
module Cipher {
  import opened Bytes
  import opened Xors

  /** `_SHUFFLE`, sixteen bytes a row. */
  function Row(r: nat): (row: bytes)
    ensures |row| == 16
  {
    if r == 0 then [0x7C, 0x9C, 0xE8, 0x4A, 0x13, 0xDE, 0xDC, 0xB2, 0x2F, 0x21, 0x23, 0xE4, 0x30, 0x7B, 0x3D, 0x8C]
    else if r == 1 then [0xBC, 0x0B, 0x27, 0x0C, 0x3C, 0xF7, 0x9A, 0xE7, 0x08, 0x71, 0x96, 0x00, 0x97, 0x85, 0xEF, 0xC1]
    else if r == 2 then [0x1F, 0xC4, 0xDB, 0xA1, 0xC2, 0xEB, 0xD9, 0x01, 0xFA, 0xBA, 0x3B, 0x05, 0xB8, 0x15, 0x87, 0x83]
    else if r == 3 then [0x28, 0x72, 0xD1, 0x8B, 0x5A, 0xD6, 0xDA, 0x93, 0x58, 0xFE, 0xAA, 0xCC, 0x6E, 0x1B, 0xF0, 0xA3]
    else if r == 4 then [0x88, 0xAB, 0x43, 0xC0, 0x0D, 0xB5, 0x45, 0x38, 0x4F, 0x50, 0x22, 0x66, 0x20, 0x7F, 0x07, 0x5B]
    else if r == 5 then [0x14, 0x98, 0x1D, 0x9B, 0xA7, 0x2A, 0xB9, 0xA8, 0xCB, 0xF1, 0xFC, 0x49, 0x47, 0x06, 0x3E, 0xB1]
    else if r == 6 then [0x0E, 0x04, 0x3A, 0x94, 0x5E, 0xEE, 0x54, 0x11, 0x34, 0xDD, 0x4D, 0xF9, 0xEC, 0xC7, 0xC9, 0xE3]
    else if r == 7 then [0x78, 0x1A, 0x6F, 0x70, 0x6B, 0xA4, 0xBD, 0xA9, 0x5D, 0xD5, 0xF8, 0xE5, 0xBB, 0x26, 0xAF, 0x42]
    else if r == 8 then [0x37, 0xD8, 0xE1, 0x02, 0x0A, 0xAE, 0x5F, 0x1C, 0xC5, 0x73, 0x09, 0x4E, 0x69, 0x24, 0x90, 0x6D]
    else if r == 9 then [0x12, 0xB3, 0x19, 0xAD, 0x74, 0x8A, 0x29, 0x40, 0xF5, 0x2D, 0xBE, 0xA5, 0x59, 0xE0, 0xF4, 0x79]
    else if r == 10 then [0xD2, 0x4B, 0xCE, 0x89, 0x82, 0x48, 0x84, 0x25, 0xC6, 0x91, 0x2B, 0xA2, 0xFB, 0x8F, 0xE9, 0xA6]
    else if r == 11 then [0xB0, 0x9E, 0x3F, 0x65, 0xF6, 0x03, 0x31, 0x2E, 0xAC, 0x0F, 0x95, 0x2C, 0x5C, 0xED, 0x39, 0xB7]
    else if r == 12 then [0x33, 0x6C, 0x56, 0x7E, 0xB4, 0xA0, 0xFD, 0x7A, 0x81, 0x53, 0x51, 0x86, 0x8D, 0x9F, 0x77, 0xFF]
    else if r == 13 then [0x6A, 0x80, 0xDF, 0xE2, 0xBF, 0x10, 0xD7, 0x75, 0x64, 0x57, 0x76, 0xF3, 0x55, 0xCD, 0xD0, 0xC8]
    else if r == 14 then [0x18, 0xE6, 0x36, 0x41, 0x62, 0xCF, 0x99, 0xF2, 0x32, 0x4C, 0x67, 0x60, 0x61, 0x92, 0xCA, 0xD3]
    else [0xEA, 0x63, 0x7D, 0x16, 0xB6, 0x8E, 0xD4, 0x68, 0x35, 0xC3, 0x52, 0x9D, 0x46, 0x44, 0x1E, 0x17]
  }

  function Shuffle(i: byte): byte {
    Row(i / 16)[i % 16]
  }

  datatype Hash = Hash(sum: byte, difference: byte, thirds: byte, folded: byte)

  function HashStep(h: Hash, value: byte): Hash {
    Hash((h.sum + value) % 256, (h.difference - value) % 256, (h.thirds + value / 3) % 256, Xor(h.folded, value))
  }

  /** `_key_hash` of an encoded key. */
  function KeyHash(key: bytes): Hash {
    if key == [] then Hash(0, 0, 0, 0) else HashStep(KeyHash(key[..|key| - 1]), key[|key| - 1])
  }

  method ComputeKeyHash(key: bytes) returns (h: Hash)
    ensures h == KeyHash(key)
  {
    h := Hash(0, 0, 0, 0);
    for i := 0 to |key|
      invariant h == KeyHash(key[..i])
    {
      assert key[..i + 1][..i] == key[..i];
      h := HashStep(h, key[i]);
    }
    assert key[..|key|] == key;
  }

  /** Where in the table the mask for what follows the encrypted byte `previous` is. */
  function MaskIndex(h: Hash, previous: byte): byte {
    var part := if previous % 4 == 0 then h.sum else if previous % 4 == 1 then h.difference
                else if previous % 4 == 2 then h.thirds else h.folded;
    (part + previous) % 256
  }

  function KeyStream(h: Hash): byte -> byte {
    (previous: byte) => Shuffle(MaskIndex(h, previous))
  }

  /** Encrypt `clear` after the encrypted byte `previous`. */
  function Encrypt(stream: byte -> byte, previous: byte, clear: bytes): bytes
    decreases |clear|
  {
    if clear == [] then []
    else
      var encoded := Xor(clear[0], stream(previous));
      [encoded] + Encrypt(stream, encoded, clear[1..])
  }

  function Decrypt(stream: byte -> byte, previous: byte, encrypted: bytes): bytes
    decreases |encrypted|
  {
    if encrypted == [] then []
    else [Xor(encrypted[0], stream(previous))] + Decrypt(stream, encrypted[0], encrypted[1..])
  }

  method EncryptPacket(key: bytes, clear: bytes) returns (output: bytes)
    ensures output == Encrypt(KeyStream(KeyHash(key)), 0, clear)
  {
    var hashed := ComputeKeyHash(key);
    var stream := KeyStream(hashed);
    output := [];
    var previous := 0;
    assert clear[0..] == clear;
    for i := 0 to |clear|
      invariant output + Encrypt(stream, previous, clear[i..]) == Encrypt(stream, 0, clear)
    {
      var encoded := Xor(clear[i], stream(previous));
      assert clear[i..][1..] == clear[i + 1..];
      output := output + [encoded];
      previous := encoded;
    }
  }

  method DecryptPacket(key: bytes, encrypted: bytes) returns (output: bytes)
    ensures output == Decrypt(KeyStream(KeyHash(key)), 0, encrypted)
  {
    var hashed := ComputeKeyHash(key);
    var stream := KeyStream(hashed);
    output := [];
    var previous := 0;
    assert encrypted[0..] == encrypted;
    for i := 0 to |encrypted|
      invariant output + Decrypt(stream, previous, encrypted[i..]) == Decrypt(stream, 0, encrypted)
    {
      assert encrypted[i..][1..] == encrypted[i + 1..];
      output := output + [Xor(encrypted[i], stream(previous))];
      previous := encrypted[i];
    }
  }

  lemma {:induction false} DecryptEncrypt(stream: byte -> byte, previous: byte, clear: bytes)
    ensures Decrypt(stream, previous, Encrypt(stream, previous, clear)) == clear
    ensures |Encrypt(stream, previous, clear)| == |clear|
    decreases |clear|
  {
    if clear != [] {
      var encoded := Xor(clear[0], stream(previous));
      XorTwice(clear[0], stream(previous));
      DecryptEncrypt(stream, encoded, clear[1..]);
    }
  }

  lemma {:induction false} EncryptDecrypt(stream: byte -> byte, previous: byte, encrypted: bytes)
    ensures Encrypt(stream, previous, Decrypt(stream, previous, encrypted)) == encrypted
    decreases |encrypted|
  {
    if encrypted != [] {
      XorTwice(encrypted[0], stream(previous));
      EncryptDecrypt(stream, encrypted[0], encrypted[1..]);
    }
  }

  function Total(key: bytes): nat {
    if key == [] then 0 else Total(key[..|key| - 1]) + key[|key| - 1]
  }

  /** The sum of the thirds of the bytes, each rounded down. */
  function Thirds(key: bytes): nat {
    if key == [] then 0 else Thirds(key[..|key| - 1]) + key[|key| - 1] / 3
  }

  /** All bytes combined by exclusive or. */
  function Folded(key: bytes): byte {
    if key == [] then 0 else Xor(Folded(key[..|key| - 1]), key[|key| - 1])
  }

  lemma HashSums(h: Hash, value: byte)
    ensures HashStep(h, value).sum == (h.sum + value) % 256
    ensures HashStep(h, value).difference == (h.difference - value) % 256
    ensures HashStep(h, value).thirds == (h.thirds + value / 3) % 256
    ensures HashStep(h, value).folded == Xor(h.folded, value)
  {
  }

  lemma SumsStep(total: nat, value: byte)
    ensures (total % 256 + value) % 256 == (total + value) % 256
    ensures ((0 - total) % 256 - value) % 256 == (0 - (total + value)) % 256
  {
  }

  /** The four parts of the hash: the sum of the key's bytes, its negative and the sum of their thirds,
      modulo 256, and their exclusive or. */
  lemma {:induction false} SumsOfKey(key: bytes)
    ensures KeyHash(key).sum == Total(key) % 256
    ensures KeyHash(key).difference == (0 - Total(key)) % 256
    ensures KeyHash(key).thirds == Thirds(key) % 256
    ensures KeyHash(key).folded == Folded(key)
  {
    hide HashStep;
    if key != [] {
      var front, last := key[..|key| - 1], key[|key| - 1];
      SumsOfKey(front);
      HashSums(KeyHash(front), last);
      SumsStep(Total(front), last);
      SumsStep(Thirds(front), last / 3);
      assert KeyHash(key) == HashStep(KeyHash(front), last);
    }
  }

  /** The part of the hash that goes into the mask behind an encrypted byte: the two lowest bits of
      that byte choose it. */
  function Part(key: bytes, previous: byte): int {
    if previous % 4 == 0 then Total(key)
    else if previous % 4 == 1 then 0 - Total(key)
    else if previous % 4 == 2 then Thirds(key)
    else Folded(key)
  }

  lemma MaskOfKey(key: bytes, previous: byte)
    ensures KeyStream(KeyHash(key))(previous) == Shuffle((Part(key, previous) + previous) % 256)
  {
    hide Shuffle, Folded, Total, Thirds, KeyHash;
    var h := KeyHash(key);
    SumsOfKey(key);
    ModuloSum(0 - Total(key), previous);
    ModuloSum(Total(key), previous);
    ModuloSum(Thirds(key), previous);
    assert MaskIndex(h, previous) == (Part(key, previous) + previous) % 256;
  }

  lemma ModuloSum(a: int, b: int)
    ensures (a % 256 + b) % 256 == (a + b) % 256
  {
  }

  /** Every encrypted byte is the clear one under the table's entry for the part of the key that the
      encrypted byte before it chooses, plus that byte; 0 stands in front of the first. */
  lemma {:induction false} EncryptAt(stream: byte -> byte, previous: byte, clear: bytes, k: nat)
    requires k < |clear|
    ensures var encrypted := Encrypt(stream, previous, clear);
            && |encrypted| == |clear|
            && encrypted[k] == Xor(clear[k], stream(if k == 0 then previous else encrypted[k - 1]))
    decreases k
  {
    DecryptEncrypt(stream, previous, clear);
    if k > 0 {
      EncryptAt(stream, Xor(clear[0], stream(previous)), clear[1..], k - 1);
    }
  }

  lemma EncryptedByte(key: bytes, clear: bytes, k: nat)
    requires k < |clear|
    ensures var encrypted := Encrypt(KeyStream(KeyHash(key)), 0, clear);
            && |encrypted| == |clear|
            && var previous := if k == 0 then 0 else encrypted[k - 1];
               encrypted[k] == Xor(clear[k], Shuffle((Part(key, previous) + previous) % 256))
  {
    hide Shuffle, KeyHash, MaskIndex;
    EncryptAt(KeyStream(KeyHash(key)), 0, clear, k);
    MaskOfKey(key, if k == 0 then 0 else Encrypt(KeyStream(KeyHash(key)), 0, clear)[k - 1]);
  }

  // ---- Envelopes ----

  /** `_DUAL_WIRE_PACKET_TYPES` and `_ENCRYPTED_PACKET_TYPES`, by their second byte. */
  const DUAL: set<byte> := {0x41, 0x42, 0x43, 0x80, 0x83, 0xD1, 0xE1}
  const ENCRYPTED: set<byte> := {0x00, 0x20, 0x67, 0x70, 0x72, 0xD0, 0xD1, 0xE0, 0xE1, 0xF0}

  /** `_encode_wire_packets`: the datagrams sent for one packet. */
  function WireForms(key: bytes, packet: bytes): seq<bytes> {
    var encrypted := Encrypt(KeyStream(KeyHash(key)), 0, packet);
    if |packet| >= 2 && packet[0] == 0xF1 && packet[1] in DUAL then [packet, encrypted]
    else if |packet| >= 2 && packet[0] == 0xF1 && packet[1] in ENCRYPTED then [encrypted]
    else [packet]
  }

  predicate WellFormed(packet: bytes) {
    |packet| >= 4 && packet[0] == 0xF1 && FromU16(packet[2], packet[3]) == |packet| - 4
  }

  function Open(stream: byte -> byte, datagram: bytes): Option<bytes> {
    var clear := if datagram != [] && datagram[0] == 0xF1 then datagram else Decrypt(stream, 0, datagram);
    if WellFormed(clear) then Some(clear) else None
  }

  /** `_receive_clear` on one datagram. */
  function ReceiveClear(key: bytes, datagram: bytes): Option<bytes> {
    Open(KeyStream(KeyHash(key)), datagram)
  }

  /** The encrypted form is read back exactly when it does not itself look like a clear packet. */
  lemma OpenEncryptedIff(stream: byte -> byte, packet: bytes)
    requires WellFormed(packet) && (stream(0) != 0 || stream(0xF1) != 0)
    ensures Open(stream, Encrypt(stream, 0, packet)) == Some(packet) <==> stream(0) != 0
  {
    DecryptEncrypt(stream, 0, packet);
    var encrypted := Encrypt(stream, 0, packet);
    XorSame(0xF1, stream(0));
    XorSame(packet[1], stream(0xF1));
    assert encrypted[0] == Xor(0xF1, stream(0));
    assert encrypted[1] == Xor(packet[1], stream(encrypted[0]));
  }

  lemma StreamZero(h: Hash, previous: byte)
    ensures KeyStream(h)(previous) == 0 <==> MaskIndex(h, previous) == 27
  {
    ZeroAt27(MaskIndex(h, previous));
  }

  lemma MaskIndices(h: Hash)
    requires h.difference == (0 - h.sum) % 256
    ensures MaskIndex(h, 0) == h.sum
    ensures h.sum == 27 ==> MaskIndex(h, 0xF1) == 214
  {
  }

  lemma FirstMasks(h: Hash)
    requires h.difference == (0 - h.sum) % 256
    ensures KeyStream(h)(0) == 0 <==> h.sum == 27
    ensures h.sum == 27 ==> KeyStream(h)(0xF1) != 0
  {
    MaskIndices(h);
    StreamZero(h, 0);
    StreamZero(h, 0xF1);
  }

  lemma NegateModulo(total: nat)
    ensures (0 - total) % 256 == (0 - total % 256) % 256
  {
  }

  lemma KeyMasks(key: bytes)
    ensures KeyStream(KeyHash(key))(0) == 0 <==> Total(key) % 256 == 27
    ensures Total(key) % 256 == 27 ==> KeyStream(KeyHash(key))(0xF1) != 0
  {
    SumsOfKey(key);
    NegateModulo(Total(key));
    FirstMasks(KeyHash(key));
  }

  /** For every key and every well-formed packet, the encrypted form is read back as the packet
      exactly when the bytes of the key do not sum to 27 modulo 256. */
  lemma EncryptedFormReadBackIff(key: bytes, packet: bytes)
    requires WellFormed(packet)
    ensures ReceiveClear(key, Encrypt(KeyStream(KeyHash(key)), 0, packet)) == Some(packet)
            <==> Total(key) % 256 != 27
  {
    KeyMasks(key);
    OpenEncryptedIff(KeyStream(KeyHash(key)), packet);
  }

  /** Every datagram sent for a well-formed packet is read back as that packet, for every key
      whose bytes do not sum to 27 modulo 256. */
  lemma WireFormsReadBack(key: bytes, packet: bytes, form: bytes)
    requires WellFormed(packet) && form in WireForms(key, packet) && Total(key) % 256 != 27
    ensures ReceiveClear(key, form) == Some(packet)
  {
    EncryptedFormReadBackIff(key, packet);
  }

  /** Which forms of a packet are sent, by its kind: punches, readiness, relay requests and punches,
      acknowledgements and alive answers in both forms; the greeting, the lookup, the lists, the relay
      hellos, data, alive requests and closes encrypted; anything else in the clear. */
  lemma FormsByKind(key: bytes, packet: bytes)
    requires |packet| >= 2 && packet[0] == 0xF1
    ensures var kind, encrypted := packet[1], Encrypt(KeyStream(KeyHash(key)), 0, packet);
            WireForms(key, packet) ==
            if kind == 0x41 || kind == 0x42 || kind == 0x43 || kind == 0x80 || kind == 0x83 || kind == 0xD1 || kind == 0xE1 then
              [packet, encrypted]
            else if kind == 0x00 || kind == 0x20 || kind == 0x67 || kind == 0x70 || kind == 0x72 || kind == 0xD0
                    || kind == 0xE0 || kind == 0xF0 then
              [encrypted]
            else
              [packet]
  {
    hide Encrypt, KeyStream, KeyHash;
  }

  /** A datagram is taken for a packet exactly when it, or its decryption if it does not begin with F1,
      begins with F1 and has the length it declares. */
  lemma ReceivedIff(key: bytes, datagram: bytes, packet: bytes)
    ensures ReceiveClear(key, datagram) == Some(packet) <==>
              && packet == (if datagram != [] && datagram[0] == 0xF1 then datagram
                            else Decrypt(KeyStream(KeyHash(key)), 0, datagram))
              && |packet| >= 4 && packet[0] == 0xF1 && |packet| == 4 + 256 * (packet[2] as nat) + packet[3] as nat
  {
    hide Decrypt, KeyStream, KeyHash;
  }

  /** The substitution table has a single zero. */
  lemma ZeroAt27(i: byte)
    ensures Shuffle(i) == 0 <==> i == 27
  {
    assert i == 16 * (i / 16) + i % 16;
    if i < 128 {
      RowZero(i / 16, i % 16);
    } else {
      RowNonzero(i / 16, i % 16);
    }
  }

  lemma RowZero(r: nat, j: nat)
    requires r < 8 && j < 16
    ensures Row(r)[j] == 0 <==> r == 1 && j == 11
  {
  }

  lemma RowNonzero(r: nat, j: nat)
    requires 8 <= r < 16 && j < 16
    ensures Row(r)[j] != 0
  {
  }
}
