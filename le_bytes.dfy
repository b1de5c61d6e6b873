/**
 * Little-endian byte expansion of 32-bit words, as used for payloads that
 * older devices sent as integer arrays.
 */
module LeBytes {
  import opened Types

  /** The value of a little-endian byte string. */
  function LeValue(bytes: seq<uint8>): nat {
    if bytes == [] then 0 else bytes[0] + 0x100 * LeValue(bytes[1..])
  }

  /** The value of four little-endian bytes, written out. */
  lemma LeValueOfFour(bytes: seq<uint8>)
    requires |bytes| == 4
    ensures LeValue(bytes) == Word(bytes[0], bytes[1], bytes[2], bytes[3])
  {
    var b1 := bytes[1..];
    var b2 := b1[1..];
    var b3 := b2[1..];
    assert b3[1..] == [];
    assert LeValue(b3) == bytes[3];
    assert LeValue(b2) == bytes[2] as int + 0x100 * (bytes[3] as int);
    assert LeValue(b1) == bytes[1] as int + 0x100 * (bytes[2] as int + 0x100 * (bytes[3] as int));
  }

  function Word(b0: int, b1: int, b2: int, b3: int): int {
    b0 + 0x100 * (b1 + 0x100 * (b2 + 0x100 * b3))
  }

  /** The four little-endian bytes of a word. */
  function WordToLeBytes(w: uint32): (bytes: seq<uint8>)
    ensures |bytes| == 4
    ensures LeValue(bytes) == w
  {
    var q1 := w / 0x100;
    var q2 := q1 / 0x100;
    var q3 := q2 / 0x100;
    assert q3 < 0x100;
    var bytes := [w % 0x100, q1 % 0x100, q2 % 0x100, q3];
    LeValueOfFour(bytes);
    bytes
  }

  /** Reads four little-endian bytes back as a word. */
  function LeBytesToWord(bytes: seq<uint8>): (w: uint32)
    requires |bytes| == 4
    ensures w == LeValue(bytes)
  {
    LeValueOfFour(bytes);
    Word(bytes[0], bytes[1], bytes[2], bytes[3])
  }

  lemma WordRoundTrip(w: uint32)
    ensures LeBytesToWord(WordToLeBytes(w)) == w
  {
  }

  /** Expands every word into its four bytes and concatenates them in order. */
  function Flatten(words: seq<uint32>): (bytes: seq<uint8>)
    ensures |bytes| == 4 * |words|
  {
    if words == [] then [] else WordToLeBytes(words[0]) + Flatten(words[1..])
  }

  /** Bytes 4i to 4i+3 of the expansion are the bytes of word i. */
  lemma {:induction false} FlattenAt(words: seq<uint32>, i: nat)
    requires i < |words|
    ensures Flatten(words)[4 * i .. 4 * i + 4] == WordToLeBytes(words[i])
  {
    if i > 0 {
      FlattenAt(words[1..], i - 1);
      assert Flatten(words)[4 * i .. 4 * i + 4] == Flatten(words[1..])[4 * (i - 1) .. 4 * (i - 1) + 4];
    }
  }

  /** Regroups a byte string of length 4n into n words. */
  function Unflatten(bytes: seq<uint8>): (words: seq<uint32>)
    requires |bytes| % 4 == 0
    ensures |words| == |bytes| / 4
  {
    if bytes == [] then [] else [LeBytesToWord(bytes[..4])] + Unflatten(bytes[4..])
  }

  lemma {:induction false} FlattenRoundTrip(words: seq<uint32>)
    ensures Unflatten(Flatten(words)) == words
  {
    if words != [] {
      var bytes := Flatten(words);
      assert bytes[..4] == WordToLeBytes(words[0]);
      assert bytes[4..] == Flatten(words[1..]);
      WordRoundTrip(words[0]);
      FlattenRoundTrip(words[1..]);
    }
  }

  lemma FlattenExample()
    ensures Flatten([0x0102]) == [0x02, 0x01, 0x00, 0x00]
  {
  }
}
