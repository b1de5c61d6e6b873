/**
 * Canonical Bluetooth UUID strings.  A string shorter than 8 characters is a
 * short alias written with a two-character prefix ("0x180D"); the prefix is
 * dropped and the rest is placed into the Bluetooth SIG base UUID.  Longer
 * strings are only lowercased.  Characters are treated as ASCII.
 */
module Uuid {

  function AsciiLower(c: char): char {
    if 'A' <= c <= 'Z' then (c as int + ('a' as int - 'A' as int)) as char else c
  }

  predicate IsLowercase(s: string) {
    forall i :: 0 <= i < |s| ==> !('A' <= s[i] <= 'Z')
  }

  /** ASCII lowercasing, character by character. */
  function Lower(s: string): string {
    seq(|s|, i requires 0 <= i < |s| => AsciiLower(s[i]))
  }

  /** Lowercasing keeps the length, leaves no upper-case letter, and leaves a lowercase
      string as it is. */
  lemma LowerProperties(s: string)
    ensures |Lower(s)| == |s|
    ensures IsLowercase(Lower(s))
    ensures IsLowercase(s) ==> Lower(s) == s
  {
  }

  const BaseUuidSuffix: string := "-0000-1000-8000-00805f9b34fb"

  /** Canonical UUID text: lowercased, and a string of fewer than 8 characters loses its first
      two characters and is placed into the base UUID. */
  function UuidConvert(uuid: string): (r: string)
    requires |uuid| >= 2
    ensures |r| == if |uuid| < 8 then |uuid| + 30 else |uuid|
    ensures |uuid| >= 8 ==> r == Lower(uuid)
  {
    var lowered := Lower(uuid);
    if |lowered| < 8 then "0000" + lowered[2..] + BaseUuidSuffix else lowered
  }

  lemma SuffixLowercase()
    ensures IsLowercase("0000") && IsLowercase(BaseUuidSuffix)
  {
  }

  lemma ConcatLowercase(a: string, b: string)
    requires IsLowercase(a) && IsLowercase(b)
    ensures IsLowercase(a + b)
  {
    forall i | 0 <= i < |a + b| ensures !('A' <= (a + b)[i] <= 'Z') {
      if i >= |a| {
        assert (a + b)[i] == b[i - |a|];
      }
    }
  }

  /** The converted UUID contains no upper-case letter. */
  lemma UuidConvertLowercase(uuid: string)
    requires |uuid| >= 2
    ensures IsLowercase(UuidConvert(uuid))
  {
    LowerProperties(uuid);
    var lowered := Lower(uuid);
    if |uuid| < 8 {
      assert IsLowercase(lowered[2..]);
      SuffixLowercase();
      ConcatLowercase("0000", lowered[2..]);
      ConcatLowercase("0000" + lowered[2..], BaseUuidSuffix);
    }
  }

  /** A short input keeps all but its first two characters, lowercased, between "0000" and the
      base UUID suffix, and grows by 30 characters. */
  lemma UuidConvertShortShape(uuid: string)
    requires 2 <= |uuid| < 8
    ensures |UuidConvert(uuid)| == |uuid| + 30
    ensures UuidConvert(uuid)[..4] == "0000"
    ensures UuidConvert(uuid)[4..|uuid| + 2] == Lower(uuid[2..])
    ensures UuidConvert(uuid)[|uuid| + 2..] == BaseUuidSuffix
  {
    var lowered := Lower(uuid);
    assert lowered[2..] == Lower(uuid[2..]);
  }

  /** Converting a converted UUID changes nothing. */
  lemma UuidConvertIdempotent(uuid: string)
    requires |uuid| >= 2
    ensures UuidConvert(UuidConvert(uuid)) == UuidConvert(uuid)
  {
    UuidConvertLowercase(uuid);
    LowerProperties(UuidConvert(uuid));
  }

  /** A prefixed 16-bit alias such as "0x180D" expands to a full 36-character UUID with its
      hyphens in place and the four alias digits lowercased at positions 4 to 7. */
  lemma ShortAliasExpands(uuid: string)
    requires |uuid| == 6
    ensures var r := UuidConvert(uuid);
      && |r| == 36
      && r[..4] == "0000"
      && r[4..8] == Lower(uuid[2..])
      && r[8] == '-' && r[13] == '-' && r[18] == '-' && r[23] == '-'
      && r[8..] == BaseUuidSuffix
  {
    UuidConvertShortShape(uuid);
    var r := UuidConvert(uuid);
    assert r[8..][0] == '-' && r[8..][5] == '-' && r[8..][10] == '-' && r[8..][15] == '-';
  }

  /** "0x180D" becomes 0000180d-0000-1000-8000-00805f9b34fb. */
  lemma PrefixedShortUuidExample()
    ensures UuidConvert("0x180D") == "0000" + "180d" + BaseUuidSuffix
  {
    assert Lower("0x180D")[2..] == "180d";
  }

  /** A four-character alias without prefix loses its first two digits:
      "180d" becomes 00000d-0000-1000-8000-00805f9b34fb. */
  lemma UnprefixedShortUuidExample()
    ensures UuidConvert("180d") == "0000" + "0d" + BaseUuidSuffix
  {
    assert Lower("180d")[2..] == "0d";
  }

  lemma FullUuidExample()
    ensures UuidConvert("0000180d-0000-1000-8000-00805f9b34fb") == "0000180d-0000-1000-8000-00805f9b34fb"
  {
    LowerProperties("0000180d-0000-1000-8000-00805f9b34fb");
  }
}
