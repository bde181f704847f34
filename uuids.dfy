/** Identifiers as `github.com/google/uuid` writes and reads them: a 128-bit
    value, written by `String` as 32 lower-case hexadecimal digits in groups
    8-4-4-4-12, and read back by `Parse` (which `MustParse` calls). */
module Uuids {
  import opened Common
  import opened Digits

  type Uuid = n: nat | n < Pow(16, 32)

  /** `uuid.UUID.String`: xxxxxxxx-xxxx-xxxx-xxxx-xxxxxxxxxxxx in lower case. */
  function UuidString(u: Uuid): (s: string)
    ensures |s| == 36
  {
    var h := Format(16, u, 32);
    h[0..8] + "-" + h[8..12] + "-" + h[12..16] + "-" + h[16..20] + "-" + h[20..32]
  }

  /** 32 hexadecimal digits of either case. */
  function ParseHex32(h: string): (r: Option<Uuid>)
    requires |h| == 32
  {
    match Parse(16, h)
    case Some(v) => ParseBound(16, h); Some(v)
    case None => None
  }

  /** The dashed form: dashes at 8, 13, 18 and 23, hexadecimal digits elsewhere. */
  function ParseDashed(s: string): (r: Option<Uuid>)
    requires |s| >= 36
  {
    if s[8] == '-' && s[13] == '-' && s[18] == '-' && s[23] == '-' then
      ParseHex32(s[0..8] + s[9..13] + s[14..18] + s[19..23] + s[24..36])
    else None
  }

  function LowerAscii(c: char): char {
    if 'A' <= c <= 'Z' then (c as int - 'A' as int + 'a' as int) as char else c
  }

  /** Case-insensitive comparison of a prefix against an ASCII constant. */
  predicate EqualFold(s: string, t: string) {
    |s| == |t| && forall i :: 0 <= i < |s| ==> LowerAscii(s[i]) == LowerAscii(t[i])
  }

  /** A character that UTF-8 writes as a single byte. */
  predicate IsAscii(c: char) {
    c as int < 0x80
  }

  /** `uuid.Parse`: the four lengths it accepts are 36 (dashed), 45 (`urn:uuid:`
      prefix, in any case), 38 (the dashed form between two further bytes,
      whose values are not checked) and 32 (no dashes). Go measures these
      lengths in bytes; every position it checks must hold an ASCII digit,
      dash or prefix letter, so the two unchecked positions of the 38-byte
      form are the only places where a character count could differ from the
      byte count, and a non-ASCII character there makes the string longer
      than 38 bytes. */
  function ParseUuid(s: string): (r: Option<Uuid>)
  {
    if |s| == 36 then ParseDashed(s)
    else if |s| == 36 + 9 then
      if EqualFold(s[..9], "urn:uuid:") then ParseDashed(s[9..]) else None
    else if |s| == 36 + 2 then
      if IsAscii(s[0]) && IsAscii(s[37]) then ParseDashed(s[1..]) else None
    else if |s| == 32 then ParseHex32(s)
    else None
  }

  /** A string `uuid.Parse` accepts is ASCII throughout, so its length in
      characters is its length in UTF-8 bytes. */
  lemma ParsedIsAscii(s: string)
    requires ParseUuid(s).Some?
    ensures forall i :: 0 <= i < |s| ==> IsAscii(s[i])
  {
    if |s| == 36 {
      DashedIsAscii(s);
    } else if |s| == 36 + 9 {
      UrnIsAscii(s);
    } else if |s| == 36 + 2 {
      BracedIsAscii(s);
    } else {
      HexIsAscii(s);
    }
  }

  lemma UrnIsAscii(s: string)
    requires |s| == 36 + 9 && EqualFold(s[..9], "urn:uuid:") && ParseDashed(s[9..]).Some?
    ensures forall i :: 0 <= i < |s| ==> IsAscii(s[i])
  {
    DashedIsAscii(s[9..]);
    forall i | 0 <= i < |s| ensures IsAscii(s[i]) {
      if i < 9 {
        assert LowerAscii(s[..9][i]) == LowerAscii("urn:uuid:"[i]);
      } else {
        assert s[i] == s[9..][i - 9];
      }
    }
  }

  lemma BracedIsAscii(s: string)
    requires |s| == 36 + 2 && IsAscii(s[0]) && IsAscii(s[37]) && ParseDashed(s[1..]).Some?
    ensures forall i :: 0 <= i < |s| ==> IsAscii(s[i])
  {
    DashedIsAscii(s[1..]);
    forall i | 1 <= i < 37 ensures IsAscii(s[i]) {
      assert s[i] == s[1..][i - 1];
    }
  }

  lemma HexIsAscii(h: string)
    requires |h| == 32 && ParseHex32(h).Some?
    ensures forall i :: 0 <= i < |h| ==> IsAscii(h[i])
  {
    ParseAllDigits(16, h);
  }

  /** The first 36 characters of an accepted dashed form are ASCII. */
  lemma DashedIsAscii(s: string)
    requires |s| >= 36 && ParseDashed(s).Some?
    ensures forall i :: 0 <= i < 36 ==> IsAscii(s[i])
  {
    var h := s[0..8] + s[9..13] + s[14..18] + s[19..23] + s[24..36];
    HexIsAscii(h);
    forall i | 0 <= i < 36 ensures IsAscii(s[i]) {
      if i < 8 { assert s[i] == h[i]; }
      else if 8 < i < 13 { assert s[i] == h[i - 1]; }
      else if 13 < i < 18 { assert s[i] == h[i - 2]; }
      else if 18 < i < 23 { assert s[i] == h[i - 3]; }
      else if 23 < i { assert s[i] == h[i - 4]; }
    }
  }

  /** The braced form `{xxxxxxxx-…}` of every identifier parses back to it,
      and a brace position holding a character outside ASCII is refused, as
      the 39-byte string it is in UTF-8. */
  lemma BracedForm(u: Uuid, open: char, close: char)
    ensures ParseUuid([open] + UuidString(u) + [close]) ==
              if IsAscii(open) && IsAscii(close) then Some(u) else None
  {
    var s := [open] + UuidString(u) + [close];
    assert s[1..][..36] == UuidString(u);
    assert s[0] == open && s[37] == close;
    UuidRoundTrip(u);
    if IsAscii(open) && IsAscii(close) {
      DashedPrefix(s[1..]);
    }
  }

  /** `ParseDashed` looks only at the first 36 characters. */
  lemma DashedPrefix(s: string)
    requires |s| >= 36
    ensures ParseDashed(s) == ParseDashed(s[..36])
  {
    var t := s[..36];
    assert t[0..8] == s[0..8] && t[9..13] == s[9..13] && t[14..18] == s[14..18];
    assert t[19..23] == s[19..23] && t[24..36] == s[24..36];
  }

  lemma ParseDashedOfGroups(a: string, b: string, c: string, d: string, e: string)
    requires |a| == 8 && |b| == 4 && |c| == 4 && |d| == 4 && |e| == 12
    ensures ParseDashed(a + "-" + b + "-" + c + "-" + d + "-" + e) == ParseHex32(a + b + c + d + e)
  {
    var s := a + "-" + b + "-" + c + "-" + d + "-" + e;
    assert s[8] == '-' && s[13] == '-' && s[18] == '-' && s[23] == '-';
    assert s[0..8] == a by { assert forall i :: 0 <= i < 8 ==> s[i] == a[i]; }
    assert s[9..13] == b by { assert forall i :: 0 <= i < 4 ==> s[9 + i] == b[i]; }
    assert s[14..18] == c by { assert forall i :: 0 <= i < 4 ==> s[14 + i] == c[i]; }
    assert s[19..23] == d by { assert forall i :: 0 <= i < 4 ==> s[19 + i] == d[i]; }
    assert s[24..36] == e by { assert forall i :: 0 <= i < 12 ==> s[24 + i] == e[i]; }
  }

  /** Every identifier survives `String` followed by `Parse`. */
  lemma UuidRoundTrip(u: Uuid)
    ensures ParseUuid(UuidString(u)) == Some(u)
  {
    var h := Format(16, u, 32);
    HexRoundTrip(u);
    JoinGroups(h);
    ParseDashedOfGroups(h[0..8], h[8..12], h[12..16], h[16..20], h[20..32]);
  }

  /** The 32 digits `String` writes read back as the identifier. */
  lemma HexRoundTrip(u: Uuid)
    ensures ParseHex32(Format(16, u, 32)) == Some(u)
  {
    ParseFormat(16, u, 32);
  }

  /** The five groups of 32 digits put back together are those digits. */
  lemma JoinGroups(h: string)
    requires |h| == 32
    ensures h[0..8] + h[8..12] + h[12..16] + h[16..20] + h[20..32] == h
  {
    var j := h[0..8] + h[8..12] + h[12..16] + h[16..20] + h[20..32];
    assert forall i :: 0 <= i < 32 ==> j[i] == h[i];
  }
}
