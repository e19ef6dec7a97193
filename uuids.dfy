/**
  google/uuid's UUID: sixteen bytes, printed by String() in the canonical
  lowercase 8-4-4-4-12 hexadecimal form. Parse reads that form back; it is
  the inverse used to show that String loses nothing.
 */
module Uuids {
  import opened Base

  type Byte = b: int | 0 <= b < 256

  type Uuid = s: seq<Byte> | |s| == 16 witness seq(16, _ => 0)

  /** uuid.Nil, the all-zero UUID. */
  const Nil: Uuid := [0, 0, 0, 0, 0, 0, 0, 0, 0, 0, 0, 0, 0, 0, 0, 0]

  /** The lowercase hexadecimal digit for a value below sixteen. */
  function HexDigit(n: int): char
    requires 0 <= n < 16
  {
    if n < 10 then (n + 48) as char else (n + 87) as char
  }

  /** The value of a lowercase hexadecimal digit, if c is one. */
  function HexValue(c: char): (r: Option<int>)
    ensures r.Some? ==> 0 <= r.value < 16
  {
    if '0' <= c <= '9' then Some(c as int - 48)
    else if 'a' <= c <= 'f' then Some(c as int - 87)
    else None
  }

  lemma HexDigitValue(n: int)
    requires 0 <= n < 16
    ensures HexValue(HexDigit(n)) == Some(n)
  {
  }

  lemma ValueDigit(c: char)
    requires HexValue(c).Some?
    ensures HexDigit(HexValue(c).value) == c
  {
  }

  /** Two lowercase hexadecimal digits per byte, high nibble first. */
  function Hex(bytes: seq<Byte>): (s: string)
    ensures |s| == 2 * |bytes|
  {
    if bytes == [] then ""
    else [HexDigit(bytes[0] / 16), HexDigit(bytes[0] % 16)] + Hex(bytes[1..])
  }

  /** Reads a string of lowercase hexadecimal digit pairs back into bytes. */
  function Unhex(s: string): (r: Option<seq<Byte>>)
    ensures r.Some? ==> 2 * |r.value| == |s|
    decreases |s|
  {
    if |s| == 0 then Some([])
    else if |s| == 1 then None
    else
      match (HexValue(s[0]), HexValue(s[1]), Unhex(s[2..]))
      case (Some(hi), Some(lo), Some(rest)) => Some([hi * 16 + lo] + rest)
      case _ => None
  }

  lemma {:induction false} UnhexOfHex(bytes: seq<Byte>)
    ensures Unhex(Hex(bytes)) == Some(bytes)
  {
    if bytes != [] {
      var b := bytes[0];
      var s := Hex(bytes);
      HexDigitValue(b / 16);
      HexDigitValue(b % 16);
      assert s[2..] == Hex(bytes[1..]);
      UnhexOfHex(bytes[1..]);
      assert bytes == [b / 16 * 16 + b % 16] + bytes[1..];
    }
  }

  lemma {:induction false} HexOfUnhex(s: string)
    requires Unhex(s).Some?
    ensures Hex(Unhex(s).value) == s
  {
    if |s| >= 2 {
      var hi, lo := HexValue(s[0]).value, HexValue(s[1]).value;
      HexOfUnhex(s[2..]);
      ValueDigit(s[0]);
      ValueDigit(s[1]);
      var bytes := Unhex(s).value;
      assert bytes[0] / 16 == hi && bytes[0] % 16 == lo;
      assert bytes[1..] == Unhex(s[2..]).value;
      assert s == [s[0], s[1]] + s[2..];
    }
  }

  /** uuid.UUID.String: xxxxxxxx-xxxx-xxxx-xxxx-xxxxxxxxxxxx in lowercase. */
  function String(u: Uuid): (s: string)
    ensures |s| == 36
  {
    Hex(u[..4]) + "-" + Hex(u[4..6]) + "-" + Hex(u[6..8]) + "-" + Hex(u[8..10]) + "-" + Hex(u[10..])
  }

  /** Reads the canonical lowercase form; anything else is rejected. */
  function Parse(s: string): Option<Uuid>
  {
    if |s| != 36 || s[8] != '-' || s[13] != '-' || s[18] != '-' || s[23] != '-' then None
    else
      match (Unhex(s[..8]), Unhex(s[9..13]), Unhex(s[14..18]), Unhex(s[19..23]), Unhex(s[24..]))
      case (Some(a), Some(b), Some(c), Some(d), Some(e)) => Some(a + b + c + d + e)
      case _ => None
  }

  lemma ParseOfString(u: Uuid)
    ensures Parse(String(u)) == Some(u)
  {
    var s := String(u);
    assert s[..8] == Hex(u[..4]);
    assert s[9..13] == Hex(u[4..6]);
    assert s[14..18] == Hex(u[6..8]);
    assert s[19..23] == Hex(u[8..10]);
    assert s[24..] == Hex(u[10..]);
    UnhexOfHex(u[..4]);
    UnhexOfHex(u[4..6]);
    UnhexOfHex(u[6..8]);
    UnhexOfHex(u[8..10]);
    UnhexOfHex(u[10..]);
    assert u == u[..4] + u[4..6] + u[6..8] + u[8..10] + u[10..];
  }

  lemma Slices(u: seq<Byte>, a: seq<Byte>, b: seq<Byte>, c: seq<Byte>, d: seq<Byte>, e: seq<Byte>)
    requires |a| == 4 && |b| == 2 && |c| == 2 && |d| == 2 && |e| == 6
    requires u == a + b + c + d + e
    ensures u[..4] == a && u[4..6] == b && u[6..8] == c && u[8..10] == d && u[10..] == e
  {
    var r1 := b + c + d + e;
    var r2 := c + d + e;
    var r3 := d + e;
    assert u == a + r1;
    assert u[..4] == a && u[4..] == r1;
    assert r1 == b + r2 && r1[..2] == b && r1[2..] == r2;
    assert r2 == c + r3 && r2[..2] == c && r2[2..] == r3;
    assert r3[..2] == d && r3[2..] == e;
  }

  lemma StringOfParts(u: Uuid, a: seq<Byte>, b: seq<Byte>, c: seq<Byte>, d: seq<Byte>, e: seq<Byte>)
    requires |a| == 4 && |b| == 2 && |c| == 2 && |d| == 2 && |e| == 6
    requires u == a + b + c + d + e
    ensures String(u) == Hex(a) + "-" + Hex(b) + "-" + Hex(c) + "-" + Hex(d) + "-" + Hex(e)
  {
    Slices(u, a, b, c, d, e);
  }

  lemma SplitAtDashes(s: string)
    requires |s| == 36 && s[8] == '-' && s[13] == '-' && s[18] == '-' && s[23] == '-'
    ensures s == s[..8] + "-" + s[9..13] + "-" + s[14..18] + "-" + s[19..23] + "-" + s[24..]
  {
  }

  lemma StringOfParse(s: string)
    requires Parse(s).Some?
    ensures String(Parse(s).value) == s
  {
    var a, b, c := Unhex(s[..8]).value, Unhex(s[9..13]).value, Unhex(s[14..18]).value;
    var d, e := Unhex(s[19..23]).value, Unhex(s[24..]).value;
    HexOfUnhex(s[..8]);
    HexOfUnhex(s[9..13]);
    HexOfUnhex(s[14..18]);
    HexOfUnhex(s[19..23]);
    HexOfUnhex(s[24..]);
    StringOfParts(Parse(s).value, a, b, c, d, e);
    SplitAtDashes(s);
  }

  /** The characters the canonical form is made of. */
  predicate IsUuidChar(c: char)
  {
    HexValue(c).Some? || c == '-'
  }

  lemma {:induction false} HexChars(bytes: seq<Byte>)
    ensures forall i :: 0 <= i < |Hex(bytes)| ==> HexValue(Hex(bytes)[i]).Some?
  {
    if bytes != [] {
      HexDigitValue(bytes[0] / 16);
      HexDigitValue(bytes[0] % 16);
      HexChars(bytes[1..]);
    }
  }

  /** The canonical form holds only lowercase hexadecimal digits and hyphens. */
  lemma StringChars(u: Uuid)
    ensures forall i :: 0 <= i < |String(u)| ==> IsUuidChar(String(u)[i])
  {
    HexChars(u[..4]);
    HexChars(u[4..6]);
    HexChars(u[6..8]);
    HexChars(u[8..10]);
    HexChars(u[10..]);
  }

  /** Distinct UUIDs print differently. */
  lemma StringInjective(a: Uuid, b: Uuid)
    ensures String(a) == String(b) <==> a == b
  {
    if String(a) == String(b) {
      ParseOfString(a);
      ParseOfString(b);
    }
  }
}
