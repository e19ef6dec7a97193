/**
  The slice of encoding/json the outbox serializer relies on: json.Marshal
  of a struct whose fields are strings and integers, which writes an object
  `{"key":value,...}` with the members in field order, strings quoted and
  escaped, and integers in decimal. ParseObject reads such an object back
  when its strings need no escaping; it is the inverse used to show that
  the text holds exactly the members it was made from.
 */
module Json {
  import opened Base

  datatype Value = JString(s: string) | JInt(n: int)

  type Member = (string, Value)

  predicate IsDigit(c: char)
  {
    '0' <= c <= '9'
  }

  predicate AllDigits(s: string)
  {
    forall i :: 0 <= i < |s| ==> IsDigit(s[i])
  }

  function Digit(d: int): char
    requires 0 <= d < 10
  {
    (d + 48) as char
  }

  /** The decimal digits of a natural number, without leading zeros. */
  function NatString(n: nat): (s: string)
    ensures |s| > 0 && AllDigits(s)
  {
    if n < 10 then [Digit(n)] else NatString(n / 10) + [Digit(n % 10)]
  }

  /** strconv.FormatInt(n, 10): a minus sign for a negative number, then the digits. */
  function IntString(n: int): (s: string)
    ensures |s| > 0 && (AllDigits(s) || (s[0] == '-' && |s| > 1 && AllDigits(s[1..])))
  {
    if n < 0 then "-" + NatString(-n) else NatString(n)
  }

  function ParseNat(s: string): nat
    requires |s| > 0 && AllDigits(s)
  {
    if |s| == 1 then s[0] as int - 48 else ParseNat(s[..|s| - 1]) * 10 + (s[|s| - 1] as int - 48)
  }

  /** Reads an optional minus sign and one or more decimal digits. */
  function ParseInt(s: string): Option<int>
  {
    if |s| > 1 && s[0] == '-' && AllDigits(s[1..]) then Some(0 - ParseNat(s[1..]) as int)
    else if |s| > 0 && AllDigits(s) then Some(ParseNat(s))
    else None
  }

  lemma {:induction false} ParseNatOfNatString(n: nat)
    ensures ParseNat(NatString(n)) == n
  {
    if n >= 10 {
      var s := NatString(n);
      assert s[..|s| - 1] == NatString(n / 10);
      ParseNatOfNatString(n / 10);
    }
  }

  /** Reading back the decimal text of an integer gives the integer. */
  lemma ParseIntOfIntString(n: int)
    ensures ParseInt(IntString(n)) == Some(n)
  {
    if n < 0 {
      ParseIntOfNegative(n);
    } else {
      ParseNatOfNatString(n);
      NoMinus(NatString(n));
    }
  }

  lemma ParseIntOfNegative(n: int)
    requires n < 0
    ensures ParseInt(IntString(n)) == Some(n)
  {
    var d := NatString(-n);
    assert IntString(n) == "-" + d;
    assert ("-" + d)[1..] == d;
    ParseNatOfNatString(-n);
  }

  lemma NoMinus(s: string)
    requires |s| > 0 && AllDigits(s)
    ensures s[0] != '-'
  {
    assert IsDigit(s[0]);
  }

  /** The escape json.Marshal writes for one character of a string. */
  function EscapeChar(c: char): (e: string)
    ensures |e| > 0
  {
    if c == '"' then "\\\""
    else if c == '\\' then "\\\\"
    else if c == '\n' then "\\n"
    else if c == '\r' then "\\r"
    else if c == '\t' then "\\t"
    else if c == '\U{0008}' then "\\b"
    else if c == '\U{000C}' then "\\f"
    else if c < ' ' then "\\u00" + [HexLower(c as int / 16), HexLower(c as int % 16)]
    else if c == '<' then "\\u003c"
    else if c == '>' then "\\u003e"
    else if c == '&' then "\\u0026"
    else if c == '\U{2028}' then "\\u2028"
    else if c == '\U{2029}' then "\\u2029"
    else [c]
  }

  function HexLower(n: int): char
    requires 0 <= n < 16
  {
    if n < 10 then (n + 48) as char else (n + 87) as char
  }

  /** A character that json.Marshal writes as itself. */
  predicate IsPlainChar(c: char)
  {
    c >= ' ' && c != '"' && c != '\\' && c != '<' && c != '>' && c != '&' && c != '\U{2028}' && c != '\U{2029}'
  }

  predicate IsPlain(s: string)
  {
    forall i :: 0 <= i < |s| ==> IsPlainChar(s[i])
  }

  function Escape(s: string): string
  {
    if s == [] then "" else EscapeChar(s[0]) + Escape(s[1..])
  }

  /** A string of plain characters is written unchanged. */
  lemma {:induction false} EscapePlain(s: string)
    requires IsPlain(s)
    ensures Escape(s) == s
  {
    if s != [] {
      EscapePlain(s[1..]);
      assert s == [s[0]] + s[1..];
    }
  }

  /** A string as json.Marshal writes it: quoted, with its characters escaped. */
  function Quote(s: string): string
  {
    "\"" + Escape(s) + "\""
  }

  function EncodeValue(v: Value): string
  {
    match v
    case JString(s) => Quote(s)
    case JInt(n) => IntString(n)
  }

  function EncodeMember(m: Member): string
  {
    Quote(m.0) + ":" + EncodeValue(m.1)
  }

  function EncodeMembers(ms: seq<Member>): string
  {
    if ms == [] then ""
    else if |ms| == 1 then EncodeMember(ms[0])
    else EncodeMember(ms[0]) + "," + EncodeMembers(ms[1..])
  }

  /** json.Marshal of a struct: its members in field order, between braces. */
  function Object(ms: seq<Member>): string
  {
    "{" + EncodeMembers(ms) + "}"
  }

  /** The first position of c in s, or |s| when it does not occur. */
  function IndexOf(s: string, c: char): (i: nat)
    ensures i <= |s|
    ensures i < |s| ==> s[i] == c
    ensures forall j :: 0 <= j < i ==> s[j] != c
  {
    if s == [] || s[0] == c then 0 else 1 + IndexOf(s[1..], c)
  }

  lemma {:induction false} IndexOfAppend(a: string, b: string, c: char)
    requires forall j :: 0 <= j < |a| ==> a[j] != c
    requires b != [] && b[0] == c
    ensures IndexOf(a + b, c) == |a|
  {
    if a != [] {
      assert (a + b)[1..] == a[1..] + b;
      IndexOfAppend(a[1..], b, c);
    }
  }

  lemma IndexOfAbsent(a: string, c: char)
    requires forall j :: 0 <= j < |a| ==> a[j] != c
    ensures IndexOf(a, c) == |a|
  {
  }

  /**
    Reads one value at the front of v: a string up to the next quote, or the
    integer up to the next comma. Gives the value and what follows it.
   */
  function ParseValue(v: string): (r: Option<(Value, string)>)
    ensures r.Some? ==> |r.value.1| < |v|
  {
    if |v| > 0 && v[0] == '"' then
      var j := 1 + IndexOf(v[1..], '"');
      if j >= |v| then None else Some((JString(v[1..j]), v[j + 1..]))
    else
      var j := IndexOf(v, ',');
      match ParseInt(v[..j])
      case Some(n) => Some((JInt(n), v[j..]))
      case None => None
  }

  /** Reads `"key":value` members separated by commas. */
  function ParseMembers(s: string): Option<seq<Member>>
    decreases |s|
  {
    if |s| < 2 || s[0] != '"' then None
    else
      var i := 1 + IndexOf(s[1..], '"');
      if i + 1 >= |s| || s[i + 1] != ':' then None
      else
        match ParseValue(s[i + 2..])
        case None => None
        case Some((value, after)) =>
          if after == [] then Some([(s[1..i], value)])
          else if after[0] != ',' then None
          else
            match ParseMembers(after[1..])
            case None => None
            case Some(rest) => Some([(s[1..i], value)] + rest)
  }

  /** Reads an object of such members; an empty object has none. */
  function ParseObject(text: string): Option<seq<Member>>
  {
    if |text| < 2 || text[0] != '{' || text[|text| - 1] != '}' then None
    else if |text| == 2 then Some([])
    else ParseMembers(text[1..|text| - 1])
  }

  /** Every key and every string value is made of plain characters. */
  predicate IsPlainMember(m: Member)
  {
    IsPlain(m.0) && (m.1.JString? ==> IsPlain(m.1.s))
  }

  lemma NoQuoteInPlain(s: string)
    requires IsPlain(s)
    ensures forall j :: 0 <= j < |s| ==> s[j] != '"'
  {
  }

  lemma NoCommaInInt(n: int)
    ensures forall j :: 0 <= j < |IntString(n)| ==> IntString(n)[j] != ',' && IntString(n)[j] != '"'
  {
    var s := IntString(n);
    forall j | 0 <= j < |s|
      ensures s[j] != ',' && s[j] != '"'
    {
      if !AllDigits(s) {
        assert j == 0 || IsDigit(s[1..][j - 1]);
      } else {
        assert IsDigit(s[j]);
      }
    }
  }

  /** A string written in front of the end or of a comma is read back, and so is what follows it. */
  lemma ParseStringOfEncode(x: string, tail: string)
    requires IsPlain(x)
    ensures ParseValue(EncodeValue(JString(x)) + tail) == Some((JString(x), tail))
  {
    var t := EncodeValue(JString(x)) + tail;
    EscapePlain(x);
    NoQuoteInPlain(x);
    assert t == "\"" + (x + ("\"" + tail));
    assert t[1..] == x + ("\"" + tail);
    IndexOfAppend(x, "\"" + tail, '"');
    assert t[1..1 + |x|] == x;
    assert t[1 + |x| + 1..] == tail;
  }

  /** An integer written in front of the end or of a comma is read back, and so is what follows it. */
  lemma ParseIntOfEncode(n: int, tail: string)
    requires tail == [] || tail[0] == ','
    ensures ParseValue(EncodeValue(JInt(n)) + tail) == Some((JInt(n), tail))
  {
    var d := IntString(n);
    var t := d + tail;
    NoCommaInInt(n);
    assert t[0] == d[0];
    if tail == [] {
      assert t == d;
      IndexOfAbsent(d, ',');
    } else {
      IndexOfAppend(d, tail, ',');
    }
    assert t[..|d|] == d && t[|d|..] == tail;
    ParseIntOfIntString(n);
  }

  /** A key without quotes, between quotes and followed by a colon. */
  lemma QuotedKey(k: string, rest: string)
    requires forall j :: 0 <= j < |k| ==> k[j] != '"'
    ensures var s := "\"" + k + "\":" + rest;
      && |s| >= |k| + 3 && s[0] == '"'
      && 1 + IndexOf(s[1..], '"') == 1 + |k|
      && s[1..1 + |k|] == k
      && s[|k| + 2] == ':'
      && s[|k| + 3..] == rest
  {
    var s := "\"" + k + "\":" + rest;
    assert s[1..] == k + ("\":" + rest);
    IndexOfAppend(k, "\":" + rest, '"');
  }

  /** One member, written in front of the end or of a comma. */
  lemma ParseMemberStep(m: Member, tail: string)
    requires IsPlainMember(m)
    ensures EncodeMember(m) + tail == "\"" + m.0 + "\":" + (EncodeValue(m.1) + tail)
  {
    EscapePlain(m.0);
  }

  /** ParseMembers takes one written member off the front of the text. */
  lemma ParseMembersStep(m: Member, tail: string)
    requires IsPlainMember(m)
    requires tail == [] || tail[0] == ','
    ensures ParseMembers(EncodeMember(m) + tail) ==
      if tail == [] then Some([m])
      else match ParseMembers(tail[1..])
        case None => None
        case Some(rest) => Some([m] + rest)
  {
    var s := EncodeMember(m) + tail;
    ParseMemberStep(m, tail);
    NoQuoteInPlain(m.0);
    QuotedKey(m.0, EncodeValue(m.1) + tail);
    if m.1.JString? {
      ParseStringOfEncode(m.1.s, tail);
    } else {
      ParseIntOfEncode(m.1.n, tail);
    }
  }

  /** EncodeMembers writes the first member, then a comma and the others. */
  lemma EncodeMembersCons(ms: seq<Member>)
    requires |ms| > 0
    ensures EncodeMembers(ms) == EncodeMember(ms[0]) + (if |ms| == 1 then "" else "," + EncodeMembers(ms[1..]))
  {
  }

  /** One member in front of others that read back reads back in front of them. */
  lemma ParseMembersCons(ms: seq<Member>)
    requires |ms| > 1 && IsPlainMember(ms[0])
    requires ParseMembers(EncodeMembers(ms[1..])) == Some(ms[1..])
    ensures ParseMembers(EncodeMembers(ms)) == Some(ms)
  {
    var tail := "," + EncodeMembers(ms[1..]);
    EncodeMembersCons(ms);
    ParseMembersStep(ms[0], tail);
    assert tail[1..] == EncodeMembers(ms[1..]);
    assert ms == [ms[0]] + ms[1..];
  }

  /** ParseMembers reads back exactly the members that were written. */
  lemma {:induction false} ParseMembersOfEncode(ms: seq<Member>)
    requires |ms| > 0
    requires forall i :: 0 <= i < |ms| ==> IsPlainMember(ms[i])
    ensures ParseMembers(EncodeMembers(ms)) == Some(ms)
  {
    if |ms| == 1 {
      EncodeMembersCons(ms);
      ParseMembersStep(ms[0], "");
      assert EncodeMember(ms[0]) + "" == EncodeMember(ms[0]);
      assert ms == [ms[0]];
    } else {
      var rest := ms[1..];
      assert forall i :: 0 <= i < |rest| ==> IsPlainMember(rest[i]) by {
        forall i | 0 <= i < |rest| ensures IsPlainMember(rest[i]) {
          assert rest[i] == ms[i + 1];
        }
      }
      ParseMembersOfEncode(rest);
      ParseMembersCons(ms);
    }
  }

  /** json.Marshal's text of plain members is read back as exactly those members. */
  lemma ParseObjectOfObject(ms: seq<Member>)
    requires forall i :: 0 <= i < |ms| ==> IsPlainMember(ms[i])
    ensures ParseObject(Object(ms)) == Some(ms)
  {
    var text := Object(ms);
    if ms == [] {
      assert text == "{}";
    } else {
      var body := EncodeMembers(ms);
      assert |EncodeMember(ms[0])| > 0;
      assert |body| > 0;
      assert text[1..|text| - 1] == body;
      ParseMembersOfEncode(ms);
    }
  }
}
