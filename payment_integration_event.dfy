/**
  The payment outbox serializer: each account event becomes the JSON text of
  its wire struct (snake_case keys, the user id as its canonical string,
  times as Unix seconds); any other event is refused with an error naming
  its type.
 */
module PaymentIntegrationEvent {
  import opened Base
  import opened Uuids
  import opened PaymentModel
  import opened Json

  /** What the outbox hands the serializer: an account event, or an event of some other type. */
  datatype OutboxEvent = Domain(event: AccountEvent) | Other(typeTag: string)

  /** The (string, error) pair Serialize returns. */
  datatype Serialized = Serialized(text: string, err: Option<string>)

  /** The wire struct, decoded: which kind it is, and the three fields it carries. */
  datatype Kind = Created | BalanceUpdated
  datatype Wire = Wire(kind: Kind, userId: Uuid, balance: Int64, seconds: int)

  function KindOf(e: AccountEvent): Kind
  {
    if e.AccountCreated? then Created else BalanceUpdated
  }

  /** The JSON tag of the time field of each wire struct. */
  function TimeKey(kind: Kind): (key: string)
    ensures key == "created_at" || key == "updated_at"
  {
    match kind
    case Created => "created_at"
    case BalanceUpdated => "updated_at"
  }

  function EventTime(e: AccountEvent): Time
  {
    match e
    case AccountCreated(_, _, createdAt) => createdAt
    case AccountBalanceUpdated(_, _, updatedAt) => updatedAt
  }

  /** The wire struct built from an event, as its members in field order. */
  function Members(e: AccountEvent): (ms: seq<Member>)
    ensures |ms| == 3
    ensures ms[0] == ("user_id", JString(String(e.userId)))
    ensures ms[1] == ("balance", JInt(e.balance))
    ensures ms[2] == (TimeKey(KindOf(e)), JInt(Unix(EventTime(e))))
  {
    match e
    case AccountCreated(userId, balance, createdAt) =>
      [("user_id", JString(String(userId))), ("balance", JInt(balance)), ("created_at", JInt(Unix(createdAt)))]
    case AccountBalanceUpdated(userId, balance, updatedAt) =>
      [("user_id", JString(String(userId))), ("balance", JInt(balance)), ("updated_at", JInt(Unix(updatedAt)))]
  }

  /** fmt's %q of a type tag: quoted, with quotes, backslashes and line breaks escaped. */
  function GoQuote(s: string): (q: string)
    ensures |q| >= 2 && q[0] == '"' && q[|q| - 1] == '"'
  {
    "\"" + GoEscape(s) + "\""
  }

  /** The escape of one rune: a backslash and a letter for the five escaped ones, the rune itself otherwise. */
  function GoEscapeRune(c: char): (e: string)
    ensures |e| == 1 || |e| == 2
    ensures e[0] == '\\' <==> |e| == 2
  {
    if c == '"' then "\\\"" else if c == '\\' then "\\\\" else if c == '\n' then "\\n"
    else if c == '\r' then "\\r" else if c == '\t' then "\\t" else [c]
  }

  function GoEscape(s: string): string
  {
    if s == [] then "" else GoEscapeRune(s[0]) + GoEscape(s[1..])
  }

  /** No rune's escape is a proper prefix of another's, so the first rune of an escaped text is determined. */
  lemma GoEscapeRuneFirst(c: char, d: char, x: string, y: string)
    requires GoEscapeRune(c) + x == GoEscapeRune(d) + y
    ensures c == d && x == y
  {
    var ec, ed := GoEscapeRune(c), GoEscapeRune(d);
    assert ec[0] == (ec + x)[0] == (ed + y)[0] == ed[0];
    if |ec| == 2 {
      assert ec[1] == (ec + x)[1] == (ed + y)[1] == ed[1];
    }
    assert x == (ec + x)[|ec|..];
    assert y == (ed + y)[|ed|..];
  }

  /** Different texts have different escapes. */
  lemma {:induction false} GoEscapeInjective(a: string, b: string)
    requires GoEscape(a) == GoEscape(b)
    ensures a == b
    decreases |a|
  {
    if a != [] && b != [] {
      GoEscapeRuneFirst(a[0], b[0], GoEscape(a[1..]), GoEscape(b[1..]));
      GoEscapeInjective(a[1..], b[1..]);
      assert a == [a[0]] + a[1..];
      assert b == [b[0]] + b[1..];
    }
  }

  /** eventSerializer.Serialize. */
  function Serialize(event: OutboxEvent): (r: Serialized)
    ensures r.err.None? <==> event.Domain?
    ensures event.Domain? ==> r.text == Object(Members(event.event))
    ensures event.Other? ==> r == Serialized("", Some("unknown event " + GoQuote(event.typeTag)))
  {
    match event
    case Domain(e) => Serialized(Object(Members(e)), None)
    case Other(tag) => Serialized("", Some("unknown event " + GoQuote(tag)))
  }

  /** The error for an event of another type names that type: two such errors are equal exactly for the same type. */
  lemma UnknownEventNamesType(a: string, b: string)
    ensures Serialize(Other(a)).err == Serialize(Other(b)).err <==> a == b
  {
    if Serialize(Other(a)).err == Serialize(Other(b)).err {
      var p := "unknown event \"";
      var ma, mb := p + GoEscape(a) + "\"", p + GoEscape(b) + "\"";
      assert ma == "unknown event " + GoQuote(a);
      assert mb == "unknown event " + GoQuote(b);
      assert GoEscape(a) == ma[|p|..|ma| - 1];
      assert GoEscape(b) == mb[|p|..|mb| - 1];
      GoEscapeInjective(a, b);
    }
  }

  /**
    How a consumer reads the text back, knowing the kind from the message
    type: exactly the three members of the wire struct, in order, with a
    UUID, an int64 balance and an integer of seconds.
   */
  function Decode(kind: Kind, text: string): (r: Option<Wire>)
    ensures r.Some? ==> r.value.kind == kind
  {
    match ParseObject(text)
    case None => None
    case Some(ms) =>
      if |ms| == 3 && ms[0].0 == "user_id" && ms[0].1.JString? && Parse(ms[0].1.s).Some?
         && ms[1].0 == "balance" && ms[1].1.JInt? && -0x8000_0000_0000_0000 <= ms[1].1.n <= 0x7fff_ffff_ffff_ffff
         && ms[2].0 == TimeKey(kind) && ms[2].1.JInt?
      then Some(Wire(kind, Parse(ms[0].1.s).value, ms[1].1.n, ms[2].1.n))
      else None
  }

  /** The record an event's text stands for. */
  function ToWire(e: AccountEvent): Wire
  {
    Wire(KindOf(e), e.userId, e.balance, Unix(EventTime(e)))
  }

  lemma KeysArePlain(kind: Kind)
    ensures IsPlain("user_id") && IsPlain("balance") && IsPlain(TimeKey(kind))
  {
  }

  lemma MembersArePlain(e: AccountEvent)
    ensures forall i :: 0 <= i < |Members(e)| ==> IsPlainMember(Members(e)[i])
  {
    var ms := Members(e);
    KeysArePlain(KindOf(e));
    StringChars(e.userId);
    var s := String(e.userId);
    forall j | 0 <= j < |s|
      ensures IsPlainChar(s[j])
    {
      assert IsUuidChar(s[j]);
    }
  }

  /**
    The text of an account event reads back as the record it was built
    from: the kind, the user id, the balance unchanged, and the event time
    in whole seconds.
   */
  lemma DecodeOfSerialize(e: AccountEvent)
    ensures Decode(KindOf(e), Serialize(Domain(e)).text) == Some(ToWire(e))
  {
    MembersArePlain(e);
    ParseObjectOfObject(Members(e));
    ParseOfString(e.userId);
  }

  /** The seconds on the wire are the event time rounded down to a whole second. */
  lemma WireSeconds(e: AccountEvent)
    ensures ToWire(e).seconds * NanosPerSecond <= EventTime(e).unixNano < (ToWire(e).seconds + 1) * NanosPerSecond
  {
  }

  /** Two events of one kind with the same text carry the same user, balance and second. */
  lemma SerializeInjective(a: AccountEvent, b: AccountEvent)
    requires KindOf(a) == KindOf(b)
    ensures Serialize(Domain(a)).text == Serialize(Domain(b)).text <==> ToWire(a) == ToWire(b)
  {
    if Serialize(Domain(a)).text == Serialize(Domain(b)).text {
      DecodeOfSerialize(a);
      DecodeOfSerialize(b);
    }
  }
}
