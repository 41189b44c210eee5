/** Idempotency keys: the text each domain event renders, and its decoding. */
module Keys {
  import opened Wrappers
  import opened Text

  /** A delivery channel; any name outside the four constants is Unlisted. */
  datatype Channel = InApp | Email | Sms | Push | Unlisted(name: string)

  function ChannelName(ch: Channel): string
  {
    match ch
    case InApp => "in_app"
    case Email => "email"
    case Sms => "sms"
    case Push => "push"
    case Unlisted(name) => name
  }

  function ParseChannel(s: string): Option<Channel>
  {
    if s == "in_app" then Some(InApp)
    else if s == "email" then Some(Email)
    else if s == "sms" then Some(Sms)
    else if s == "push" then Some(Push)
    else None
  }

  predicate IsHex(c: char) { '0' <= c <= '9' || 'a' <= c <= 'f' }

  /** The text form of section 4 of RFC 9562: 8-4-4-4-12 lower-case hexadecimal digits. */
  predicate IsUuidText(s: string)
  {
    && |s| == 36
    && forall i :: 0 <= i < 36 ==>
         if i == 8 || i == 13 || i == 18 || i == 23 then s[i] == '-' else IsHex(s[i])
  }

  type Uuid = s: string | IsUuidText(s) witness "00000000-0000-0000-0000-000000000000"

  /** One constructor a key format; its arguments are the ones the format prints. */
  datatype Event =
    | MechanicVerified(user: Uuid)
    | MechanicApplyReceived(user: Uuid)
    | QuoteReady(quote: Uuid)
    | BookingConfirmedToCustomer(booking: Uuid)
    | BookingConfirmedToMechanic(booking: Uuid, mechanic: Uuid)
    | MechanicEnRoute(booking: Uuid)
    | AnswerPosted(question: Uuid)
    | SupportAdminReplied(conversation: Uuid, message: Uuid)
    | SupportNewConversation(conversation: Uuid, admin: Uuid)
    | LowStock(product: Uuid, cycle: int)

  // ------------------------------------------------------------ decimal text

  function Digits(n: nat): (s: string)
    ensures |s| >= 1
  {
    var last := ['0' + (n % 10) as char];
    if n < 10 then last else Digits(n / 10) + last
  }

  function Decimal(n: int): string
  {
    if n < 0 then "-" + Digits(-n) else Digits(n)
  }

  function DigitsValue(s: string): int
  {
    if s == "" then 0
    else 10 * DigitsValue(s[..|s| - 1]) + (s[|s| - 1] as int - '0' as int)
  }

  function DecimalValue(s: string): int
  {
    if s != "" && s[0] == '-' then -DigitsValue(s[1..]) else DigitsValue(s)
  }

  lemma {:induction false} DigitsRoundTrip(n: nat)
    ensures DigitsValue(Digits(n)) == n
    ensures forall c :: c in Digits(n) ==> '0' <= c <= '9'
  {
    var last := '0' + (n % 10) as char;
    if n < 10 {
      assert Digits(n)[..0] == "";
    } else {
      DigitsRoundTrip(n / 10);
      var s := Digits(n);
      assert s[..|s| - 1] == Digits(n / 10);
      assert s[|s| - 1] == last;
    }
  }

  /** Decimal text determines its number and holds no colon. */
  lemma DecimalRoundTrip(n: int)
    ensures DecimalValue(Decimal(n)) == n
    ensures ':' !in Decimal(n)
  {
    if n < 0 {
      DigitsRoundTrip(-n);
      assert Decimal(n)[1..] == Digits(-n);
    } else {
      DigitsRoundTrip(n);
      assert Digits(n)[0] in Digits(n);
    }
  }

  lemma {:induction false} DigitsCanonical(n: nat)
    ensures |Digits(n)| > 1 ==> Digits(n)[0] != '0'
    ensures Digits(n) == "0" <==> n == 0
  {
    if n >= 10 { DigitsCanonical(n / 10); }
  }

  /** The text of a number is its sign if negative and its digits, without leading zeros. */
  lemma DecimalCanonical(n: int)
    ensures var s := Decimal(n);
      && s != "" && (s[0] == '-' <==> n < 0)
      && var digits := if n < 0 then s[1..] else s;
      && digits != "" && (forall c :: c in digits ==> '0' <= c <= '9') && (|digits| > 1 ==> digits[0] != '0')
  {
    var m := if n < 0 then -n else n;
    DigitsCanonical(m);
    DigitsRoundTrip(m);
    assert Digits(m)[0] in Digits(m);
    if n < 0 { assert Decimal(n)[1..] == Digits(m); }
  }

  // ------------------------------------------------------------ rendering

  /** The colon-separated fields of each event's format string, its arguments filled in. */
  function Fields(e: Event): (f: seq<string>)
    ensures |f| >= 3
  {
    match e
    case MechanicVerified(u) => ["mechanic", u, "verified"]
    case MechanicApplyReceived(u) => ["mechanic", u, "apply_received"]
    case QuoteReady(q) => ["quote", q, "ready"]
    case BookingConfirmedToCustomer(b) => ["booking", b, "confirmed", "customer"]
    case BookingConfirmedToMechanic(b, m) => ["booking", b, "confirmed", "mechanic", m]
    case MechanicEnRoute(b) => ["booking", b, "en_route"]
    case AnswerPosted(q) => ["question", q, "answer"]
    case SupportAdminReplied(c, m) => ["support", c, "msg", m, "admin_replied"]
    case SupportNewConversation(c, a) => ["support", c, "new", "admin", a]
    case LowStock(p, n) => ["product", p, "low_stock", "cycle", Decimal(n)]
  }

  /** The base key of an event: `mechanic:<user>:verified` and so on. */
  function BaseKey(e: Event): string
  {
    Join(Fields(e), ':')
  }

  /** The key of one delivery row: the base key with the channel after a colon. */
  function RowKey(base: string, ch: Channel): string
  {
    base + ":" + ChannelName(ch)
  }

  // ------------------------------------------------------------ decoding

  /** Reads an event back from the colon-separated fields of its base key. */
  function ParseFields(f: seq<string>): Option<Event>
  {
    if |f| < 3 || !IsUuidText(f[1]) then None
    else if |f| == 3 && f[0] == "mechanic" && f[2] == "verified" then Some(MechanicVerified(f[1]))
    else if |f| == 3 && f[0] == "mechanic" && f[2] == "apply_received" then Some(MechanicApplyReceived(f[1]))
    else if |f| == 3 && f[0] == "quote" && f[2] == "ready" then Some(QuoteReady(f[1]))
    else if |f| == 3 && f[0] == "booking" && f[2] == "en_route" then Some(MechanicEnRoute(f[1]))
    else if |f| == 3 && f[0] == "question" && f[2] == "answer" then Some(AnswerPosted(f[1]))
    else if |f| == 4 && f[0] == "booking" && f[3] == "customer" then Some(BookingConfirmedToCustomer(f[1]))
    else if |f| == 5 && f[0] == "booking" && IsUuidText(f[4]) then Some(BookingConfirmedToMechanic(f[1], f[4]))
    else if |f| == 5 && f[0] == "support" && f[2] == "msg" && IsUuidText(f[3]) then
      Some(SupportAdminReplied(f[1], f[3]))
    else if |f| == 5 && f[0] == "support" && f[2] == "new" && IsUuidText(f[4]) then
      Some(SupportNewConversation(f[1], f[4]))
    else if |f| == 5 && f[0] == "product" then Some(LowStock(f[1], DecimalValue(f[4])))
    else None
  }

  function ParseRowKey(key: string): Option<(Event, Channel)>
  {
    var f := Split(key, ':');
    match (ParseFields(f[..|f| - 1]), ParseChannel(f[|f| - 1]))
    case (Some(e), Some(ch)) => Some((e, ch))
    case _ => None
  }

  lemma UuidHasNoColon(u: Uuid)
    ensures ':' !in u
  {
  }

  lemma ThreeFieldsHaveNoColon(e: Event)
    requires |Fields(e)| == 3
    ensures ':' !in Fields(e)[0] && ':' !in Fields(e)[1] && ':' !in Fields(e)[2]
  {
  }

  lemma LongFieldsHaveNoColon(e: Event)
    requires |Fields(e)| > 3
    ensures forall f :: f in Fields(e) ==> ':' !in f
  {
    match e
    case BookingConfirmedToCustomer(b) => UuidHasNoColon(b);
    case BookingConfirmedToMechanic(b, m) => UuidHasNoColon(b); UuidHasNoColon(m);
    case SupportAdminReplied(c, m) => UuidHasNoColon(c); UuidHasNoColon(m);
    case SupportNewConversation(c, a) => UuidHasNoColon(c); UuidHasNoColon(a);
    case LowStock(p, n) => UuidHasNoColon(p); DecimalRoundTrip(n);
  }

  lemma FieldsHaveNoColon(e: Event)
    ensures forall f :: f in Fields(e) ==> ':' !in f
  {
    if |Fields(e)| == 3 { ThreeFieldsHaveNoColon(e); } else { LongFieldsHaveNoColon(e); }
  }

  lemma {:induction false} JoinSnoc(parts: seq<string>, last: string)
    requires |parts| >= 1
    ensures Join(parts + [last], ':') == Join(parts, ':') + ":" + last
  {
    if |parts| > 1 {
      JoinSnoc(parts[1..], last);
      assert (parts + [last])[1..] == parts[1..] + [last];
    } else {
      assert (parts + [last])[1..] == [last];
    }
  }

  lemma FieldsRoundTrip(e: Event)
    ensures ParseFields(Fields(e)) == Some(e)
  {
    if e.LowStock? { DecimalRoundTrip(e.cycle); }
  }

  lemma ChannelRoundTrip(ch: Channel)
    requires !ch.Unlisted?
    ensures ParseChannel(ChannelName(ch)) == Some(ch) && ':' !in ChannelName(ch)
  {
  }

  /** Decoding a row key gives back its event and channel, for every event there is. */
  lemma RowKeyRoundTrip(e: Event, ch: Channel)
    requires !ch.Unlisted?
    ensures ParseRowKey(RowKey(BaseKey(e), ch)) == Some((e, ch))
  {
    var parts := Fields(e) + [ChannelName(ch)];
    JoinSnoc(Fields(e), ChannelName(ch));
    FieldsHaveNoColon(e);
    ChannelRoundTrip(ch);
    SplitJoin(parts, ':');
    assert parts[..|parts| - 1] == Fields(e);
    FieldsRoundTrip(e);
  }

  /** So deduplication by key never merges two different event instances or channels. */
  lemma RowKeyInjective(e1: Event, ch1: Channel, e2: Event, ch2: Channel)
    requires !ch1.Unlisted? && !ch2.Unlisted?
    ensures RowKey(BaseKey(e1), ch1) == RowKey(BaseKey(e2), ch2) <==> e1 == e2 && ch1 == ch2
  {
    RowKeyRoundTrip(e1, ch1);
    RowKeyRoundTrip(e2, ch2);
  }

  /** Under one base key the channels keep apart. */
  lemma ChannelKeysDiffer(base: string, ch1: Channel, ch2: Channel)
    requires !ch1.Unlisted? && !ch2.Unlisted?
    ensures RowKey(base, ch1) == RowKey(base, ch2) <==> ch1 == ch2
  {
  }

  lemma JoinThree(a: string, b: string, c: string)
    ensures Join([a, b, c], ':') == a + ":" + b + ":" + c
  {
    JoinSnoc([a], b);
    JoinSnoc([a, b], c);
    assert [a] + [b] == [a, b] && [a, b] + [c] == [a, b, c] && Join([a], ':') == a;
  }

  lemma JoinFour(a: string, b: string, c: string, d: string)
    ensures Join([a, b, c, d], ':') == a + ":" + b + ":" + c + ":" + d
  {
    JoinThree(a, b, c);
    JoinSnoc([a, b, c], d);
    assert [a, b, c] + [d] == [a, b, c, d];
  }

  lemma JoinFive(a: string, b: string, c: string, d: string, e: string)
    ensures Join([a, b, c, d, e], ':') == a + ":" + b + ":" + c + ":" + d + ":" + e
  {
    JoinFour(a, b, c, d);
    JoinSnoc([a, b, c, d], e);
    assert [a, b, c, d] + [e] == [a, b, c, d, e];
  }

  /** The texts of the keys with one argument. */
  lemma ShortKeyTexts(u: Uuid)
    ensures BaseKey(MechanicVerified(u)) == "mechanic" + ":" + u + ":" + "verified"
    ensures BaseKey(MechanicApplyReceived(u)) == "mechanic" + ":" + u + ":" + "apply_received"
    ensures BaseKey(QuoteReady(u)) == "quote" + ":" + u + ":" + "ready"
    ensures BaseKey(MechanicEnRoute(u)) == "booking" + ":" + u + ":" + "en_route"
    ensures BaseKey(AnswerPosted(u)) == "question" + ":" + u + ":" + "answer"
  {
    JoinThree("mechanic", u, "verified");
    JoinThree("mechanic", u, "apply_received");
    JoinThree("quote", u, "ready");
    JoinThree("booking", u, "en_route");
    JoinThree("question", u, "answer");
  }

  /** The texts of the longer keys. */
  lemma LongKeyTexts(a: Uuid, b: Uuid, n: int)
    ensures BaseKey(BookingConfirmedToCustomer(a)) == "booking" + ":" + a + ":" + "confirmed" + ":" + "customer"
    ensures BaseKey(BookingConfirmedToMechanic(a, b))
         == "booking" + ":" + a + ":" + "confirmed" + ":" + "mechanic" + ":" + b
    ensures BaseKey(SupportAdminReplied(a, b)) == "support" + ":" + a + ":" + "msg" + ":" + b + ":" + "admin_replied"
    ensures BaseKey(SupportNewConversation(a, b)) == "support" + ":" + a + ":" + "new" + ":" + "admin" + ":" + b
    ensures BaseKey(LowStock(a, n)) == "product" + ":" + a + ":" + "low_stock" + ":" + "cycle" + ":" + Decimal(n)
  {
    JoinFour("booking", a, "confirmed", "customer");
    JoinFive("booking", a, "confirmed", "mechanic", b);
    JoinFive("support", a, "msg", b, "admin_replied");
    JoinFive("support", a, "new", "admin", b);
    JoinFive("product", a, "low_stock", "cycle", Decimal(n));
  }

  lemma ChannelTexts(base: string)
    ensures RowKey(base, InApp) == base + ":in_app" && RowKey(base, Email) == base + ":email"
    ensures RowKey(base, Sms) == base + ":sms" && RowKey(base, Push) == base + ":push"
  {
  }
}
