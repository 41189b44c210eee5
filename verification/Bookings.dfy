/** Quotes, bookings, order payments and refunds: rows moved by customers, mechanics, admins,
    checkout verification and repeatable webhooks in any order. */
module Bookings {
  import opened Wrappers
  import Money
  import Orders

  datatype QuoteStatus = Ready | Expired | Booked
  datatype LineStatus = Offered | Selected | Declined

  /** Prices are in minor units. */
  datatype Line = Line(mechanic: nat, price: nat, hours: real, message: string, status: LineStatus)

  /** What a mechanic may change of a line. */
  datatype Response = Response(price: Option<int>, hours: Option<real>, message: Option<string>)

  datatype Quote = Quote(user: nat, status: QuoteStatus, expiresAt: int, lines: seq<Line>)

  datatype Status = PendingPayment | Confirmed | EnRoute | InProgress | Completed | Cancelled
  datatype Pay = Pending | Paid | Refunded
  datatype Provider = Manual | Paystack

  datatype Booking = Booking(quote: nat, line: nat, user: nat, mechanic: nat, status: Status, pay: Pay,
                             labor: nat, parts: nat, fee: int, total: int)

  /** The payment row of the booking at the same position. An empty refund id is None. */
  datatype Payment = Payment(provider: Provider, reference: string, refundId: Option<int>, status: Pay)

  datatype OrderRow = OrderRow(user: nat, status: Orders.Status, pay: Pay, provider: Provider, reference: string,
                               refundId: Option<int>, total: int)

  datatype Target = OfBooking(i: nat) | OfOrder(i: nat)

  /** A refund request the provider accepted; amount 0 stands for the whole transaction. */
  datatype Sent = Sent(target: Target, amount: int)

  datatype Tables = Tables(quotes: seq<Quote>, bookings: seq<Booking>, payments: seq<Payment>,
                           orders: seq<OrderRow>, sent: seq<Sent>)

  type Market = t: Tables | |t.payments| == |t.bookings| witness Tables([], [], [], [], [])

  const EMPTY: Market := Tables([], [], [], [], [])

  /** The provider's answer to a request. */
  datatype Reply = Rejected | Accepted(id: int)

  datatype Error =
    | NotFound | NotForMechanic | QuoteExpired | QuoteNotReady | AlreadyBooked | LineNotFound | ProfileMissing
    | ScheduledInPast
    | InvalidTransition | NotCancellable | NotPending | NotConfigured | PayoutNotConfigured | ProviderFailed
    | NotRefundable | RefundInitiated | CannotRefund | BadAmount(cause: Money.AmountError)

  // ---------------------------------------------------------------- quotes

  /** Prices and hours that are given and positive replace the ones that stood there, a message always does. */
  function Responded(line: Line, r: Response): Line
  {
    line.(price := if r.price.Some? && r.price.value > 0 then r.price.value else line.price,
          hours := if r.hours.Some? && r.hours.value > 0.0 then r.hours.value else line.hours,
          message := if r.message.Some? then r.message.value else line.message)
  }

  function Respond(w: Market, q: nat, l: nat, mechanic: nat, response: Response, now: int): (Market, Option<Error>)
  {
    if q >= |w.quotes| || l >= |w.quotes[q].lines| then (w, Some(LineNotFound))
    else
      var quote := w.quotes[q];
      if quote.lines[l].mechanic != mechanic then (w, Some(NotForMechanic))
      else if quote.status != Ready || now > quote.expiresAt then (w, Some(QuoteExpired))
      else
        var lines := quote.lines[l := Responded(quote.lines[l], response)];
        (w.(quotes := w.quotes[q := quote.(lines := lines)]), None)
  }

  function ExpireQuote(quote: Quote, now: int): Quote
  {
    if quote.status == Ready && quote.expiresAt < now then quote.(status := Expired) else quote
  }

  function Expire(w: Market, now: int): Market
  {
    w.(quotes := seq(|w.quotes|, q requires 0 <= q < |w.quotes| => ExpireQuote(w.quotes[q], now)))
  }

  predicate BookingExists(bookings: seq<Booking>, q: nat)
  {
    exists i :: 0 <= i < |bookings| && bookings[i].quote == q
  }

  function Choose(lines: seq<Line>, l: nat): seq<Line>
  {
    seq(|lines|, k requires 0 <= k < |lines| => lines[k].(status := if k == l then Selected else Declined))
  }

  function NewBooking(quote: Quote, q: nat, l: nat, parts: nat): Booking
    requires l < |quote.lines|
  {
    var labor := quote.lines[l].price;
    var (fee, total) := Money.BookingAmounts(labor, parts);
    Booking(q, l, quote.user, quote.lines[l].mechanic, PendingPayment, Pending, labor, parts, fee, total)
  }

  /** What a successful booking does to the tables. */
  function BookLine(w: Market, q: nat, l: nat, parts: nat): Market
    requires q < |w.quotes| && l < |w.quotes[q].lines|
  {
    var quote := w.quotes[q];
    w.(quotes := w.quotes[q := quote.(status := Booked, lines := Choose(quote.lines, l))],
       bookings := w.bookings + [NewBooking(quote, q, l, parts)],
       payments := w.payments + [Payment(Manual, "", None, Pending)])
  }

  /** `profile` says that the mechanic's profile is found; `parts` is the subtotal of the quote's order, or zero. */
  function Book(w0: Market, user: nat, q: nat, l: nat, scheduledAt: int, now: int, profile: bool,
                parts: nat): (Market, Option<Error>)
  {
    if scheduledAt < now then (w0, Some(ScheduledInPast))
    else
      var w := Expire(w0, now);
      if q >= |w.quotes| || w.quotes[q].user != user then (w, Some(NotFound))
      else
        var quote := w.quotes[q];
        if quote.status == Expired || now > quote.expiresAt then (w, Some(QuoteExpired))
        else if quote.status != Ready then (w, Some(QuoteNotReady))
        else if BookingExists(w.bookings, q) then (w, Some(AlreadyBooked))
        else if l >= |quote.lines| then (w, Some(LineNotFound))
        else if !profile then (w, Some(ProfileMissing))
        else
          (BookLine(w, q, l, parts), None)
  }

  // ---------------------------------------------------------------- bookings and their payments

  function NextStatuses(from: Status): seq<Status>
  {
    match from
    case PendingPayment => [Confirmed, Cancelled]
    case Confirmed => [EnRoute, InProgress, Cancelled]
    case EnRoute => [InProgress, Cancelled]
    case InProgress => [Completed, Cancelled]
    case _ => []
  }

  predicate AllowedTransition(from: Status, to: Status)
  {
    from == to || to in NextStatuses(from)
  }

  function Move(w: Market, i: nat, mechanic: nat, status: Status): (Market, Option<Error>)
  {
    if i >= |w.bookings| || w.bookings[i].mechanic != mechanic then (w, Some(NotFound))
    else
      var b := w.bookings[i];
      if !AllowedTransition(b.status, status) then (w, Some(InvalidTransition))
      else
        var pay := if status == Confirmed && b.pay == Pending then Paid else b.pay;
        (w.(bookings := w.bookings[i := b.(status := status, pay := pay)]), None)
  }

  /** How a mechanic is to be paid out: whether bookings are split, the profile is found, it has a subaccount,
      and a booking without one is refused. */
  datatype Payout = Payout(enabled: bool, profile: bool, subaccount: bool, required: bool)

  /** The flat charge the platform keeps of a split checkout, or None for a checkout that is not split. */
  function SplitParams(b: Booking, payout: Payout): Result<Option<int>, Error>
  {
    if !payout.enabled then Ok(None)
    else if !payout.profile then Err(NotFound)
    else if !payout.subaccount then if payout.required then Err(PayoutNotConfigured) else Ok(None)
    else
      match Money.SplitCharge(b.fee, b.total)
      case Err(e) => Err(BadAmount(e))
      case Ok(charge) => Ok(Some(charge))
  }

  function InitializeBooking(w: Market, i: nat, user: nat, enabled: bool, payout: Payout, reference: string,
                             reply: Reply): (Market, Option<Error>)
  {
    if !enabled then (w, Some(NotConfigured))
    else if i >= |w.bookings| || w.bookings[i].user != user then (w, Some(NotFound))
    else if w.bookings[i].pay != Pending || w.bookings[i].status != PendingPayment then (w, Some(NotPending))
    else if SplitParams(w.bookings[i], payout).Err? then (w, Some(SplitParams(w.bookings[i], payout).error))
    else if Money.ToMinorUnits(Money.Major(w.bookings[i].total)).Err? then (w, Some(BadAmount(Money.InvalidAmount)))
    else if reply.Rejected? then (w, Some(ProviderFailed))
    else (w.(payments := w.payments[i := w.payments[i].(provider := Paystack, reference := reference)]), None)
  }

  function PaidUnder(p: Payment, reference: string): Payment
  {
    p.(provider := Paystack, reference := reference, status := Paid)
  }

  function BookingPaid(w: Market, i: nat, reference: string): (Market, Option<Error>)
  {
    if i >= |w.bookings| then (w, Some(NotFound))
    else
      var b := w.bookings[i];
      if b.pay == Paid then (w, None)
      else if Money.ToMinorUnits(Money.Major(b.total)).Err? then (w, Some(BadAmount(Money.InvalidAmount)))
      else
        var status := if b.status == PendingPayment then Confirmed else b.status;
        (w.(bookings := w.bookings[i := b.(pay := Paid, status := status)],
            payments := w.payments[i := PaidUnder(w.payments[i], reference)]), None)
  }

  function ValidateRefundable(status: Pay, provider: Provider, reference: string, refundId: Option<int>): Option<Error>
  {
    if status != Paid then Some(NotRefundable)
    else if provider != Paystack || reference == "" then Some(NotRefundable)
    else if refundId.Some? then Some(RefundInitiated)
    else None
  }

  function RefundBookingRow(w: Market, i: nat, partial: Option<real>, reply: Reply): (Market, Option<Error>)
    requires i < |w.bookings|
  {
    var b, p := w.bookings[i], w.payments[i];
    var invalid := ValidateRefundable(p.status, p.provider, p.reference, p.refundId);
    if b.status == Completed then (w, Some(CannotRefund))
    else if invalid.Some? then (w, invalid)
    else
      match Money.RefundAmount(b.total, partial)
      case Err(e) => (w, Some(BadAmount(e)))
      case Ok(amount) =>
        if reply.Rejected? then (w, Some(ProviderFailed))
        else
          (w.(bookings := w.bookings[i := b.(pay := Refunded)],
              payments := w.payments[i := p.(status := Refunded, refundId := Some(reply.id))],
              sent := w.sent + [Sent(OfBooking(i), amount)]), None)
  }

  function RefundBooking(w: Market, i: nat, requester: nat, asAdmin: bool, enabled: bool, partial: Option<real>,
                         reply: Reply): (Market, Option<Error>)
  {
    if !enabled then (w, Some(NotConfigured))
    else if i >= |w.bookings| || (!asAdmin && w.bookings[i].user != requester) then (w, Some(NotFound))
    else RefundBookingRow(w, i, partial, reply)
  }

  /** The refund a cancellation of a paid booking begins with. */
  function RefundOnCancel(w: Market, i: nat, enabled: bool, reply: Reply): (Market, Option<Error>)
    requires i < |w.bookings|
  {
    if w.bookings[i].pay != Paid || !enabled then (w, None) else RefundBookingRow(w, i, None, reply)
  }

  /** The rows a cancellation ends with: what is still marked paid is marked refunded on both. */
  function CancelRows(w: Market, i: nat): Market
    requires i < |w.bookings|
  {
    var b := w.bookings[i];
    if b.pay == Paid then
      w.(bookings := w.bookings[i := b.(status := Cancelled, pay := Refunded)],
         payments := w.payments[i := w.payments[i].(status := Refunded)])
    else w.(bookings := w.bookings[i := b.(status := Cancelled)])
  }

  function BookingCancelled(w: Market, i: nat, user: nat, enabled: bool, reply: Reply): (Market, Option<Error>)
  {
    if i >= |w.bookings| || w.bookings[i].user != user then (w, Some(NotFound))
    else if w.bookings[i].status == Completed || w.bookings[i].status == Cancelled then (w, Some(NotCancellable))
    else
      var (w', e) := RefundOnCancel(w, i, enabled, reply);
      if e.Some? && e != Some(NotRefundable) then (w', e) else (CancelRows(w', i), None)
  }

  // ---------------------------------------------------------------- orders

  function InitializeOrder(w: Market, i: nat, user: nat, enabled: bool, reference: string,
                           reply: Reply): (Market, Option<Error>)
  {
    if !enabled then (w, Some(NotConfigured))
    else if i >= |w.orders| || w.orders[i].user != user then (w, Some(NotFound))
    else if w.orders[i].pay != Pending || w.orders[i].status == Orders.Cancelled then (w, Some(NotPending))
    else if Money.ToMinorUnits(Money.Major(w.orders[i].total)).Err? then (w, Some(BadAmount(Money.InvalidAmount)))
    else if reply.Rejected? then (w, Some(ProviderFailed))
    else (w.(orders := w.orders[i := w.orders[i].(provider := Paystack, reference := reference)]), None)
  }

  function OrderPaid(w: Market, i: nat, reference: string): (Market, Option<Error>)
  {
    if i >= |w.orders| then (w, Some(NotFound))
    else
      var o := w.orders[i];
      if o.pay == Paid then (w, None)
      else if Money.ToMinorUnits(Money.Major(o.total)).Err? then (w, Some(BadAmount(Money.InvalidAmount)))
      else
        var status := if o.status == Orders.Pending then Orders.Confirmed else o.status;
        var paid := o.(pay := Paid, reference := reference, provider := Paystack, status := status);
        (w.(orders := w.orders[i := paid]), None)
  }

  function OrderRefunded(w: Market, i: nat, requester: nat, asAdmin: bool, enabled: bool, partial: Option<real>,
                         reply: Reply): (Market, Option<Error>)
  {
    if !enabled then (w, Some(NotConfigured))
    else if i >= |w.orders| || (!asAdmin && w.orders[i].user != requester) then (w, Some(NotFound))
    else
      var o := w.orders[i];
      var invalid := ValidateRefundable(o.pay, o.provider, o.reference, o.refundId);
      if invalid.Some? then (w, invalid)
      else if o.status == Orders.Shipped || o.status == Orders.Delivered then (w, Some(CannotRefund))
      else
        match Money.RefundAmount(o.total, partial)
        case Err(e) => (w, Some(BadAmount(e)))
        case Ok(amount) =>
          if reply.Rejected? then (w, Some(ProviderFailed))
          else
            (w.(orders := w.orders[i := o.(pay := Refunded, refundId := Some(reply.id), status := Orders.Cancelled)],
                sent := w.sent + [Sent(OfOrder(i), amount)]), None)
  }

  // ---------------------------------------------------------------- webhooks

  predicate IsRefundTerminal(status: string)
  {
    status == "processed" || status == "failed"
  }

  predicate ResolvesTo(w: Market, reference: string, target: Target)
  {
    match target
    case OfBooking(i) => "booking-" <= reference && i < |w.payments| && w.payments[i].reference == reference
    case OfOrder(i) => "order-" <= reference && i < |w.orders| && w.orders[i].reference == reference
  }

  /** A refund event, on any row its reference can resolve to; one that resolves to none is ignored. */
  function RefundWebhook(w: Market, reference: string, status: string, id: int, target: Target): Market
  {
    if reference == "" || !IsRefundTerminal(status) || !ResolvesTo(w, reference, target) then w
    else
      match target
      case OfOrder(i) =>
        if w.orders[i].pay == Refunded then w
        else w.(orders := w.orders[i := w.orders[i].(pay := Refunded, refundId := Some(id))])
      case OfBooking(i) =>
        w.(bookings := w.bookings[i := w.bookings[i].(pay := Refunded)],
           payments := w.payments[i := w.payments[i].(status := Refunded, refundId := Some(id))])
  }

  // ---------------------------------------------------------------- runs

  datatype Step =
    | CreateQuote(user: nat, expiresAt: int, offers: seq<Line>)
    | ExpireQuotes(now: int)
    | RespondToLine(q: nat, l: nat, mechanic: nat, response: Response, now: int)
    | CreateBooking(user: nat, q: nat, l: nat, scheduledAt: int, now: int, profile: bool, parts: nat)
    | UpdateBookingStatus(i: nat, mechanic: nat, status: Status)
    | CustomerCancel(i: nat, user: nat, enabled: bool, reply: Reply)
    | PayBooking(i: nat, user: nat, enabled: bool, payout: Payout, reference: string, reply: Reply)
    | ChargeSuccess(target: Target, reference: string)
    | RequestBookingRefund(i: nat, user: nat, asAdmin: bool, enabled: bool, partial: Option<real>, reply: Reply)
    | RefundEvent(reference: string, event: string, id: int, target: Target)
    | CreateOrder(user: nat, total: int, provider: Provider)
    | PayOrder(i: nat, user: nat, enabled: bool, reference: string, reply: Reply)
    | RequestOrderRefund(i: nat, user: nat, asAdmin: bool, enabled: bool, partial: Option<real>, reply: Reply)
    | SetOrderStatus(i: nat, orderStatus: Orders.Status)

  function Offers(offers: seq<Line>): seq<Line>
  {
    seq(|offers|, k requires 0 <= k < |offers| => offers[k].(status := Offered))
  }

  function Next(w: Market, step: Step): Market
  {
    match step
    case CreateQuote(user, expiresAt, offers) =>
      w.(quotes := w.quotes + [Quote(user, Ready, expiresAt, Offers(offers))])
    case ExpireQuotes(now) => Expire(w, now)
    case RespondToLine(q, l, mechanic, response, now) => Respond(w, q, l, mechanic, response, now).0
    case CreateBooking(user, q, l, scheduledAt, now, profile, parts) =>
      Book(w, user, q, l, scheduledAt, now, profile, parts).0
    case UpdateBookingStatus(i, mechanic, status) => Move(w, i, mechanic, status).0
    case CustomerCancel(i, user, enabled, reply) => BookingCancelled(w, i, user, enabled, reply).0
    case PayBooking(i, user, enabled, payout, reference, reply) =>
      InitializeBooking(w, i, user, enabled, payout, reference, reply).0
    case ChargeSuccess(target, reference) =>
      if target.OfBooking? then BookingPaid(w, target.i, reference).0 else OrderPaid(w, target.i, reference).0
    case RequestBookingRefund(i, user, asAdmin, enabled, partial, reply) =>
      RefundBooking(w, i, user, asAdmin, enabled, partial, reply).0
    case RefundEvent(reference, event, id, target) => RefundWebhook(w, reference, event, id, target)
    case CreateOrder(user, total, provider) =>
      w.(orders := w.orders + [OrderRow(user, Orders.Pending, Pending, provider, "", None, total)])
    case PayOrder(i, user, enabled, reference, reply) => InitializeOrder(w, i, user, enabled, reference, reply).0
    case RequestOrderRefund(i, user, asAdmin, enabled, partial, reply) =>
      OrderRefunded(w, i, user, asAdmin, enabled, partial, reply).0
    case SetOrderStatus(i, status) =>
      if i < |w.orders| then w.(orders := w.orders[i := w.orders[i].(status := status)]) else w
  }

  function Run(w: Market, steps: seq<Step>): Market
  {
    if steps == [] then w else Next(Run(w, steps[..|steps| - 1]), steps[|steps| - 1])
  }

  // ---------------------------------------------------------------- the two rows of a booking

  predicate UnderWay(status: Status)
  {
    status == Confirmed || status == EnRoute || status == InProgress || status == Completed
  }

  ghost predicate RowsAgree(b: Booking, p: Payment)
  {
    && (p.status == b.pay || (b.pay == Paid && p.status == Pending))
    && (UnderWay(b.status) ==> b.pay != Pending)
  }

  /** A refunded booking that is not cancelled has a refund recorded. */
  ghost predicate RefundTraced(b: Booking, p: Payment)
  {
    b.pay == Refunded && b.status != Cancelled ==> p.refundId.Some?
  }

  function Rank(status: Status): nat
  {
    match status
    case PendingPayment => 0
    case Confirmed => 1
    case EnRoute => 2
    case InProgress => 3
    case _ => 4
  }

  /** A status stays or climbs; from completed and cancelled it only stays. */
  predicate Advances(from: Status, to: Status)
  {
    from == to || Rank(from) < Rank(to)
  }

  /** A booking keeps everything but its status and its payment status. */
  predicate SameDeal(b: Booking, c: Booking)
  {
    c == b.(status := c.status, pay := c.pay)
  }

  ghost predicate BookingStep(b: Booking, p: Payment, c: Booking, r: Payment)
  {
    && SameDeal(b, c)
    && Advances(b.status, c.status)
    && (b.pay != Pending ==> c.pay != Pending)
    && (p.refundId.Some? ==> r.refundId.Some?)
    && (RowsAgree(b, p) ==> RowsAgree(c, r))
    && (RefundTraced(b, p) ==> RefundTraced(c, r))
  }

  lemma CancelSparesOthers(w: Market, i: nat, user: nat, enabled: bool, reply: Reply)
    ensures var t := BookingCancelled(w, i, user, enabled, reply).0;
      && |t.bookings| == |w.bookings| && t.quotes == w.quotes
      && forall j :: 0 <= j < |w.bookings| && j != i ==>
           t.bookings[j] == w.bookings[j] && t.payments[j] == w.payments[j]
  {
  }

  lemma RefundOnBooking(w: Market, i: nat, reply: Reply)
    requires i < |w.bookings|
    ensures var t := RefundBookingRow(w, i, None, reply).0;
      && |t.bookings| == |w.bookings|
      && BookingStep(w.bookings[i], w.payments[i], t.bookings[i], t.payments[i])
      && t.bookings[i].status == w.bookings[i].status
  {
  }

  lemma CancelRowsOnBooking(w: Market, i: nat)
    requires i < |w.bookings| && w.bookings[i].status != Completed && w.bookings[i].status != Cancelled
    ensures var t := CancelRows(w, i);
      |t.bookings| == |w.bookings| && BookingStep(w.bookings[i], w.payments[i], t.bookings[i], t.payments[i])
  {
  }

  lemma CancelOnBooking(w: Market, i: nat, user: nat, enabled: bool, reply: Reply)
    requires i < |w.bookings|
    ensures var t := BookingCancelled(w, i, user, enabled, reply).0;
      && |t.bookings| == |w.bookings| && t.quotes == w.quotes
      && BookingStep(w.bookings[i], w.payments[i], t.bookings[i], t.payments[i])
      && forall j :: 0 <= j < |w.bookings| && j != i ==>
           t.bookings[j] == w.bookings[j] && t.payments[j] == w.payments[j]
  {
    CancelSparesOthers(w, i, user, enabled, reply);
    RefundOnBooking(w, i, reply);
    if w.bookings[i].status != Completed && w.bookings[i].status != Cancelled {
      CancelRowsOnBooking(w, i);
      CancelRowsOnBooking(RefundBookingRow(w, i, None, reply).0, i);
    }
  }

  /** The steps that move bookings or their payment rows. */
  predicate MovesBookings(step: Step)
  {
    step.UpdateBookingStatus? || step.CustomerCancel? || step.PayBooking? || step.ChargeSuccess?
    || step.RequestBookingRefund? || step.RefundEvent?
  }

  lemma OtherStepsSpareBookings(w: Market, step: Step)
    requires !MovesBookings(step)
    ensures w.bookings <= Next(w, step).bookings && w.payments <= Next(w, step).payments
    ensures |Next(w, step).bookings| <= |w.bookings| + 1
    ensures |Next(w, step).bookings| > |w.bookings| ==> step.CreateBooking?
    ensures var n, t := |w.bookings|, Next(w, step);
      |t.bookings| > n ==> RowsAgree(t.bookings[n], t.payments[n]) && t.bookings[n].pay == Pending
  {
  }

  lemma MovesOneBooking(w: Market, step: Step, j: nat)
    requires j < |w.bookings| && MovesBookings(step) && !step.CustomerCancel?
    ensures |Next(w, step).bookings| == |w.bookings| && Next(w, step).quotes == w.quotes
    ensures BookingStep(w.bookings[j], w.payments[j], Next(w, step).bookings[j], Next(w, step).payments[j])
  {
  }

  lemma {:induction false} NextOnBooking(w: Market, step: Step, j: nat)
    requires j < |w.bookings|
    ensures j < |Next(w, step).bookings|
    ensures BookingStep(w.bookings[j], w.payments[j], Next(w, step).bookings[j], Next(w, step).payments[j])
  {
    if step.CustomerCancel? {
      if step.i < |w.bookings| { CancelOnBooking(w, step.i, step.user, step.enabled, step.reply); }
    } else if MovesBookings(step) {
      MovesOneBooking(w, step, j);
    } else {
      OtherStepsSpareBookings(w, step);
      assert Next(w, step).bookings[..|w.bookings|] == w.bookings;
      assert Next(w, step).payments[..|w.payments|] == w.payments;
    }
  }

  lemma NewBookingAgrees(w: Market, step: Step, j: nat)
    requires |w.bookings| <= j < |Next(w, step).bookings|
    ensures RowsAgree(Next(w, step).bookings[j], Next(w, step).payments[j])
    ensures RefundTraced(Next(w, step).bookings[j], Next(w, step).payments[j])
  {
  }

  lemma MovesKeepNumber(w: Market, step: Step)
    requires MovesBookings(step)
    ensures |Next(w, step).bookings| == |w.bookings| && Next(w, step).quotes == w.quotes
  {
  }

  /** In every reachable market the two payment statuses are equal, or the booking is paid and its row
      still pending; and no booking under way is unpaid. */
  lemma {:induction false} TwoRows(steps: seq<Step>, i: nat)
    requires i < |Run(EMPTY, steps).bookings|
    ensures var w := Run(EMPTY, steps);
      var b, p := w.bookings[i], w.payments[i];
      && (b.pay, p.status) in {(Pending, Pending), (Paid, Paid), (Paid, Pending), (Refunded, Refunded)}
      && (UnderWay(b.status) ==> b.pay != Pending)
  {
    RunAgrees(steps, i);
    var w := Run(EMPTY, steps);
    assert RowsAgree(w.bookings[i], w.payments[i]);
  }

  lemma {:induction false} RunAgrees(steps: seq<Step>, i: nat)
    requires i < |Run(EMPTY, steps).bookings|
    ensures RowsAgree(Run(EMPTY, steps).bookings[i], Run(EMPTY, steps).payments[i])
    ensures RefundTraced(Run(EMPTY, steps).bookings[i], Run(EMPTY, steps).payments[i])
  {
    if steps != [] {
      var n := |steps| - 1;
      var w := Run(EMPTY, steps[..n]);
      if i < |w.bookings| {
        RunAgrees(steps[..n], i);
        NextOnBooking(w, steps[n], i);
      } else {
        NewBookingAgrees(w, steps[n], i);
      }
    }
  }

  /** Whatever happens to a booking, its status never falls back, completed and cancelled stay,
      its deal stays, it never becomes unpaid again, and a refund id once recorded stays recorded. */
  lemma {:induction false} BookingHistory(w: Market, steps: seq<Step>, i: nat)
    requires i < |w.bookings|
    ensures i < |Run(w, steps).bookings|
    ensures BookingStep(w.bookings[i], w.payments[i], Run(w, steps).bookings[i], Run(w, steps).payments[i])
  {
    if steps != [] {
      var n := |steps| - 1;
      BookingHistory(w, steps[..n], i);
      NextOnBooking(Run(w, steps[..n]), steps[n], i);
    }
  }

  // ---------------------------------------------------------------- refunds

  function SentTo(sent: seq<Sent>, target: Target): nat
  {
    if sent == [] then 0
    else SentTo(sent[..|sent| - 1], target) + if sent[|sent| - 1].target == target then 1 else 0
  }

  lemma SentToSnoc(sent: seq<Sent>, e: Sent, target: Target)
    ensures SentTo(sent + [e], target) == SentTo(sent, target) + if e.target == target then 1 else 0
  {
    assert (sent + [e])[..|sent|] == sent;
  }

  predicate Exists(w: Market, target: Target)
  {
    match target
    case OfBooking(i) => i < |w.bookings|
    case OfOrder(i) => i < |w.orders|
  }

  function RefundIdOf(w: Market, target: Target): Option<int>
    requires Exists(w, target)
  {
    match target
    case OfBooking(i) => w.payments[i].refundId
    case OfOrder(i) => w.orders[i].refundId
  }

  function TotalOf(w: Market, target: Target): int
    requires Exists(w, target)
  {
    match target
    case OfBooking(i) => w.bookings[i].total
    case OfOrder(i) => w.orders[i].total
  }

  /** A refund has gone out at most once, and only if the row records one. */
  ghost predicate RefundedOnce(w: Market, target: Target)
  {
    && SentTo(w.sent, target) <= 1
    && (SentTo(w.sent, target) == 1 ==> Exists(w, target) && RefundIdOf(w, target).Some?)
  }

  ghost predicate AmountOk(w: Market, e: Sent)
  {
    && Exists(w, e.target)
    && (e.amount == 0 || 1 <= e.amount <= TotalOf(w, e.target))
  }

  ghost predicate RowKept(w: Market, t: Market, target: Target)
    requires Exists(w, target)
  {
    && Exists(t, target) && TotalOf(t, target) == TotalOf(w, target)
    && (RefundIdOf(w, target).Some? ==> RefundIdOf(t, target).Some?)
  }

  /** One refund goes out, of a row that had none recorded, and is recorded. */
  ghost predicate SendsOne(w: Market, t: Market, e: Sent)
  {
    && t.sent == w.sent + [e] && AmountOk(w, e) && Exists(t, e.target)
    && RefundIdOf(w, e.target).None? && RefundIdOf(t, e.target).Some?
  }

  /** What a step can add to the refunds sent: one refund of a row that had none recorded, now recorded. */
  ghost predicate RefundStep(w: Market, t: Market)
  {
    && (forall target :: Exists(w, target) ==> RowKept(w, t, target))
    && (t.sent == w.sent
        || exists e :: SendsOne(w, t, e))
  }

  lemma SentAmountOk(total: int, partial: Option<real>)
    ensures Money.RefundAmount(total, partial).Ok? ==>
      var amount := Money.RefundAmount(total, partial).value;
      amount == 0 || 1 <= amount <= total
  {
    if partial.Some? {
      Money.PartialRefundWithinCharge(total, partial.value);
      Money.MinorRoundTrip(total);
    }
  }

  lemma BookingRowRefundStep(w: Market, i: nat, partial: Option<real>, reply: Reply)
    requires i < |w.bookings|
    ensures RefundStep(w, RefundBookingRow(w, i, partial, reply).0)
  {
    var (t, e) := RefundBookingRow(w, i, partial, reply);
    if e.None? {
      SentAmountOk(w.bookings[i].total, partial);
      var s := t.sent[|w.sent|];
      assert SendsOne(w, t, s);
    }
  }

  lemma OrderRefundStep(w: Market, i: nat, user: nat, asAdmin: bool, enabled: bool, partial: Option<real>, reply: Reply)
    ensures RefundStep(w, OrderRefunded(w, i, user, asAdmin, enabled, partial, reply).0)
  {
    var (t, e) := OrderRefunded(w, i, user, asAdmin, enabled, partial, reply);
    if e.None? {
      SentAmountOk(w.orders[i].total, partial);
      var s := t.sent[|w.sent|];
      assert SendsOne(w, t, s);
    }
  }

  /** Rows that stay, with their totals and recorded refunds, and no refund sent. */
  lemma QuietRefundStep(w: Market, t: Market)
    requires t.sent == w.sent && |w.bookings| <= |t.bookings| && |w.orders| <= |t.orders|
    requires forall i :: 0 <= i < |w.bookings| ==> t.bookings[i].total == w.bookings[i].total
    requires forall i :: 0 <= i < |w.payments| ==> (w.payments[i].refundId.Some? ==> t.payments[i].refundId.Some?)
    requires forall i :: 0 <= i < |w.orders| ==> t.orders[i].total == w.orders[i].total
    requires forall i :: 0 <= i < |w.orders| ==> (w.orders[i].refundId.Some? ==> t.orders[i].refundId.Some?)
    ensures RefundStep(w, t)
  {
    forall target | Exists(w, target) ensures RowKept(w, t, target) {
    }
  }

  lemma RefundStepThen(w: Market, t: Market, u: Market)
    requires RefundStep(w, t) && u.sent == t.sent
    requires u.orders == t.orders && |u.bookings| == |t.bookings|
    requires forall i :: 0 <= i < |t.bookings| ==> u.bookings[i].total == t.bookings[i].total
    requires forall i :: 0 <= i < |t.payments| ==> u.payments[i].refundId == t.payments[i].refundId
    ensures RefundStep(w, u)
  {
    forall target | Exists(w, target) ensures RowKept(w, u, target) {
      assert RowKept(w, t, target);
    }
    if t.sent != w.sent {
      var e :| SendsOne(w, t, e);
      assert RowKept(w, u, e.target) && SendsOne(w, u, e);
    }
  }

  lemma CancelRefundStep(w: Market, i: nat, user: nat, enabled: bool, reply: Reply)
    ensures RefundStep(w, BookingCancelled(w, i, user, enabled, reply).0)
  {
    var u := BookingCancelled(w, i, user, enabled, reply).0;
    if i < |w.bookings| && u != w {
      var t := RefundOnCancel(w, i, enabled, reply).0;
      assert RefundStep(w, t) by {
        BookingRowRefundStep(w, i, None, reply);
        QuietRefundStep(w, w);
      }
      assert u == t || u == CancelRows(t, i);
      RefundStepThen(w, t, u);
    } else {
      QuietRefundStep(w, w);
    }
  }

  predicate SendsRefunds(step: Step)
  {
    step.CustomerCancel? || step.RequestBookingRefund? || step.RequestOrderRefund?
  }

  lemma OtherRefundStep(w: Market, step: Step)
    requires !SendsRefunds(step)
    ensures RefundStep(w, Next(w, step))
  {
    var t := Next(w, step);
    if !MovesBookings(step) {
      OtherStepsSpareBookings(w, step);
      assert t.bookings[..|w.bookings|] == w.bookings && t.payments[..|w.payments|] == w.payments;
    } else {
      MovesKeepNumber(w, step);
      forall j | 0 <= j < |w.bookings|
        ensures t.bookings[j].total == w.bookings[j].total
        ensures w.payments[j].refundId.Some? ==> t.payments[j].refundId.Some?
      {
        NextOnBooking(w, step, j);
      }
    }
    OrdersKeepRefunds(w, step);
    QuietRefundStep(w, t);
  }

  lemma OrdersKeepRefunds(w: Market, step: Step)
    requires !SendsRefunds(step)
    ensures Next(w, step).sent == w.sent && |w.orders| <= |Next(w, step).orders|
    ensures forall i :: 0 <= i < |w.orders| ==> Next(w, step).orders[i].total == w.orders[i].total
    ensures forall i :: 0 <= i < |w.orders| ==> (w.orders[i].refundId.Some? ==> Next(w, step).orders[i].refundId.Some?)
  {
  }

  lemma NextRefundStep(w: Market, step: Step)
    ensures RefundStep(w, Next(w, step))
  {
    if step.CustomerCancel? {
      CancelRefundStep(w, step.i, step.user, step.enabled, step.reply);
    } else if step.RequestBookingRefund? {
      if step.i < |w.bookings| { BookingRowRefundStep(w, step.i, step.partial, step.reply); }
      QuietRefundStep(w, w);
    } else if step.RequestOrderRefund? {
      OrderRefundStep(w, step.i, step.user, step.asAdmin, step.enabled, step.partial, step.reply);
    } else {
      OtherRefundStep(w, step);
    }
  }

  lemma RefundStepKeeps(w: Market, t: Market)
    requires RefundStep(w, t)
    requires forall target :: RefundedOnce(w, target)
    requires forall e :: e in w.sent ==> AmountOk(w, e)
    ensures forall target :: RefundedOnce(t, target)
    ensures forall e :: e in t.sent ==> AmountOk(t, e)
  {
    forall target ensures RefundedOnce(t, target) {
      assert RefundedOnce(w, target);
      if t.sent != w.sent {
        var e :| SendsOne(w, t, e);
        SentToSnoc(w.sent, e, target);
      }
    }
    forall e | e in t.sent ensures AmountOk(t, e) {
    }
  }

  lemma {:induction false} RunRefunds(steps: seq<Step>)
    ensures forall target :: RefundedOnce(Run(EMPTY, steps), target)
    ensures forall e :: e in Run(EMPTY, steps).sent ==> AmountOk(Run(EMPTY, steps), e)
  {
    if steps != [] {
      var n := |steps| - 1;
      RunRefunds(steps[..n]);
      NextRefundStep(Run(EMPTY, steps[..n]), steps[n]);
      RefundStepKeeps(Run(EMPTY, steps[..n]), Run(EMPTY, steps));
    }
  }

  /** Over any sequence of payments, verifications, webhooks, cancellations and refund requests, repeated at
      will, the provider accepts at most one refund of each order and booking, of at most its total. */
  lemma {:induction false} RefundAtMostOnce(steps: seq<Step>, target: Target)
    ensures var w := Run(EMPTY, steps);
      && SentTo(w.sent, target) <= 1
      && (forall e :: e in w.sent ==> Exists(w, e.target) && (e.amount == 0 || 1 <= e.amount <= TotalOf(w, e.target)))
  {
    RunRefunds(steps);
    var w := Run(EMPTY, steps);
    assert RefundedOnce(w, target);
    assert forall e :: e in w.sent ==> AmountOk(w, e);
  }

  /** What the provider is sent for a refund: 0 for a full one, else the minor units nearest to the amount asked. */
  ghost predicate SentFor(e: Sent, target: Target, partial: Option<real>)
  {
    && e.target == target
    && (if partial.None? then e.amount == 0 else Money.NearestMinor(partial.value, e.amount))
  }

  lemma RefundAmountIff(total: int, partial: Option<real>)
    ensures Money.RefundAmount(total, partial).Ok? <==> partial.None? || 0.005 <= partial.value <= Money.Major(total)
    ensures Money.RefundAmount(total, partial).Ok? ==>
      var amount := Money.RefundAmount(total, partial).value;
      if partial.None? then amount == 0 else Money.NearestMinor(partial.value, amount)
  {
    if partial.Some? { Money.PartialRefundWithinCharge(total, partial.value); }
  }

  lemma RefundRowOutcome(w: Market, i: nat, partial: Option<real>, reply: Reply)
    requires i < |w.bookings|
    ensures var (t, e) := RefundBookingRow(w, i, partial, reply);
      var b, p := w.bookings[i], w.payments[i];
      var sendable := partial.None? || 0.005 <= partial.value <= Money.Major(b.total);
      && (e.None? <==> b.status != Completed && Askable(p, true) && p.refundId.None? && sendable && reply.Accepted?)
      && (e == Some(CannotRefund) <==> b.status == Completed)
      && (e == Some(NotRefundable) <==> b.status != Completed && !Askable(p, true))
      && (e == Some(ProviderFailed) <==>
            b.status != Completed && Askable(p, true) && p.refundId.None? && sendable && reply.Rejected?)
      && (e == Some(RefundInitiated) <==> b.status != Completed && Askable(p, true) && p.refundId.Some?)
      && (e.Some? ==> t == w)
      && (e.None? ==>
            && t == w.(bookings := w.bookings[i := b.(pay := Refunded)], sent := t.sent,
                       payments := w.payments[i := p.(status := Refunded, refundId := Some(reply.id))])
            && exists s :: t.sent == w.sent + [s] && SentFor(s, OfBooking(i), partial))
  {
    RefundAmountIff(w.bookings[i].total, partial);
    var (t, e) := RefundBookingRow(w, i, partial, reply);
    if e.None? {
      var s := t.sent[|w.sent|];
      assert t.sent == w.sent + [s] && SentFor(s, OfBooking(i), partial);
    }
  }

  /** A refund of a booking is asked for by its customer or an administrator. The provider is asked, and accepts,
      exactly when the payment row is paid through it under a reference, no refund is recorded, the booking is not
      completed and the amount can be sent; what it is sent is the amount asked, and both rows are marked. */
  lemma BookingRefundAcceptedIff(w: Market, i: nat, user: nat, asAdmin: bool, enabled: bool, partial: Option<real>,
                                 reply: Reply)
    requires i < |w.bookings|
    ensures var (t, e) := RefundBooking(w, i, user, asAdmin, enabled, partial, reply);
      var b, p := w.bookings[i], w.payments[i];
      var mayAsk := asAdmin || b.user == user;
      var sendable := partial.None? || 0.005 <= partial.value <= Money.Major(b.total);
      var viaProvider := p.status == Paid && p.provider == Paystack && p.reference != "";
      && (e.None? <==> enabled && mayAsk && reply.Accepted? && b.status != Completed && viaProvider
                       && p.refundId.None? && sendable)
      && (e == Some(NotConfigured) <==> !enabled)
      && (e == Some(NotFound) <==> enabled && !mayAsk)
      && (e == Some(ProviderFailed) <==> enabled && mayAsk && reply.Rejected? && b.status != Completed && viaProvider
                                         && p.refundId.None? && sendable)
      && (e.Some? ==> t == w)
      && (e.None? ==>
            && t == w.(bookings := w.bookings[i := b.(pay := Refunded)], sent := t.sent,
                       payments := w.payments[i := p.(status := Refunded, refundId := Some(reply.id))])
            && exists s :: t.sent == w.sent + [s] && SentFor(s, OfBooking(i), partial))
  {
    RefundRowOutcome(w, i, partial, reply);
  }

  /** When a cancellation fails, for whatever caller, and what it leaves when it does not: a cancelled booking that
      is paid on neither row, refunded in full through the provider, and that recorded, exactly if the provider
      could be asked. */
  lemma CancelOutcome(w: Market, i: nat, user: nat, enabled: bool, reply: Reply)
    requires i < |w.bookings| && RowsAgree(w.bookings[i], w.payments[i])
    ensures var b, p := w.bookings[i], w.payments[i];
      var (t, e) := BookingCancelled(w, i, user, enabled, reply);
      var viaProvider := enabled && p.status == Paid && p.provider == Paystack && p.reference != "";
      && (e == Some(NotFound) <==> b.user != user)
      && (e == Some(NotCancellable) <==> b.user == user && (b.status == Completed || b.status == Cancelled))
      && (e.None? <==>
            && b.user == user && b.status != Completed && b.status != Cancelled
            && (viaProvider ==> p.refundId.None? && reply.Accepted?))
      && (e.Some? ==> t == w)
      && (e.None? ==>
            var pay := if b.pay == Pending then Pending else Refunded;
            var refundId := if viaProvider then Some(reply.id) else p.refundId;
            && t.bookings == w.bookings[i := b.(status := Cancelled, pay := pay)]
            && t.payments == w.payments[i := p.(status := pay, refundId := refundId)]
            && t.sent == (if viaProvider then w.sent + [Sent(OfBooking(i), 0)] else w.sent)
            && t.quotes == w.quotes && t.orders == w.orders)
  {
    var p := w.payments[i];
    assert w.payments[i := p] == w.payments;
  }

  /** `refunded` is not final: a refunded booking becomes paid again exactly when a charge event for it arrives
      and its total is one that can be charged. */
  lemma RefundedReopenedIff(w: Market, step: Step, i: nat)
    requires i < |w.bookings| && w.bookings[i].pay == Refunded
    ensures i < |Next(w, step).bookings|
    ensures Next(w, step).bookings[i].pay != Refunded
      <==> step.ChargeSuccess? && step.target == OfBooking(i) && w.bookings[i].total > 0
    ensures Next(w, step).bookings[i].pay in {Refunded, Paid}
  {
  }

  /** In a reachable market a refunded booking still open has a refund recorded. So after a charge event its
      customer cannot cancel it exactly if the event carried a reference and the provider is enabled. */
  lemma {:induction false} ReopenedCancelFailsIff(steps: seq<Step>, i: nat, reference: string, enabled: bool,
                                                  reply: Reply)
    requires i < |Run(EMPTY, steps).bookings|
    requires var b := Run(EMPTY, steps).bookings[i];
      b.pay == Refunded && b.status != Cancelled && b.status != Completed
    ensures var w := Run(EMPTY, steps);
      var failure := BookingCancelled(BookingPaid(w, i, reference).0, i, w.bookings[i].user, enabled, reply).1;
      && w.payments[i].refundId.Some?
      && failure == if enabled && reference != "" && w.bookings[i].total > 0 then Some(RefundInitiated) else None
  {
    RunAgrees(steps, i);
    var w := Run(EMPTY, steps);
    ReopenedCancel(w, i, reference, enabled, reply);
  }

  lemma ReopenedCancel(w: Market, i: nat, reference: string, enabled: bool, reply: Reply)
    requires i < |w.bookings| && w.payments[i].refundId.Some? && w.bookings[i].pay == Refunded
    requires w.bookings[i].status != Cancelled && w.bookings[i].status != Completed
    ensures BookingCancelled(BookingPaid(w, i, reference).0, i, w.bookings[i].user, enabled, reply).1
      == if enabled && reference != "" && w.bookings[i].total > 0 then Some(RefundInitiated) else None
  {
    Money.MinorRoundTrip(w.bookings[i].total);
  }

  // ---------------------------------------------------------------- refund events

  /** A refund event marks a booking refunded exactly if its reference is the booking's and it reports either
      success or failure. */
  lemma RefundEventMarksBookingIff(w: Market, reference: string, event: string, id: int, target: Target, i: nat)
    requires i < |w.bookings|
    ensures var t := Next(w, RefundEvent(reference, event, id, target));
      var hit := target == OfBooking(i) && "booking-" <= reference && w.payments[i].reference == reference
                 && event in {"processed", "failed"};
      && |t.bookings| == |w.bookings| && t.sent == w.sent && t.quotes == w.quotes
      && (t.bookings[i].pay == Refunded <==> w.bookings[i].pay == Refunded || hit)
      && (hit ==>
            && t.bookings[i] == w.bookings[i].(pay := Refunded)
            && t.payments[i] == w.payments[i].(status := Refunded, refundId := Some(id)))
      && (!hit ==> t.bookings[i] == w.bookings[i] && t.payments[i] == w.payments[i])
  {
  }

  lemma RefundEventMarksOrderIff(w: Market, reference: string, event: string, id: int, target: Target, i: nat)
    requires i < |w.orders|
    ensures var t := Next(w, RefundEvent(reference, event, id, target));
      var o := w.orders[i];
      var hit := target == OfOrder(i) && "order-" <= reference && o.reference == reference
                 && event in {"processed", "failed"};
      && |t.orders| == |w.orders| && t.sent == w.sent && t.quotes == w.quotes
      && (t.orders[i].pay == Refunded <==> o.pay == Refunded || hit)
      && t.orders[i] == if hit && o.pay != Refunded then o.(pay := Refunded, refundId := Some(id)) else o
  {
  }

  const ONE_BOOKING: seq<Step> := [
    CreateQuote(1, 9, [Line(2, 1000, 1.0, "", Offered)]),
    CreateBooking(1, 0, 0, 5, 0, true, 0)]

  const ITS_PAYMENT: seq<Step> := [
    PayBooking(0, 1, true, Payout(false, true, true, true), "booking-1", Accepted(1)),
    ChargeSuccess(OfBooking(0), "booking-1")]

  lemma RunSnoc(w: Market, steps: seq<Step>, step: Step)
    ensures Run(w, steps + [step]) == Next(Run(w, steps), step)
  {
    assert (steps + [step])[..|steps|] == steps;
  }

  lemma RunTwo(w: Market, a: Step, b: Step)
    ensures Run(w, [a, b]) == Next(Next(w, a), b)
  {
    RunSnoc(w, [], a);
    RunSnoc(w, [a], b);
    assert [] + [a] == [a] && [a] + [b] == [a, b];
  }

  lemma OneQuoteMade()
    ensures Next(EMPTY, ONE_BOOKING[0])
      == Tables([Quote(1, Ready, 9, [Line(2, 1000, 1.0, "", Offered)])], [], [], [], [])
  {
    var line := Line(2, 1000, 1.0, "", Offered);
    QuoteCreated(EMPTY, 1, 9, [line]);
    assert Next(EMPTY, ONE_BOOKING[0]).quotes[0].lines == [line];
  }

  lemma OneLineBooked(w: Market)
    requires w == Tables([Quote(1, Ready, 9, [Line(2, 1000, 1.0, "", Offered)])], [], [], [], [])
    ensures var t := Next(w, ONE_BOOKING[1]);
      && |t.bookings| == 1 && t.sent == []
      && t.bookings[0] == Booking(0, 0, 1, 2, PendingPayment, Pending, 1000, 0, 100, 1100)
  {
    Money.BookingAmountsClosed(1000, 0);
  }

  lemma OneBookingRun()
    ensures var w := Run(EMPTY, ONE_BOOKING);
      && |w.bookings| == 1 && w.sent == []
      && w.bookings[0] == Booking(0, 0, 1, 2, PendingPayment, Pending, 1000, 0, 100, 1100)
  {
    OneQuoteMade();
    OneLineBooked(Next(EMPTY, ONE_BOOKING[0]));
    RunTwo(EMPTY, ONE_BOOKING[0], ONE_BOOKING[1]);
    assert [ONE_BOOKING[0], ONE_BOOKING[1]] == ONE_BOOKING;
  }

  lemma ItsPaymentRun(w: Market)
    requires |w.bookings| == 1 && w.bookings[0].user == 1 && w.bookings[0].total > 0
    requires w.bookings[0].pay == Pending && w.bookings[0].status == PendingPayment
    ensures var t := Next(Next(w, ITS_PAYMENT[0]), ITS_PAYMENT[1]);
      |t.bookings| == 1 && t.sent == w.sent && t.bookings[0].pay == Paid && t.payments[0].reference == "booking-1"
  {
    Money.MinorRoundTrip(w.bookings[0].total);
  }

  /** A run in which the provider accepts no refund, reports one failed, and the paid booking stands as refunded. */
  lemma FailedRefundMarksRefunded(id: int)
    ensures var paid := Run(EMPTY, ONE_BOOKING + [ITS_PAYMENT[0]] + [ITS_PAYMENT[1]]);
      var failed := Next(paid, RefundEvent("booking-1", "failed", id, OfBooking(0)));
      && |paid.bookings| == |failed.bookings| == 1 && failed.sent == []
      && paid.bookings[0].pay == Paid
      && failed.bookings[0].pay == failed.payments[0].status == Refunded
  {
    OneBookingRun();
    RunSnoc(EMPTY, ONE_BOOKING, ITS_PAYMENT[0]);
    RunSnoc(EMPTY, ONE_BOOKING + [ITS_PAYMENT[0]], ITS_PAYMENT[1]);
    ItsPaymentRun(Run(EMPTY, ONE_BOOKING));
    var paid := Run(EMPTY, ONE_BOOKING + [ITS_PAYMENT[0]] + [ITS_PAYMENT[1]]);
    RefundEventMarksBookingIff(paid, "booking-1", "failed", id, OfBooking(0), 0);
  }

  /** The provider could be asked to refund this booking. */
  predicate Askable(p: Payment, enabled: bool)
  {
    enabled && p.status == Paid && p.provider == Paystack && p.reference != ""
  }

  /** A cancellation of a paid booking the provider could not be asked about. */
  predicate CancelsUnasked(w: Market, i: nat, user: nat, enabled: bool)
    requires i < |w.bookings|
  {
    var b := w.bookings[i];
    && b.user == user && b.pay == Paid && b.status != Completed && b.status != Cancelled
    && !Askable(w.payments[i], enabled)
  }

  /** A final event under a row's reference. */
  predicate FinalEventFor(w: Market, step: Step, target: Target)
  {
    && step.RefundEvent? && step.target == target
    && ResolvesTo(w, step.reference, target) && step.event in {"processed", "failed"}
  }

  lemma CancelMarksIff(w: Market, i: nat, user: nat, enabled: bool, reply: Reply)
    requires i < |w.bookings| && w.bookings[i].pay != Refunded
    ensures var t := BookingCancelled(w, i, user, enabled, reply).0;
      && |t.bookings| == |w.bookings|
      && (t.bookings[i].pay == Refunded && t.sent == w.sent <==> CancelsUnasked(w, i, user, enabled))
  {
  }

  lemma OtherStepsMarkIff(w: Market, step: Step, i: nat)
    requires i < |w.bookings| && w.bookings[i].pay != Refunded && MovesBookings(step) && !step.CustomerCancel?
    ensures |Next(w, step).bookings| == |w.bookings|
    ensures var t := Next(w, step);
      t.bookings[i].pay == Refunded && t.sent == w.sent <==> FinalEventFor(w, step, OfBooking(i))
  {
  }

  lemma UnmovedUnmarked(w: Market, step: Step, i: nat)
    requires i < |w.bookings| && w.bookings[i].pay != Refunded
    requires !MovesBookings(step) || (step.CustomerCancel? && step.i != i)
    ensures i < |Next(w, step).bookings| && Next(w, step).bookings[i].pay != Refunded
  {
    if step.CustomerCancel? {
      if step.i < |w.bookings| { CancelOnBooking(w, step.i, step.user, step.enabled, step.reply); }
    } else {
      OtherStepsSpareBookings(w, step);
      assert Next(w, step).bookings[..|w.bookings|] == w.bookings;
    }
  }

  /** The steps that mark a booking refunded although the provider accepts no refund: a final event under its
      reference, and its customer's cancellation when it is paid and the provider could not be asked. */
  lemma MarkedWithoutRefundIff(w: Market, step: Step, i: nat)
    requires i < |w.bookings| && w.bookings[i].pay != Refunded
    ensures i < |Next(w, step).bookings|
    ensures Next(w, step).bookings[i].pay == Refunded && Next(w, step).sent == w.sent
      <==> FinalEventFor(w, step, OfBooking(i))
           || (step.CustomerCancel? && step.i == i && CancelsUnasked(w, i, step.user, step.enabled))
  {
    if step.CustomerCancel? && step.i == i {
      CancelMarksIff(w, i, step.user, step.enabled, step.reply);
    } else if MovesBookings(step) && !step.CustomerCancel? {
      OtherStepsMarkIff(w, step, i);
    } else {
      UnmovedUnmarked(w, step, i);
    }
  }

  lemma OrderMarkedWithoutRefundIff(w: Market, step: Step, i: nat)
    requires i < |w.orders| && w.orders[i].pay != Refunded
    ensures i < |Next(w, step).orders|
    ensures var t := Next(w, step);
      t.orders[i].pay == Refunded && t.sent == w.sent <==> FinalEventFor(w, step, OfOrder(i))
  {
  }

  // ---------------------------------------------------------------- transitions, repeats, charges

  /** A transition is allowed exactly if it stays, cancels what is not final, or climbs one rank;
      only a confirmed job may start without the mechanic having been en route. */
  lemma AllowedTransitionIff(from: Status, to: Status)
    ensures AllowedTransition(from, to) <==>
      || from == to
      || (Rank(from) < 4 && (to == Cancelled || Rank(to) == Rank(from) + 1))
      || (from == Confirmed && to == InProgress)
  {
  }

  /** Charge and refund events may be repeated: the second delivery of one changes nothing. */
  lemma EventsIdempotent(w: Market, step: Step)
    requires step.ChargeSuccess? || step.RefundEvent?
    ensures Next(Next(w, step), step) == Next(w, step)
  {
  }

  /** A charge event pays a booking that is not paid exactly if its total is positive: both rows are paid, through the
      provider and under the event's reference, and a booking awaiting payment is confirmed. It can then be refunded
      through the provider exactly if the event carried a reference, no refund was ever recorded and the work is
      not done. */
  lemma ChargeThenRefund(w: Market, i: nat, reference: string, id: int)
    requires i < |w.bookings| && w.bookings[i].pay != Paid
    ensures var (t, e) := BookingPaid(w, i, reference);
      var b, p := w.bookings[i], w.payments[i];
      && |t.bookings| == |w.bookings|
      && (e.None? <==> b.total > 0)
      && (e.Some? ==> t == w)
      && (e.None? ==>
            var status := if b.status == PendingPayment then Confirmed else b.status;
            && t == w.(bookings := w.bookings[i := b.(pay := Paid, status := status)],
                       payments := w.payments[i := Payment(Paystack, reference, p.refundId, Paid)])
            && (RefundBooking(t, i, b.user, false, true, None, Accepted(id)).1.None?
                <==> reference != "" && p.refundId.None? && b.status != Completed))
  {
  }

  /** A charge event for a paid booking or order changes nothing; one for none is an error. */
  lemma ChargeAgain(w: Market, i: nat, reference: string)
    ensures i < |w.bookings| && w.bookings[i].pay == Paid ==> BookingPaid(w, i, reference) == (w, None)
    ensures i < |w.orders| && w.orders[i].pay == Paid ==> OrderPaid(w, i, reference) == (w, None)
    ensures i >= |w.bookings| ==> BookingPaid(w, i, reference) == (w, Some(NotFound))
    ensures i >= |w.orders| ==> OrderPaid(w, i, reference) == (w, Some(NotFound))
  {
  }

  /** The same for an order, which is confirmed if it was pending, and is refundable until it is shipped. */
  lemma OrderChargeThenRefund(w: Market, i: nat, reference: string, id: int)
    requires i < |w.orders| && w.orders[i].pay != Paid
    ensures var (t, e) := OrderPaid(w, i, reference);
      var o := w.orders[i];
      && |t.orders| == |w.orders|
      && (e.None? <==> o.total > 0)
      && (e.Some? ==> t == w)
      && (e.None? ==>
            var status := if o.status == Orders.Pending then Orders.Confirmed else o.status;
            var paid := OrderRow(o.user, status, Paid, Paystack, reference, o.refundId, o.total);
            && t == w.(orders := w.orders[i := paid])
            && (OrderRefunded(t, i, o.user, false, true, None, Accepted(id)).1.None?
                <==> reference != "" && o.refundId.None? && o.status != Orders.Shipped && o.status != Orders.Delivered))
  {
  }

  /** A refund of an order, by its customer or an administrator: when it goes out, what the provider is sent, and that
      the order is then refunded and cancelled. */
  lemma OrderRefundAcceptedIff(w: Market, i: nat, user: nat, asAdmin: bool, enabled: bool, partial: Option<real>,
                               reply: Reply)
    requires i < |w.orders|
    ensures var (t, e) := OrderRefunded(w, i, user, asAdmin, enabled, partial, reply);
      var o := w.orders[i];
      var mayAsk := asAdmin || o.user == user;
      var sendable := partial.None? || 0.005 <= partial.value <= Money.Major(o.total);
      var viaProvider := o.pay == Paid && o.provider == Paystack && o.reference != "";
      var open := o.status != Orders.Shipped && o.status != Orders.Delivered;
      && (e.None? <==> enabled && mayAsk && reply.Accepted? && open && viaProvider && o.refundId.None? && sendable)
      && (e == Some(NotConfigured) <==> !enabled)
      && (e == Some(NotFound) <==> enabled && !mayAsk)
      && (e == Some(ProviderFailed) <==>
            enabled && mayAsk && reply.Rejected? && open && viaProvider && o.refundId.None? && sendable)
      && (e.Some? ==> t == w)
      && (e.None? ==>
            var refunded := o.(pay := Refunded, refundId := Some(reply.id), status := Orders.Cancelled);
            && t == w.(orders := w.orders[i := refunded], sent := t.sent)
            && exists s :: t.sent == w.sent + [s] && SentFor(s, OfOrder(i), partial))
  {
    RefundAmountIff(w.orders[i].total, partial);
    var (t, e) := OrderRefunded(w, i, user, asAdmin, enabled, partial, reply);
    if e.None? {
      var s := t.sent[|w.sent|];
      assert t.sent == w.sent + [s] && SentFor(s, OfOrder(i), partial);
    }
  }

  /** A mechanic moves a booking exactly if it is the mechanic's and the transition is allowed; the status given is
      written, and a manual confirmation of an unpaid booking marks the booking, and it alone, paid. */
  lemma MoveOutcome(w: Market, i: nat, mechanic: nat, status: Status)
    ensures var (t, e) := Move(w, i, mechanic, status);
      var own := i < |w.bookings| && w.bookings[i].mechanic == mechanic;
      && (e == Some(NotFound) <==> !own)
      && (e == Some(InvalidTransition) <==> own && !AllowedTransition(w.bookings[i].status, status))
      && (e.None? <==> own && AllowedTransition(w.bookings[i].status, status))
      && (e.Some? ==> t == w)
      && (e.None? ==>
            var b := w.bookings[i];
            var pay := if b.pay == Pending && status == Confirmed then Paid else b.pay;
            t == w.(bookings := w.bookings[i := b.(status := status, pay := pay)]))
  {
  }

  /** A checkout opens exactly for the customer's own unpaid booking awaiting payment, when the provider is enabled and
      accepts, the total is positive and the mechanic can be paid out; the payment row then carries the reference. */
  lemma CheckoutOutcome(w: Market, i: nat, user: nat, enabled: bool, payout: Payout, reference: string, reply: Reply)
    requires i < |w.bookings|
    ensures var (t, e) := InitializeBooking(w, i, user, enabled, payout, reference, reply);
      var b, p := w.bookings[i], w.payments[i];
      && (e.None? <==>
            && enabled && b.user == user && b.pay == Pending && b.status == PendingPayment
            && SplitParams(b, payout).Ok? && b.total > 0 && reply.Accepted?)
      && (e == Some(ProviderFailed) <==>
            && enabled && b.user == user && b.pay == Pending && b.status == PendingPayment
            && SplitParams(b, payout).Ok? && b.total > 0 && reply.Rejected?)
      && (e == Some(NotConfigured) <==> !enabled)
      && (enabled && b.user != user ==> e == Some(NotFound))
      && (e == Some(NotPending) <==> enabled && b.user == user && !(b.pay == Pending && b.status == PendingPayment))
      && (e.Some? ==> t == w)
      && (e.None? ==> t == w.(payments := w.payments[i := Payment(Paystack, reference, p.refundId, p.status)]))
  {
    Money.MinorRoundTrip(w.bookings[i].total);
  }

  lemma OrderCheckoutOutcome(w: Market, i: nat, user: nat, enabled: bool, reference: string, reply: Reply)
    requires i < |w.orders|
    ensures var (t, e) := InitializeOrder(w, i, user, enabled, reference, reply);
      var o := w.orders[i];
      && (e.None? <==>
            && enabled && o.user == user && o.pay == Pending && o.status != Orders.Cancelled
            && o.total > 0 && reply.Accepted?)
      && (e == Some(ProviderFailed) <==>
            && enabled && o.user == user && o.pay == Pending && o.status != Orders.Cancelled
            && o.total > 0 && reply.Rejected?)
      && (e == Some(NotConfigured) <==> !enabled)
      && (e == Some(NotFound) <==> enabled && o.user != user)
      && (e == Some(NotPending) <==> enabled && o.user == user && (o.pay != Pending || o.status == Orders.Cancelled))
      && (e.Some? ==> t == w)
      && (e.None? ==> t == w.(orders := w.orders[i := o.(provider := Paystack, reference := reference)]))
  {
    Money.MinorRoundTrip(w.orders[i].total);
  }

  // ---------------------------------------------------------------- quotes, lines and bookings

  ghost predicate QuoteOk(w: Market, q: nat)
    requires q < |w.quotes|
  {
    && (w.quotes[q].status == Booked <==> BookingExists(w.bookings, q))
    && (w.quotes[q].status != Booked ==>
          forall k :: 0 <= k < |w.quotes[q].lines| ==> w.quotes[q].lines[k].status == Offered)
  }

  /** A booking's quote is booked, its line alone selected, its deal what that line offered. */
  ghost predicate DealOk(quotes: seq<Quote>, b: Booking)
  {
    && b.quote < |quotes|
    && var quote := quotes[b.quote];
    && quote.status == Booked && b.line < |quote.lines| && b.user == quote.user
    && (forall k :: 0 <= k < |quote.lines| ==> quote.lines[k].status == if k == b.line then Selected else Declined)
    && b.labor == quote.lines[b.line].price && b.mechanic == quote.lines[b.line].mechanic
    && (b.fee, b.total) == Money.BookingAmounts(b.labor, b.parts)
  }

  ghost predicate Agreement(w: Market)
  {
    && (forall q :: 0 <= q < |w.quotes| ==> QuoteOk(w, q))
    && (forall i :: 0 <= i < |w.bookings| ==> DealOk(w.quotes, w.bookings[i]))
    && (forall i, j :: 0 <= i < j < |w.bookings| ==> w.bookings[i].quote != w.bookings[j].quote)
  }

  predicate TouchesQuotes(step: Step)
  {
    step.CreateQuote? || step.ExpireQuotes? || step.RespondToLine? || step.CreateBooking?
  }

  lemma NextElsewhere(w: Market, step: Step)
    requires !TouchesQuotes(step)
    ensures Next(w, step).quotes == w.quotes && |Next(w, step).bookings| == |w.bookings|
  {
  }

  lemma {:induction false} ElsewhereKeepsAgreement(w: Market, step: Step)
    requires Agreement(w) && !TouchesQuotes(step)
    ensures Agreement(Next(w, step))
  {
    var t := Next(w, step);
    NextElsewhere(w, step);
    forall i | 0 <= i < |w.bookings| ensures SameDeal(w.bookings[i], t.bookings[i]) {
      NextOnBooking(w, step, i);
    }
    forall q | 0 <= q < |t.quotes| ensures QuoteOk(t, q) {
      assert QuoteOk(w, q);
      SameQuotes(w.bookings, t.bookings, q);
    }
  }

  lemma SameQuotes(bs: seq<Booking>, cs: seq<Booking>, q: nat)
    requires |bs| == |cs| && forall i :: 0 <= i < |bs| ==> SameDeal(bs[i], cs[i])
    ensures BookingExists(bs, q) <==> BookingExists(cs, q)
  {
  }

  lemma ExpireKeepsAgreement(w: Market, now: int)
    requires Agreement(w)
    ensures Agreement(Expire(w, now))
  {
    var t := Expire(w, now);
    forall q | 0 <= q < |t.quotes| ensures QuoteOk(t, q) {
      assert QuoteOk(w, q);
    }
    forall i | 0 <= i < |t.bookings| ensures DealOk(t.quotes, t.bookings[i]) {
      assert DealOk(w.quotes, w.bookings[i]);
    }
  }

  lemma RespondKeepsAgreement(w: Market, q: nat, l: nat, mechanic: nat, response: Response, now: int)
    requires Agreement(w)
    ensures Agreement(Respond(w, q, l, mechanic, response, now).0)
  {
    var t := Respond(w, q, l, mechanic, response, now).0;
    forall x | 0 <= x < |t.quotes| ensures QuoteOk(t, x) {
      assert QuoteOk(w, x);
    }
    forall i | 0 <= i < |t.bookings| ensures DealOk(t.quotes, t.bookings[i]) {
      assert DealOk(w.quotes, w.bookings[i]);
    }
  }

  lemma CreateQuoteKeepsAgreement(w: Market, user: nat, expiresAt: int, offers: seq<Line>)
    requires Agreement(w)
    ensures Agreement(Next(w, CreateQuote(user, expiresAt, offers)))
  {
    var t := Next(w, CreateQuote(user, expiresAt, offers));
    forall i | 0 <= i < |t.bookings| ensures DealOk(t.quotes, t.bookings[i]) {
      assert DealOk(w.quotes, w.bookings[i]);
    }
    forall q | 0 <= q < |t.quotes| ensures QuoteOk(t, q) {
      if q < |w.quotes| { assert QuoteOk(w, q); }
    }
  }

  lemma BookLineKeepsAgreement(w: Market, q: nat, l: nat, parts: nat)
    requires Agreement(w) && q < |w.quotes| && l < |w.quotes[q].lines|
    requires w.quotes[q].status == Ready && !BookingExists(w.bookings, q)
    ensures Agreement(BookLine(w, q, l, parts))
  {
    var t, n := BookLine(w, q, l, parts), |w.bookings|;
    assert forall i :: 0 <= i < n ==> w.bookings[i].quote != q;
    forall i | 0 <= i < |t.bookings| ensures DealOk(t.quotes, t.bookings[i]) {
      if i < n { assert DealOk(w.quotes, w.bookings[i]); }
    }
    forall x | 0 <= x < |t.quotes| ensures QuoteOk(t, x) {
      assert QuoteOk(w, x);
      BookingExistsSnoc(w.bookings, t.bookings[n], x);
    }
  }

  lemma BookKeepsAgreement(w0: Market, user: nat, q: nat, l: nat, scheduledAt: int, now: int, profile: bool, parts: nat)
    requires Agreement(w0)
    ensures Agreement(Book(w0, user, q, l, scheduledAt, now, profile, parts).0)
  {
    var (t, e) := Book(w0, user, q, l, scheduledAt, now, profile, parts);
    ExpireKeepsAgreement(w0, now);
    if e.None? {
      BookLineKeepsAgreement(Expire(w0, now), q, l, parts);
    }
  }

  lemma BookingExistsSnoc(bs: seq<Booking>, b: Booking, q: nat)
    ensures BookingExists(bs + [b], q) <==> BookingExists(bs, q) || b.quote == q
  {
    if b.quote == q { assert (bs + [b])[|bs|].quote == q; }
    if i :| 0 <= i < |bs| && bs[i].quote == q { assert (bs + [b])[i].quote == q; }
  }

  lemma {:induction false} RunAgreement(steps: seq<Step>)
    ensures Agreement(Run(EMPTY, steps))
  {
    if steps != [] {
      var n := |steps| - 1;
      RunAgreement(steps[..n]);
      var w := Run(EMPTY, steps[..n]);
      match steps[n]
      case CreateQuote(user, expiresAt, offers) => CreateQuoteKeepsAgreement(w, user, expiresAt, offers);
      case ExpireQuotes(now) => ExpireKeepsAgreement(w, now);
      case RespondToLine(q, l, mechanic, response, now) => RespondKeepsAgreement(w, q, l, mechanic, response, now);
      case CreateBooking(user, q, l, scheduledAt, now, profile, parts) =>
        BookKeepsAgreement(w, user, q, l, scheduledAt, now, profile, parts);
      case _ => ElsewhereKeepsAgreement(w, steps[n]);
    }
  }

  /** For every booking of a reachable market the split is never invalid. A checkout can go ahead exactly if splits are
      off, or the mechanic has a subaccount and the labour is at least five minor units, or may do without one;
      a split keeps the fee for the platform and leaves the mechanic labour and parts. */
  lemma {:induction false} SplitOutcome(steps: seq<Step>, i: nat, payout: Payout)
    requires i < |Run(EMPTY, steps).bookings|
    ensures var b := Run(EMPTY, steps).bookings[i];
      var r := SplitParams(b, payout);
      && r != Err(BadAmount(Money.SplitInvalid))
      && (r.Ok? <==>
            !payout.enabled || (payout.profile && if payout.subaccount then b.labor >= 5 else !payout.required))
      && (r == Err(NotFound) <==> payout.enabled && !payout.profile)
      && (r == Err(PayoutNotConfigured) <==>
            payout.enabled && payout.profile && !payout.subaccount && payout.required)
      && (r.Ok? ==> (r.value.Some? <==> payout.enabled && payout.subaccount))
      && (r.Ok? && r.value.Some? ==> r.value.value == b.fee && b.total - r.value.value == b.labor + b.parts)
  {
    RunAgreement(steps);
    var w := Run(EMPTY, steps);
    assert DealOk(w.quotes, w.bookings[i]);
    Money.SplitConserves(w.bookings[i].labor, w.bookings[i].parts);
  }

  /** In an agreeing market a line can be booked exactly when its quote is the user's, ready and unexpired,
      the time is not past and the mechanic is found: no booking of the quote can exist then. */
  lemma BookSucceedsIff(w: Market, user: nat, q: nat, l: nat, scheduledAt: int, now: int, profile: bool, parts: nat)
    requires Agreement(w)
    ensures var (t, e) := Book(w, user, q, l, scheduledAt, now, profile, parts);
      && (e.None? <==> scheduledAt >= now && q < |w.quotes| && w.quotes[q].user == user && w.quotes[q].status == Ready
                       && now <= w.quotes[q].expiresAt && l < |w.quotes[q].lines| && profile)
      && (e.Some? ==> t.bookings == w.bookings && t.payments == w.payments)
      && e != Some(AlreadyBooked)
  {
  }

  /** A booking that is made is of the line asked for: its mechanic and price, the quote's customer, the parts given,
      not yet paid. That line is selected and the quote's others declined; another quote is only expired if due. */
  lemma BookedLine(w: Market, user: nat, q: nat, l: nat, scheduledAt: int, now: int, profile: bool, parts: nat)
    requires Book(w, user, q, l, scheduledAt, now, profile, parts).1.None?
    ensures q < |w.quotes| && l < |w.quotes[q].lines|
    ensures var t := Book(w, user, q, l, scheduledAt, now, profile, parts).0;
      var quote := w.quotes[q];
      var line := quote.lines[l];
      var fee := (line.price + 5) / 10;
      var booking := Booking(q, l, user, line.mechanic, PendingPayment, Pending, line.price, parts, fee,
                             parts + line.price + fee);
      && t == w.(quotes := t.quotes, bookings := w.bookings + [booking],
                 payments := w.payments + [Payment(Manual, "", None, Pending)])
      && |t.quotes| == |w.quotes|
      && t.quotes[q] == quote.(status := Booked, lines := t.quotes[q].lines) && |t.quotes[q].lines| == |quote.lines|
      && (forall k :: 0 <= k < |quote.lines| ==>
            t.quotes[q].lines[k] == quote.lines[k].(status := if k == l then Selected else Declined))
      && (forall x :: 0 <= x < |w.quotes| && x != q ==> OnlyExpired(w.quotes[x], t.quotes[x], now))
  {
    Money.BookingAmountsClosed(w.quotes[q].lines[l].price, parts);
  }

  /** A ready quote past its time is expired; nothing else of a quote changes. */
  predicate OnlyExpired(a: Quote, b: Quote, now: int)
  {
    b == a.(status := if a.status == Ready && now > a.expiresAt then Expired else a.status)
  }

  /** Expiry leaves no ready quote past its time, and changes nothing else. */
  lemma ExpireOutcome(w: Market, now: int)
    ensures var t := Expire(w, now);
      && t == w.(quotes := t.quotes) && |t.quotes| == |w.quotes|
      && (forall q :: 0 <= q < |w.quotes| ==> OnlyExpired(w.quotes[q], t.quotes[q], now))
  {
  }

  /** A mechanic answers exactly the lines of a ready quote in time that are the mechanic's own. A price or hours given
      above zero and a message given replace what stood there; nothing else changes. */
  lemma RespondOutcome(w: Market, q: nat, l: nat, mechanic: nat, r: Response, now: int)
    ensures var (t, e) := Respond(w, q, l, mechanic, r, now);
      var there := q < |w.quotes| && l < |w.quotes[q].lines|;
      && (e == Some(LineNotFound) <==> !there)
      && (e == Some(NotForMechanic) <==> there && w.quotes[q].lines[l].mechanic != mechanic)
      && (e.None? <==> there && w.quotes[q].lines[l].mechanic == mechanic && w.quotes[q].status == Ready
                       && now <= w.quotes[q].expiresAt)
      && (e.Some? ==> t == w && e.value in {LineNotFound, NotForMechanic, QuoteExpired})
      && (e.None? ==>
            var line := w.quotes[q].lines[l];
            var answer := Line(mechanic, if r.price.Some? && r.price.value > 0 then r.price.value else line.price,
                               if r.hours.Some? && r.hours.value > 0.0 then r.hours.value else line.hours,
                               if r.message.Some? then r.message.value else line.message, line.status);
            t == w.(quotes := w.quotes[q := w.quotes[q].(lines := w.quotes[q].lines[l := answer])]))
  {
  }

  /** What a booking that cannot be made is refused with, in an agreeing market. */
  lemma BookRefusal(w: Market, user: nat, q: nat, l: nat, scheduledAt: int, now: int, profile: bool, parts: nat)
    requires Agreement(w) && q < |w.quotes|
    ensures var e := Book(w, user, q, l, scheduledAt, now, profile, parts).1;
      var quote := w.quotes[q];
      && (e == Some(ScheduledInPast) <==> scheduledAt < now)
      && (e == Some(NotFound) <==> scheduledAt >= now && quote.user != user)
      && (e == Some(QuoteExpired) <==>
            scheduledAt >= now && quote.user == user && (quote.status == Expired || now > quote.expiresAt))
      && (e == Some(QuoteNotReady) <==>
            scheduledAt >= now && quote.user == user && quote.status == Booked && now <= quote.expiresAt)
  {
  }

  /** An administrator's status goes to that order row alone. */
  lemma OrderStatusSet(w: Market, i: nat, status: Orders.Status)
    requires i < |w.orders|
    ensures Next(w, SetOrderStatus(i, status)) == w.(orders := w.orders[i := w.orders[i].(status := status)])
  {
  }

  /** An order row starts pending and unpaid, with no reference and no refund. */
  lemma OrderCreated(w: Market, user: nat, total: int, provider: Provider)
    ensures Next(w, CreateOrder(user, total, provider))
      == w.(orders := w.orders + [OrderRow(user, Orders.Pending, Pending, provider, "", None, total)])
  {
  }

  /** A quote that is created is ready, for its user, with the lines offered. */
  lemma QuoteCreated(w: Market, user: nat, expiresAt: int, offers: seq<Line>)
    ensures var t := Next(w, CreateQuote(user, expiresAt, offers));
      && t == w.(quotes := t.quotes) && |t.quotes| == |w.quotes| + 1 && t.quotes[..|w.quotes|] == w.quotes
      && var quote := t.quotes[|w.quotes|];
      && quote == Quote(user, Ready, expiresAt, quote.lines) && |quote.lines| == |offers|
      && forall k :: 0 <= k < |offers| ==> quote.lines[k] == offers[k].(status := Offered)
  {
  }

  ghost function BookingsOf(w: Market, q: nat): set<nat>
  {
    set i | 0 <= i < |w.bookings| && w.bookings[i].quote == q
  }

  /** In every reachable market a quote is booked exactly when one booking refers to it, and otherwise none does
      and all its lines are offered; the booked line alone is selected, and the booking's labour is its price. */
  lemma {:induction false} QuoteAgreement(steps: seq<Step>, q: nat)
    requires q < |Run(EMPTY, steps).quotes|
    ensures var w := Run(EMPTY, steps);
      var quote := w.quotes[q];
      && |BookingsOf(w, q)| == (if quote.status == Booked then 1 else 0)
      && (quote.status != Booked ==> forall k :: 0 <= k < |quote.lines| ==> quote.lines[k].status == Offered)
      && (forall i :: i in BookingsOf(w, q) ==> DealOk(w.quotes, w.bookings[i]))
  {
    RunAgreement(steps);
    AgreeingQuote(Run(EMPTY, steps), q);
  }

  lemma AgreeingQuote(w: Market, q: nat)
    requires Agreement(w) && q < |w.quotes|
    ensures |BookingsOf(w, q)| == (if w.quotes[q].status == Booked then 1 else 0)
    ensures QuoteOk(w, q) && forall i :: i in BookingsOf(w, q) ==> DealOk(w.quotes, w.bookings[i])
  {
    assert QuoteOk(w, q);
    if w.quotes[q].status == Booked {
      var i :| 0 <= i < |w.bookings| && w.bookings[i].quote == q;
      assert BookingsOf(w, q) == {i};
    } else {
      assert BookingsOf(w, q) == {};
    }
  }

  // ---------------------------------------------------------------- the services

  /** The installation and payment services over their shared tables. `sent` is what the provider accepted. */
  class Marketplace {
    var quotes: seq<Quote>
    var bookings: seq<Booking>
    var payments: seq<Payment>
    var orders: seq<OrderRow>
    ghost var sent: seq<Sent>

    ghost predicate Valid()
      reads this
    {
      |payments| == |bookings|
    }

    ghost function View(): Market
      reads this
      requires Valid()
    {
      Tables(quotes, bookings, payments, orders, sent)
    }

    constructor ()
      ensures Valid() && View() == EMPTY
    {
      quotes, bookings, payments, orders, sent := [], [], [], [], [];
    }

    method ExpireQuotesBefore(now: int)
      requires Valid()
      modifies `quotes
      ensures View() == Expire(old(View()), now)
    {
      for q := 0 to |quotes|
        invariant |quotes| == |old(quotes)|
        invariant forall k :: 0 <= k < |quotes| ==>
          quotes[k] == if k < q then ExpireQuote(old(quotes)[k], now) else old(quotes)[k]
      {
        if quotes[q].status == Ready && quotes[q].expiresAt < now {
          quotes := quotes[q := quotes[q].(status := Expired)];
        }
      }
      assert quotes == Expire(old(View()), now).quotes;
    }

    method RespondToQuoteLine(q: nat, l: nat, mechanic: nat, response: Response, now: int) returns (e: Option<Error>)
      requires Valid()
      modifies `quotes
      ensures (View(), e) == Respond(old(View()), q, l, mechanic, response, now)
    {
      if q >= |quotes| || l >= |quotes[q].lines| {
        return Some(LineNotFound);
      }
      var line := quotes[q].lines[l];
      if line.mechanic != mechanic {
        return Some(NotForMechanic);
      }
      if quotes[q].status != Ready || now > quotes[q].expiresAt {
        return Some(QuoteExpired);
      }
      if response.price.Some? && response.price.value > 0 {
        line := line.(price := response.price.value);
      }
      if response.hours.Some? && response.hours.value > 0.0 {
        line := line.(hours := response.hours.value);
      }
      if response.message.Some? {
        line := line.(message := response.message.value);
      }
      quotes := quotes[q := quotes[q].(lines := quotes[q].lines[l := line])];
      e := None;
    }

    method CreateBooking(user: nat, q: nat, l: nat, scheduledAt: int, now: int, profile: bool, parts: nat)
      returns (e: Option<Error>)
      requires Valid()
      modifies this
      ensures Valid() && (View(), e) == Book(old(View()), user, q, l, scheduledAt, now, profile, parts)
    {
      if scheduledAt < now {
        return Some(ScheduledInPast);
      }
      ExpireQuotesBefore(now);
      if q >= |quotes| || quotes[q].user != user {
        return Some(NotFound);
      }
      var quote := quotes[q];
      if quote.status == Expired || now > quote.expiresAt {
        return Some(QuoteExpired);
      }
      if quote.status != Ready {
        return Some(QuoteNotReady);
      }
      if BookingExists(bookings, q) {
        return Some(AlreadyBooked);
      }
      if l >= |quote.lines| {
        return Some(LineNotFound);
      }
      if !profile {
        return Some(ProfileMissing);
      }
      var labor := quote.lines[l].price;
      var fee, total := Money.BookingAmounts(labor, parts).0, Money.BookingAmounts(labor, parts).1;
      var mechanic := quote.lines[l].mechanic;
      bookings := bookings + [Booking(q, l, user, mechanic, PendingPayment, Pending, labor, parts, fee, total)];
      payments := payments + [Payment(Manual, "", None, Pending)];
      var declined := seq(|quote.lines|, k requires 0 <= k < |quote.lines| => quote.lines[k].(status := Declined));
      var chosen := declined[l := declined[l].(status := Selected)];
      assert chosen == Choose(quote.lines, l);
      quotes := quotes[q := quote.(status := Booked, lines := chosen)];
      e := None;
    }

    method UpdateBookingStatus(i: nat, mechanic: nat, status: Status) returns (e: Option<Error>)
      requires Valid()
      modifies `bookings
      ensures Valid() && (View(), e) == Move(old(View()), i, mechanic, status)
    {
      if i >= |bookings| || bookings[i].mechanic != mechanic {
        return Some(NotFound);
      }
      if !AllowedTransition(bookings[i].status, status) {
        return Some(InvalidTransition);
      }
      var booking := bookings[i].(status := status);
      if status == Confirmed && booking.pay == Pending {
        booking := booking.(pay := Paid);
      }
      bookings := bookings[i := booking];
      e := None;
    }

    method MarkBookingPaid(i: nat, reference: string) returns (e: Option<Error>)
      requires Valid()
      modifies `bookings, `payments
      ensures Valid() && (View(), e) == BookingPaid(old(View()), i, reference)
    {
      if i >= |bookings| {
        return Some(NotFound);
      }
      var booking := bookings[i];
      if booking.pay == Paid {
        return None;
      }
      var expected := Money.ToMinorUnits(Money.Major(booking.total));
      if expected.Err? {
        return Some(BadAmount(Money.InvalidAmount));
      }
      booking := booking.(pay := Paid);
      if booking.status == PendingPayment {
        booking := booking.(status := Confirmed);
      }
      bookings := bookings[i := booking];
      payments := payments[i := payments[i].(provider := Paystack, reference := reference, status := Paid)];
      e := None;
    }

    method RefundRow(i: nat, partial: Option<real>, reply: Reply) returns (e: Option<Error>)
      requires Valid() && i < |bookings|
      modifies `bookings, `payments, `sent
      ensures Valid() && (View(), e) == RefundBookingRow(old(View()), i, partial, reply)
    {
      if bookings[i].status == Completed {
        return Some(CannotRefund);
      }
      var payment := payments[i];
      e := ValidateRefundable(payment.status, payment.provider, payment.reference, payment.refundId);
      if e.Some? {
        return;
      }
      var amount := Money.RefundAmount(bookings[i].total, partial);
      if amount.Err? {
        return Some(BadAmount(amount.error));
      }
      if reply.Rejected? {
        return Some(ProviderFailed);
      }
      sent := sent + [Sent(OfBooking(i), amount.value)];
      bookings := bookings[i := bookings[i].(pay := Refunded)];
      payments := payments[i := payment.(status := Refunded, refundId := Some(reply.id))];
      e := None;
    }

    method CancelBooking(i: nat, user: nat, enabled: bool, reply: Reply) returns (e: Option<Error>)
      requires Valid()
      modifies `bookings, `payments, `sent
      ensures Valid() && (View(), e) == BookingCancelled(old(View()), i, user, enabled, reply)
    {
      if i >= |bookings| || bookings[i].user != user {
        return Some(NotFound);
      }
      if bookings[i].status == Completed || bookings[i].status == Cancelled {
        return Some(NotCancellable);
      }
      if bookings[i].pay == Paid && enabled {
        e := RefundRow(i, None, reply);
        if e.Some? && e != Some(NotRefundable) {
          return;
        }
      }
      var booking := bookings[i].(status := Cancelled);
      if booking.pay == Paid {
        booking := booking.(pay := Refunded);
        payments := payments[i := payments[i].(status := Refunded)];
      }
      bookings := bookings[i := booking];
      e := None;
    }

    method MarkOrderPaid(i: nat, reference: string) returns (e: Option<Error>)
      requires Valid()
      modifies `orders
      ensures (View(), e) == OrderPaid(old(View()), i, reference)
    {
      if i >= |orders| {
        return Some(NotFound);
      }
      var order := orders[i];
      if order.pay == Paid {
        return None;
      }
      var expected := Money.ToMinorUnits(Money.Major(order.total));
      if expected.Err? {
        return Some(BadAmount(Money.InvalidAmount));
      }
      order := order.(pay := Paid, reference := reference, provider := Paystack);
      if order.status == Orders.Pending {
        order := order.(status := Orders.Confirmed);
      }
      orders := orders[i := order];
      e := None;
    }

    method RefundOrder(i: nat, requester: nat, asAdmin: bool, enabled: bool, partial: Option<real>, reply: Reply)
      returns (e: Option<Error>)
      requires Valid()
      modifies `orders, `sent
      ensures (View(), e) == OrderRefunded(old(View()), i, requester, asAdmin, enabled, partial, reply)
    {
      if !enabled {
        return Some(NotConfigured);
      }
      if i >= |orders| || (!asAdmin && orders[i].user != requester) {
        return Some(NotFound);
      }
      var order := orders[i];
      e := ValidateRefundable(order.pay, order.provider, order.reference, order.refundId);
      if e.Some? {
        return;
      }
      if order.status == Orders.Shipped || order.status == Orders.Delivered {
        return Some(CannotRefund);
      }
      var amount := Money.RefundAmount(order.total, partial);
      if amount.Err? {
        return Some(BadAmount(amount.error));
      }
      if reply.Rejected? {
        return Some(ProviderFailed);
      }
      sent := sent + [Sent(OfOrder(i), amount.value)];
      order := order.(pay := Refunded, refundId := Some(reply.id));
      if order.status != Orders.Cancelled {
        order := order.(status := Orders.Cancelled);
      }
      orders := orders[i := order];
      e := None;
    }

    /** The row a reference belongs to, by its prefix. */
    method ResolveReference(reference: string) returns (target: Option<Target>)
      requires Valid()
      ensures target.Some? ==> ResolvesTo(View(), reference, target.value)
      ensures target.None? ==> forall other :: !ResolvesTo(View(), reference, other)
    {
      if "order-" <= reference {
        assert reference[0] == 'o' && "booking-"[0] == 'b';
        for i := 0 to |orders|
          invariant forall k :: 0 <= k < i ==> orders[k].reference != reference
        {
          if orders[i].reference == reference {
            return Some(OfOrder(i));
          }
        }
      } else if "booking-" <= reference {
        for i := 0 to |payments|
          invariant forall k :: 0 <= k < i ==> payments[k].reference != reference
        {
          if payments[i].reference == reference {
            return Some(OfBooking(i));
          }
        }
      }
      target := None;
    }

    /** Marks the row the reference is looked up to, if the event is final and there is one. */
    method HandleRefundWebhook(reference: string, status: string, id: int) returns (target: Option<Target>)
      requires Valid()
      modifies `orders, `bookings, `payments
      ensures Valid()
      ensures target.Some? ==> ResolvesTo(old(View()), reference, target.value)
      ensures target.Some? ==> View() == RefundWebhook(old(View()), reference, status, id, target.value)
      ensures target.None? ==> View() == old(View())
      ensures target.None? ==> !IsRefundTerminal(status) || forall other :: !ResolvesTo(old(View()), reference, other)
    {
      if reference == "" || !IsRefundTerminal(status) {
        return None;
      }
      target := ResolveReference(reference);
      match target {
        case None =>
        case Some(OfOrder(i)) =>
          if orders[i].pay == Refunded {
            return;
          }
          orders := orders[i := orders[i].(pay := Refunded, refundId := Some(id))];
        case Some(OfBooking(i)) =>
          bookings := bookings[i := bookings[i].(pay := Refunded)];
          payments := payments[i := payments[i].(status := Refunded, refundId := Some(id))];
      }
    }
  }
}
