/**
 * Telegram Stars payments: the invoice payload that travels with an invoice and is parsed
 * back when the payment succeeds, the invoice details per payment source, and the recording
 * of a successful payment.
 */
module Payments {
  import opened Wrappers
  import opened Strings
  import opened Profiles

  const InvoicePayloadPrefix: string := "invoice_payload_prefix"
  const ReportDonation: string := "report_donation"
  const SessionUnlock: string := "session_unlock"
  const Currency: string := "XTR"
  /** The item id an unlock invoice carries: an unlock is not tied to an item. */
  const UnlockItemId: int := -1
  /** The amounts of the six unlock tiers, in stars. */
  const UnlockTierAmounts: seq<int> := [20, 50, 100, 200, 500, 1000]

  predicate IsPaymentSource(source: string)
  {
    source == ReportDonation || source == SessionUnlock
  }

  datatype PaymentError =
    | InvalidPayloadFormat
    | MissingPayloadField(index: nat)
    | UnknownSource(source: string)
    | InvalidInteger(text: string)
    | InvalidBot(text: string)
    | MissingItemId
    | UnsupportedSource(source: string)
    | ReportNotFound(reportId: int)
    | DuplicatePayment(chargeId: string)

  /** What a payload identifies: the source, the payer, the bot and the item. */
  datatype InvoiceTarget = InvoiceTarget(source: string, userId: int, bot: BotId, itemId: int)

  // ---------------------------------------------------------------------------------------
  // Payload building and parsing

  /** The payload as the service builds it: the timestamp is glued to the item id by
      '_time_', so the item field is no longer an integer. */
  function BuildInvoicePayloadAsWritten(source: string, userId: int, bot: BotId, itemId: int, now: int): string
  {
    Join([InvoicePayloadPrefix, source, IntToString(userId), BotIdValue(bot),
          IntToString(itemId) + "_time_" + IntToString(now)], ":")
  }

  /** The payload with the timestamp in a field of its own, after the item id. */
  function BuildInvoicePayload(source: string, userId: int, bot: BotId, itemId: int, now: int): string
  {
    Join([InvoicePayloadPrefix, source, IntToString(userId), BotIdValue(bot), IntToString(itemId),
          IntToString(now)], ":")
  }

  /** Reads source, user id, bot and item id back out of a payload. Fields after the item id
      are ignored. */
  function ParseInvoicePayload(payload: string): (r: Result<InvoiceTarget, PaymentError>)
    ensures r.Ok? ==> StartsWith(payload, InvoicePayloadPrefix) && IsPaymentSource(r.value.source)
  {
    if !StartsWith(payload, InvoicePayloadPrefix) then Err(InvalidPayloadFormat)
    else
      var parts := Split(payload, ":");
      if |parts| < 2 then Err(MissingPayloadField(1))
      else if !IsPaymentSource(parts[1]) then Err(UnknownSource(parts[1]))
      else if |parts| < 3 then Err(MissingPayloadField(2))
      else match ParseInt(parts[2])
        case None => Err(InvalidInteger(parts[2]))
        case Some(userId) =>
          if |parts| < 4 then Err(MissingPayloadField(3))
          else match ParseBotId(parts[3])
            case None => Err(InvalidBot(parts[3]))
            case Some(bot) =>
              if |parts| < 5 then Err(MissingPayloadField(4))
              else match ParseInt(parts[4])
                case None => Err(InvalidInteger(parts[4]))
                case Some(itemId) => Ok(InvoiceTarget(parts[1], userId, bot, itemId))
  }

  /** The parser refuses a payload without the prefix, with an unknown source, or with a
      bot name that is not a bot. */
  lemma ParseInvoicePayloadRejects(payload: string)
    ensures !StartsWith(payload, InvoicePayloadPrefix) ==>
      ParseInvoicePayload(payload) == Err(InvalidPayloadFormat)
    ensures var parts := Split(payload, ":");
      StartsWith(payload, InvoicePayloadPrefix) && |parts| >= 2 && !IsPaymentSource(parts[1]) ==>
        ParseInvoicePayload(payload) == Err(UnknownSource(parts[1]))
    ensures var parts := Split(payload, ":");
      StartsWith(payload, InvoicePayloadPrefix) && |parts| >= 4 && IsPaymentSource(parts[1]) && ParseInt(parts[2]).Some? &&
      ParseBotId(parts[3]).None? ==>
        ParseInvoicePayload(payload) == Err(InvalidBot(parts[3]))
  {
  }

  lemma NoColonInInt(i: int)
    ensures ':' !in IntToString(i)
  {
  }

  /** The item field of a built payload: digits, '_time_', digits. */
  lemma ItemFieldRejected(itemId: int, now: int)
    ensures ParseInt(IntToString(itemId) + "_time_" + IntToString(now)) == None
  {
    var item := IntToString(itemId);
    var field := item + "_time_" + IntToString(now);
    assert field[|item| + 1] == 't';
    assert field[|field| - 1] == IntToString(now)[|IntToString(now)| - 1];
    ParseIntRejects(field, |item| + 1);
  }

  /** Colon-free fields behind the prefix join into a payload that starts with the prefix
      and splits back into those fields. */
  lemma JoinedPayload(fields: seq<string>)
    requires |fields| >= 2 && fields[0] == InvoicePayloadPrefix
    requires forall k :: 1 <= k < |fields| ==> ':' !in fields[k]
    ensures StartsWith(Join(fields, ":"), InvoicePayloadPrefix)
    ensures Split(Join(fields, ":"), ":") == fields
  {
    assert ':' !in InvoicePayloadPrefix;
    SplitJoin(fields, ":");
    var s := Join(fields, ":");
    assert s == fields[0] + ":" + Join(fields[1..], ":");
    assert s[..|InvoicePayloadPrefix|] == InvoicePayloadPrefix;
  }

  /** A payload of colon-free fields whose source, user and bot read back: the item field
      decides the outcome. */
  lemma ParseJoinedPayload(fields: seq<string>, userId: int, bot: BotId)
    requires |fields| >= 5 && fields[0] == InvoicePayloadPrefix
    requires forall k :: 1 <= k < |fields| ==> ':' !in fields[k]
    requires IsPaymentSource(fields[1]) && ParseInt(fields[2]) == Some(userId)
    requires fields[3] == BotIdValue(bot)
    ensures ParseInt(fields[4]).None? ==>
      ParseInvoicePayload(Join(fields, ":")) == Err(InvalidInteger(fields[4]))
    ensures ParseInt(fields[4]).Some? ==>
      ParseInvoicePayload(Join(fields, ":")) == Ok(InvoiceTarget(fields[1], userId, bot, ParseInt(fields[4]).value))
  {
    JoinedPayload(fields);
  }

  /** Every payload the service builds is refused when the payment comes back: source, user
      and bot are read, but the item field fails int(). */
  lemma AsWrittenPayloadRejected(source: string, userId: int, bot: BotId, itemId: int, now: int)
    requires IsPaymentSource(source)
    ensures ParseInvoicePayload(BuildInvoicePayloadAsWritten(source, userId, bot, itemId, now))
            == Err(InvalidInteger(IntToString(itemId) + "_time_" + IntToString(now)))
  {
    var item := IntToString(itemId) + "_time_" + IntToString(now);
    var fields := [InvoicePayloadPrefix, source, IntToString(userId), BotIdValue(bot), item];
    assert forall k :: 1 <= k < |fields| ==> ':' !in fields[k] by {
      NoColonInInt(userId);
      NoColonInInt(itemId);
      NoColonInInt(now);
    }
    assert ParseInt(fields[2]) == Some(userId) by {
      IntStringRoundTrip(userId);
    }
    assert ParseInt(fields[4]) == None by {
      ItemFieldRejected(itemId, now);
    }
    ParseJoinedPayload(fields, userId, bot);
  }

  /** With the timestamp in its own field, the payload round-trips: parsing gives back the
      source, user, bot and item it was built from. */
  lemma InvoicePayloadRoundTrip(source: string, userId: int, bot: BotId, itemId: int, now: int)
    requires IsPaymentSource(source)
    ensures ParseInvoicePayload(BuildInvoicePayload(source, userId, bot, itemId, now))
            == Ok(InvoiceTarget(source, userId, bot, itemId))
  {
    var fields := [InvoicePayloadPrefix, source, IntToString(userId), BotIdValue(bot),
                   IntToString(itemId), IntToString(now)];
    assert forall k :: 1 <= k < |fields| ==> ':' !in fields[k] by {
      NoColonInInt(userId);
      NoColonInInt(itemId);
      NoColonInInt(now);
    }
    assert ParseInt(fields[2]) == Some(userId) by {
      IntStringRoundTrip(userId);
    }
    assert ParseInt(fields[4]) == Some(itemId) by {
      IntStringRoundTrip(itemId);
    }
    ParseJoinedPayload(fields, userId, bot);
  }

  // ---------------------------------------------------------------------------------------
  // Invoice details

  /** The localized labels and texts, named by their message keys; a donation is priced
      under the second tier's label. */
  datatype PriceLabel = TierLabel(tier: nat)
  datatype ButtonText = UnlockButton | ReportDonationButton

  datatype PriceItem = PriceItem(labelKey: PriceLabel, amount: int)

  datatype TelegramPayment = TelegramPayment(
    button: ButtonText,
    currency: string,
    prices: seq<PriceItem>,
    invoicePayload: string)

  /** The six unlock tiers, each under its own label. */
  function UnlockPrices(): (prices: seq<PriceItem>)
    ensures |prices| == |UnlockTierAmounts|
    ensures forall i :: 0 <= i < |prices| ==> prices[i].amount == UnlockTierAmounts[i]
    ensures forall i, j :: 0 <= i < j < |prices| ==> prices[i].amount < prices[j].amount
    ensures forall i :: 0 <= i < |prices| ==> prices[i].labelKey == TierLabel(i + 1)
  {
    [PriceItem(TierLabel(1), 20), PriceItem(TierLabel(2), 50), PriceItem(TierLabel(3), 100),
     PriceItem(TierLabel(4), 200), PriceItem(TierLabel(5), 500), PriceItem(TierLabel(6), 1000)]
  }

  /** The session-unlock invoice: the six tiers and a payload naming the payer. */
  function GetUnlockPaymentDetails(userId: int, bot: BotId, now: int): (p: TelegramPayment)
    ensures p.currency == Currency && p.button == UnlockButton
    ensures p.prices == UnlockPrices()
    ensures ParseInvoicePayload(p.invoicePayload) == Ok(InvoiceTarget(SessionUnlock, userId, bot, UnlockItemId))
  {
    InvoicePayloadRoundTrip(SessionUnlock, userId, bot, UnlockItemId, now);
    TelegramPayment(UnlockButton, Currency, UnlockPrices(),
                    BuildInvoicePayload(SessionUnlock, userId, bot, UnlockItemId, now))
  }

  /** The donation invoice for one of the user's reports; `reportFound` is whether the report
      exists and belongs to the user. */
  function GetReportDonationDetails(userId: int, bot: BotId, reportId: int, reportFound: bool,
                                    donationAmount: int, now: int): (r: Result<TelegramPayment, PaymentError>)
    ensures !reportFound <==> r == Err(ReportNotFound(reportId))
    ensures r.Ok? ==> r.value.prices == [PriceItem(TierLabel(2), donationAmount)]
    ensures r.Ok? ==> ParseInvoicePayload(r.value.invoicePayload) == Ok(InvoiceTarget(ReportDonation, userId, bot, reportId))
  {
    if !reportFound then Err(ReportNotFound(reportId))
    else
      InvoicePayloadRoundTrip(ReportDonation, userId, bot, reportId, now);
      Ok(TelegramPayment(ReportDonationButton, Currency, [PriceItem(TierLabel(2), donationAmount)],
                         BuildInvoicePayload(ReportDonation, userId, bot, reportId, now)))
  }

  /** Dispatches on the payment source. */
  function GetInvoiceDetailsForSource(source: string, userId: int, bot: BotId, itemId: Option<int>,
                                      reportFound: bool, donationAmount: int, now: int): (r: Result<TelegramPayment, PaymentError>)
    ensures source == ReportDonation && itemId.None? ==> r == Err(MissingItemId)
    ensures !IsPaymentSource(source) ==> r == Err(UnsupportedSource(source))
    ensures source == SessionUnlock ==> r.Ok? && r.value.button == UnlockButton
    ensures r.Ok? ==> IsPaymentSource(source) && ParseInvoicePayload(r.value.invoicePayload).Ok?
    ensures r.Ok? ==> ParseInvoicePayload(r.value.invoicePayload).value.source == source
  {
    if source == ReportDonation then
      if itemId.None? then Err(MissingItemId)
      else GetReportDonationDetails(userId, bot, itemId.value, reportFound, donationAmount, now)
    else if source == SessionUnlock then Ok(GetUnlockPaymentDetails(userId, bot, now))
    else Err(UnsupportedSource(source))
  }

  // ---------------------------------------------------------------------------------------
  // Recording a successful payment

  datatype Payment = Payment(
    userId: int,
    bot: BotId,
    source: string,
    chargeId: string,
    amount: int,
    currency: string,
    invoicePayload: string,
    processedAt: int)

  predicate HasCharge(payments: seq<Payment>, chargeId: string)
  {
    exists k :: 0 <= k < |payments| && payments[k].chargeId == chargeId
  }

  /** The payment table and the session unlocks requested of the profile service. */
  class PaymentLedger {
    var payments: seq<Payment>
    var unlocks: seq<(int, BotId)>

    /** A Telegram charge is recorded at most once. */
    predicate Valid()
      reads this
    {
      forall i, j :: 0 <= i < j < |payments| ==> payments[i].chargeId != payments[j].chargeId
    }

    constructor ()
      ensures Valid() && payments == [] && unlocks == []
    {
      payments := [];
      unlocks := [];
    }

    /** Records a successful payment: a known charge id is refused before anything else, then
        the payload is parsed, a donation must name an existing report, the payment is stored
        and a session unlock resets the payer's session. `reports` holds the existing report
        ids. */
    method ProcessSuccessfulPayment(chargeId: string, amount: int, currency: string, payload: string,
                                    reports: set<int>, now: int) returns (r: Result<Payment, PaymentError>)
      requires Valid()
      modifies this
      ensures Valid()
      ensures HasCharge(old(payments), chargeId) ==>
        r == Err(DuplicatePayment(chargeId)) && payments == old(payments) && unlocks == old(unlocks)
      ensures !HasCharge(old(payments), chargeId) && ParseInvoicePayload(payload).Err? ==>
        r == Err(ParseInvoicePayload(payload).error) && payments == old(payments) && unlocks == old(unlocks)
      ensures r.Err? ==> payments == old(payments) && unlocks == old(unlocks)
      ensures r.Ok? ==>
        var t := ParseInvoicePayload(payload).value;
        && !HasCharge(old(payments), chargeId)
        && ParseInvoicePayload(payload).Ok?
        && (t.source == ReportDonation ==> t.itemId in reports)
        && r.value == Payment(t.userId, t.bot, t.source, chargeId, amount, currency, payload, now)
        && payments == old(payments) + [r.value]
        && unlocks == old(unlocks) + (if t.source == SessionUnlock then [(t.userId, t.bot)] else [])
      ensures !HasCharge(old(payments), chargeId) && ParseInvoicePayload(payload).Ok? ==>
        var t := ParseInvoicePayload(payload).value;
        r.Ok? <==> (t.source == ReportDonation ==> t.itemId in reports)
    {
      if HasCharge(payments, chargeId) {
        return Err(DuplicatePayment(chargeId));
      }
      var parsed := ParseInvoicePayload(payload);
      if parsed.Err? {
        return Err(parsed.error);
      }
      var t := parsed.value;
      if t.source == ReportDonation && t.itemId !in reports {
        return Err(ReportNotFound(t.itemId));
      }
      var p := Payment(t.userId, t.bot, t.source, chargeId, amount, currency, payload, now);
      payments := payments + [p];
      if t.source == SessionUnlock {
        unlocks := unlocks + [(t.userId, t.bot)];
      }
      return Ok(p);
    }
  }
}
