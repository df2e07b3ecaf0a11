/** The messaging batch (`runMessagingCron`) and the channel check
    (`testMessagingConfiguration`) of src/utils/messagingCron.ts.

    For each pending message the batch renders the text, tries WhatsApp and
    then Telegram, each only when its settings exist and are active, and
    writes one history record. The senders, the settings store, the history
    store and the clock are outside this model: the settings are inputs, each
    sender call is an oracle outcome, a history write either succeeds or
    throws according to an oracle, and the clock is a given timestamp
    string (for the batch, one per message). */
module MessagingCron {
  import opened Wrappers
  import opened MessageTemplates

  /** The value a `catch` clause receives: an `Error` carrying its message,
      or any other thrown value. */
  datatype Thrown = ErrorObject(message: string) | OtherValue

  /** `err instanceof Error ? err.message : 'Unknown error'`. */
  function CaughtMessage(t: Thrown): string {
    match t
    case ErrorObject(m) => m
    case OtherValue => "Unknown error"
  }

  /** What a sender resolves to. */
  datatype SendResult = SendResult(success: bool, messageId: Option<string>)

  /** What one call of a channel sender does: resolve to a value, or throw. */
  datatype SendOutcome = Returned(result: SendResult) | Threw(thrown: Thrown)

  /** What the two senders would do if called for one message. */
  datatype SenderOutcomes = SenderOutcomes(whatsApp: SendOutcome, telegram: SendOutcome)

  /** A messaging settings record as the batch reads it: `is_active` and
      `additional_config.chat_id`. */
  datatype ChannelSettings = ChannelSettings(isActive: bool, chatId: Option<string>)

  /** One row of the pending-message list (the result shape of the
      `get_pending_messages` procedure). `amount` is in cents; a `null` day
      count is `None`. */
  datatype PendingMessage = PendingMessage(
    invoiceId: string,
    customerId: string,
    customerName: string,
    customerPhone: string,
    messageType: string,
    templateText: string,
    paymentLink: string,
    amount: int,
    daysToDue: Option<int>,
    daysOverdue: Option<int>)

  datatype Channel = WhatsApp | Telegram

  function ChannelName(c: Channel): string {
    match c
    case WhatsApp => "whatsapp"
    case Telegram => "telegram"
  }

  /** One call of a channel sender. */
  datatype SenderCall = SenderCall(channel: Channel, recipient: string, text: string)

  datatype DeliveryStatus = Sent | Failed

  /** The `message_history` row written for one pending message. `channel`
      is "whatsapp", "telegram", or "" when neither channel was tried. */
  datatype HistoryRecord = HistoryRecord(
    customerId: string,
    invoiceId: string,
    messageType: string,
    channel: string,
    content: string,
    status: DeliveryStatus,
    sentAt: Option<string>,
    errorMessage: Option<string>)

  /** The sender calls made for one message and the record written for it. */
  datatype Delivery = Delivery(calls: seq<SenderCall>, record: HistoryRecord)

  const NoChatIdError: string := "No Telegram chat ID configured"

  /** `n || undefined` on a nullable number: `null` and 0 become undefined. */
  function OrUndefined(n: Option<int>): Option<int> {
    if n.Some? && n.value != 0 then n else None
  }

  /** `s || undefined` on an error message: `null` and "" become undefined. */
  function NonEmpty(s: Option<string>): Option<string> {
    if s.Some? && s.value != "" then s else None
  }

  /** The template variables the batch passes for a pending message. */
  function VariablesOf(m: PendingMessage): (v: TemplateVariables)
    ensures v.customerName == Some(m.customerName) && v.amount == Some(m.amount)
    ensures v.paymentLink == Some(m.paymentLink)
    ensures v.daysUntilDue.Some? <==> m.daysToDue.Some? && m.daysToDue.value != 0
    ensures v.daysOverdue.Some? <==> m.daysOverdue.Some? && m.daysOverdue.value != 0
    ensures v.daysUntilDue.Some? ==> v.daysUntilDue == m.daysToDue
    ensures v.daysOverdue.Some? ==> v.daysOverdue == m.daysOverdue
  {
    TemplateVariables(Some(m.customerName), Some(m.amount),
                      OrUndefined(m.daysToDue), OrUndefined(m.daysOverdue),
                      Some(m.paymentLink))
  }

  function MessageText(m: PendingMessage, formatAmount: int -> string): string {
    CreateMessageFromTemplate(m.templateText, VariablesOf(m), formatAmount)
  }

  /** `settings && settings.is_active`. */
  predicate IsActive(s: Option<ChannelSettings>) {
    s.Some? && s.value.isActive
  }

  /** `settings.additional_config?.chat_id || ''`. */
  function ChatIdOf(s: Option<ChannelSettings>): string {
    if s.Some? && s.value.chatId.Some? then s.value.chatId.value else ""
  }

  function OutcomeOf(c: Channel, o: SenderOutcomes): SendOutcome {
    match c
    case WhatsApp => o.whatsApp
    case Telegram => o.telegram
  }

  /** WhatsApp was tried and resolved to a value. */
  predicate WhatsAppDelivered(wa: Option<ChannelSettings>, o: SenderOutcomes) {
    IsActive(wa) && o.whatsApp.Returned?
  }

  /** The Telegram branch runs: no result from WhatsApp, Telegram active. */
  predicate TelegramReached(wa: Option<ChannelSettings>, tg: Option<ChannelSettings>, o: SenderOutcomes) {
    !WhatsAppDelivered(wa, o) && IsActive(tg)
  }

  /** The local variables of one loop iteration: `sendResult`, `channel`,
      `error`, and the sender calls made so far. */
  datatype Locals = Locals(sendResult: Option<SendResult>, channel: string,
                           error: Option<string>, calls: seq<SenderCall>)

  /** Apply a sender outcome to the locals, after `channel` is set. */
  function Attempt(l: Locals, c: Channel, call: SenderCall, outcome: SendOutcome): Locals {
    match outcome
    case Returned(r) => l.(sendResult := Some(r), channel := ChannelName(c), calls := l.calls + [call])
    case Threw(t) => l.(channel := ChannelName(c), error := Some(CaughtMessage(t)), calls := l.calls + [call])
  }

  /** Deliver one pending message and build its history record. */
  function Deliver(m: PendingMessage, wa: Option<ChannelSettings>, tg: Option<ChannelSettings>,
                   o: SenderOutcomes, now: string, formatAmount: int -> string): (d: Delivery)
    // which senders are called, in which order, with what
    ensures d.calls ==
      (if IsActive(wa) then [SenderCall(WhatsApp, m.customerPhone, MessageText(m, formatAmount))] else [])
      + (if TelegramReached(wa, tg, o) && ChatIdOf(tg) != ""
         then [SenderCall(Telegram, ChatIdOf(tg), MessageText(m, formatAmount))] else [])
    // sent exactly when a called sender resolved, whatever its success flag
    ensures d.record.status == Sent <==>
      WhatsAppDelivered(wa, o) || (TelegramReached(wa, tg, o) && ChatIdOf(tg) != "" && o.telegram.Returned?)
    ensures d.record.sentAt == (if d.record.status == Sent then Some(now) else None)
    // the channel is the last one tried, or "" when none was
    ensures d.record.channel ==
      (if TelegramReached(wa, tg, o) then "telegram" else if IsActive(wa) then "whatsapp" else "")
    // the error is the last one caught; a WhatsApp error survives a Telegram success
    ensures TelegramReached(wa, tg, o) && ChatIdOf(tg) == "" ==>
      d.record.errorMessage == Some(NoChatIdError)
    ensures TelegramReached(wa, tg, o) && ChatIdOf(tg) != "" && o.telegram.Threw? ==>
      d.record.errorMessage == NonEmpty(Some(CaughtMessage(o.telegram.thrown)))
    ensures (!TelegramReached(wa, tg, o) || (ChatIdOf(tg) != "" && o.telegram.Returned?)) ==>
      d.record.errorMessage ==
        (if IsActive(wa) && o.whatsApp.Threw? then NonEmpty(Some(CaughtMessage(o.whatsApp.thrown))) else None)
    // the record carries the rendered text and the message's identity
    ensures d.record.content == MessageText(m, formatAmount)
    ensures d.record.customerId == m.customerId && d.record.invoiceId == m.invoiceId
    ensures d.record.messageType == m.messageType
  {
    var text := MessageText(m, formatAmount);
    var start := Locals(None, "", None, []);
    var afterWhatsApp :=
      if IsActive(wa) then Attempt(start, WhatsApp, SenderCall(WhatsApp, m.customerPhone, text), o.whatsApp)
      else start;
    var chatId := ChatIdOf(tg);
    var afterTelegram :=
      if afterWhatsApp.sendResult.None? && IsActive(tg) then
        if chatId != "" then
          Attempt(afterWhatsApp, Telegram, SenderCall(Telegram, chatId, text), o.telegram)
        else
          afterWhatsApp.(channel := "telegram", error := Some(NoChatIdError))
      else afterWhatsApp;
    var sent := afterTelegram.sendResult.Some?;
    Delivery(afterTelegram.calls,
             HistoryRecord(m.customerId, m.invoiceId, m.messageType, afterTelegram.channel, text,
                           if sent then Sent else Failed,
                           if sent then Some(now) else None,
                           NonEmpty(afterTelegram.error)))
  }

  /** The history record written for one message. */
  function RecordOf(m: PendingMessage, wa: Option<ChannelSettings>, tg: Option<ChannelSettings>,
                    o: SenderOutcomes, now: string, formatAmount: int -> string): HistoryRecord
  {
    Deliver(m, wa, tg, o, now, formatAmount).record
  }

  /** The same outcome with the `success` flag replaced. */
  function WithSuccessFlag(outcome: SendOutcome, flag: bool): SendOutcome {
    match outcome
    case Returned(r) => Returned(r.(success := flag))
    case Threw(t) => Threw(t)
  }

  /** The `success` flag a sender returns is never consulted: a sender that
      resolves with `success: false` still yields a 'sent' record. */
  lemma SuccessFlagIgnored(m: PendingMessage, wa: Option<ChannelSettings>, tg: Option<ChannelSettings>,
                           o: SenderOutcomes, now: string, formatAmount: int -> string,
                           waFlag: bool, tgFlag: bool)
    ensures var o' := SenderOutcomes(WithSuccessFlag(o.whatsApp, waFlag), WithSuccessFlag(o.telegram, tgFlag));
      Deliver(m, wa, tg, o', now, formatAmount).record == Deliver(m, wa, tg, o, now, formatAmount).record
  {
  }

  /** Each channel is called at most once per message, WhatsApp first. */
  lemma AtMostOneCallPerChannel(m: PendingMessage, wa: Option<ChannelSettings>, tg: Option<ChannelSettings>,
                                o: SenderOutcomes, now: string, formatAmount: int -> string)
    ensures var calls := Deliver(m, wa, tg, o, now, formatAmount).calls;
      && |calls| <= 2
      && (|calls| == 2 ==> calls[0].channel == WhatsApp && calls[1].channel == Telegram)
  {
  }

  /** Fallback: with WhatsApp active but throwing, and Telegram active with a
      chat id and resolving, the message is sent over Telegram and the record
      still carries the WhatsApp error. */
  lemma FallbackKeepsWhatsAppError(m: PendingMessage, chatId: string, waError: string, r: SendResult,
                                   now: string, formatAmount: int -> string)
    requires chatId != "" && waError != ""
    ensures var d := Deliver(m, Some(ChannelSettings(true, None)), Some(ChannelSettings(true, Some(chatId))),
                             SenderOutcomes(Threw(ErrorObject(waError)), Returned(r)), now, formatAmount);
      && |d.calls| == 2
      && d.record.status == Sent
      && d.record.channel == "telegram"
      && d.record.errorMessage == Some(waError)
      && d.record.sentAt == Some(now)
  {
  }

  /** The batch passes `days_to_due || undefined`: a message due today (0
      days) renders exactly as one with no day count, so its
      `{dias_para_vencer}` placeholder is left in the text. */
  lemma DueTodayKeepsPlaceholder(m: PendingMessage, formatAmount: int -> string)
    requires m.daysToDue == Some(0)
    ensures MessageText(m, formatAmount) == MessageText(m.(daysToDue := None), formatAmount)
  {
    assert VariablesOf(m) == VariablesOf(m.(daysToDue := None));
  }

  /** The batch's return value. */
  datatype CronResult = CronSucceeded(messagesProcessed: nat) | CronFailed(error: string)

  /** The records of the whole list, one per message, in input order.
      `clock(i)` is what `new Date().toISOString()` gives while the record
      of message `i` is built: the clock is read once per message. */
  function AllRecords(pending: seq<PendingMessage>, wa: Option<ChannelSettings>, tg: Option<ChannelSettings>,
                      outcomes: nat -> SenderOutcomes, clock: nat -> string,
                      formatAmount: int -> string): (rs: seq<HistoryRecord>)
    ensures |rs| == |pending|
    ensures forall i :: 0 <= i < |pending| ==> rs[i] == RecordOf(pending[i], wa, tg, outcomes(i), clock(i), formatAmount)
  {
    seq(|pending|, i requires 0 <= i < |pending| => RecordOf(pending[i], wa, tg, outcomes(i), clock(i), formatAmount))
  }

  /** A sent record carries the time read for its own message. */
  lemma EachRecordHasItsOwnTime(pending: seq<PendingMessage>, wa: Option<ChannelSettings>, tg: Option<ChannelSettings>,
                                outcomes: nat -> SenderOutcomes, clock: nat -> string,
                                formatAmount: int -> string, i: int)
    requires 0 <= i < |pending|
    ensures var r := AllRecords(pending, wa, tg, outcomes, clock, formatAmount)[i];
      r.sentAt == (if r.status == Sent then Some(clock(i)) else None)
  {
  }

  /** `runMessagingCron` over a given pending list. `writeFault(i)` is what
      the history write for message `i` throws, if anything; a throw leaves
      the per-channel `try` blocks and ends the whole batch. */
  method RunMessagingCron(pending: seq<PendingMessage>, wa: Option<ChannelSettings>, tg: Option<ChannelSettings>,
                          outcomes: nat -> SenderOutcomes, writeFault: nat -> Option<Thrown>,
                          clock: nat -> string, formatAmount: int -> string)
    returns (history: seq<HistoryRecord>, result: CronResult)
    ensures |history| <= |pending|
    ensures history == AllRecords(pending, wa, tg, outcomes, clock, formatAmount)[..|history|]
    ensures forall i :: 0 <= i < |history| ==> writeFault(i).None?
    ensures result.CronSucceeded? <==> forall i :: 0 <= i < |pending| ==> writeFault(i).None?
    ensures result.CronSucceeded? ==> |history| == |pending| && result.messagesProcessed == |pending|
    ensures result.CronFailed? ==>
      && |history| < |pending|
      && writeFault(|history|).Some?
      && result.error == CaughtMessage(writeFault(|history|).value)
  {
    var all := AllRecords(pending, wa, tg, outcomes, clock, formatAmount);
    history := [];
    var i := 0;
    while i < |pending|
      invariant 0 <= i <= |pending|
      invariant history == all[..i]
      invariant forall k :: 0 <= k < i ==> writeFault(k).None?
    {
      var fault := writeFault(i);
      if fault.Some? {
        result := CronFailed(CaughtMessage(fault.value));
        return;
      }
      assert all[..i + 1] == all[..i] + [all[i]];
      history := history + [all[i]];
      i := i + 1;
    }
    result := CronSucceeded(|pending|);
  }

  /** The result of `testMessagingConfiguration`. */
  datatype TestResult = TestSucceeded(result: SendResult) | TestFailed(error: string)

  datatype TestRun = TestRun(calls: seq<SenderCall>, result: TestResult)

  /** `testMessagingConfiguration(channel, recipient, message)`. */
  function TestMessagingConfiguration(channel: string, recipient: string, message: string,
                                      o: SenderOutcomes): (t: TestRun)
    ensures channel == "whatsapp" ==> t.calls == [SenderCall(WhatsApp, recipient, message)]
    ensures channel == "telegram" ==> t.calls == [SenderCall(Telegram, recipient, message)]
    ensures |t.calls| == 1 ==>
      (t.result.TestSucceeded? <==> OutcomeOf(t.calls[0].channel, o).Returned?)
    ensures |t.calls| == 1 && t.result.TestSucceeded? ==>
      t.result.result == OutcomeOf(t.calls[0].channel, o).result
    ensures |t.calls| == 1 && t.result.TestFailed? ==>
      t.result.error == CaughtMessage(OutcomeOf(t.calls[0].channel, o).thrown)
    ensures channel != "whatsapp" && channel != "telegram" ==>
      t.calls == [] && t.result == TestFailed("Unsupported channel: " + channel)
  {
    if channel == "whatsapp" || channel == "telegram" then
      var c := if channel == "whatsapp" then WhatsApp else Telegram;
      var call := SenderCall(c, recipient, message);
      match OutcomeOf(c, o)
      case Returned(r) => TestRun([call], TestSucceeded(r))
      case Threw(e) => TestRun([call], TestFailed(CaughtMessage(e)))
    else
      TestRun([], TestFailed("Unsupported channel: " + channel))
  }

  /** A test on a supported channel makes the call a batch attempt on that
      channel makes, and reports what the attempt records: the resolved
      value on success, the caught message otherwise. */
  lemma TestAgreesWithAttempt(c: Channel, recipient: string, message: string,
                              o: SenderOutcomes, l: Locals)
    ensures var t := TestMessagingConfiguration(ChannelName(c), recipient, message, o);
            var a := Attempt(l, c, SenderCall(c, recipient, message), OutcomeOf(c, o));
            && a.calls == l.calls + t.calls
            && (t.result.TestSucceeded? ==> a.sendResult == Some(t.result.result))
            && (t.result.TestFailed? ==> a.error == Some(t.result.error) && a.sendResult == l.sendResult)
  {
  }
}
