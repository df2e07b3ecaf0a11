# Billing Palooza core, modelled in Dafny

Billing Palooza is a billing dashboard for small businesses. Organisations
keep customers and invoices, and they define collection rules: message
templates, plus the days before or after the due date on which a reminder
goes out. A messaging batch renders those templates and sends them over
WhatsApp, with Telegram as the fallback. Daily jobs mark organisations
whose subscription has lapsed as overdue and blocked. Route guards keep
blocked and signed-out users away from the application.

This project models that core as pure functions over immutable data, and
proves what each operation promises:

- `message_templates.dfy`: the template renderer. It has five placeholders,
  and each is substituted only when its JavaScript presence guard passes.
  Replacement follows the semantics of `String.prototype.replace` with a
  global pattern, including `$` substitution codes.
- `messaging_cron.dfy`: the messaging batch and the channel check.
  - The batch renders each message and tries WhatsApp, then Telegram.
  - It writes one history record per message.
  - A failed history write aborts the batch.
- `collection_rule_form.dfy`: the rule form. It covers the validation
  schema with its field minimums and the integer, non-negative day count.
  It also covers the default values and the reset after a create.
- `collection_rules.dfy`: the rule list.
  - Save parses the comma-separated overdue days.
  - Also toggle, duplicate, delete and search.
- `invoices.dfy`: the invoice list.
  - Mark as paid, cancel, delete, save and search.
  - The status badge and the row's action guards.
- `customers.dfy`: the customer list: toggle, delete, save and search.
- `trash.dfy`: the trash.
  - The two-month retention window on a calendar with date-fns `subMonths`.
  - The type filter, restore and permanent delete, and the type labels.
- `subscription_status.dfy`: the `isBlocked` and "expiring soon" flags of
  an organisation.
- `cron_jobs.dfy`: the daily jobs.
  - The sweep that marks active, past-due organisations overdue and
    blocked.
  - The `{success, error}` wrapping of both jobs, and the order of the
    daily run: the reminders read the table before the sweep changes it.
- `route_guards.dfy`: `RequireAuth` and `RequireNoAuth` as decision tables.
- `jstext.dfy`, `seqops.dfy`, `wrappers.dfy`: the JavaScript string and
  array operations the code relies on. These are `includes`,
  `toLowerCase`, `trim`, `split`, `join`, `replace`, `parseInt`, `filter`,
  `find` and `map`. Each is stated once, with its own lemmas.

Effects become parameters:
- the clock: `now`, `nowMs` and `today`, and `clock(i)` where the code
  reads it once per message (the messaging batch) or per item (the trash
  listing);
- `Date.now()` identifiers (`freshId`);
- what each sender or database call returns or throws;
- the reminder job, as a function of the table it reads;
- the currency formatter.

Two behaviours of the code are worth knowing before reading the model.

- **Invoice transitions.** The handlers rewrite the status whatever it is,
  so a cancelled invoice can be marked paid. Only the row's buttons hide
  an action that would change nothing (`HandlersIgnoreCurrentStatus`,
  `OfferedIffEffective`).
- **Trash dates.** The trash compares deletion times with `subMonths(now,
  2)`, which clamps to month ends, so its dates are calendar date-times
  (year, month, day, time of day) rather than day numbers.

## Model

| member | source | states |
|---|---|---|
| JsText.IncludesIffOccurs | src/components/invoices/InvoiceTable.tsx:83-87 | `includes` holds exactly when the term occurs at some position of the text |
| JsText.IncludesIgnoringCase | src/components/customers/CustomerTable.tsx:73-74 | `text.toLowerCase().includes(term.toLowerCase())`; IgnoringCaseIsCaseBlind and EmptyTermMatches state its behaviour |
| JsText.ToLower | src/components/invoices/InvoiceTable.tsx:85-86 | the result has the text's length and lower-cases each character on its own |
| JsText.ToLowerIdempotent | src/components/invoices/InvoiceTable.tsx:85-86 | lower-casing twice is lower-casing once |
| JsText.IgnoringCaseIsCaseBlind | src/components/customers/CustomerTable.tsx:73-74 | a case-insensitive search gives the same answer for any two texts, and any two terms, with the same lower-cased form |
| JsText.EmptyTermMatches | src/components/trash/TrashTable.tsx:97 | the empty search term occurs in every text, with or without case folding |
| JsText.TrimStartSkipsSpaces | src/components/collections/CollectionRuleTable.tsx:109 | white space in front of a text makes no difference once the start is trimmed |
| JsText.LeadingSpaces | src/components/collections/CollectionRuleTable.tsx:109 | the run `trim` removes at the start is all white space and stops at the first other character |
| JsText.Trim | src/components/collections/CollectionRuleTable.tsx:109 | `trim` yields a slice of the text that neither starts nor ends with white space, empty exactly when the text is all white space |
| JsText.JoinSplit | src/components/collections/CollectionRuleTable.tsx:108 | joining the pieces of a split with the same separator gives back the text |
| JsText.SplitWithoutSeparator | src/components/collections/CollectionRuleTable.tsx:108 | a text without the separator splits into itself alone |
| JsText.SplitAtSeparator | src/components/collections/CollectionRuleTable.tsx:108 | splitting at the first separator yields the part before it, then the split of the rest |
| JsText.ExpandLiteral | src/utils/messageTemplates.ts:26 | a replacement value without `$` codes is inserted literally |
| JsText.ReplaceAllIsSplitJoin | src/utils/messageTemplates.ts:26 | a global replace with a literal value is split on the token, then join with the value |
| JsText.ReplaceAllAbsent | src/utils/messageTemplates.ts:26 | replacing a token that does not occur changes nothing |
| JsText.ReplaceAll | src/utils/messageTemplates.ts:26 | `replace` with a global pattern; ReplaceAllIsSplitJoin and ReplaceAllAbsent state its behaviour |
| JsText.Expand | src/utils/messageTemplates.ts:26 | the `$$`, `$&`, `` $` `` and `$'` codes of a replacement string; ExpandLiteral and DollarCodesInValues state its behaviour |
| JsText.Split | src/components/collections/CollectionRuleTable.tsx:108 | `split` always returns at least one piece |
| JsText.NatToString | src/utils/messageTemplates.ts:38 | the decimal text of a number is non-empty and all digits |
| JsText.NatToStringValue | src/utils/messageTemplates.ts:38 | the digits `toString` writes denote the number itself |
| JsText.IntToString | src/components/collections/CollectionRuleTable.tsx:253 | `toString` writes a sign or digit first and a digit last; plain digits below 10^21, exponent notation from there on |
| JsText.ExponentForm | src/components/collections/CollectionRuleTable.tsx:253 | from 10^21 on, the text starts with the leading digit followed by a point or `e`, as in "1e+21" |
| JsText.NumberChars | src/components/collections/CollectionRuleTable.tsx:253 | a written integer holds only digits, `-`, `.`, `e` and `+` |
| JsText.ParseInt | src/components/collections/CollectionRuleTable.tsx:109 | `parseInt` without radix; ParseIntToString and ParseIntOfExponentForm state what it reads back |
| JsText.ParseIntToString | src/components/collections/CollectionRuleTable.tsx:109 | `parseInt` reads back the integer `toString` wrote, for every integer below 10^21 in magnitude |
| JsText.ParseIntOfExponentForm | src/components/collections/CollectionRuleTable.tsx:109 | from 10^21 on, `parseInt` reads a written integer as its sign and leading digit alone, so it does not read back the integer |
| JsText.ParseTrimmedPaddedInt | src/components/collections/CollectionRuleTable.tsx:109 | trimming leading white space off a written integer leaves exactly the integer's text |
| JsText.Utf16Length | src/components/collections/CollectionRuleForm.tsx:41 | a string's UTF-16 length lies between its code-point count and twice that |
| SeqOps.Filter | src/components/invoices/InvoiceTable.tsx:90 | the kept elements are exactly the input's elements satisfying the test, never more of them |
| SeqOps.FilterAppend | src/components/invoices/InvoiceTable.tsx:90 | filtering distributes over concatenation, so kept elements stay in input order |
| SeqOps.FilterKeepsAll | src/components/invoices/InvoiceTable.tsx:83-87 | a test every element passes keeps the whole list |
| SeqOps.FilterKeepsNone | src/utils/cronJobs.ts:32-33 | a test no element passes keeps nothing |
| SeqOps.FindIndex | src/components/trash/TrashTable.tsx:108 | `find` yields the first element satisfying the test, or nothing exactly when none does |
| SeqOps.UpdateWhere | src/components/invoices/InvoiceTable.tsx:157-161 | the id-keyed `map` rewrites exactly the elements with the id and keeps the rest in place |
| SeqOps.RemoveWhere | src/components/invoices/InvoiceTable.tsx:90 | removal keeps exactly the elements whose id differs |
| SeqOps.RemoveUniqueAt | src/components/invoices/InvoiceTable.tsx:90 | removing a unique id deletes just that position and keeps the order |
| SeqOps.RemoveAbsent | src/components/trash/TrashTable.tsx:108-111 | removing an id nobody carries leaves the list unchanged |
| MessageTemplates.CreateMessageFromTemplate | src/utils/messageTemplates.ts:19-50 | with no guard passing, the template comes back untouched |
| MessageTemplates.RenderWithoutTokens | src/utils/messageTemplates.ts:23-49 | a template without any of the five placeholders comes back unchanged, whatever the variables |
| MessageTemplates.FalsyValuesAreAbsent | src/utils/messageTemplates.ts:25-47 | an empty name, a zero amount or an empty link renders as if absent |
| MessageTemplates.ZeroDaysAreSubstituted | src/utils/messageTemplates.ts:37-43 | day counts are compared with undefined, so a count of 0 is substituted as "0" |
| MessageTemplates.StagesAreSplitJoin | src/utils/messageTemplates.ts:25-47 | each applied step is split on its placeholder, then join with its value, on the previous step's text |
| MessageTemplates.LaterStepRewritesEarlierValue | src/utils/messageTemplates.ts:25-35 | a name containing `{valor}` has that text replaced by the amount step that follows |
| MessageTemplates.StepDoesNotRescanItsValue | src/utils/messageTemplates.ts:26 | a name containing `{cliente}` is not expanded again by its own step |
| MessageTemplates.DollarCodesInValues | src/utils/messageTemplates.ts:26 | a value of `$&` inserts the matched placeholder text, as JavaScript's replace does |
| MessageTemplates.IntToStringIsLiteral | src/utils/messageTemplates.ts:37-43 | a number's decimal text never holds a `$` code |
| MessagingCron.Deliver | src/utils/messagingCron.ts:54-121 | the calls made, WhatsApp first; `sent` exactly when a called sender resolved; `sent_at`; the channel last tried; the error kept; content and ids |
| MessagingCron.SuccessFlagIgnored | src/utils/messagingCron.ts:91-119 | the `success` flag a sender returns never changes the record |
| MessagingCron.AtMostOneCallPerChannel | src/utils/messagingCron.ts:75-109 | each channel is called at most once per message, WhatsApp before Telegram |
| MessagingCron.FallbackKeepsWhatsAppError | src/utils/messagingCron.ts:83-120 | after a WhatsApp exception and a Telegram success, the record is `sent` yet keeps the WhatsApp error |
| MessagingCron.DueTodayKeepsPlaceholder | src/utils/messagingCron.ts:61 | a message due today (0 days) renders as if the day count were absent |
| MessagingCron.VariablesOf | src/utils/messagingCron.ts:57-63 | name, amount and link are passed as they are; a day count of 0 or null becomes undefined, any other count is passed |
| MessagingCron.MessageText | src/utils/messagingCron.ts:56-64 | the template rendered with the message's variables; DueTodayKeepsPlaceholder states its effect on a 0-day count |
| MessagingCron.AllRecords | src/utils/messagingCron.ts:54-122 | one record per message in input order, each built with its own outcomes and its own clock reading |
| MessagingCron.EachRecordHasItsOwnTime | src/utils/messagingCron.ts:119 | a sent record carries the time read for its own message, and a failed one none |
| MessagingCron.RunMessagingCron | src/utils/messagingCron.ts:54-134 | one record per message in input order, each with its own clock reading; on success `messagesProcessed` is the list length; a failed write stops the batch with its error |
| MessagingCron.TestMessagingConfiguration | src/utils/messagingCron.ts:138-165 | one call to the named channel's sender; success exactly when it resolves, with the resolved value as `result`; any other channel fails with "Unsupported channel: X"; a throw becomes `success: false` with its message |
| MessagingCron.TestAgreesWithAttempt | src/utils/messagingCron.ts:146-156 | a test on a supported channel makes the call a batch attempt on that channel makes, and reports the value or error that attempt records |
| CollectionRuleForm.MinLengthIssues | src/components/collections/CollectionRuleForm.tsx:40-49 | a too-short issue is reported exactly when the UTF-16 length is below the minimum |
| CollectionRuleForm.DayCountIssues | src/components/collections/CollectionRuleForm.tsx:43 | no issue exactly for a finite non-negative integer; NaN is reported as not a number |
| CollectionRuleForm.Issues | src/components/collections/CollectionRuleForm.tsx:40-50 | each field's minimum is checked on its own field, and a NaN day count is reported |
| CollectionRuleForm.NoIssuesIffAcceptable | src/components/collections/CollectionRuleForm.tsx:40-50 | the schema reports no issue exactly when every field is acceptable; the overdue text is never checked |
| CollectionRuleForm.Parse | src/components/collections/CollectionRuleForm.tsx:40-52 | parsing succeeds exactly on acceptable values and hands on every field unchanged, the day count as an integer |
| CollectionRuleForm.DefaultsNeedOnlyAName | src/components/collections/CollectionRuleForm.tsx:63-73 | the new-form defaults fail only the name minimum, because the default name is empty |
| CollectionRuleForm.DefaultsWithANameAreAcceptable | src/components/collections/CollectionRuleForm.tsx:40-73 | the defaults with a name of 3 or more characters pass the schema |
| CollectionRuleForm.OnlyTheNameFails | src/components/collections/CollectionRuleForm.tsx:40-50 | values whose only fault is a short name get exactly one issue |
| CollectionRuleForm.InitialValues | src/components/collections/CollectionRuleForm.tsx:63 | an edit form starts from the rule's values, a new one from the defaults |
| CollectionRuleForm.Submit | src/components/collections/CollectionRuleForm.tsx:83-100 | invalid values are not submitted; a create resets the form to the defaults, an edit keeps its values |
| CollectionRuleForm.CreateSubmitResets | src/components/collections/CollectionRuleForm.tsx:85-99 | after a create, the form is back to the state of a new form |
| CollectionRules.ParsePieces | src/components/collections/CollectionRuleTable.tsx:109-110 | unparsable pieces are dropped, so the result is never longer than the pieces, and empty when no piece parses |
| CollectionRules.ParsePiecesCons | src/components/collections/CollectionRuleTable.tsx:109-110 | a piece that parses puts its day first, before the days of the rest |
| CollectionRules.ParsePiecesDrops | src/components/collections/CollectionRuleTable.tsx:109-110 | a piece that does not parse is dropped and the rest is read as without it, so "1, x, 3" gives the days of "1" and " 3" |
| CollectionRules.ParsePiecesAppend | src/components/collections/CollectionRuleTable.tsx:109-110 | reading pieces distributes over concatenation, so days keep the order of their pieces, duplicates included |
| CollectionRules.ParseOverdueDays | src/components/collections/CollectionRuleTable.tsx:108-110 | at most one day per comma-separated piece; ParseFormatRoundTrip and EmptyTextHasNoDays state what it reads |
| CollectionRules.FormatOverdueDays | src/components/collections/CollectionRuleTable.tsx:253 | `join(', ')` of the days; ParseFormatRoundTrip states that it is parsed back |
| CollectionRules.DayTexts | src/components/collections/CollectionRuleTable.tsx:253 | each day is written as its decimal text |
| CollectionRules.IntToStringHasNoComma | src/components/collections/CollectionRuleTable.tsx:108-110 | a written day never contains the separator |
| CollectionRules.ParseJoinedDays | src/components/collections/CollectionRuleTable.tsx:108-110 | splitting, trimming and parsing a comma-joined list of days below 10^21 gives back the days |
| CollectionRules.ParseFormatRoundTrip | src/components/collections/CollectionRuleTable.tsx:108-110 | the edit form's text `join(', ')` parses back to the rule's days, when every day is below 10^21 in magnitude |
| CollectionRules.ParseCommaListRoundTrip | src/components/collections/CollectionRuleTable.tsx:108-110 | a comma list without spaces, like the form's default, parses to its days, when every day is below 10^21 in magnitude |
| CollectionRules.EmptyTextHasNoDays | src/components/collections/CollectionRuleTable.tsx:108-110 | an empty overdue field saves as no days |
| CollectionRules.LargeDayIsReadAsItsLeadingDigit | src/components/collections/CollectionRuleTable.tsx:108-110 | a day of 10^21 or more is written as "1e+21" and the like, and comes back as its leading digit |
| CollectionRules.RuleFromForm | src/components/collections/CollectionRuleTable.tsx:131-135 | a rule carries the given id, the parsed days, and every other field as the form submitted it |
| CollectionRules.SaveRule | src/components/collections/CollectionRuleTable.tsx:107-141 | an edit rewrites exactly the rules with the edited id and keeps their id; a create appends one rule |
| CollectionRules.EditFormValues | src/components/collections/CollectionRuleTable.tsx:248-258 | the edit form shows the days joined with ", " |
| CollectionRules.UntouchedEditIsIdentity | src/components/collections/CollectionRuleTable.tsx:107-123 | opening a rule for edit and saving it untouched changes no rule, when its days are below 10^21 in magnitude |
| CollectionRules.ToggleStatus | src/components/collections/CollectionRuleTable.tsx:64-71 | only the active flag of the rules with the id flips; nothing else changes |
| CollectionRules.ToggleStatusTwice | src/components/collections/CollectionRuleTable.tsx:64-71 | toggling twice restores the list |
| CollectionRules.DuplicateRule | src/components/collections/CollectionRuleTable.tsx:88-105 | the first rule with the id is copied to the end with a fresh id and " (Cópia)"; an unknown id changes nothing |
| CollectionRules.DeleteRule | src/components/collections/CollectionRuleTable.tsx:78-80 | exactly the rules with other ids stay |
| CollectionRules.DeleteUniqueRule | src/components/collections/CollectionRuleTable.tsx:78-80 | deleting a unique id removes just that position |
| CollectionRules.FilterRules | src/components/collections/CollectionRuleTable.tsx:60-62 | a rule is listed exactly when its name contains the term, ignoring case |
| CollectionRules.EmptySearchShowsAll | src/components/collections/CollectionRuleTable.tsx:60-62 | an empty search lists every rule |
| Invoices.MarkAsPaid | src/components/invoices/InvoiceTable.tsx:155-162 | exactly the invoices with the id become paid, all else unchanged |
| Invoices.CancelInvoice | src/components/invoices/InvoiceTable.tsx:141-148 | exactly the invoices with the id become cancelled, all else unchanged |
| Invoices.TransitionsAreIdempotent | src/components/invoices/InvoiceTable.tsx:141-162 | marking paid or cancelling twice is doing it once |
| Invoices.HandlersIgnoreCurrentStatus | src/components/invoices/InvoiceTable.tsx:141-162 | the handlers set the status whatever it was |
| Invoices.OfferedIffEffective | src/components/invoices/InvoiceTable.tsx:308-324 | a row offers an action exactly when it would change the invoice |
| Invoices.OffersMarkAsPaid | src/components/invoices/InvoiceTable.tsx:308 | the "mark as paid" button shows unless the invoice is paid; OfferedIffEffective relates it to the transition |
| Invoices.OffersCancel | src/components/invoices/InvoiceTable.tsx:324 | the "cancel" button shows unless the invoice is cancelled; OfferedIffEffective relates it to the transition |
| Invoices.DeleteInvoice | src/components/invoices/InvoiceTable.tsx:89-90 | exactly the invoices with other ids stay |
| Invoices.DeleteUniqueInvoice | src/components/invoices/InvoiceTable.tsx:89-90 | deleting a unique id removes just that position |
| Invoices.FilterInvoices | src/components/invoices/InvoiceTable.tsx:83-87 | an invoice is listed exactly when its customer name or description contains the term, ignoring case |
| Invoices.InvoiceMatches | src/components/invoices/InvoiceTable.tsx:83-87 | the customer name or the description contains the term, ignoring case; FilterInvoices states the listing |
| Invoices.EmptySearchShowsAllInvoices | src/components/invoices/InvoiceTable.tsx:83-87 | an empty search lists every invoice |
| Invoices.CustomerNameFor | src/components/invoices/InvoiceTable.tsx:106 | the name is the first starting-list entry for the customer, or "" when none |
| Invoices.MergeForm | src/components/invoices/InvoiceTable.tsx:103-107 | the edited invoice keeps its id and status, takes every submitted field from the form and the name looked up in the starting list |
| Invoices.SaveInvoice | src/components/invoices/InvoiceTable.tsx:98-117 | an edit merges the form into exactly the edited invoices; without an edit nothing changes |
| Invoices.UnknownCustomerGetsEmptyName | src/components/invoices/InvoiceTable.tsx:106 | saving an invoice with any customer absent from the starting list gives it an empty name |
| Invoices.EditFormData | src/components/invoices/InvoiceTable.tsx:292-299 | the edit form opens with the invoice's customer, amount, description, due date, payment method and template |
| Invoices.UntouchedInvoiceEditIsIdentity | src/components/invoices/InvoiceTable.tsx:98-117 | saving an invoice's own form data under its unique id changes nothing, when its name is the one the starting list gives its customer |
| Invoices.UntouchedEditClearsUnknownName | src/components/invoices/InvoiceTable.tsx:103-107 | an untouched save of an invoice whose customer the starting list does not know empties its customer name |
| Invoices.StatusBadge | src/components/invoices/InvoiceTable.tsx:126-139 | a badge exists exactly for the four status names: "Pago" (success), "Pendente" (default), "Atrasado" (destructive), "Cancelado" (outline) |
| Invoices.BadgesAreDistinct | src/components/invoices/InvoiceTable.tsx:126-139 | every status has a badge, and different statuses get different badges |
| Customers.WithIdRoundTrip | src/components/customers/CustomerTable.tsx:105-118 | adding an id to form data and removing it again are inverse |
| Customers.FilterCustomers | src/components/customers/CustomerTable.tsx:71-77 | a customer is listed exactly when name or e-mail contains the term ignoring case, or phone or document contains it as typed |
| Customers.CustomerMatches | src/components/customers/CustomerTable.tsx:71-77 | name or e-mail contains the term ignoring case, or phone or document contains it as typed; FilterCustomers states the listing |
| Customers.NameAndEmailAreCaseBlind | src/components/customers/CustomerTable.tsx:73-74 | recasing a customer's name or e-mail never changes whether the customer is found |
| Customers.EmptySearchShowsAllCustomers | src/components/customers/CustomerTable.tsx:71-77 | an empty search lists every customer |
| Customers.PhoneSearchIsCaseSensitive | src/components/customers/CustomerTable.tsx:75 | an example: a customer with phone "ramal A" is found by "ramal A" but not by "ramal a", since the phone is matched as typed |
| Customers.ToggleCustomer | src/components/customers/CustomerTable.tsx:79-86 | only the active flag of the customers with the id flips |
| Customers.ToggleCustomerTwice | src/components/customers/CustomerTable.tsx:79-86 | toggling twice restores the list |
| Customers.DeleteCustomer | src/components/customers/CustomerTable.tsx:93-94 | exactly the customers with other ids stay |
| Customers.DeleteUniqueCustomer | src/components/customers/CustomerTable.tsx:93-94 | deleting a unique id removes just that position |
| Customers.SaveCustomer | src/components/customers/CustomerTable.tsx:102-126 | an edit replaces the matching records but keeps their id; a create appends one customer with the fresh id |
| Customers.UntouchedCustomerEditIsIdentity | src/components/customers/CustomerTable.tsx:102-110 | saving a customer's own data under its unique id changes nothing |
| Trash.DaysInMonth | src/components/trash/TrashTable.tsx:101 | a month has 28 to 31 days |
| Trash.SubMonths | src/components/trash/TrashTable.tsx:101 | `n` months earlier, the day clamped to the month's length, the time of day kept |
| Trash.SubMonthsIsMonotone | src/components/trash/TrashTable.tsx:101 | going back more months gives an earlier instant |
| Trash.TwoMonthsAgo | src/components/trash/TrashTable.tsx:101 | the cutoff lies before now |
| Trash.FilteredItems | src/components/trash/TrashTable.tsx:96-105 | an item is listed exactly when it matches the search and the type and was deleted no earlier than two months before the clock reading taken for that item |
| Trash.OneInstantIsPlainFilter | src/components/trash/TrashTable.tsx:96-105 | when every reading gives the same instant, the listing is the plain filter on the three tests, order kept |
| Trash.Listed | src/components/trash/TrashTable.tsx:96-105 | the three tests of `filteredItems` for one item at one clock reading; FilteredItems, ExpiredItemsAreHidden and RecentItemsAreListed state them |
| Trash.ExpiredItemsAreHidden | src/components/trash/TrashTable.tsx:101-102 | an item deleted before the cutoff of every clock reading is never listed |
| Trash.RecentItemsAreListed | src/components/trash/TrashTable.tsx:96-105 | an item deleted within the month before its own clock reading is listed with no search under "all" |
| Trash.TypeFilterSelectsOneType | src/components/trash/TrashTable.tsx:98 | the "customer" filter lists only customers |
| Trash.RemoveFromTrash | src/components/trash/TrashTable.tsx:107-124 | found exactly when some item has the id; then every item with the id goes and the first such item's name is reported |
| Trash.Restore | src/components/trash/TrashTable.tsx:107-118 | the items with the id go and the notice names the first of them; an unknown id changes nothing |
| Trash.PermanentDelete | src/components/trash/TrashTable.tsx:120-132 | the items with the id go and the notice names the first of them; an unknown id changes nothing |
| Trash.RestoreAndDeleteAgree | src/components/trash/TrashTable.tsx:107-132 | restore and permanent delete leave the same list and differ only in the notice text |
| Trash.RestoreUniqueItem | src/components/trash/TrashTable.tsx:111 | restoring a unique id removes just that position |
| Trash.ItemTypeName | src/components/trash/TrashTable.tsx:134-145 | "customer" is shown as "Cliente", "invoice" as "Fatura", "collection_rule" as "Modelo de Cobrança", and an unknown type as its raw value |
| Trash.TypeNamesAreDistinct | src/components/trash/TrashTable.tsx:134-145 | each known type has its own label, different from its raw key |
| SubscriptionStatus.CeilDiv | src/hooks/auth/useSubscriptionStatus.ts:18 | `Math.ceil(a / b)` is the least integer whose multiple of `b` reaches `a` |
| SubscriptionStatus.DiffDays | src/hooks/auth/useSubscriptionStatus.ts:15-18 | `Math.ceil` of the time to the due date in days; DiffDaysCountsCalendarDays states its value |
| SubscriptionStatus.DiffDaysCountsCalendarDays | src/hooks/auth/useSubscriptionStatus.ts:15-18 | the rounded-up day difference equals the due day minus today's UTC day |
| SubscriptionStatus.UseSubscriptionStatus | src/hooks/auth/useSubscriptionStatus.ts:9-29 | no organisation gives both flags false; `isBlocked` is the organisation's flag; only an active plan is expiring soon |
| SubscriptionStatus.ExpiringSoon | src/hooks/auth/useSubscriptionStatus.ts:20-24 | the day difference is 1 to 7 and the plan active; ExpiringSoonIffWithinAWeek states it in calendar days |
| SubscriptionStatus.ExpiringSoonIffWithinAWeek | src/hooks/auth/useSubscriptionStatus.ts:15-24 | expiring soon exactly when active and due one to seven UTC days after today |
| SubscriptionStatus.DueOrPastIsNotExpiring | src/hooks/auth/useSubscriptionStatus.ts:20-23 | a due date today or earlier is never expiring soon |
| CronJobs.Sweep | src/utils/cronJobs.ts:26-34 | exactly the active rows due before today become overdue and blocked; every other row is unchanged |
| CronJobs.IsPastDue | src/utils/cronJobs.ts:32-33 | status active and a due date strictly before today; Sweep and SweepLeavesNothingPastDue state its use |
| CronJobs.UpdatedRowsArePastDueRows | src/utils/cronJobs.ts:26-34 | the returned rows are exactly the past-due rows as updated |
| CronJobs.DueTodayIsUntouched | src/utils/cronJobs.ts:32 | a row due today is left alone |
| CronJobs.SweepLeavesNothingPastDue | src/utils/cronJobs.ts:28-33 | after the sweep no row is active and past due |
| CronJobs.SweepIsIdempotent | src/utils/cronJobs.ts:26-34 | a second sweep on the same day changes and returns nothing |
| CronJobs.Wrap | src/utils/cronJobs.ts:5-45 | a response error and a thrown value both become `{success: false, error}`; data becomes `{success: true, data}` |
| CronJobs.SendPaymentReminders | src/utils/cronJobs.ts:5-20 | success exactly when the invocation returned data; otherwise its error is passed on |
| CronJobs.UpdateSubscriptionStatuses | src/utils/cronJobs.ts:23-46 | without a fault the table is swept and the updated rows returned; with one the table is unchanged and the error returned |
| CronJobs.ExecuteDailyCronJobs | src/utils/cronJobs.ts:49-52 | the reminder function runs against the table as it was before the sweep; the table ends as the sweep leaves it, or unchanged when the update fails |
| CronJobs.RemindersRunBeforeSweep | src/utils/cronJobs.ts:49-52 | the reminders see every past-due organisation still active, which the sweep then marks overdue, and their result does not depend on the sweep's |
| CronJobs.SweepIgnoresReminderOutcome | src/utils/cronJobs.ts:49-52 | the sweep's result and effect do not depend on how the reminders ended |
| CronJobs.TodayOf | src/utils/cronJobs.ts:32 | today's UTC date is the day containing the current instant |
| RouteGuards.RequireAuth | App.tsx:31-51 | spinner while loading; children exactly for a signed-in, permitted, unblocked-or-admin user; each redirect exactly in its case |
| RouteGuards.RequireNoAuth | App.tsx:53-70 | spinner while loading; children exactly when signed out; an admin goes to /admin, anyone else to / |
| RouteGuards.AdminIsNeverBlocked | App.tsx:46-48 | an admin is never sent to /blocked |
| RouteGuards.AdminCheckPrecedesBlockedCheck | App.tsx:42-48 | a blocked non-admin goes to / on an admin route and to /blocked elsewhere |
| RouteGuards.GuardsAreExclusive | App.tsx:31-70 | the two guards never both render their page |
| RouteGuards.LoginRedirectIsAccepted | App.tsx:42-67 | where the login guard sends an unblocked user, the guard there lets them through |

## Left out

- I/O, React state, toasts and console logging are not modelled. The handlers are functions from the old list to the new one.
- The hard-coded pending list of the messaging batch (src/utils/messagingCron.ts:20-45) is replaced by an input list. The stored procedure that decides which messages are due is not part of this model.
- The settings lookups of the batch are inputs; an exception while fetching them is not modelled.
- The senders' own behaviour is not modelled. Each call's outcome (a value with a `success` flag, or a thrown value) is given.
- Currency formatting (`Intl.NumberFormat` in pt-BR BRL) is a parameter `formatAmount`. Amounts are integer cents, not JavaScript floats.
- `toLowerCase` is modelled for ASCII and Latin-1 letters only; other scripts' case mappings are left out.
- `parseInt` is modelled exactly, with leading white space, a sign, a `0x` prefix and trailing text. It works in unbounded integers, though: the loss of precision beyond 2^53 for very long digit runs is left out. So is the rounding of `toString` to the shortest digits that identify a double beyond 2^53; its switch to exponent notation from 10^21 on is modelled.
- ParseIntToString: holds only below 10^21 in magnitude. From there on `toString` writes exponent notation, which `parseInt` reads as the leading digit (ParseIntOfExponentForm).
- ParseFormatRoundTrip: holds only when every day is below 10^21 in magnitude; a larger day comes back as its leading digit (LargeDayIsReadAsItsLeadingDigit). ParseJoinedDays, ParseCommaListRoundTrip and UntouchedEditIsIdentity carry the same bound for the same reason.
- The form schema's `z.coerce.number()` coercion from the input text to a number is not modelled; the day count arrives as a JavaScript number (finite, NaN or an infinity).
- Time zones and daylight-saving shifts are left out. Trash dates are local calendar date-times. Subscription dates are UTC day numbers, and `new Date(dueDate)` is read as UTC midnight of a date-only string.
- SubscriptionStatus.UseSubscriptionStatus: floating-point rounding of the day division is not modelled. For realistic dates the integer result is exact, because a quotient is never within one unit in the last place of an integer unless it is one.
- The mock deleted items (`generateMockDeletedItems`) are not modelled. They use fractional month counts, whose rounding in `subMonths` depends on the date-fns version.
- `handleSendInvoice` only shows a toast, so it is left out.
- The database's own update is modelled as all-or-nothing on error. Row-level security and the other columns of `organizations` are left out.
- The rows `.select()` returns after the update come in no order the database promises; the model fixes one, table order. UpdatedRowsArePastDueRows states membership, which holds whatever the order.
- The route table in `App` and the lazy loading of pages are not modelled, only the two guards.
