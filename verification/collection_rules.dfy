/** The collection-rule list (src/components/collections/CollectionRuleTable.tsx):
    the overdue-days text parser and its `join(', ')` serialiser, save
    (edit or create), status toggle, duplicate, delete and the name search.
    `Date.now()` ids are given as a `freshId` parameter. */
module CollectionRules {
  import opened Wrappers
  import opened JsText
  import opened SeqOps
  import opened CollectionRuleForm

  datatype CollectionRule = CollectionRule(
    id: string,
    name: string,
    isActive: bool,
    reminderDaysBefore: int,
    sendOnDueDate: bool,
    overdueDaysAfter: seq<int>,
    reminderTemplate: string,
    dueDateTemplate: string,
    overdueTemplate: string,
    confirmationTemplate: string)

  function RuleId(r: CollectionRule): string {
    r.id
  }

  // ---- overdue days: text <-> list ----

  /** `parseInt(piece.trim())`, `None` standing for NaN. */
  function ParseDay(piece: string): Option<int> {
    ParseInt(Trim(piece))
  }

  /** Parse every piece and drop the NaNs, keeping order and duplicates. */
  function ParsePieces(pieces: seq<string>): (days: seq<int>)
    ensures |days| <= |pieces|
    ensures (forall j :: 0 <= j < |pieces| ==> ParseDay(pieces[j]).None?) ==> days == []
    decreases |pieces|
  {
    if |pieces| == 0 then []
    else
      (match ParseDay(pieces[0]) case Some(d) => [d] case None => [])
      + ParsePieces(pieces[1..])
  }

  /** `text.split(',').map(d => parseInt(d.trim())).filter(d => !isNaN(d))`. */
  function ParseOverdueDays(text: string): (days: seq<int>)
    ensures |days| <= |Split(text, ",")|
  {
    ParsePieces(Split(text, ","))
  }

  function DayTexts(days: seq<int>): (texts: seq<string>)
    ensures |texts| == |days|
    ensures forall k :: 0 <= k < |days| ==> texts[k] == IntToString(days[k])
  {
    seq(|days|, k requires 0 <= k < |days| => IntToString(days[k]))
  }

  /** The days joined with a comma followed by `pad`. */
  function JoinDays(days: seq<int>, pad: string): string {
    Join(DayTexts(days), "," + pad)
  }

  /** `overdueDaysAfter.join(', ')`, the text an edit form starts from. */
  function FormatOverdueDays(days: seq<int>): string {
    JoinDays(days, " ")
  }

  predicate AllWhiteSpace(s: string) {
    forall k :: 0 <= k < |s| ==> IsWhiteSpace(s[k])
  }

  lemma IntToStringHasNoComma(x: int)
    ensures ',' !in IntToString(x)
  {
    NumberChars(x);
  }

  /** The days `toString` writes in plain decimal digits: those below 10^21
      in magnitude. */
  predicate WrittenInFull(days: seq<int>) {
    forall k :: 0 <= k < |days| ==> -ExponentFrom < days[k] < ExponentFrom
  }

  /** A day written after white space reads back as itself, and the piece
      holds no comma. */
  lemma PaddedDayParses(lead: string, x: int)
    requires AllWhiteSpace(lead)
    requires -ExponentFrom < x < ExponentFrom
    ensures ',' !in lead + IntToString(x)
    ensures ParseDay(lead + IntToString(x)) == Some(x)
  {
    IntToStringHasNoComma(x);
    ParseTrimmedPaddedInt(lead, x);
    ParseIntToString(x);
  }

  lemma JoinDaysUnfold(days: seq<int>, pad: string)
    requires |days| > 1
    ensures JoinDays(days, pad) == IntToString(days[0]) + ("," + pad) + JoinDays(days[1..], pad)
  {
    assert DayTexts(days[1..]) == DayTexts(days)[1..];
  }

  lemma ParsePiecesCons(first: string, rest: seq<string>, x: int)
    requires ParseDay(first) == Some(x)
    ensures ParsePieces([first] + rest) == [x] + ParsePieces(rest)
  {
    assert ([first] + rest)[1..] == rest;
  }

  /** A piece that does not parse is dropped and the rest is read as if it
      were not there. */
  lemma ParsePiecesDrops(first: string, rest: seq<string>)
    requires ParseDay(first).None?
    ensures ParsePieces([first] + rest) == ParsePieces(rest)
  {
    assert ([first] + rest)[1..] == rest;
  }

  /** The days one piece contributes: its day, or none for NaN. */
  function PieceDays(piece: string): seq<int> {
    match ParseDay(piece) case Some(d) => [d] case None => []
  }

  lemma {:induction false} ParsePiecesIsFlatMap(pieces: seq<string>)
    ensures ParsePieces(pieces) == FlatMap(pieces, PieceDays)
    decreases |pieces|
  {
    if |pieces| > 0 {
      ParsePiecesIsFlatMap(pieces[1..]);
    }
  }

  /** Parsing pieces distributes over concatenation: each piece's day, if
      any, lands in the order of its piece, duplicates included. */
  lemma ParsePiecesAppend(a: seq<string>, b: seq<string>)
    ensures ParsePieces(a + b) == ParsePieces(a) + ParsePieces(b)
  {
    ParsePiecesIsFlatMap(a);
    ParsePiecesIsFlatMap(b);
    ParsePiecesIsFlatMap(a + b);
    FlatMapAppend(a, b, PieceDays);
  }

  /** The heart of the round trip: splitting `lead + days joined with
      ("," + pad)` at the commas and parsing each trimmed piece gives the
      days back, for any white-space `lead` and `pad`. */
  lemma {:induction false} ParseJoinedDays(lead: string, days: seq<int>, pad: string)
    requires |days| > 0 && WrittenInFull(days)
    requires AllWhiteSpace(lead) && AllWhiteSpace(pad)
    ensures ParsePieces(Split(lead + JoinDays(days, pad), ",")) == days
    decreases |days|
  {
    if |days| == 1 {
      ParseOneJoinedDay(lead, days, pad);
    } else {
      assert WrittenInFull(days[1..]) by {
        assert forall k :: 0 <= k < |days| - 1 ==> days[1..][k] == days[k + 1];
      }
      ParseJoinedDays(pad, days[1..], pad);
      ParseJoinedDaysStep(lead, days, pad);
    }
  }

  lemma ParseOneJoinedDay(lead: string, days: seq<int>, pad: string)
    requires |days| == 1 && -ExponentFrom < days[0] < ExponentFrom
    requires AllWhiteSpace(lead)
    ensures ParsePieces(Split(lead + JoinDays(days, pad), ",")) == days
  {
    ParseSingleDay(lead, days[0]);
    assert JoinDays(days, pad) == IntToString(days[0]);
  }

  /** One step of the induction: the first day's piece parses to the first
      day, and the rest of the text parses to the rest. */
  lemma ParseJoinedDaysStep(lead: string, days: seq<int>, pad: string)
    requires |days| > 1 && -ExponentFrom < days[0] < ExponentFrom
    requires AllWhiteSpace(lead)
    requires ParsePieces(Split(pad + JoinDays(days[1..], pad), ",")) == days[1..]
    ensures ParsePieces(Split(lead + JoinDays(days, pad), ",")) == days
  {
    var first := lead + IntToString(days[0]);
    PaddedDayParses(lead, days[0]);
    SplitJoinedDays(lead, days, pad);
    ParsePiecesCons(first, Split(pad + JoinDays(days[1..], pad), ","), days[0]);
    assert days == [days[0]] + days[1..];
  }

  /** A day written after white space holds no comma. */
  lemma PaddedDayHasNoComma(lead: string, x: int)
    requires AllWhiteSpace(lead)
    ensures ',' !in lead + IntToString(x)
  {
    IntToStringHasNoComma(x);
    assert !IsWhiteSpace(',');
  }

  /** Reassociating the joined text around its first comma. */
  lemma RegroupAtFirstComma(lead: string, day: string, pad: string, tail: string)
    ensures lead + (day + ("," + pad) + tail) == (lead + day) + [','] + (pad + tail)
  {
    assert "," + pad == [','] + pad;
  }

  /** The first comma of a joined list ends the first piece. */
  lemma SplitJoinedDays(lead: string, days: seq<int>, pad: string)
    requires |days| > 1
    requires AllWhiteSpace(lead)
    ensures Split(lead + JoinDays(days, pad), ",")
         == [lead + IntToString(days[0])] + Split(pad + JoinDays(days[1..], pad), ",")
  {
    var first := lead + IntToString(days[0]);
    var tail := JoinDays(days[1..], pad);
    PaddedDayHasNoComma(lead, days[0]);
    JoinDaysUnfold(days, pad);
    RegroupAtFirstComma(lead, IntToString(days[0]), pad, tail);
    SplitAtSeparator(first, ',', pad + tail);
  }

  lemma ParseSingleDay(lead: string, x: int)
    requires AllWhiteSpace(lead)
    requires -ExponentFrom < x < ExponentFrom
    ensures ParsePieces(Split(lead + IntToString(x), ",")) == [x]
  {
    var first := lead + IntToString(x);
    PaddedDayParses(lead, x);
    SplitWithoutSeparator(first, ',');
    ParsePiecesCons(first, [], x);
  }

  /** Parsing the text an edit form is given (`join(', ')`) returns the same
      list, the empty list included, as long as every day is written in
      full: editing a rule without touching the field keeps its overdue
      days. */
  lemma ParseFormatRoundTrip(days: seq<int>)
    requires WrittenInFull(days)
    ensures ParseOverdueDays(FormatOverdueDays(days)) == days
  {
    if |days| == 0 {
      assert FormatOverdueDays(days) == "";
      assert Split("", ",") == [""];
      assert ParseInt(Trim("")) == None;
    } else {
      ParseJoinedDays("", days, " ");
      assert "" + JoinDays(days, " ") == FormatOverdueDays(days);
    }
  }

  /** The same holds for comma lists with no space, such as the form's
      default text "1,3,5,10". */
  lemma ParseCommaListRoundTrip(days: seq<int>)
    requires |days| > 0 && WrittenInFull(days)
    ensures ParseOverdueDays(JoinDays(days, "")) == days
  {
    ParseJoinedDays("", days, "");
    assert "" + JoinDays(days, "") == JoinDays(days, "");
  }

  /** A day of 10^21 or more is written in exponent notation, which
      `parseInt` reads as its leading digit: such a day does not survive an
      untouched edit. */
  lemma LargeDayIsReadAsItsLeadingDigit(x: int)
    requires x >= ExponentFrom
    ensures ParseOverdueDays(FormatOverdueDays([x])) == [LeadingDigit(x)]
    ensures ParseOverdueDays(FormatOverdueDays([x])) != [x]
  {
    SingleDayPieces(x);
    ParseIntOfExponentForm(x);
    ParsePiecesCons(IntToString(x), [], LeadingDigit(x));
  }

  /** A one-day list is written as that day alone, which is one piece. */
  lemma SingleDayPieces(x: int)
    ensures Split(FormatOverdueDays([x]), ",") == [IntToString(x)]
    ensures ParseDay(IntToString(x)) == ParseInt(IntToString(x))
  {
    var s := IntToString(x);
    assert DayTexts([x]) == [s];
    assert FormatOverdueDays([x]) == s;
    IntToStringHasNoComma(x);
    SplitWithoutSeparator(s, ',');
    ParseTrimmedPaddedInt("", x);
    assert "" + s == s;
  }

  /** Pieces that do not parse are dropped: an empty field means no
      overdue reminders. */
  lemma EmptyTextHasNoDays()
    ensures ParseOverdueDays("") == []
  {
    assert Split("", ",") == [""];
    assert ParseInt(Trim("")) == None;
  }

  // ---- save ----

  /** A rule holding the submitted form data under `id`, with the parsed
      overdue days. */
  function RuleFromForm(id: string, data: RuleFormData): (r: CollectionRule)
    ensures r.id == id && r.overdueDaysAfter == ParseOverdueDays(data.overdueDaysAfter)
    ensures r.name == data.name && r.isActive == data.isActive
    ensures r.reminderDaysBefore == data.reminderDaysBefore && r.sendOnDueDate == data.sendOnDueDate
    ensures r.reminderTemplate == data.reminderTemplate && r.dueDateTemplate == data.dueDateTemplate
    ensures r.overdueTemplate == data.overdueTemplate && r.confirmationTemplate == data.confirmationTemplate
  {
    CollectionRule(id, data.name, data.isActive, data.reminderDaysBefore, data.sendOnDueDate,
                   ParseOverdueDays(data.overdueDaysAfter), data.reminderTemplate,
                   data.dueDateTemplate, data.overdueTemplate, data.confirmationTemplate)
  }

  /** `{ ...rule, ...updatedRule, overdueDaysAfter: parsed }`: every field
      but the id comes from the form. */
  function ApplyForm(data: RuleFormData): CollectionRule -> CollectionRule {
    (rule: CollectionRule) => RuleFromForm(rule.id, data)
  }

  /** `handleSaveRule(data)`. `editing` is the id of the rule being edited,
      or `None` for a new rule. */
  function SaveRule(rules: seq<CollectionRule>, editing: Option<string>, data: RuleFormData,
                    freshId: string): (r: seq<CollectionRule>)
    // an edit rewrites exactly the rules carrying the edited id, keeping their ids
    ensures editing.Some? ==> |r| == |rules|
    ensures editing.Some? ==> forall i :: 0 <= i < |rules| ==>
      r[i] == (if rules[i].id == editing.value then RuleFromForm(rules[i].id, data) else rules[i])
    // a create appends one rule carrying the fresh id
    ensures editing.None? ==> r == rules + [RuleFromForm(freshId, data)]
  {
    match editing
    case Some(id) => UpdateWhere(rules, RuleId, id, ApplyForm(data))
    case None => rules + [RuleFromForm(freshId, data)]
  }

  /** The values an edit form is opened with for `rule`. */
  function EditFormValues(rule: CollectionRule): (v: RuleFormValues)
    ensures v.overdueDaysAfter == FormatOverdueDays(rule.overdueDaysAfter)
  {
    RuleFormValues(rule.name, rule.isActive, Finite(rule.reminderDaysBefore as real), rule.sendOnDueDate,
                   FormatOverdueDays(rule.overdueDaysAfter), rule.reminderTemplate,
                   rule.dueDateTemplate, rule.overdueTemplate, rule.confirmationTemplate)
  }

  /** Opening a rule for edit and saving it untouched changes nothing, as
      long as its id is unique and its values pass the form's checks. */
  lemma UntouchedEditIsIdentity(rules: seq<CollectionRule>, i: int, freshId: string)
    requires 0 <= i < |rules|
    requires forall j :: 0 <= j < |rules| && rules[j].id == rules[i].id ==> j == i
    requires Acceptable(EditFormValues(rules[i]))
    requires WrittenInFull(rules[i].overdueDaysAfter)
    ensures SaveRule(rules, Some(rules[i].id), Parse(EditFormValues(rules[i])).data, freshId) == rules
  {
    var rule := rules[i];
    var data := Parse(EditFormValues(rule)).data;
    ParseFormatRoundTrip(rule.overdueDaysAfter);
    assert RuleFromForm(rule.id, data) == rule;
    var r := SaveRule(rules, Some(rule.id), data, freshId);
    assert forall j :: 0 <= j < |rules| ==> r[j] == rules[j];
  }

  // ---- status, duplicate, delete, search ----

  function FlipActive(rule: CollectionRule): CollectionRule {
    rule.(isActive := !rule.isActive)
  }

  /** `handleStatusChange(id)`. */
  function ToggleStatus(rules: seq<CollectionRule>, id: string): (r: seq<CollectionRule>)
    ensures |r| == |rules|
    ensures forall i :: 0 <= i < |rules| ==> r[i].id == rules[i].id
    ensures forall i :: 0 <= i < |rules| ==>
      r[i].isActive == (if rules[i].id == id then !rules[i].isActive else rules[i].isActive)
    ensures forall i :: 0 <= i < |rules| ==> r[i].(isActive := rules[i].isActive) == rules[i]
  {
    UpdateWhere(rules, RuleId, id, FlipActive)
  }

  /** Toggling twice is the identity. */
  lemma ToggleStatusTwice(rules: seq<CollectionRule>, id: string)
    ensures ToggleStatus(ToggleStatus(rules, id), id) == rules
  {
    var once := ToggleStatus(rules, id);
    var twice := ToggleStatus(once, id);
    assert forall i :: 0 <= i < |rules| ==> twice[i] == rules[i];
  }

  function HasId(id: string): CollectionRule -> bool {
    (rule: CollectionRule) => rule.id == id
  }

  const CopySuffix: string := " (Cópia)"

  /** `handleDuplicate(id)`: the first rule with that id is copied to the
      end under a fresh id and a suffixed name. */
  function DuplicateRule(rules: seq<CollectionRule>, id: string, freshId: string): (r: seq<CollectionRule>)
    ensures (forall i :: 0 <= i < |rules| ==> rules[i].id != id) ==> r == rules
    ensures forall i :: 0 <= i < |rules| && rules[i].id == id &&
                        (forall j :: 0 <= j < i ==> rules[j].id != id) ==>
      r == rules + [rules[i].(id := freshId, name := rules[i].name + CopySuffix)]
  {
    match FindIndex(rules, HasId(id))
    case None => rules
    case Some(i) => rules + [rules[i].(id := freshId, name := rules[i].name + CopySuffix)]
  }

  /** `handleDelete(id)`: every rule with that id goes, the rest stay. */
  function DeleteRule(rules: seq<CollectionRule>, id: string): (r: seq<CollectionRule>)
    ensures forall x :: x in r <==> x in rules && x.id != id
  {
    RemoveWhere(rules, RuleId, id)
  }

  /** Deleting a unique id removes just that position. */
  lemma DeleteUniqueRule(rules: seq<CollectionRule>, i: int)
    requires 0 <= i < |rules|
    requires forall j :: 0 <= j < |rules| && j != i ==> rules[j].id != rules[i].id
    ensures DeleteRule(rules, rules[i].id) == rules[..i] + rules[i + 1..]
  {
    RemoveUniqueAt(rules, RuleId, rules[i].id, i);
  }

  function NameMatches(term: string): CollectionRule -> bool {
    (rule: CollectionRule) => IncludesIgnoringCase(rule.name, term)
  }

  /** `filteredRules`: a case-insensitive substring search on the name. */
  function FilterRules(rules: seq<CollectionRule>, term: string): (r: seq<CollectionRule>)
    ensures forall x :: x in r <==> x in rules && IncludesIgnoringCase(x.name, term)
  {
    Filter(rules, NameMatches(term))
  }

  /** An empty search shows every rule. */
  lemma EmptySearchShowsAll(rules: seq<CollectionRule>)
    ensures FilterRules(rules, "") == rules
  {
    forall i | 0 <= i < |rules| ensures NameMatches("")(rules[i]) {
      EmptyTermMatches(rules[i].name);
    }
    FilterKeepsAll(rules, NameMatches(""));
  }
}
