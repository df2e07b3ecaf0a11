/** The message template renderer (`createMessageFromTemplate`,
    src/utils/messageTemplates.ts). Five placeholders are substituted in a
    fixed order, each by a global replace on the text produced so far, and
    each only when its value passes the source's presence test. */
module MessageTemplates {
  import opened Wrappers
  import opened JsText

  const ClienteToken: string := "{cliente}"
  const ValorToken: string := "{valor}"
  const DaysUntilDueToken: string := "{dias_para_vencer}"
  const DaysOverdueToken: string := "{dias_atraso}"
  const LinkToken: string := "{link}"

  /** The optional inputs of a rendering. `amount` is in cents; the currency
      formatter that turns it into text is a parameter of the renderer. */
  datatype TemplateVariables = TemplateVariables(
    customerName: Option<string>,
    amount: Option<int>,
    daysUntilDue: Option<int>,
    daysOverdue: Option<int>,
    paymentLink: Option<string>)

  const NoVariables: TemplateVariables := TemplateVariables(None, None, None, None, None)

  /** JavaScript truthiness of an optional string: present and non-empty. */
  predicate StringTruthy(s: Option<string>) {
    s.Some? && s.value != ""
  }

  /** JavaScript truthiness of an optional number: present and non-zero. */
  predicate AmountTruthy(a: Option<int>) {
    a.Some? && a.value != 0
  }

  /** True when no guard of the renderer lets its substitution happen. */
  predicate NothingToSubstitute(vars: TemplateVariables) {
    && !StringTruthy(vars.customerName)
    && !AmountTruthy(vars.amount)
    && vars.daysUntilDue.None?
    && vars.daysOverdue.None?
    && !StringTruthy(vars.paymentLink)
  }

  /** True when none of the five placeholders occurs in `t`. */
  predicate HasNoToken(t: string) {
    && !Includes(t, ClienteToken)
    && !Includes(t, ValorToken)
    && !Includes(t, DaysUntilDueToken)
    && !Includes(t, DaysOverdueToken)
    && !Includes(t, LinkToken)
  }

  /** One guarded step: a global replace of `token` by `value`, or nothing. */
  function SubstituteIf(message: string, guard: bool, token: string, value: string): string
    requires |token| > 0
  {
    if guard then ReplaceAll(message, token, value) else message
  }

  /** The text after each of the five steps, in the source's order:
      customer name, amount, days until due, days overdue, payment link. */
  function Stages(template: string, vars: TemplateVariables, formatAmount: int -> string): (st: seq<string>)
    ensures |st| == 6 && st[0] == template
  {
    var m1 := SubstituteIf(template, StringTruthy(vars.customerName),
                           ClienteToken, vars.customerName.GetOr(""));
    var m2 := SubstituteIf(m1, AmountTruthy(vars.amount),
                           ValorToken, formatAmount(vars.amount.GetOr(0)));
    var m3 := SubstituteIf(m2, vars.daysUntilDue.Some?,
                           DaysUntilDueToken, IntToString(vars.daysUntilDue.GetOr(0)));
    var m4 := SubstituteIf(m3, vars.daysOverdue.Some?,
                           DaysOverdueToken, IntToString(vars.daysOverdue.GetOr(0)));
    var m5 := SubstituteIf(m4, StringTruthy(vars.paymentLink),
                           LinkToken, vars.paymentLink.GetOr(""));
    [template, m1, m2, m3, m4, m5]
  }

  /** `createMessageFromTemplate(template, variables)`. */
  function CreateMessageFromTemplate(template: string, vars: TemplateVariables,
                                     formatAmount: int -> string): (message: string)
    ensures NothingToSubstitute(vars) ==> message == template
  {
    Stages(template, vars, formatAmount)[5]
  }

  /** A template in which none of the five placeholders occurs comes back
      unchanged, whatever the variables. */
  lemma RenderWithoutTokens(template: string, vars: TemplateVariables, formatAmount: int -> string)
    requires HasNoToken(template)
    ensures CreateMessageFromTemplate(template, vars, formatAmount) == template
  {
    var st := Stages(template, vars, formatAmount);
    ReplaceAllAbsent(template, ClienteToken, vars.customerName.GetOr(""));
    assert st[1] == template;
    ReplaceAllAbsent(template, ValorToken, formatAmount(vars.amount.GetOr(0)));
    assert st[2] == template;
    ReplaceAllAbsent(template, DaysUntilDueToken, IntToString(vars.daysUntilDue.GetOr(0)));
    assert st[3] == template;
    ReplaceAllAbsent(template, DaysOverdueToken, IntToString(vars.daysOverdue.GetOr(0)));
    assert st[4] == template;
    ReplaceAllAbsent(template, LinkToken, vars.paymentLink.GetOr(""));
  }

  /** The source tests `if (customerName)`, `if (amount)` and
      `if (paymentLink)`: an empty name, an amount of 0 and an empty link are
      the same as no value, so their placeholders stay in the text. */
  lemma FalsyValuesAreAbsent(template: string, vars: TemplateVariables, formatAmount: int -> string)
    ensures CreateMessageFromTemplate(template, vars.(customerName := Some("")), formatAmount)
         == CreateMessageFromTemplate(template, vars.(customerName := None), formatAmount)
    ensures CreateMessageFromTemplate(template, vars.(amount := Some(0)), formatAmount)
         == CreateMessageFromTemplate(template, vars.(amount := None), formatAmount)
    ensures CreateMessageFromTemplate(template, vars.(paymentLink := Some("")), formatAmount)
         == CreateMessageFromTemplate(template, vars.(paymentLink := None), formatAmount)
  {
  }

  /** The day counts are checked with `!== undefined`: a count of 0 is
      substituted and renders as "0". */
  lemma ZeroDaysAreSubstituted(formatAmount: int -> string)
    ensures CreateMessageFromTemplate(DaysUntilDueToken, NoVariables.(daysUntilDue := Some(0)), formatAmount) == "0"
    ensures CreateMessageFromTemplate(DaysOverdueToken, NoVariables.(daysOverdue := Some(0)), formatAmount) == "0"
  {
    assert IntToString(0) == "0";
    ReplaceAllIsSplitJoin(DaysUntilDueToken, DaysUntilDueToken, "0");
    SplitWholeToken(DaysUntilDueToken);
    ReplaceAllIsSplitJoin(DaysOverdueToken, DaysOverdueToken, "0");
    SplitWholeToken(DaysOverdueToken);
  }

  /** A text that is exactly the separator splits into two empty pieces. */
  lemma SplitWholeToken(tok: string)
    requires |tok| > 0
    ensures Split(tok, tok) == ["", ""]
  {
    assert tok[..|tok|] == tok;
    assert tok[|tok|..] == "";
  }

  /** With values free of `$` substitution codes, each present value replaces
      every occurrence of its placeholder in the text of the step before, and
      the text between occurrences is kept: the step is the split at the
      placeholder joined back with the value. */
  lemma StagesAreSplitJoin(template: string, vars: TemplateVariables, formatAmount: int -> string)
    requires IsLiteralReplacement(vars.customerName.GetOr(""))
    requires IsLiteralReplacement(formatAmount(vars.amount.GetOr(0)))
    requires IsLiteralReplacement(vars.paymentLink.GetOr(""))
    ensures var st := Stages(template, vars, formatAmount);
      && st[1] == (if StringTruthy(vars.customerName)
                   then Join(Split(st[0], ClienteToken), vars.customerName.value) else st[0])
      && st[2] == (if AmountTruthy(vars.amount)
                   then Join(Split(st[1], ValorToken), formatAmount(vars.amount.value)) else st[1])
      && st[3] == (if vars.daysUntilDue.Some?
                   then Join(Split(st[2], DaysUntilDueToken), IntToString(vars.daysUntilDue.value)) else st[2])
      && st[4] == (if vars.daysOverdue.Some?
                   then Join(Split(st[3], DaysOverdueToken), IntToString(vars.daysOverdue.value)) else st[3])
      && st[5] == (if StringTruthy(vars.paymentLink)
                   then Join(Split(st[4], LinkToken), vars.paymentLink.value) else st[4])
  {
    var st := Stages(template, vars, formatAmount);
    ReplaceAllIsSplitJoin(st[0], ClienteToken, vars.customerName.GetOr(""));
    ReplaceAllIsSplitJoin(st[1], ValorToken, formatAmount(vars.amount.GetOr(0)));
    IntToStringIsLiteral(vars.daysUntilDue.GetOr(0));
    ReplaceAllIsSplitJoin(st[2], DaysUntilDueToken, IntToString(vars.daysUntilDue.GetOr(0)));
    IntToStringIsLiteral(vars.daysOverdue.GetOr(0));
    ReplaceAllIsSplitJoin(st[3], DaysOverdueToken, IntToString(vars.daysOverdue.GetOr(0)));
    ReplaceAllIsSplitJoin(st[4], LinkToken, vars.paymentLink.GetOr(""));
  }

  lemma IntToStringIsLiteral(x: int)
    ensures IsLiteralReplacement(IntToString(x))
  {
    NumberChars(x);
  }

  /** The steps run one after another on the text so far: a later step
      rewrites a placeholder that an earlier step inserted, so a customer
      named "{valor}" is rendered as the formatted amount. */
  lemma LaterStepRewritesEarlierValue(formatAmount: int -> string)
    requires IsLiteralReplacement(formatAmount(500))
    ensures CreateMessageFromTemplate(ClienteToken,
              NoVariables.(customerName := Some(ValorToken), amount := Some(500)), formatAmount)
         == formatAmount(500)
  {
    var vars := NoVariables.(customerName := Some(ValorToken), amount := Some(500));
    WholeTokenIsReplaced(ClienteToken, ValorToken);
    WholeTokenIsReplaced(ValorToken, formatAmount(500));
    LastStepsSkipped(ClienteToken, vars, formatAmount);
  }

  /** A text that is exactly the placeholder becomes the value. */
  lemma WholeTokenIsReplaced(tok: string, value: string)
    requires |tok| > 0 && IsLiteralReplacement(value)
    ensures ReplaceAll(tok, tok, value) == value
  {
    ReplaceAllIsSplitJoin(tok, tok, value);
    SplitWholeToken(tok);
    assert Join(["", ""], value) == value;
  }

  /** With no day counts and no link, the last three steps keep the text. */
  lemma LastStepsSkipped(template: string, vars: TemplateVariables, formatAmount: int -> string)
    requires vars.daysUntilDue.None? && vars.daysOverdue.None? && !StringTruthy(vars.paymentLink)
    ensures Stages(template, vars, formatAmount)[5] == Stages(template, vars, formatAmount)[2]
  {
  }

  /** A step never rescans the text it inserted itself: a customer named
      "{cliente}!" is rendered as given. */
  lemma StepDoesNotRescanItsValue(formatAmount: int -> string)
    ensures CreateMessageFromTemplate(ClienteToken,
              NoVariables.(customerName := Some(ClienteToken + "!")), formatAmount)
         == ClienteToken + "!"
  {
    var vars := NoVariables.(customerName := Some(ClienteToken + "!"));
    var st := Stages(ClienteToken, vars, formatAmount);
    NoDollarIsLiteral(ClienteToken + "!");
    ReplaceAllIsSplitJoin(ClienteToken, ClienteToken, ClienteToken + "!");
    SplitWholeToken(ClienteToken);
    assert st[1] == ClienteToken + "!";
  }

  lemma NoDollarIsLiteral(s: string)
    requires '$' !in s
    ensures IsLiteralReplacement(s)
  {
  }

  /** The replace keeps JavaScript's `$` codes: a customer named "$&" is
      rendered as the placeholder it replaces. */
  lemma DollarCodesInValues(formatAmount: int -> string)
    ensures CreateMessageFromTemplate(ClienteToken, NoVariables.(customerName := Some("$&")), formatAmount)
         == ClienteToken
  {
    var s := ClienteToken;
    assert s[0..|s|] == s;
    assert Expand("$&", "", s, "") == s + Expand("", "", s, "");
  }
}
