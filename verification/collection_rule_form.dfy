/** The collection-rule form (src/components/collections/CollectionRuleForm.tsx):
    the field validation of `collectionRuleSchema`, the default values, and
    what a submit does to the form. */
module CollectionRuleForm {
  import opened Wrappers
  import opened JsText

  /** A JavaScript number, as `z.coerce.number()` hands it to the checks. */
  datatype JsNumber = Finite(value: real) | NaN | PositiveInfinity | NegativeInfinity

  /** The values held by the form, field by field. */
  datatype RuleFormValues = RuleFormValues(
    name: string,
    isActive: bool,
    reminderDaysBefore: JsNumber,
    sendOnDueDate: bool,
    overdueDaysAfter: string,
    reminderTemplate: string,
    dueDateTemplate: string,
    overdueTemplate: string,
    confirmationTemplate: string)

  /** The data a valid form passes to `onSubmit`: the day count is now an
      integer. `overdueDaysAfter` is still the raw text. */
  datatype RuleFormData = RuleFormData(
    name: string,
    isActive: bool,
    reminderDaysBefore: int,
    sendOnDueDate: bool,
    overdueDaysAfter: string,
    reminderTemplate: string,
    dueDateTemplate: string,
    overdueTemplate: string,
    confirmationTemplate: string)

  datatype Field = Name | ReminderDaysBefore | ReminderTemplate | DueDateTemplate | OverdueTemplate | ConfirmationTemplate

  /** A validation issue: a string shorter than its minimum, a value that is
      not a number at all, a number that is not an integer, or one below 0. */
  datatype Issue = TooShort(field: Field, minimum: nat) | NotANumber | NotAnInteger | Negative

  const NameMinimum: nat := 3
  const TemplateMinimum: nat := 10

  /** `z.string().min(n)`: the length counts UTF-16 code units. */
  function MinLengthIssues(s: string, field: Field, minimum: nat): (issues: seq<Issue>)
    ensures forall x :: x in issues <==> x == TooShort(field, minimum) && Utf16Length(s) < minimum
  {
    if Utf16Length(s) < minimum then [TooShort(field, minimum)] else []
  }

  predicate IsInteger(x: real) {
    x.Floor as real == x
  }

  /** `z.coerce.number().int().min(0)` on the coerced number. NaN fails the
      type test and stops there; otherwise both checks run and each may add
      its issue. */
  function DayCountIssues(n: JsNumber): (issues: seq<Issue>)
    ensures issues == [] <==> n.Finite? && IsInteger(n.value) && n.value >= 0.0
    ensures (NotANumber in issues) <==> n.NaN?
    ensures forall k :: 0 <= k < |issues| ==> !issues[k].TooShort?
  {
    match n
    case NaN => [NotANumber]
    case PositiveInfinity => [NotAnInteger]
    case NegativeInfinity => [NotAnInteger, Negative]
    case Finite(x) =>
      (if IsInteger(x) then [] else [NotAnInteger]) + (if x < 0.0 then [Negative] else [])
  }

  /** Every issue of the schema, in field order. `isActive`, `sendOnDueDate`
      and `overdueDaysAfter` accept any value of their type. */
  function Issues(v: RuleFormValues): (issues: seq<Issue>)
    ensures TooShort(Name, NameMinimum) in issues <==> Utf16Length(v.name) < NameMinimum
    ensures TooShort(ReminderTemplate, TemplateMinimum) in issues <==> Utf16Length(v.reminderTemplate) < TemplateMinimum
    ensures TooShort(DueDateTemplate, TemplateMinimum) in issues <==> Utf16Length(v.dueDateTemplate) < TemplateMinimum
    ensures TooShort(OverdueTemplate, TemplateMinimum) in issues <==> Utf16Length(v.overdueTemplate) < TemplateMinimum
    ensures TooShort(ConfirmationTemplate, TemplateMinimum) in issues <==> Utf16Length(v.confirmationTemplate) < TemplateMinimum
    ensures NotANumber in issues <==> v.reminderDaysBefore.NaN?
  {
    MinLengthIssues(v.name, Name, NameMinimum)
    + DayCountIssues(v.reminderDaysBefore)
    + MinLengthIssues(v.reminderTemplate, ReminderTemplate, TemplateMinimum)
    + MinLengthIssues(v.dueDateTemplate, DueDateTemplate, TemplateMinimum)
    + MinLengthIssues(v.overdueTemplate, OverdueTemplate, TemplateMinimum)
    + MinLengthIssues(v.confirmationTemplate, ConfirmationTemplate, TemplateMinimum)
  }

  /** What the schema accepts, stated field by field. */
  predicate Acceptable(v: RuleFormValues) {
    && Utf16Length(v.name) >= NameMinimum
    && v.reminderDaysBefore.Finite? && IsInteger(v.reminderDaysBefore.value) && v.reminderDaysBefore.value >= 0.0
    && Utf16Length(v.reminderTemplate) >= TemplateMinimum
    && Utf16Length(v.dueDateTemplate) >= TemplateMinimum
    && Utf16Length(v.overdueTemplate) >= TemplateMinimum
    && Utf16Length(v.confirmationTemplate) >= TemplateMinimum
  }

  /** No issue is reported exactly when every field is acceptable; in
      particular the overdue-days text is never checked. */
  lemma NoIssuesIffAcceptable(v: RuleFormValues)
    ensures Issues(v) == [] <==> Acceptable(v)
    ensures Issues(v.(overdueDaysAfter := "")) == Issues(v)
  {
  }

  datatype ParseResult = Valid(data: RuleFormData) | Invalid(issues: seq<Issue>)

  /** `collectionRuleSchema.safeParse(values)`. */
  function Parse(v: RuleFormValues): (r: ParseResult)
    ensures r.Valid? <==> Acceptable(v)
    ensures r.Invalid? ==> r.issues != []
    ensures r.Valid? ==> r.data.reminderDaysBefore >= 0 && r.data.reminderDaysBefore as real == v.reminderDaysBefore.value
    ensures r.Valid? ==> r.data.name == v.name && r.data.overdueDaysAfter == v.overdueDaysAfter
    ensures r.Valid? ==> r.data.isActive == v.isActive && r.data.sendOnDueDate == v.sendOnDueDate
    ensures r.Valid? ==> r.data.reminderTemplate == v.reminderTemplate && r.data.dueDateTemplate == v.dueDateTemplate
    ensures r.Valid? ==> r.data.overdueTemplate == v.overdueTemplate && r.data.confirmationTemplate == v.confirmationTemplate
  {
    NoIssuesIffAcceptable(v);
    var issues := Issues(v);
    if issues != [] then Invalid(issues)
    else
      Valid(RuleFormData(v.name, v.isActive, v.reminderDaysBefore.value.Floor, v.sendOnDueDate,
                         v.overdueDaysAfter, v.reminderTemplate, v.dueDateTemplate,
                         v.overdueTemplate, v.confirmationTemplate))
  }

  const DefaultReminderTemplate: string := "Olá {cliente}, lembre-se que sua fatura de {valor} vence em {dias_para_vencer} dias."
  const DefaultDueDateTemplate: string := "Olá {cliente}, sua fatura de {valor} vence hoje. Link de pagamento: {link}"
  const DefaultOverdueTemplate: string := "Olá {cliente}, sua fatura de {valor} está atrasada há {dias_atraso} dias. Link de pagamento: {link}"
  const DefaultConfirmationTemplate: string := "Olá {cliente}, confirmamos o recebimento do pagamento da sua fatura de {valor}. Obrigado!"

  /** The values of a new form, and the values a create submit resets to. */
  const Defaults: RuleFormValues := RuleFormValues(
    "", true, Finite(3.0), true, "1,3,5,10",
    DefaultReminderTemplate, DefaultDueDateTemplate, DefaultOverdueTemplate, DefaultConfirmationTemplate)

  /** The defaults pass every check except the name: the empty default name
      is shorter than 3, so a create form must be given a name first. */
  lemma DefaultsNeedOnlyAName()
    ensures Issues(Defaults) == [TooShort(Name, NameMinimum)]
  {
    var v := Defaults;
    assert Utf16Length(v.name) == 0;
    assert DayCountIssues(v.reminderDaysBefore) == [];
    OnlyTheNameFails(v);
  }

  /** Filling in a name of 3 or more characters makes the defaults valid. */
  lemma DefaultsWithANameAreAcceptable(name: string)
    requires Utf16Length(name) >= NameMinimum
    ensures Acceptable(Defaults.(name := name))
  {
    var v := Defaults.(name := name);
    assert |v.reminderTemplate| >= TemplateMinimum && |v.dueDateTemplate| >= TemplateMinimum;
    assert |v.overdueTemplate| >= TemplateMinimum && |v.confirmationTemplate| >= TemplateMinimum;
  }

  /** Values whose only fault is a short name get exactly one issue. */
  lemma OnlyTheNameFails(v: RuleFormValues)
    requires Utf16Length(v.name) < NameMinimum
    requires DayCountIssues(v.reminderDaysBefore) == []
    requires |v.reminderTemplate| >= TemplateMinimum && |v.dueDateTemplate| >= TemplateMinimum
    requires |v.overdueTemplate| >= TemplateMinimum && |v.confirmationTemplate| >= TemplateMinimum
    ensures Issues(v) == [TooShort(Name, NameMinimum)]
  {
    assert Issues(v) == [TooShort(Name, NameMinimum)] + [] + [] + [] + [] + [];
  }

  /** `initialData || defaults`: an edit form starts from the rule's values. */
  function InitialValues(initialData: Option<RuleFormValues>): (v: RuleFormValues)
    ensures initialData.Some? ==> v == initialData.value
    ensures initialData.None? ==> v == Defaults
  {
    initialData.GetOr(Defaults)
  }

  /** What a submit produces: the data handed to `onSubmit`, if any, and the
      values the form holds afterwards. */
  datatype Submission = Submission(submitted: Option<RuleFormData>, next: RuleFormValues)

  /** `form.handleSubmit(handleSubmit)`: invalid values are not submitted and
      stay in the form; valid ones are submitted, and a create form (no
      initial data) is then reset to the defaults. */
  function Submit(initialData: Option<RuleFormValues>, current: RuleFormValues): (s: Submission)
    ensures !Acceptable(current) ==> s.submitted.None? && s.next == current
    ensures Acceptable(current) ==> s.submitted == Some(Parse(current).data)
    ensures Acceptable(current) && initialData.None? ==> s.next == Defaults
    ensures initialData.Some? ==> s.next == current
  {
    match Parse(current)
    case Invalid(_) => Submission(None, current)
    case Valid(data) => Submission(Some(data), if initialData.None? then Defaults else current)
  }

  /** After a create submit the form is back to its fresh state, so a second
      create starts from the same values as the first. */
  lemma CreateSubmitResets(current: RuleFormValues)
    requires Acceptable(current)
    ensures Submit(None, current).next == InitialValues(None)
  {
  }
}
