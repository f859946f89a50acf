/** The generic tool form (src/components/form/form-interface.tsx): the
    default value of each field, the keying of the validation schema by
    payload key, and what a submit does with the credit check and the
    execution outcome. Validators themselves are not modelled: a schema
    entry records the field type and whether the value may be left out. */
module Forms {
  import opened Common
  import opened Json
  import opened CreditStore

  datatype FieldType =
    | Text | Email | Url | Tel | Password | Number | Textarea | Date | Time | DateTimeLocal
    | Select | MultiSelect | Checkbox | Radio | File | RichText | Hidden | Html

  /** `string | string[] | boolean | number` */
  datatype Value = VStr(s: string) | VStrs(items: seq<string>) | VBool(b: bool) | VNum(n: int)

  datatype Field = Field(payloadKey: string, kind: FieldType, required: bool, defaultValue: Option<Value>)

  /** A given default wins; otherwise false for a checkbox, [] for a
      multi-select and '' for everything else. */
  function DefaultOf(f: Field): (v: Value)
    ensures f.defaultValue.Some? ==> v == f.defaultValue.value
    ensures f.defaultValue.None? && f.kind == Checkbox ==> v == VBool(false)
    ensures f.defaultValue.None? && f.kind == MultiSelect ==> v == VStrs([])
    ensures f.defaultValue.None? && f.kind != Checkbox && f.kind != MultiSelect ==> v == VStr("")
  {
    match f.defaultValue
    case Some(d) => d
    case None =>
      if f.kind == Checkbox then VBool(false)
      else if f.kind == MultiSelect then VStrs([])
      else VStr("")
  }

  /** One schema entry: the type's validator, made optional iff the field
      is not required. */
  datatype Entry = Entry(kind: FieldType, optional: bool)

  function EntryOf(f: Field): (e: Entry)
    ensures e.kind == f.kind && (e.optional <==> !f.required)
  {
    Entry(f.kind, !f.required)
  }

  /** The `forEach` that assigns `obj[field.payloadKey] = g(field)`. */
  function ByKey<V>(fields: seq<Field>, g: Field -> V): (r: seq<(string, V)>)
    ensures |r| == |fields|
    ensures forall i :: 0 <= i < |fields| ==> r[i] == (fields[i].payloadKey, g(fields[i]))
  {
    seq(|fields|, i requires 0 <= i < |fields| => (fields[i].payloadKey, g(fields[i])))
  }

  function DefaultValues(fields: seq<Field>): map<string, Value> {
    ToMap(ByKey(fields, DefaultOf))
  }

  function Schema(fields: seq<Field>): map<string, Entry> {
    ToMap(ByKey(fields, EntryOf))
  }

  /** The field that decides a key: the last one carrying it. */
  predicate LastWithKey(fields: seq<Field>, i: int) {
    0 <= i < |fields| && forall j :: i < j < |fields| ==> fields[j].payloadKey != fields[i].payloadKey
  }

  /** Both objects have exactly one entry per payload key, and the last
      field with a key decides its default and its schema entry, which
      is optional iff that field is not required. */
  lemma KeyedByLastField(fields: seq<Field>, i: int)
    requires LastWithKey(fields, i)
    ensures var k := fields[i].payloadKey;
            && k in DefaultValues(fields) && DefaultValues(fields)[k] == DefaultOf(fields[i])
            && k in Schema(fields) && Schema(fields)[k].kind == fields[i].kind
            && (Schema(fields)[k].optional <==> !fields[i].required)
  {
    ToMapLastWins(ByKey(fields, DefaultOf), i);
    ToMapLastWins(ByKey(fields, EntryOf), i);
  }

  lemma KeysAreThePayloadKeys(fields: seq<Field>, k: string)
    ensures k in DefaultValues(fields) <==> exists i :: 0 <= i < |fields| && fields[i].payloadKey == k
    ensures k in Schema(fields) <==> k in DefaultValues(fields)
  {
    var d := ByKey(fields, DefaultOf);
    var s := ByKey(fields, EntryOf);
    assert forall i :: 0 <= i < |fields| ==> d[i].0 == fields[i].payloadKey && s[i].0 == fields[i].payloadKey;
  }

  // ----- submitting ----------------------------------------------------------------

  /** What `executeTool` did: answered with success and the credits it
      used, answered without success, or threw (with the message of an
      `Error`, or something else). */
  datatype Outcome =
    | Succeeded(result: Json, creditsUsed: int)
    | Declined
    | Threw(message: Option<string>)

  datatype RunResult = RunResult(success: bool, data: Option<Json>, creditsUsed: Option<int>, error: Option<string>)

  const NoCredits := "Insufficient credits. Please purchase more credits to continue."
  const ExecutionFailed := "Tool execution failed. Please try again."
  const Unexpected := "An unexpected error occurred"

  /** After a submit: the credits, the result shown, whether `executeTool`
      was called, and the executing flag. */
  datatype Submitted = Submitted(credits: CreditState, result: RunResult, executed: bool, isExecuting: bool)

  function OnSubmit(credits: CreditState, creditCost: int, outcome: Outcome): (r: Submitted)
    ensures !r.isExecuting
    ensures !HasEnoughCredits(credits, creditCost) ==>
              r == Submitted(credits, RunResult(false, None, None, Some(NoCredits)), false, false)
    ensures HasEnoughCredits(credits, creditCost) ==> r.executed
    ensures r.result.success <==> r.executed && outcome.Succeeded?
    ensures !r.result.success ==> r.credits == credits && r.result.creditsUsed.None? && r.result.error.Some?
    ensures r.result.success ==>
              r.credits == DeductCredits(credits, outcome.creditsUsed)
              && r.result == RunResult(true, Some(outcome.result), Some(outcome.creditsUsed), None)
  {
    if !HasEnoughCredits(credits, creditCost) then
      Submitted(credits, RunResult(false, None, None, Some(NoCredits)), false, false)
    else
      match outcome
      case Succeeded(result, used) =>
        Submitted(DeductCredits(credits, used), RunResult(true, Some(result), Some(used), None), true, false)
      case Declined =>
        Submitted(credits, RunResult(false, None, None, Some(ExecutionFailed)), true, false)
      case Threw(message) =>
        Submitted(credits, RunResult(false, None, None, Some(message.GetOr(Unexpected))), true, false)
  }

  /** The charge is what the server reports, not the tool's listed cost:
      with non-negative amounts, a success lowers the total by exactly the
      reported credits whenever they are covered, and by no more than the
      total otherwise. */
  lemma ChargesReportedCredits(credits: CreditState, creditCost: int, result: Json, used: int)
    requires used >= 0
    requires credits.credits.Some? ==> credits.credits.value.balance >= 0 && Bonus(credits.credits.value) >= 0
    requires HasEnoughCredits(credits, creditCost)
    ensures var r := OnSubmit(credits, creditCost, Succeeded(result, used));
            && (used <= TotalCredits(credits) ==> TotalCredits(r.credits) == TotalCredits(credits) - used)
            && TotalCredits(r.credits) == Max(0, TotalCredits(credits) - used)
  {
    DeductTotal(credits, used);
  }

  /** A failed run, for whatever reason, leaves the credits exactly as
      they were. */
  lemma FailureCostsNothing(credits: CreditState, creditCost: int, outcome: Outcome)
    requires !outcome.Succeeded? || !HasEnoughCredits(credits, creditCost)
    ensures OnSubmit(credits, creditCost, outcome).credits == credits
    ensures !OnSubmit(credits, creditCost, outcome).result.success
  {
  }
}
