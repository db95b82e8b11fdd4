/** ComponentsValidator: every named parameter, success action and failure
  * action of the components needs a name and is validated in turn, with
  * the components as its context. */
module ComponentsValidator {
  import opened Wrappers
  import opened Model
  import opened ValidationResults
  import opened Validator
  import ParameterValidator
  import FailureActionValidator

  const Where := "components"

  const ParameterNameMandatory := "parameter: name is mandatory"
  const SuccessActionNameMandatory := "successAction: name is mandatory"
  const FailureActionNameMandatory := "failureAction: name is mandatory"

  /** The loop body shared by the three maps: an empty key is an error, then
    * the entry's own validation is merged. */
  function Entry<T>(acc: Report, entry: (string, T), message: string, check: T -> Result<Report>): (r: Result<Report>)
    ensures r.Ok? ==> Extends(acc, r.value)
  {
    var named := if entry.0 == "" then acc.AddError(Where, message) else acc;
    var sub :- check(entry.1);
    ExtendsTrans(acc, named, named.Merge(sub));
    Ok(named.Merge(sub))
  }

  /** `for (entry : map.entrySet()) …`: the entries in order; the first
    * exception ends the walk. */
  function Entries<T>(acc: Report, entries: seq<(string, T)>, message: string, check: T -> Result<Report>): Result<Report>
    decreases |entries|
  {
    if |entries| == 0 then Ok(acc)
    else
      var before :- Entries(acc, entries[..|entries| - 1], message, check);
      Entry(before, entries[|entries| - 1], message, check)
  }

  function ParameterCheck(doc: Document, hooks: Hooks): Parameter -> Result<Report> {
    p => ParameterValidator.Check(p, PartContext, doc, hooks)
  }

  function SuccessActionCheck(doc: Document, hooks: Hooks): SuccessAction -> Result<Report> {
    a => hooks.successAction(a, PartContext, doc)
  }

  function FailureActionCheck(doc: Document, hooks: Hooks): FailureAction -> Result<Report> {
    a => FailureActionValidator.Check(a, PartContext, doc, hooks)
  }

  /** A map the document may leave out. */
  function Walk<T>(acc: Report, entries: Option<seq<(string, T)>>, message: string, check: T -> Result<Report>): Result<Report> {
    if entries.None? then Ok(acc) else Entries(acc, entries.value, message, check)
  }

  /** ComponentsValidator.validate. */
  function Check(c: Components, doc: Document, hooks: Hooks): Result<Report> {
    var parameters :- Walk(Empty, c.parameters, ParameterNameMandatory, ParameterCheck(doc, hooks));
    var successes :- Walk(parameters, c.successActions, SuccessActionNameMandatory, SuccessActionCheck(doc, hooks));
    var failures :- Walk(successes, c.failureActions, FailureActionNameMandatory, FailureActionCheck(doc, hooks));
    Ok(WithExtensions(failures, c.extensions, doc, hooks))
  }

  method Validate(c: Components, doc: Document, hooks: Hooks) returns (r: Result<ValidationResult>)
    ensures Outcome(r, Check(c, doc, hooks)) && (r.Ok? ==> fresh(r.value))
  {
    var result := new ValidationResult();
    if c.parameters.Some? {
      var thrown := ValidateParameters(result, c.parameters.value, doc, hooks);
      if thrown.Some? {
        return Err(thrown.value);
      }
    }
    if c.successActions.Some? {
      var thrown := ValidateSuccessActions(result, c.successActions.value, doc, hooks);
      if thrown.Some? {
        return Err(thrown.value);
      }
    }
    if c.failureActions.Some? {
      var thrown := ValidateFailureActions(result, c.failureActions.value, doc, hooks);
      if thrown.Some? {
        return Err(thrown.value);
      }
    }
    if |c.extensions| > 0 {
      var extensions := new ValidationResult.Of(hooks.extensions(c.extensions, doc));
      result.Merge(extensions);
    }
    return Ok(result);
  }

  lemma EntriesStep<T>(acc: Report, entries: seq<(string, T)>, message: string, check: T -> Result<Report>, i: nat)
    requires i < |entries|
    ensures Entries(acc, entries[..i + 1], message, check)
         == (match Entries(acc, entries[..i], message, check)
               case Err(e) => Err(e)
               case Ok(before) => Entry(before, entries[i], message, check))
  {
    assert entries[..i + 1][..i] == entries[..i];
  }

  lemma {:induction false} EntriesStops<T>(acc: Report, entries: seq<(string, T)>, message: string, check: T -> Result<Report>, i: nat)
    requires i <= |entries| && Entries(acc, entries[..i], message, check).Err?
    ensures Entries(acc, entries, message, check) == Entries(acc, entries[..i], message, check)
    decreases |entries| - i
  {
    if i < |entries| {
      EntriesStep(acc, entries, message, check, i);
      EntriesStops(acc, entries, message, check, i + 1);
    } else {
      assert entries[..i] == entries;
    }
  }

  method ValidateParameters(result: ValidationResult, entries: seq<(string, Parameter)>, doc: Document, hooks: Hooks)
    returns (thrown: Option<Failure>)
    modifies result
    ensures Entries(old(result.Contents()), entries, ParameterNameMandatory, ParameterCheck(doc, hooks))
         == if thrown.Some? then Err(thrown.value) else Ok(result.Contents())
  {
    ghost var start := result.Contents();
    for i := 0 to |entries|
      invariant Entries(start, entries[..i], ParameterNameMandatory, ParameterCheck(doc, hooks)) == Ok(result.Contents())
    {
      EntriesStep(start, entries, ParameterNameMandatory, ParameterCheck(doc, hooks), i);
      var (name, parameter) := entries[i];
      if name == "" {
        result.AddError(Where, ParameterNameMandatory);
      }
      var sub := ParameterValidator.Validate(parameter, PartContext, doc, hooks);
      if sub.Err? {
        EntriesStops(start, entries, ParameterNameMandatory, ParameterCheck(doc, hooks), i + 1);
        return Some(sub.error);
      }
      result.Merge(sub.value);
    }
    assert entries[..|entries|] == entries;
    return None;
  }

  method ValidateSuccessActions(result: ValidationResult, entries: seq<(string, SuccessAction)>, doc: Document, hooks: Hooks)
    returns (thrown: Option<Failure>)
    modifies result
    ensures Entries(old(result.Contents()), entries, SuccessActionNameMandatory, SuccessActionCheck(doc, hooks))
         == if thrown.Some? then Err(thrown.value) else Ok(result.Contents())
  {
    ghost var start := result.Contents();
    for i := 0 to |entries|
      invariant Entries(start, entries[..i], SuccessActionNameMandatory, SuccessActionCheck(doc, hooks)) == Ok(result.Contents())
    {
      EntriesStep(start, entries, SuccessActionNameMandatory, SuccessActionCheck(doc, hooks), i);
      var (name, action) := entries[i];
      if name == "" {
        result.AddError(Where, SuccessActionNameMandatory);
      }
      var sub := hooks.successAction(action, PartContext, doc);
      if sub.Err? {
        EntriesStops(start, entries, SuccessActionNameMandatory, SuccessActionCheck(doc, hooks), i + 1);
        return Some(sub.error);
      }
      var validated := new ValidationResult.Of(sub.value);
      result.Merge(validated);
    }
    assert entries[..|entries|] == entries;
    return None;
  }

  method ValidateFailureActions(result: ValidationResult, entries: seq<(string, FailureAction)>, doc: Document, hooks: Hooks)
    returns (thrown: Option<Failure>)
    modifies result
    ensures Entries(old(result.Contents()), entries, FailureActionNameMandatory, FailureActionCheck(doc, hooks))
         == if thrown.Some? then Err(thrown.value) else Ok(result.Contents())
  {
    ghost var start := result.Contents();
    for i := 0 to |entries|
      invariant Entries(start, entries[..i], FailureActionNameMandatory, FailureActionCheck(doc, hooks)) == Ok(result.Contents())
    {
      EntriesStep(start, entries, FailureActionNameMandatory, FailureActionCheck(doc, hooks), i);
      var (name, action) := entries[i];
      if name == "" {
        result.AddError(Where, FailureActionNameMandatory);
      }
      var sub := FailureActionValidator.Validate(action, PartContext, doc, hooks);
      if sub.Err? {
        EntriesStops(start, entries, FailureActionNameMandatory, FailureActionCheck(doc, hooks), i + 1);
        return Some(sub.error);
      }
      result.Merge(sub.value);
    }
    assert entries[..|entries|] == entries;
    return None;
  }

  // ----- what validate promises ----------------------------------------------------

  /** A walk keeps what came before it. */
  lemma {:induction false} EntriesKeep<T>(acc: Report, entries: seq<(string, T)>, message: string, check: T -> Result<Report>)
    requires Entries(acc, entries, message, check).Ok?
    ensures Extends(acc, Entries(acc, entries, message, check).value)
    decreases |entries|
  {
    if |entries| > 0 {
      var init := entries[..|entries| - 1];
      EntriesKeep(acc, init, message, check);
      ExtendsTrans(acc, Entries(acc, init, message, check).value, Entries(acc, entries, message, check).value);
    }
  }

  /** An entry with an empty name is reported, wherever it sits in the map. */
  lemma {:induction false} EntriesReportEmptyName<T>(acc: Report, entries: seq<(string, T)>, message: string,
                                                      check: T -> Result<Report>, i: nat)
    requires Entries(acc, entries, message, check).Ok?
    requires i < |entries| && entries[i].0 == ""
    ensures Location(Where, message) in Entries(acc, entries, message, check).value.errors
    decreases |entries|
  {
    var n := |entries| - 1;
    var init := entries[..n];
    var before := Entries(acc, init, message, check).value;
    var after := Entries(acc, entries, message, check).value;
    if i < n {
      assert init[i] == entries[i];
      EntriesReportEmptyName(acc, init, message, check, i);
      ExtendsKeeps(before, after, Location(Where, message));
    } else {
      var named := before.AddError(Where, message);
      assert Extends(named, after);
      ExtendsKeeps(named, after, Location(Where, message));
    }
  }

  /** The parameters never throw: with the components as context the
    * parameter validator always has a context. */
  lemma {:induction false} ParametersNeverThrow(acc: Report, entries: seq<(string, Parameter)>, doc: Document, hooks: Hooks)
    ensures Entries(acc, entries, ParameterNameMandatory, ParameterCheck(doc, hooks)).Ok?
    decreases |entries|
  {
    if |entries| > 0 {
      ParametersNeverThrow(acc, entries[..|entries| - 1], doc, hooks);
      ParameterValidator.ParameterRules(entries[|entries| - 1].1, PartContext, doc, hooks);
    }
  }

  /** While nothing throws, every empty name in any of the three maps is
    * reported. */
  lemma ComponentsRules(c: Components, doc: Document, hooks: Hooks, i: nat)
    requires Check(c, doc, hooks).Ok?
    ensures c.parameters.Some? && i < |c.parameters.value| && c.parameters.value[i].0 == "" ==>
      Location(Where, ParameterNameMandatory) in Check(c, doc, hooks).value.errors
    ensures c.successActions.Some? && i < |c.successActions.value| && c.successActions.value[i].0 == "" ==>
      Location(Where, SuccessActionNameMandatory) in Check(c, doc, hooks).value.errors
    ensures c.failureActions.Some? && i < |c.failureActions.value| && c.failureActions.value[i].0 == "" ==>
      Location(Where, FailureActionNameMandatory) in Check(c, doc, hooks).value.errors
  {
    var parameters := Walk(Empty, c.parameters, ParameterNameMandatory, ParameterCheck(doc, hooks)).value;
    var successes := Walk(parameters, c.successActions, SuccessActionNameMandatory, SuccessActionCheck(doc, hooks)).value;
    var failures := Walk(successes, c.failureActions, FailureActionNameMandatory, FailureActionCheck(doc, hooks)).value;
    var done := Check(c, doc, hooks).value;
    if c.successActions.Some? {
      EntriesKeep(parameters, c.successActions.value, SuccessActionNameMandatory, SuccessActionCheck(doc, hooks));
    }
    if c.failureActions.Some? {
      EntriesKeep(successes, c.failureActions.value, FailureActionNameMandatory, FailureActionCheck(doc, hooks));
    }
    ExtendsTrans(parameters, successes, failures);
    ExtendsTrans(parameters, failures, done);
    ExtendsTrans(successes, failures, done);
    if c.parameters.Some? && i < |c.parameters.value| && c.parameters.value[i].0 == "" {
      EntriesReportEmptyName(Empty, c.parameters.value, ParameterNameMandatory, ParameterCheck(doc, hooks), i);
      ExtendsKeeps(parameters, done, Location(Where, ParameterNameMandatory));
    }
    if c.successActions.Some? && i < |c.successActions.value| && c.successActions.value[i].0 == "" {
      EntriesReportEmptyName(parameters, c.successActions.value, SuccessActionNameMandatory, SuccessActionCheck(doc, hooks), i);
      ExtendsKeeps(successes, done, Location(Where, SuccessActionNameMandatory));
    }
    if c.failureActions.Some? && i < |c.failureActions.value| && c.failureActions.value[i].0 == "" {
      EntriesReportEmptyName(successes, c.failureActions.value, FailureActionNameMandatory, FailureActionCheck(doc, hooks), i);
      ExtendsKeeps(failures, done, Location(Where, FailureActionNameMandatory));
    }
  }
}
