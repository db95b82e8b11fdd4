/** RequestBodyValidator: a request body needs a payload; a missing content
  * type is only a warning; every replacement is validated and merged. */
module RequestBodyValidator {
  import opened Wrappers
  import opened Strings
  import opened Model
  import opened ValidationResults
  import opened Validator
  import PayloadReplacementValidator

  const Where := "requestBody"

  const ContentTypeUndefined := "contentType: is not defined"
  const PayloadMandatory := "payload: is mandatory"

  /** The payload replacement validator, as a function of one replacement. */
  function ReplacementCheck(doc: Document, hooks: Hooks): PayloadReplacement -> Report {
    p => PayloadReplacementValidator.Check(p, doc, hooks)
  }

  /** The content type (only a warning) and the payload (mandatory). */
  function Loaded(body: RequestBody): Report {
    var typed := if IsEmpty(body.contentType) then Empty.AddWarning(Where, ContentTypeUndefined) else Empty;
    if body.payload.None? then typed.AddError(Where, PayloadMandatory) else typed
  }

  /** RequestBodyValidator.validate. */
  function Check(body: RequestBody, doc: Document, hooks: Hooks): Report {
    var replaced :=
      if body.replacements.Some? then MergeAll(Loaded(body), body.replacements.value, ReplacementCheck(doc, hooks))
      else Loaded(body);
    WithExtensions(replaced, body.extensions, doc, hooks)
  }

  method Validate(body: RequestBody, doc: Document, hooks: Hooks) returns (result: ValidationResult)
    ensures fresh(result) && result.Contents() == Check(body, doc, hooks)
  {
    result := new ValidationResult();
    if IsEmpty(body.contentType) {
      result.AddWarning(Where, ContentTypeUndefined);
    }
    if body.payload.None? {
      result.AddError(Where, PayloadMandatory);
    }
    if body.replacements.Some? {
      ValidateReplacements(result, body.replacements.value, doc, hooks);
    }
    if |body.extensions| > 0 {
      var extensions := new ValidationResult.Of(hooks.extensions(body.extensions, doc));
      result.Merge(extensions);
    }
  }

  /** `replacements.forEach(r -> result.merge(validator.validate(r, …)))`. */
  method ValidateReplacements(result: ValidationResult, replacements: seq<PayloadReplacement>, doc: Document, hooks: Hooks)
    modifies result
    ensures result.Contents() == MergeAll(old(result.Contents()), replacements, ReplacementCheck(doc, hooks))
  {
    ghost var start := result.Contents();
    var i := 0;
    while i < |replacements|
      invariant 0 <= i <= |replacements|
      invariant result.Contents() == MergeAll(start, replacements[..i], ReplacementCheck(doc, hooks))
    {
      var sub := PayloadReplacementValidator.Validate(replacements[i], doc, hooks);
      MergeAllStep(start, replacements, ReplacementCheck(doc, hooks), i);
      result.Merge(sub);
      i := i + 1;
    }
    assert replacements[..i] == replacements;
  }

  /** A missing payload is an error; a missing content type alone is only a
    * warning; an invalid replacement makes the body invalid. */
  lemma RequestBodyRules(body: RequestBody, doc: Document, hooks: Hooks, i: nat)
    ensures body.payload.None? ==> Location(Where, PayloadMandatory) in Check(body, doc, hooks).errors
    ensures IsEmpty(body.contentType) ==> Location(Where, ContentTypeUndefined) in Check(body, doc, hooks).warnings
    ensures (body.replacements.Some? && i < |body.replacements.value|
             && PayloadReplacementValidator.Check(body.replacements.value[i], doc, hooks).invalid)
            ==> Check(body, doc, hooks).invalid
  {
    var loaded := Loaded(body);
    var checked := Check(body, doc, hooks);
    var replaced := loaded;
    if body.replacements.Some? {
      replaced := MergeAll(loaded, body.replacements.value, ReplacementCheck(doc, hooks));
      MergeAllInvalid(loaded, body.replacements.value, ReplacementCheck(doc, hooks), i);
      MergeAllKeeps(loaded, body.replacements.value, ReplacementCheck(doc, hooks));
    }
    ExtendsTrans(loaded, replaced, checked);
    ExtendsKeeps(loaded, checked, Location(Where, PayloadMandatory));
    ExtendsKeeps(loaded, checked, Location(Where, ContentTypeUndefined));
  }

  /** With a payload, a content type, clean replacements and no extensions
    * the body has no entries; without a content type it has the one warning
    * and is still valid. */
  lemma CleanBody(body: RequestBody, doc: Document, hooks: Hooks)
    requires body.payload.Some? && |body.extensions| == 0
    requires body.replacements.Some? ==> forall p :: p in body.replacements.value ==>
      !IsEmpty(p.target) && p.value.Some? && |p.extensions| == 0
    ensures !Check(body, doc, hooks).invalid
    ensures Check(body, doc, hooks).errors == []
    ensures !IsEmpty(body.contentType) ==> Check(body, doc, hooks) == Empty
  {
    if body.replacements.Some? {
      MergeAllClean(Loaded(body), body.replacements.value, doc, hooks);
    }
  }

  lemma {:induction false} MergeAllClean(acc: Report, ps: seq<PayloadReplacement>, doc: Document, hooks: Hooks)
    requires forall p :: p in ps ==> !IsEmpty(p.target) && p.value.Some? && |p.extensions| == 0
    ensures MergeAll(acc, ps, ReplacementCheck(doc, hooks)) == acc
    decreases |ps|
  {
    if |ps| > 0 {
      var init := ps[..|ps| - 1];
      assert forall p :: p in init ==> p in ps;
      MergeAllClean(acc, init, doc, hooks);
      assert ps[|ps| - 1] in ps;
      MergeEmpty(acc);
    }
  }
}
