/** ValidatorRegistry: the list of validators, looked up by the class of the
  * part to validate, and the validation of a whole document — its version,
  * its info, every source description and workflow, its components and its
  * extensions — into one result that carries the document. */
module ValidatorRegistries {
  import opened Wrappers
  import opened Strings
  import opened Model
  import opened ValidationResults
  import opened Validator
  import InfoValidator
  import SourceDescriptionValidator
  import ComponentsValidator

  const Where := "arazzoSpec"

  const ArazzoMandatory := "arazzo is mandatory"
  const ArazzoNotSemantic := "arazzo does not adhere to semantic versioning"

  /** The classes of the model a validator's `supports` is asked about. */
  datatype PartClass =
    | InfoClass | SourceDescriptionClass | WorkflowClass | StepClass | ParameterClass
    | SuccessActionClass | FailureActionClass | CriterionClass | ExpressionTypeClass
    | RequestBodyClass | PayloadReplacementClass | ReusableObjectClass | ComponentsClass
    | CriterionValidatorClass

  /** The parts of a document validate hands to validateObject. */
  datatype Part =
    | InfoPart(info: Info)
    | SourceDescriptionPart(sd: SourceDescription)
    | WorkflowPart(workflow: Workflow)
    | ComponentsPart(components: Components)

  function ClassOf(part: Part): PartClass {
    match part
      case InfoPart(_) => InfoClass
      case SourceDescriptionPart(_) => SourceDescriptionClass
      case WorkflowPart(_) => WorkflowClass
      case ComponentsPart(_) => ComponentsClass
  }

  /** `"%s".formatted(part.getClass())`. */
  function ClassName(part: Part): string {
    match part
      case InfoPart(_) => "class de.leidenheit.core.model.Info"
      case SourceDescriptionPart(_) => "class de.leidenheit.core.model.SourceDescription"
      case WorkflowPart(_) => "class de.leidenheit.core.model.Workflow"
      case ComponentsPart(_) => "class de.leidenheit.core.model.Components"
  }

  function NoValidatorFound(part: Part): string {
    "No validator found for class: " + ClassName(part)
  }

  // ----- the validators ------------------------------------------------------------

  datatype BuiltinValidator =
    | InfoValidatorKind | SourceDescriptionValidatorKind | WorkflowValidatorKind | StepValidatorKind
    | ParameterValidatorKind | SuccessActionValidatorKind | FailureActionValidatorKind
    | CriterionValidatorKind | ExpressionTypeValidatorKind | RequestBodyValidatorKind
    | PayloadReplacementValidatorKind | ReusableObjectValidatorKind | ComponentsValidatorKind

  /** The class each built-in validator supports. */
  function SupportedClass(k: BuiltinValidator): PartClass {
    match k
      case InfoValidatorKind => InfoClass
      case SourceDescriptionValidatorKind => SourceDescriptionClass
      case WorkflowValidatorKind => WorkflowClass
      case StepValidatorKind => StepClass
      case ParameterValidatorKind => ParameterClass
      case SuccessActionValidatorKind => SuccessActionClass
      case FailureActionValidatorKind => FailureActionClass
      case CriterionValidatorKind => CriterionClass
      case ExpressionTypeValidatorKind => ExpressionTypeClass
      case RequestBodyValidatorKind => RequestBodyClass
      case PayloadReplacementValidatorKind => PayloadReplacementClass
      case ReusableObjectValidatorKind => ReusableObjectClass
      case ComponentsValidatorKind => ComponentsClass
  }

  /** As written, CriterionValidator.supports names its own class. */
  function SupportedClassAsWritten(k: BuiltinValidator): PartClass {
    if k == CriterionValidatorKind then CriterionValidatorClass else SupportedClass(k)
  }

  /** As written, no built-in validator supports a Criterion. */
  lemma AsWrittenNoCriterionValidator(k: BuiltinValidator)
    ensures SupportedClassAsWritten(k) != CriterionClass
  {
  }

  /** Corrected, every class of the model except the validator's own has
    * exactly one built-in validator. */
  lemma OneBuiltinPerClass(c: PartClass)
    ensures c != CriterionValidatorClass ==> exists k :: SupportedClass(k) == c
    ensures forall k, k' :: SupportedClass(k) == c && SupportedClass(k') == c ==> k == k'
  {
    match c
      case InfoClass => assert SupportedClass(InfoValidatorKind) == c;
      case SourceDescriptionClass => assert SupportedClass(SourceDescriptionValidatorKind) == c;
      case WorkflowClass => assert SupportedClass(WorkflowValidatorKind) == c;
      case StepClass => assert SupportedClass(StepValidatorKind) == c;
      case ParameterClass => assert SupportedClass(ParameterValidatorKind) == c;
      case SuccessActionClass => assert SupportedClass(SuccessActionValidatorKind) == c;
      case FailureActionClass => assert SupportedClass(FailureActionValidatorKind) == c;
      case CriterionClass => assert SupportedClass(CriterionValidatorKind) == c;
      case ExpressionTypeClass => assert SupportedClass(ExpressionTypeValidatorKind) == c;
      case RequestBodyClass => assert SupportedClass(RequestBodyValidatorKind) == c;
      case PayloadReplacementClass => assert SupportedClass(PayloadReplacementValidatorKind) == c;
      case ReusableObjectClass => assert SupportedClass(ReusableObjectValidatorKind) == c;
      case ComponentsClass => assert SupportedClass(ComponentsValidatorKind) == c;
      case CriterionValidatorClass =>
  }

  /** A registered validator: a built-in one, or one handed to register,
    * known by the classes it supports and by a name under which `Custom`
    * says what it makes of a part. */
  datatype Registered =
    | Builtin(kind: BuiltinValidator)
    | Custom(classes: set<PartClass>, name: string)

  /** What the validators handed to register make of a part. */
  type CustomValidate = (string, Part, Document) -> Result<Report>

  predicate Supports(v: Registered, c: PartClass) {
    match v
      case Builtin(k) => SupportedClass(k) == c
      case Custom(classes, _) => c in classes
  }

  /** The default validators, in the order of the registry's list. */
  function DefaultKind(i: int): BuiltinValidator {
    if i == 0 then InfoValidatorKind
    else if i == 1 then SourceDescriptionValidatorKind
    else if i == 2 then WorkflowValidatorKind
    else if i == 3 then StepValidatorKind
    else if i == 4 then ParameterValidatorKind
    else if i == 5 then SuccessActionValidatorKind
    else if i == 6 then FailureActionValidatorKind
    else if i == 7 then CriterionValidatorKind
    else if i == 8 then ExpressionTypeValidatorKind
    else if i == 9 then RequestBodyValidatorKind
    else if i == 10 then PayloadReplacementValidatorKind
    else if i == 11 then ReusableObjectValidatorKind
    else ComponentsValidatorKind
  }

  function Defaults(): (r: seq<Registered>)
    ensures |r| == 13 && forall i :: 0 <= i < 13 ==> r[i] == Builtin(DefaultKind(i))
  {
    seq(13, i => Builtin(DefaultKind(i)))
  }

  /** findValidatorForObject: the first validator that supports the class. */
  function FindValidator(vs: seq<Registered>, c: PartClass): (r: Option<Registered>)
    ensures r.None? <==> forall i :: 0 <= i < |vs| ==> !Supports(vs[i], c)
    ensures r.Some? ==> exists i :: (0 <= i < |vs| && vs[i] == r.value && Supports(vs[i], c)
                                    && forall j :: 0 <= j < i ==> !Supports(vs[j], c))
  {
    FindFrom(vs, c, 0)
  }

  function FindFrom(vs: seq<Registered>, c: PartClass, k: nat): (r: Option<Registered>)
    requires k <= |vs|
    ensures r.None? <==> forall i :: k <= i < |vs| ==> !Supports(vs[i], c)
    ensures r.Some? ==> exists i :: (k <= i < |vs| && vs[i] == r.value && Supports(vs[i], c)
                          && forall j :: k <= j < i ==> !Supports(vs[j], c))
    decreases |vs| - k
  {
    if k == |vs| then None
    else if Supports(vs[k], c) then Some(vs[k])
    else FindFrom(vs, c, k + 1)
  }

  /** Validators added after a list that already supports the class are
    * never consulted for it. */
  lemma {:induction false} FindInPrefix(a: seq<Registered>, b: seq<Registered>, c: PartClass, k: nat)
    requires k <= |a| && FindFrom(a, c, k).Some?
    ensures FindFrom(a + b, c, k) == FindFrom(a, c, k)
    decreases |a| - k
  {
    assert (a + b)[k] == a[k];
    if !Supports(a[k], c) {
      FindInPrefix(a, b, c, k + 1);
    }
  }

  /** The built-in validator of a part's class. */
  function BuiltinFor(part: Part): BuiltinValidator {
    match part
      case InfoPart(_) => InfoValidatorKind
      case SourceDescriptionPart(_) => SourceDescriptionValidatorKind
      case WorkflowPart(_) => WorkflowValidatorKind
      case ComponentsPart(_) => ComponentsValidatorKind
  }

  /** A validator that does not support the class is passed over. */
  lemma PassOver(vs: seq<Registered>, c: PartClass, k: nat)
    requires k < |vs| && !Supports(vs[k], c)
    ensures FindFrom(vs, c, k) == FindFrom(vs, c, k + 1)
  {
  }

  /** The default list finds the built-in validator of every part. */
  lemma DefaultsFind(part: Part)
    ensures FindValidator(Defaults(), ClassOf(part)) == Some(Builtin(BuiltinFor(part)))
  {
    var c := ClassOf(part);
    var d := Defaults();
    match part
      case InfoPart(_) =>
      case SourceDescriptionPart(_) =>
        PassOver(d, c, 0);
      case WorkflowPart(_) =>
        PassOver(d, c, 0);
        PassOver(d, c, 1);
      case ComponentsPart(_) =>
        ComponentsFound(0);
  }

  /** Only the last default validator supports the components. */
  lemma {:induction false} ComponentsFound(k: nat)
    requires k <= 12
    ensures FindFrom(Defaults(), ComponentsClass, k) == Some(Builtin(ComponentsValidatorKind))
    decreases 12 - k
  {
    var d := Defaults();
    if k < 12 {
      assert d[k] == Builtin(DefaultKind(k));
      assert SupportedClass(DefaultKind(k)) != ComponentsClass;
      PassOver(d, ComponentsClass, k);
      ComponentsFound(k + 1);
    } else {
      assert d[12] == Builtin(ComponentsValidatorKind);
    }
  }

  /** validate of the built-in validator that supports the part. */
  function BuiltinCheck(part: Part, doc: Document, hooks: Hooks): Result<Report> {
    match part
      case InfoPart(info) => Ok(InfoValidator.Check(info, doc, hooks))
      case SourceDescriptionPart(sd) => Ok(SourceDescriptionValidator.Check(sd, doc, hooks))
      case WorkflowPart(w) => hooks.workflow(w, doc)
      case ComponentsPart(c) => ComponentsValidator.Check(c, doc, hooks)
  }

  /** validateObject, with no context. */
  function ObjectCheck(vs: seq<Registered>, part: Part, doc: Document, hooks: Hooks, custom: CustomValidate): Result<Report> {
    match FindValidator(vs, ClassOf(part))
      case None => Err(IllegalState(NoValidatorFound(part)))
      case Some(Builtin(_)) => BuiltinCheck(part, doc, hooks)
      case Some(Custom(_, name)) => custom(name, part, doc)
  }

  /** A list that starts with the defaults: the registry's own. */
  ghost predicate StartsWithDefaults(vs: seq<Registered>) {
    |vs| >= |Defaults()| && vs[..|Defaults()|] == Defaults()
  }

  /** Whatever was registered, the parts of a document go to the built-in
    * validators, and no part is left without one. */
  lemma BuiltinsKeepPrecedence(vs: seq<Registered>, part: Part, doc: Document, hooks: Hooks, custom: CustomValidate)
    requires StartsWithDefaults(vs)
    ensures FindValidator(vs, ClassOf(part)) == Some(Builtin(BuiltinFor(part)))
    ensures ObjectCheck(vs, part, doc, hooks, custom) == BuiltinCheck(part, doc, hooks)
  {
    DefaultsFind(part);
    assert vs == Defaults() + vs[|Defaults()|..];
    FindInPrefix(Defaults(), vs[|Defaults()|..], ClassOf(part), 0);
  }

  /** A list without a validator for the part's class throws. */
  lemma NoValidatorThrows(vs: seq<Registered>, part: Part, doc: Document, hooks: Hooks, custom: CustomValidate)
    requires forall i :: 0 <= i < |vs| ==> !Supports(vs[i], ClassOf(part))
    ensures ObjectCheck(vs, part, doc, hooks, custom) == Err(IllegalState(NoValidatorFound(part)))
  {
  }

  // ----- the sections of validate ----------------------------------------------

  /** The document's `arazzo` version. */
  function Versioned(doc: Document): Report {
    if IsEmpty(doc.arazzo) then Empty.AddError(Where, ArazzoMandatory)
    else if !InfoValidator.IsSemanticVersion(doc.arazzo.value) then Empty.AddWarning(Where, ArazzoNotSemantic)
    else Empty
  }

  /** The info; a document without one is a NullPointerException. */
  function InfoChecked(r: Report, vs: seq<Registered>, doc: Document, hooks: Hooks, custom: CustomValidate): (res: Result<Report>)
    ensures res.Ok? ==> Extends(r, res.value)
  {
    if doc.info.None? then Err(NullReference("info"))
    else
      var info :- ObjectCheck(vs, InfoPart(doc.info.value), doc, hooks, custom);
      OperationsExtend(r, "", "", "", info);
      Ok(r.Merge(info))
  }

  function SourceDescriptionCheck(vs: seq<Registered>, doc: Document, hooks: Hooks, custom: CustomValidate): SourceDescription -> Result<Report> {
    sd => ObjectCheck(vs, SourceDescriptionPart(sd), doc, hooks, custom)
  }

  function WorkflowCheck(vs: seq<Registered>, doc: Document, hooks: Hooks, custom: CustomValidate): Workflow -> Result<Report> {
    w => ObjectCheck(vs, WorkflowPart(w), doc, hooks, custom)
  }

  function ComponentsChecked(r: Report, vs: seq<Registered>, doc: Document, hooks: Hooks, custom: CustomValidate): (res: Result<Report>)
    ensures res.Ok? ==> Extends(r, res.value)
  {
    if doc.components.None? then Ok(r)
    else
      var components :- ObjectCheck(vs, ComponentsPart(doc.components.value), doc, hooks, custom);
      OperationsExtend(r, "", "", "", components);
      Ok(r.Merge(components))
  }

  /** The source descriptions, the workflows, the components and the
    * extensions. */
  function Parts(r: Report, vs: seq<Registered>, doc: Document, hooks: Hooks, custom: CustomValidate): (res: Result<Report>)
    ensures res.Ok? ==> Extends(r, res.value)
  {
    var sds :- MergeEach(r, doc.sourceDescriptions, SourceDescriptionCheck(vs, doc, hooks, custom));
    var wfs :- MergeEach(sds, doc.workflows, WorkflowCheck(vs, doc, hooks, custom));
    var comps :- ComponentsChecked(wfs, vs, doc, hooks, custom);
    MergeEachKeeps(r, doc.sourceDescriptions, SourceDescriptionCheck(vs, doc, hooks, custom));
    MergeEachKeeps(sds, doc.workflows, WorkflowCheck(vs, doc, hooks, custom));
    ExtendsTrans(r, sds, wfs);
    ExtendsTrans(r, wfs, comps);
    ExtendsTrans(r, comps, WithExtensions(comps, doc.extensions, doc, hooks));
    Ok(WithExtensions(comps, doc.extensions, doc, hooks))
  }

  /** ValidatorRegistry.validate: the entries it finds (the document it
    * attaches is stated by the method). */
  function Check(vs: seq<Registered>, doc: Document, hooks: Hooks, custom: CustomValidate): Result<Report> {
    var info :- InfoChecked(Versioned(doc), vs, doc, hooks, custom);
    Parts(info, vs, doc, hooks, custom)
  }

  // ----- the registry ---------------------------------------------------------------

  class ValidatorRegistry {
    var validators: seq<Registered>

    /** The registry only ever adds to the defaults. */
    ghost predicate Valid()
      reads this
    {
      StartsWithDefaults(validators)
    }

    constructor ()
      ensures validators == Defaults() && Valid()
    {
      validators := Defaults();
    }

    /** register appends, so the validators already there keep precedence. */
    method Register(v: Registered)
      modifies this
      ensures validators == old(validators) + [v]
      ensures old(Valid()) ==> Valid()
    {
      validators := validators + [v];
    }

    method FindValidatorForObject(c: PartClass) returns (found: Option<Registered>)
      ensures found == FindValidator(validators, c)
    {
      var vs := validators;
      for i := 0 to |vs|
        invariant FindValidator(vs, c) == FindFrom(vs, c, i)
      {
        if Supports(vs[i], c) {
          return Some(vs[i]);
        }
        PassOver(vs, c, i);
      }
      return None;
    }

    method ValidateObject(part: Part, doc: Document, hooks: Hooks, custom: CustomValidate) returns (r: Result<ValidationResult>)
      ensures Outcome(r, ObjectCheck(validators, part, doc, hooks, custom)) && (r.Ok? ==> fresh(r.value))
    {
      var validator := FindValidatorForObject(ClassOf(part));
      if validator.None? {
        return Err(IllegalState(NoValidatorFound(part)));
      }
      if validator.value.Custom? {
        var report := custom(validator.value.name, part, doc);
        if report.Err? {
          return Err(report.error);
        }
        var result := new ValidationResult.Of(report.value);
        return Ok(result);
      }
      if part.InfoPart? {
        var result := InfoValidator.Validate(part.info, doc, hooks);
        return Ok(result);
      } else if part.SourceDescriptionPart? {
        var result := SourceDescriptionValidator.Validate(part.sd, doc, hooks);
        return Ok(result);
      } else if part.WorkflowPart? {
        var report := hooks.workflow(part.workflow, doc);
        if report.Err? {
          return Err(report.error);
        }
        var result := new ValidationResult.Of(report.value);
        return Ok(result);
      } else {
        r := ComponentsValidator.Validate(part.components, doc, hooks);
      }
    }

    method Validate(doc: Document, hooks: Hooks, custom: CustomValidate) returns (r: Result<ValidationResult>)
      ensures Outcome(r, Check(validators, doc, hooks, custom))
      ensures r.Ok? ==> fresh(r.value) && r.value.arazzo == Some(doc)
    {
      var result := new ValidationResult();
      if IsEmpty(doc.arazzo) {
        result.AddError(Where, ArazzoMandatory);
      } else if !InfoValidator.IsSemanticVersion(doc.arazzo.value) {
        result.AddWarning(Where, ArazzoNotSemantic);
      }
      if doc.info.None? {
        return Err(NullReference("info"));
      }
      var info := ValidateObject(InfoPart(doc.info.value), doc, hooks, custom);
      if info.Err? {
        return Err(info.error);
      }
      result.Merge(info.value);
      var thrown := ValidateParts(result, doc, hooks, custom);
      if thrown.Some? {
        return Err(thrown.value);
      }
      result.SetArazzo(doc);
      return Ok(result);
    }

    method ValidateParts(result: ValidationResult, doc: Document, hooks: Hooks, custom: CustomValidate) returns (thrown: Option<Failure>)
      modifies result
      ensures Parts(old(result.Contents()), validators, doc, hooks, custom) == if thrown.Some? then Err(thrown.value) else Ok(result.Contents())
    {
      thrown := ValidateSourceDescriptions(result, doc, hooks, custom);
      if thrown.Some? {
        return;
      }
      thrown := ValidateWorkflows(result, doc, hooks, custom);
      if thrown.Some? {
        return;
      }
      if doc.components.Some? {
        var components := ValidateObject(ComponentsPart(doc.components.value), doc, hooks, custom);
        if components.Err? {
          return Some(components.error);
        }
        result.Merge(components.value);
      }
      if |doc.extensions| > 0 {
        var extensions := new ValidationResult.Of(hooks.extensions(doc.extensions, doc));
        result.Merge(extensions);
      }
    }

    method ValidateSourceDescriptions(result: ValidationResult, doc: Document, hooks: Hooks, custom: CustomValidate) returns (thrown: Option<Failure>)
      modifies result
      ensures MergeEach(old(result.Contents()), doc.sourceDescriptions, SourceDescriptionCheck(validators, doc, hooks, custom))
           == if thrown.Some? then Err(thrown.value) else Ok(result.Contents())
    {
      var sds := doc.sourceDescriptions;
      ghost var start := result.Contents();
      for i := 0 to |sds|
        invariant MergeEach(start, sds[..i], SourceDescriptionCheck(validators, doc, hooks, custom)) == Ok(result.Contents())
      {
        MergeEachStep(start, sds, SourceDescriptionCheck(validators, doc, hooks, custom), i);
        var sub := ValidateObject(SourceDescriptionPart(sds[i]), doc, hooks, custom);
        if sub.Err? {
          MergeEachStops(start, sds, SourceDescriptionCheck(validators, doc, hooks, custom), i + 1);
          return Some(sub.error);
        }
        result.Merge(sub.value);
      }
      assert sds[..|sds|] == sds;
      return None;
    }

    method ValidateWorkflows(result: ValidationResult, doc: Document, hooks: Hooks, custom: CustomValidate) returns (thrown: Option<Failure>)
      modifies result
      ensures MergeEach(old(result.Contents()), doc.workflows, WorkflowCheck(validators, doc, hooks, custom))
           == if thrown.Some? then Err(thrown.value) else Ok(result.Contents())
    {
      var workflows := doc.workflows;
      ghost var start := result.Contents();
      for i := 0 to |workflows|
        invariant MergeEach(start, workflows[..i], WorkflowCheck(validators, doc, hooks, custom)) == Ok(result.Contents())
      {
        MergeEachStep(start, workflows, WorkflowCheck(validators, doc, hooks, custom), i);
        var sub := ValidateObject(WorkflowPart(workflows[i]), doc, hooks, custom);
        if sub.Err? {
          MergeEachStops(start, workflows, WorkflowCheck(validators, doc, hooks, custom), i + 1);
          return Some(sub.error);
        }
        result.Merge(sub.value);
      }
      assert workflows[..|workflows|] == workflows;
      return None;
    }
  }

  // ----- what validate promises ----------------------------------------------------

  /** An empty version is an error; one that is not three numbers
    * `major.minor.patch` is only a warning. */
  lemma VersionRules(vs: seq<Registered>, doc: Document, hooks: Hooks, custom: CustomValidate)
    requires Check(vs, doc, hooks, custom).Ok?
    ensures IsEmpty(doc.arazzo) ==> Location(Where, ArazzoMandatory) in Check(vs, doc, hooks, custom).value.errors
    ensures !IsEmpty(doc.arazzo) && !(exists a: nat, b: nat, c: nat :: doc.arazzo.value == InfoValidator.Version(a, b, c)) ==>
      Location(Where, ArazzoNotSemantic) in Check(vs, doc, hooks, custom).value.warnings
    ensures !IsEmpty(doc.arazzo) ==> !Versioned(doc).invalid
  {
    var versioned := Versioned(doc);
    var info := InfoChecked(versioned, vs, doc, hooks, custom).value;
    var done := Check(vs, doc, hooks, custom).value;
    ExtendsTrans(versioned, info, done);
    ExtendsKeeps(versioned, done, Location(Where, ArazzoMandatory));
    ExtendsKeeps(versioned, done, Location(Where, ArazzoNotSemantic));
    if !IsEmpty(doc.arazzo) {
      InfoValidator.SemanticVersionIff(doc.arazzo.value);
    }
  }

  /** A document without info throws before anything else is looked at. */
  lemma NoInfoThrows(vs: seq<Registered>, doc: Document, hooks: Hooks, custom: CustomValidate)
    requires doc.info.None?
    ensures Check(vs, doc, hooks, custom) == Err(NullReference("info"))
  {
  }

  /** The stages of validate, each extended by the next. */
  lemma Stages(vs: seq<Registered>, doc: Document, hooks: Hooks, custom: CustomValidate)
    requires Check(vs, doc, hooks, custom).Ok?
    ensures InfoChecked(Versioned(doc), vs, doc, hooks, custom).Ok?
    ensures var info := InfoChecked(Versioned(doc), vs, doc, hooks, custom).value;
            var sds := MergeEach(info, doc.sourceDescriptions, SourceDescriptionCheck(vs, doc, hooks, custom));
            sds.Ok? && Extends(info, sds.value)
            && var wfs := MergeEach(sds.value, doc.workflows, WorkflowCheck(vs, doc, hooks, custom));
               wfs.Ok? && Extends(wfs.value, Check(vs, doc, hooks, custom).value)
               && Extends(sds.value, Check(vs, doc, hooks, custom).value)
               && var comps := ComponentsChecked(wfs.value, vs, doc, hooks, custom);
                  comps.Ok? && Extends(comps.value, Check(vs, doc, hooks, custom).value)
  {
    var info := InfoChecked(Versioned(doc), vs, doc, hooks, custom).value;
    var sds := MergeEach(info, doc.sourceDescriptions, SourceDescriptionCheck(vs, doc, hooks, custom)).value;
    var wfs := MergeEach(sds, doc.workflows, WorkflowCheck(vs, doc, hooks, custom)).value;
    var comps := ComponentsChecked(wfs, vs, doc, hooks, custom).value;
    var done := Check(vs, doc, hooks, custom).value;
    MergeEachKeeps(info, doc.sourceDescriptions, SourceDescriptionCheck(vs, doc, hooks, custom));
    MergeEachKeeps(sds, doc.workflows, WorkflowCheck(vs, doc, hooks, custom));
    ExtendsTrans(wfs, comps, done);
    ExtendsTrans(sds, wfs, done);
  }

  /** With the registry's own list, every error the info reports reaches
    * the result. */
  lemma InfoVisited(vs: seq<Registered>, doc: Document, hooks: Hooks, custom: CustomValidate, x: Location)
    requires StartsWithDefaults(vs) && Check(vs, doc, hooks, custom).Ok? && doc.info.Some?
    ensures x in InfoValidator.Check(doc.info.value, doc, hooks).errors ==> x in Check(vs, doc, hooks, custom).value.errors
  {
    Stages(vs, doc, hooks, custom);
    var info := InfoChecked(Versioned(doc), vs, doc, hooks, custom).value;
    var sds := MergeEach(info, doc.sourceDescriptions, SourceDescriptionCheck(vs, doc, hooks, custom)).value;
    var done := Check(vs, doc, hooks, custom).value;
    BuiltinsKeepPrecedence(vs, InfoPart(doc.info.value), doc, hooks, custom);
    ExtendsTrans(info, sds, done);
    ExtendsKeeps(info, done, x);
  }

  /** … every error a source description reports … */
  lemma SourceDescriptionVisited(vs: seq<Registered>, doc: Document, hooks: Hooks, custom: CustomValidate, i: nat, x: Location)
    requires StartsWithDefaults(vs) && Check(vs, doc, hooks, custom).Ok? && i < |doc.sourceDescriptions|
    ensures x in SourceDescriptionValidator.Check(doc.sourceDescriptions[i], doc, hooks).errors ==>
      x in Check(vs, doc, hooks, custom).value.errors
  {
    Stages(vs, doc, hooks, custom);
    var info := InfoChecked(Versioned(doc), vs, doc, hooks, custom).value;
    var sds := MergeEach(info, doc.sourceDescriptions, SourceDescriptionCheck(vs, doc, hooks, custom)).value;
    var done := Check(vs, doc, hooks, custom).value;
    BuiltinsKeepPrecedence(vs, SourceDescriptionPart(doc.sourceDescriptions[i]), doc, hooks, custom);
    MergeEachIncludes(info, doc.sourceDescriptions, SourceDescriptionCheck(vs, doc, hooks, custom), i, x);
    ExtendsKeeps(sds, done, x);
  }

  /** … every error a workflow reports … */
  lemma WorkflowVisited(vs: seq<Registered>, doc: Document, hooks: Hooks, custom: CustomValidate, i: nat, x: Location)
    requires StartsWithDefaults(vs) && Check(vs, doc, hooks, custom).Ok? && i < |doc.workflows|
    ensures hooks.workflow(doc.workflows[i], doc).Ok?
    ensures x in hooks.workflow(doc.workflows[i], doc).value.errors ==> x in Check(vs, doc, hooks, custom).value.errors
  {
    Stages(vs, doc, hooks, custom);
    var info := InfoChecked(Versioned(doc), vs, doc, hooks, custom).value;
    var sds := MergeEach(info, doc.sourceDescriptions, SourceDescriptionCheck(vs, doc, hooks, custom)).value;
    var wfs := MergeEach(sds, doc.workflows, WorkflowCheck(vs, doc, hooks, custom)).value;
    var done := Check(vs, doc, hooks, custom).value;
    BuiltinsKeepPrecedence(vs, WorkflowPart(doc.workflows[i]), doc, hooks, custom);
    MergeEachIncludes(sds, doc.workflows, WorkflowCheck(vs, doc, hooks, custom), i, x);
    ExtendsKeeps(wfs, done, x);
  }

  /** … and every error the components report. */
  lemma ComponentsVisited(vs: seq<Registered>, doc: Document, hooks: Hooks, custom: CustomValidate, x: Location)
    requires StartsWithDefaults(vs) && Check(vs, doc, hooks, custom).Ok? && doc.components.Some?
    ensures ComponentsValidator.Check(doc.components.value, doc, hooks).Ok?
    ensures x in ComponentsValidator.Check(doc.components.value, doc, hooks).value.errors ==>
      x in Check(vs, doc, hooks, custom).value.errors
  {
    Stages(vs, doc, hooks, custom);
    var info := InfoChecked(Versioned(doc), vs, doc, hooks, custom).value;
    var sds := MergeEach(info, doc.sourceDescriptions, SourceDescriptionCheck(vs, doc, hooks, custom)).value;
    var wfs := MergeEach(sds, doc.workflows, WorkflowCheck(vs, doc, hooks, custom)).value;
    var comps := ComponentsChecked(wfs, vs, doc, hooks, custom).value;
    var done := Check(vs, doc, hooks, custom).value;
    BuiltinsKeepPrecedence(vs, ComponentsPart(doc.components.value), doc, hooks, custom);
    OperationsExtend(wfs, "", "", "", ComponentsValidator.Check(doc.components.value, doc, hooks).value);
    ExtendsKeeps(comps, done, x);
  }
}
