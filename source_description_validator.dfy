/** SourceDescriptionValidator: a source description needs a name (ideally
  * in `[A-Za-z0-9_-]+`), a url that passes the validity check, and the
  * referenced document its type announces. */
module SourceDescriptionValidator {
  import opened Wrappers
  import opened Strings
  import opened Model
  import opened ValidationResults
  import opened Validator

  const Where := "sourceDescription"

  // ----- the messages it records ---------------------------------------------

  const NameMandatory := "name: is mandatory"
  const UrlMandatory := "url: is mandatory"

  function NameFormat(name: string): string {
    "name: does not comply to [A-Za-z0-9_\\-]+: " + name
  }

  function UrlInvalid(url: string): string {
    "url: '" + url + "' must be available and valid URI reference as per RFC3986"
  }

  function OasMissing(name: Option<string>): string {
    "expecting source description '" + Shown(name) + "' referenced OAS to be set but was not"
  }

  function ArazzoMissing(name: Option<string>): string {
    "expecting source description '" + Shown(name) + "' referenced Arazzo to be set but was not"
  }

  /** The name: mandatory, and only a warning when it uses other characters. */
  function Named(sd: SourceDescription): Report {
    if IsEmpty(sd.name) then Empty.AddError(Where, NameMandatory)
    else if !IsRecommendedName(sd.name.value) then Empty.AddWarning(Where, NameFormat(sd.name.value))
    else Empty
  }

  /** The url: mandatory, and it must pass the file-or-URL check. */
  function Located(named: Report, sd: SourceDescription, hooks: Hooks): (r: Report)
    ensures Extends(named, r)
  {
    if !IsEmpty(sd.url) then
      if !hooks.fileOrUrlValid(sd.url.value) then named.AddError(Where, UrlInvalid(sd.url.value))
      else named
    else named.AddError(Where, UrlMandatory)
  }

  /** The document the type announces must have been loaded. */
  function Referenced(located: Report, sd: SourceDescription): (r: Report)
    ensures Extends(located, r)
  {
    match sd.stype
      case Some(OpenApiSource) =>
        if sd.referencedOpenApi.None? then located.AddError("", OasMissing(sd.name)) else located
      case Some(ArazzoSource) =>
        if sd.referencedArazzo.None? then located.AddError("", ArazzoMissing(sd.name)) else located
      case None => located
  }

  /** SourceDescriptionValidator.validate. */
  function Check(sd: SourceDescription, doc: Document, hooks: Hooks): Report {
    WithExtensions(Referenced(Located(Named(sd), sd, hooks), sd), sd.extensions, doc, hooks)
  }

  method Validate(sd: SourceDescription, doc: Document, hooks: Hooks) returns (result: ValidationResult)
    ensures fresh(result) && result.Contents() == Check(sd, doc, hooks)
  {
    result := new ValidationResult();
    if IsEmpty(sd.name) {
      result.AddError(Where, NameMandatory);
    } else if !IsRecommendedName(sd.name.value) {
      result.AddWarning(Where, NameFormat(sd.name.value));
    }
    ValidateUrl(result, sd, hooks);
    ValidateReference(result, sd);
    if |sd.extensions| > 0 {
      var extensions := new ValidationResult.Of(hooks.extensions(sd.extensions, doc));
      result.Merge(extensions);
    }
  }

  method ValidateUrl(result: ValidationResult, sd: SourceDescription, hooks: Hooks)
    modifies result
    ensures result.Contents() == Located(old(result.Contents()), sd, hooks)
  {
    if !IsEmpty(sd.url) {
      var validUrl := hooks.fileOrUrlValid(sd.url.value);
      if !validUrl {
        result.AddError(Where, UrlInvalid(sd.url.value));
      }
    } else {
      result.AddError(Where, UrlMandatory);
    }
  }

  method ValidateReference(result: ValidationResult, sd: SourceDescription)
    modifies result
    ensures result.Contents() == Referenced(old(result.Contents()), sd)
  {
    if sd.stype == Some(OpenApiSource) {
      if sd.referencedOpenApi.None? {
        result.AddError("", OasMissing(sd.name));
      }
    } else if sd.stype == Some(ArazzoSource) {
      if sd.referencedArazzo.None? {
        result.AddError("", ArazzoMissing(sd.name));
      }
    }
  }

  /** An empty name is an error; a name outside the recommended characters
    * is only a warning. */
  lemma NameRules(sd: SourceDescription, doc: Document, hooks: Hooks)
    ensures IsEmpty(sd.name) ==> Location(Where, NameMandatory) in Check(sd, doc, hooks).errors
    ensures (!IsEmpty(sd.name) && !IsRecommendedName(sd.name.value)) ==>
      Location(Where, NameFormat(sd.name.value)) in Check(sd, doc, hooks).warnings
    ensures !IsEmpty(sd.name) ==> !Named(sd).invalid
  {
    var named := Named(sd);
    var located := Located(named, sd, hooks);
    var referenced := Referenced(located, sd);
    var checked := Check(sd, doc, hooks);
    ExtendsTrans(named, located, referenced);
    ExtendsTrans(named, referenced, checked);
    ExtendsKeeps(named, checked, Location(Where, NameMandatory));
    if !IsEmpty(sd.name) {
      ExtendsKeeps(named, checked, Location(Where, NameFormat(sd.name.value)));
    }
  }

  /** An empty url, or one the check rejects, is an error. */
  lemma UrlRules(sd: SourceDescription, doc: Document, hooks: Hooks)
    ensures IsEmpty(sd.url) ==> Location(Where, UrlMandatory) in Check(sd, doc, hooks).errors
    ensures (!IsEmpty(sd.url) && !hooks.fileOrUrlValid(sd.url.value)) ==>
      Location(Where, UrlInvalid(sd.url.value)) in Check(sd, doc, hooks).errors
  {
    var located := Located(Named(sd), sd, hooks);
    var referenced := Referenced(located, sd);
    var checked := Check(sd, doc, hooks);
    ExtendsTrans(located, referenced, checked);
    ExtendsKeeps(located, checked, Location(Where, UrlMandatory));
    if !IsEmpty(sd.url) {
      ExtendsKeeps(located, checked, Location(Where, UrlInvalid(sd.url.value)));
    }
  }

  /** A type whose referenced document is missing is an error. */
  lemma ReferenceRules(sd: SourceDescription, doc: Document, hooks: Hooks)
    ensures (sd.stype == Some(OpenApiSource) && sd.referencedOpenApi.None?) ==>
      Location("", OasMissing(sd.name)) in Check(sd, doc, hooks).errors
    ensures (sd.stype == Some(ArazzoSource) && sd.referencedArazzo.None?) ==>
      Location("", ArazzoMissing(sd.name)) in Check(sd, doc, hooks).errors
  {
    var referenced := Referenced(Located(Named(sd), sd, hooks), sd);
    var checked := Check(sd, doc, hooks);
    ExtendsKeeps(referenced, checked, Location("", OasMissing(sd.name)));
    ExtendsKeeps(referenced, checked, Location("", ArazzoMissing(sd.name)));
  }

  /** With a url that passes, the referenced document its type needs and no
    * extensions, the name decides alone: a badly formed one leaves the
    * result valid with a single warning. */
  lemma OnlyNameWarning(sd: SourceDescription, doc: Document, hooks: Hooks)
    requires !IsEmpty(sd.name) && !IsEmpty(sd.url) && hooks.fileOrUrlValid(sd.url.value)
    requires sd.stype == Some(OpenApiSource) ==> sd.referencedOpenApi.Some?
    requires sd.stype == Some(ArazzoSource) ==> sd.referencedArazzo.Some?
    requires |sd.extensions| == 0
    ensures !Check(sd, doc, hooks).invalid && Check(sd, doc, hooks).errors == []
    ensures |Check(sd, doc, hooks).warnings| == if IsRecommendedName(sd.name.value) then 0 else 1
  {
  }
}
