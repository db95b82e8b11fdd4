/** InfoValidator: the Info Object needs a title and a version; a version
  * that is not `major.minor.patch` draws a warning. */
module InfoValidator {
  import opened Wrappers
  import opened Strings
  import opened Model
  import opened ValidationResults
  import opened Validator

  const Where := "info"

  const TitleMandatory := "title: is mandatory"
  const VersionMandatory := "version: is mandatory"
  const VersionNotSemantic := "version: does not adhere to semantic versioning"

  /** `0|[1-9]\d*`: a decimal number without a leading zero. */
  predicate VersionNumber(s: string) {
    s == "0" || (IsDigits(s) && s[0] != '0')
  }

  /** `^(0|[1-9]\d*)\.(0|[1-9]\d*)\.(0|[1-9]\d*)$`. */
  predicate IsSemanticVersion(v: string) {
    var parts := Pieces(v, '.');
    |parts| == 3 && VersionNumber(parts[0]) && VersionNumber(parts[1]) && VersionNumber(parts[2])
  }

  /** How `major.minor.patch` is written. */
  function Version(major: nat, minor: nat, patch: nat): string {
    NatToString(major) + "." + NatToString(minor) + "." + NatToString(patch)
  }

  lemma VersionNumberOf(n: nat)
    ensures VersionNumber(NatToString(n)) && '.' !in NatToString(n)
  {
    var r := NatToString(n);
    assert forall i :: 0 <= i < |r| ==> r[i] != '.';
  }

  lemma VersionAsJoin(a: string, b: string, c: string)
    ensures Join([a, b, c], ".") == a + "." + b + "." + c
  {
    assert [a, b, c][1..] == [b, c];
    assert [b, c][1..] == [c];
    assert Join([b, c], ".") == b + "." + c;
    assert Join([a, b, c], ".") == a + "." + (b + "." + c);
    assert a + "." + (b + "." + c) == a + "." + b + "." + c;
  }

  /** The semantic-versioning check accepts exactly the versions written as
    * three numbers: the numbers round-trip and nothing else gets through. */
  lemma SemanticVersionIff(v: string)
    ensures IsSemanticVersion(v) <==> exists a: nat, b: nat, c: nat :: v == Version(a, b, c)
  {
    if IsSemanticVersion(v) {
      var parts := Pieces(v, '.');
      CanonicalDigits(parts[0]);
      CanonicalDigits(parts[1]);
      CanonicalDigits(parts[2]);
      JoinPieces(v, '.');
      assert parts == [parts[0], parts[1], parts[2]];
      VersionAsJoin(parts[0], parts[1], parts[2]);
      var a, b, c := DigitsValue(parts[0]), DigitsValue(parts[1]), DigitsValue(parts[2]);
      assert v == Version(a, b, c);
    }
    forall a: nat, b: nat, c: nat | v == Version(a, b, c)
      ensures IsSemanticVersion(v)
    {
      VersionNumberOf(a);
      VersionNumberOf(b);
      VersionNumberOf(c);
      var names := [NatToString(a), NatToString(b), NatToString(c)];
      VersionAsJoin(names[0], names[1], names[2]);
      JoinSplit(names, '.');
    }
  }

  /** InfoValidator.validate. */
  function Check(info: Info, doc: Document, hooks: Hooks): Report {
    var titled := if IsEmpty(info.title) then Empty.AddError(Where, TitleMandatory) else Empty;
    var versioned :=
      if IsEmpty(info.version) then titled.AddError(Where, VersionMandatory)
      else if !IsSemanticVersion(info.version.value) then
        titled.AddWarning(Where, VersionNotSemantic)
      else titled;
    WithExtensions(versioned, info.extensions, doc, hooks)
  }

  method Validate(info: Info, doc: Document, hooks: Hooks) returns (result: ValidationResult)
    ensures fresh(result) && result.Contents() == Check(info, doc, hooks)
  {
    result := new ValidationResult();
    if IsEmpty(info.title) {
      result.AddError(Where, TitleMandatory);
    }
    if IsEmpty(info.version) {
      result.AddError(Where, VersionMandatory);
    } else if !IsSemanticVersion(info.version.value) {
      result.AddWarning(Where, VersionNotSemantic);
    }
    if |info.extensions| > 0 {
      var extensions := new ValidationResult.Of(hooks.extensions(info.extensions, doc));
      result.Merge(extensions);
    }
  }

  /** A missing title or version is an error; a version that is not semantic
    * only draws a warning, so a titled, extension-free Info stays valid; a
    * titled Info with a semantic version and no extensions has no entries. */
  lemma InfoRules(info: Info, doc: Document, hooks: Hooks)
    ensures IsEmpty(info.title) ==> Location(Where, TitleMandatory) in Check(info, doc, hooks).errors
    ensures IsEmpty(info.version) ==> Location(Where, VersionMandatory) in Check(info, doc, hooks).errors
    ensures (!IsEmpty(info.version) && !IsSemanticVersion(info.version.value)) ==>
      Location(Where, VersionNotSemantic) in Check(info, doc, hooks).warnings
    ensures (!IsEmpty(info.title) && !IsEmpty(info.version) && |info.extensions| == 0) ==>
      !Check(info, doc, hooks).invalid
    ensures (!IsEmpty(info.title) && !IsEmpty(info.version) && IsSemanticVersion(info.version.value)
             && |info.extensions| == 0) ==> Check(info, doc, hooks) == Empty
    ensures IsEmpty(info.title) || IsEmpty(info.version) ==> Check(info, doc, hooks).invalid
  {
    var r := Check(info, doc, hooks);
    if |info.extensions| > 0 {
      var titled := if IsEmpty(info.title) then Empty.AddError(Where, TitleMandatory) else Empty;
      var versioned :=
        if IsEmpty(info.version) then titled.AddError(Where, VersionMandatory)
        else if !IsSemanticVersion(info.version.value) then
          titled.AddWarning(Where, VersionNotSemantic)
        else titled;
      var ext := hooks.extensions(info.extensions, doc);
      assert r.errors[..|versioned.errors|] == versioned.errors;
      assert r.warnings[..|versioned.warnings|] == versioned.warnings;
    }
  }
}
