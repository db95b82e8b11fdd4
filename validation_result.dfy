/** The result object every validator fills in: an `invalid` flag, the
  * invalid-type entries (a LinkedHashMap keyed by location), and the warning,
  * unique and error lists, plus the document once validation is over. */
module ValidationResults {
  import opened Wrappers
  import opened Model
  import Strings

  /** A place in the document (`location`) and what was found there (`key`). */
  datatype Location = Location(location: string, key: string)

  /** The invalid-type map: entries in insertion order, keyed by location. */
  type TypeMap = seq<(Location, string)>

  /** The content of a ValidationResult, without the attached document. */
  datatype Report = Report(
    invalid: bool,
    invalidTypes: TypeMap,
    warnings: seq<Location>,
    unique: seq<Location>,
    errors: seq<Location>)
  {
    function AddInvalidType(location: string, key: string, expectedType: string): Report {
      this.(invalidTypes := Put(invalidTypes, Location(location, key), expectedType), invalid := true)
    }

    function AddWarning(location: string, key: string): Report {
      this.(warnings := warnings + [Location(location, key)])
    }

    function AddUnique(location: string, key: string): Report {
      this.(unique := unique + [Location(location, key)], invalid := true)
    }

    function AddError(location: string, key: string): Report {
      this.(errors := errors + [Location(location, key)], invalid := true)
    }

    /** ValidationResult.merge(other). */
    function Merge(other: Report): Report {
      Report(invalid || other.invalid,
             PutAll(invalidTypes, other.invalidTypes),
             warnings + other.warnings,
             unique + other.unique,
             errors + other.errors)
    }
  }

  /** A freshly built result: valid and without entries. */
  const Empty := Report(false, [], [], [], [])

  // ----- the LinkedHashMap of invalid types ---------------------------------

  function Keys(m: TypeMap): (r: seq<Location>)
    ensures |r| == |m| && forall i :: 0 <= i < |m| ==> r[i] == m[i].0
  {
    seq(|m|, i requires 0 <= i < |m| => m[i].0)
  }

  predicate KeysDistinct(m: TypeMap) {
    forall i, j :: 0 <= i < j < |m| ==> m[i].0 != m[j].0
  }

  /** Map.get: the value stored under `k`, the first entry that has it. */
  function Find(m: TypeMap, k: Location): Option<string>
    decreases |m|
  {
    if |m| == 0 then None else if m[0].0 == k then Some(m[0].1) else Find(m[1..], k)
  }

  /** Map.put: an existing key keeps its place and gets the new value; a new
    * key goes to the end. */
  function Put(m: TypeMap, k: Location, v: string): TypeMap
    decreases |m|
  {
    if |m| == 0 then [(k, v)]
    else if m[0].0 == k then [(k, v)] + m[1..]
    else [m[0]] + Put(m[1..], k, v)
  }

  /** Map.putAll: the other map's entries put one by one, in its order. */
  function PutAll(m: TypeMap, other: TypeMap): TypeMap
    decreases |other|
  {
    if |other| == 0 then m else PutAll(Put(m, other[0].0, other[0].1), other[1..])
  }

  lemma {:induction false} FindSome(m: TypeMap, k: Location)
    ensures Find(m, k).Some? <==> k in Keys(m)
    decreases |m|
  {
    if |m| > 0 {
      FindSome(m[1..], k);
      assert Keys(m) == [m[0].0] + Keys(m[1..]);
    }
  }

  /** After a put, the key holds the new value and every other key its old one. */
  lemma {:induction false} PutFind(m: TypeMap, k: Location, v: string, k': Location)
    ensures Find(Put(m, k, v), k') == if k' == k then Some(v) else Find(m, k')
    decreases |m|
  {
    if |m| > 0 && m[0].0 != k {
      PutFind(m[1..], k, v, k');
    }
  }

  /** A put replaces in place when the key is present and appends otherwise. */
  lemma {:induction false} PutKeys(m: TypeMap, k: Location, v: string)
    ensures Keys(Put(m, k, v)) == if k in Keys(m) then Keys(m) else Keys(m) + [k]
    decreases |m|
  {
    if |m| > 0 {
      assert Keys(m) == [m[0].0] + Keys(m[1..]);
      if m[0].0 != k {
        PutKeys(m[1..], k, v);
        assert Keys(Put(m, k, v)) == [m[0].0] + Keys(Put(m[1..], k, v));
      } else {
        assert Keys(Put(m, k, v)) == [k] + Keys(m[1..]);
      }
    }
  }

  lemma PutDistinct(m: TypeMap, k: Location, v: string)
    requires KeysDistinct(m)
    ensures KeysDistinct(Put(m, k, v))
  {
    PutKeys(m, k, v);
    var p := Put(m, k, v);
    forall i, j | 0 <= i < j < |p|
      ensures p[i].0 != p[j].0
    {
      assert Keys(p)[i] == p[i].0 && Keys(p)[j] == p[j].0;
      if k !in Keys(m) && j == |m| {
        assert Keys(m)[i] == m[i].0;
      } else {
        assert Keys(m)[i] == m[i].0 && Keys(m)[j] == m[j].0;
      }
    }
  }

  lemma FindAbsent(m: TypeMap, k: Location)
    requires KeysDistinct(m) && |m| > 0 && m[0].0 == k
    ensures Find(m[1..], k) == None
  {
    FindSome(m[1..], k);
    forall j | 0 <= j < |m[1..]|
      ensures Keys(m[1..])[j] != k
    {
      assert m[1..][j] == m[j + 1];
    }
  }

  /** After a putAll, a key of the other map holds the other map's value; every
    * other key keeps its value. */
  lemma {:induction false} PutAllFind(m: TypeMap, other: TypeMap, k: Location)
    requires KeysDistinct(other)
    ensures Find(PutAll(m, other), k) == if Find(other, k).Some? then Find(other, k) else Find(m, k)
    decreases |other|
  {
    if |other| > 0 {
      var m' := Put(m, other[0].0, other[0].1);
      assert KeysDistinct(other[1..]) by {
        forall i, j | 0 <= i < j < |other[1..]|
          ensures other[1..][i].0 != other[1..][j].0
        {
          assert other[1..][i] == other[i + 1] && other[1..][j] == other[j + 1];
        }
      }
      PutAllFind(m', other[1..], k);
      PutFind(m, other[0].0, other[0].1, k);
      if other[0].0 == k {
        FindAbsent(other, k);
      }
    }
  }

  /** Results built through the add operations keep their invalid-type keys
    * distinct, and so do their merges. */
  lemma {:induction false} PutAllDistinct(m: TypeMap, other: TypeMap)
    requires KeysDistinct(m)
    ensures KeysDistinct(PutAll(m, other))
    decreases |other|
  {
    if |other| > 0 {
      PutDistinct(m, other[0].0, other[0].1);
      PutAllDistinct(Put(m, other[0].0, other[0].1), other[1..]);
    }
  }

  // ----- what each operation promises ---------------------------------------

  /** addError, addUnique and addInvalidType mark the result invalid; addWarning
    * leaves the flag as it was.  Each records exactly its entry, at the end. */
  lemma AddsMarkInvalid(r: Report, location: string, key: string, expectedType: string)
    ensures r.AddError(location, key).invalid
    ensures r.AddError(location, key).errors == r.errors + [Location(location, key)]
    ensures r.AddUnique(location, key).invalid
    ensures r.AddUnique(location, key).unique == r.unique + [Location(location, key)]
    ensures r.AddInvalidType(location, key, expectedType).invalid
    ensures Find(r.AddInvalidType(location, key, expectedType).invalidTypes, Location(location, key)) == Some(expectedType)
    ensures r.AddWarning(location, key).invalid == r.invalid
    ensures r.AddWarning(location, key).warnings == r.warnings + [Location(location, key)]
  {
    PutFind(r.invalidTypes, Location(location, key), expectedType, Location(location, key));
  }

  /** merge ORs the flags (so it never clears one), appends the other side's
    * lists in order and puts all its invalid types. */
  lemma MergeCombines(r: Report, other: Report, k: Location)
    requires KeysDistinct(other.invalidTypes)
    ensures r.Merge(other).invalid <==> r.invalid || other.invalid
    ensures r.invalid ==> r.Merge(other).invalid
    ensures r.Merge(other).errors[..|r.errors|] == r.errors
    ensures r.Merge(other).errors[|r.errors|..] == other.errors
    ensures r.Merge(other).warnings[..|r.warnings|] == r.warnings
    ensures r.Merge(other).warnings[|r.warnings|..] == other.warnings
    ensures r.Merge(other).unique[..|r.unique|] == r.unique
    ensures r.Merge(other).unique[|r.unique|..] == other.unique
    ensures Find(r.Merge(other).invalidTypes, k)
         == if Find(other.invalidTypes, k).Some? then Find(other.invalidTypes, k) else Find(r.invalidTypes, k)
  {
    PutAllFind(r.invalidTypes, other.invalidTypes, k);
  }

  /** `s` holds everything `r` holds, in front: no operation takes an entry
    * back or clears the flag. */
  predicate Extends(r: Report, s: Report) {
    (r.invalid ==> s.invalid) && r.errors <= s.errors && r.warnings <= s.warnings && r.unique <= s.unique
  }

  /** Every operation extends the result it is applied to. */
  lemma OperationsExtend(r: Report, location: string, key: string, expectedType: string, other: Report)
    ensures Extends(r, r.AddError(location, key)) && Extends(r, r.AddWarning(location, key))
    ensures Extends(r, r.AddUnique(location, key)) && Extends(r, r.AddInvalidType(location, key, expectedType))
    ensures Extends(r, r.Merge(other))
  {
  }

  lemma ExtendsTrans(a: Report, b: Report, c: Report)
    requires Extends(a, b) && Extends(b, c)
    ensures Extends(a, c)
  {
  }

  /** An entry once recorded stays recorded. */
  lemma ExtendsKeeps(r: Report, s: Report, x: Location)
    requires Extends(r, s)
    ensures x in r.errors ==> x in s.errors
    ensures x in r.warnings ==> x in s.warnings
    ensures x in r.unique ==> x in s.unique
  {
    if x in r.errors {
      var i :| 0 <= i < |r.errors| && r.errors[i] == x;
      assert s.errors[i] == x;
    }
    if x in r.warnings {
      var i :| 0 <= i < |r.warnings| && r.warnings[i] == x;
      assert s.warnings[i] == x;
    }
    if x in r.unique {
      var i :| 0 <= i < |r.unique| && r.unique[i] == x;
      assert s.unique[i] == x;
    }
  }

  /** Merging a fresh result changes nothing, and merging into a fresh result
    * copies the other side. */
  lemma MergeEmpty(r: Report)
    ensures r.Merge(Empty) == r
    ensures Empty.Merge(r).invalid == r.invalid
    ensures Empty.Merge(r).errors == r.errors && Empty.Merge(r).warnings == r.warnings
    ensures Empty.Merge(r).unique == r.unique
  {
    assert r.errors + [] == r.errors;
    assert r.warnings + [] == r.warnings;
    assert r.unique + [] == r.unique;
  }

  // ----- messages ----------------------------------------------------------

  /** `location.key`, or just `key` when the location is empty. */
  function Prefixed(l: Location): string {
    if l.location == "" then l.key else l.location + "." + l.key
  }

  function TypeMessage(e: (Location, string)): string {
    "Invalid: attribute " + Prefixed(e.0) + " is not of type `" + e.1 + "`"
  }

  function WarningMessage(l: Location): string {
    "Warning: " + Prefixed(l)
  }

  function UniqueMessage(l: Location): string {
    "Unique: attribute " + Prefixed(l) + " is repeated"
  }

  function ErrorMessage(l: Location): string {
    "Error: " + Prefixed(l)
  }

  function TypeMessages(m: TypeMap): seq<string> {
    seq(|m|, i requires 0 <= i < |m| => TypeMessage(m[i]))
  }

  function WarningMessages(ls: seq<Location>): seq<string> {
    seq(|ls|, i requires 0 <= i < |ls| => WarningMessage(ls[i]))
  }

  function UniqueMessages(ls: seq<Location>): seq<string> {
    seq(|ls|, i requires 0 <= i < |ls| => UniqueMessage(ls[i]))
  }

  function ErrorMessages(ls: seq<Location>): seq<string> {
    seq(|ls|, i requires 0 <= i < |ls| => ErrorMessage(ls[i]))
  }

  lemma TypeMessagesSnoc(m: TypeMap, i: nat)
    requires i < |m|
    ensures TypeMessages(m[..i + 1]) == TypeMessages(m[..i]) + [TypeMessage(m[i])]
  {
    assert m[..i + 1][..i] == m[..i];
  }

  lemma LocationMessagesSnoc(ls: seq<Location>, i: nat)
    requires i < |ls|
    ensures WarningMessages(ls[..i + 1]) == WarningMessages(ls[..i]) + [WarningMessage(ls[i])]
    ensures UniqueMessages(ls[..i + 1]) == UniqueMessages(ls[..i]) + [UniqueMessage(ls[i])]
    ensures ErrorMessages(ls[..i + 1]) == ErrorMessages(ls[..i]) + [ErrorMessage(ls[i])]
  {
    assert ls[..i + 1][..i] == ls[..i];
  }

  /** ValidationResult.getMessages. */
  function Messages(r: Report): seq<string> {
    TypeMessages(r.invalidTypes) + WarningMessages(r.warnings) + UniqueMessages(r.unique) + ErrorMessages(r.errors)
  }

  /** The `location.` prefix appears exactly when the location is non-empty:
    * an empty location shows the key alone. */
  lemma PrefixOnlyWhenLocated(l: Location)
    ensures l.location == "" ==> ErrorMessage(l) == "Error: " + l.key
    ensures l.location != "" ==> ErrorMessage(l) == "Error: " + l.location + "." + l.key
    ensures l.location != "" ==> Strings.StartsWith(Prefixed(l), l.location + ".")
    ensures Strings.EndsWith(Prefixed(l), l.key)
  {
    if l.location != "" {
      assert Prefixed(l)[..|l.location + "."|] == l.location + ".";
    }
    assert Prefixed(l)[|Prefixed(l)| - |l.key|..] == l.key;
  }

  /** The prefix a message loop builds for one entry. */
  function LocationPrefix(l: Location): (p: string)
    ensures p + l.key == Prefixed(l)
  {
    if l.location == "" then "" else l.location + "."
  }

  // ----- the object --------------------------------------------------------

  class ValidationResult {
    var invalid: bool
    var invalidTypeMap: TypeMap
    var warningList: seq<Location>
    var uniqueList: seq<Location>
    var errorList: seq<Location>
    var arazzo: Option<Document>

    function Contents(): Report
      reads this
    {
      Report(invalid, invalidTypeMap, warningList, uniqueList, errorList)
    }

    /** ValidationResult.builder().build(). */
    constructor ()
      ensures Contents() == Empty && arazzo == None
    {
      invalid := false;
      invalidTypeMap := [];
      warningList := [];
      uniqueList := [];
      errorList := [];
      arazzo := None;
    }

    /** The result a validator outside this model hands back. */
    constructor Of(r: Report)
      ensures Contents() == r && arazzo == None
    {
      invalid := r.invalid;
      invalidTypeMap := r.invalidTypes;
      warningList := r.warnings;
      uniqueList := r.unique;
      errorList := r.errors;
      arazzo := None;
    }

    method Merge(other: ValidationResult)
      modifies this
      ensures Contents() == old(Contents()).Merge(old(other.Contents()))
      ensures arazzo == old(arazzo)
    {
      var theirs := other.Contents();
      if theirs.invalid {
        invalid := true;
      }
      errorList := errorList + theirs.errors;
      invalidTypeMap := PutAll(invalidTypeMap, theirs.invalidTypes);
      warningList := warningList + theirs.warnings;
      uniqueList := uniqueList + theirs.unique;
    }

    method AddInvalidType(location: string, key: string, expectedType: string)
      modifies this
      ensures Contents() == old(Contents()).AddInvalidType(location, key, expectedType)
      ensures arazzo == old(arazzo)
    {
      invalidTypeMap := Put(invalidTypeMap, Location(location, key), expectedType);
      invalid := true;
    }

    method AddWarning(location: string, key: string)
      modifies this
      ensures Contents() == old(Contents()).AddWarning(location, key)
      ensures arazzo == old(arazzo)
    {
      warningList := warningList + [Location(location, key)];
    }

    method AddUnique(location: string, key: string)
      modifies this
      ensures Contents() == old(Contents()).AddUnique(location, key)
      ensures arazzo == old(arazzo)
    {
      uniqueList := uniqueList + [Location(location, key)];
      invalid := true;
    }

    method AddError(location: string, key: string)
      modifies this
      ensures Contents() == old(Contents()).AddError(location, key)
      ensures arazzo == old(arazzo)
    {
      errorList := errorList + [Location(location, key)];
      invalid := true;
    }

    method SetArazzo(doc: Document)
      modifies this
      ensures Contents() == old(Contents()) && arazzo == Some(doc)
    {
      arazzo := Some(doc);
    }

    method GetMessages() returns (messages: seq<string>)
      ensures messages == Messages(Contents())
    {
      messages := [];
      var i := 0;
      while i < |invalidTypeMap|
        invariant 0 <= i <= |invalidTypeMap|
        invariant messages == TypeMessages(invalidTypeMap[..i])
      {
        var l := invalidTypeMap[i].0;
        var location := LocationPrefix(l);
        TypeMessagesSnoc(invalidTypeMap, i);
        messages := messages + ["Invalid: attribute " + (location + l.key) + " is not of type `" + invalidTypeMap[i].1 + "`"];
        i := i + 1;
      }
      assert invalidTypeMap[..i] == invalidTypeMap;
      var types := messages;
      i := 0;
      while i < |warningList|
        invariant 0 <= i <= |warningList|
        invariant messages == types + WarningMessages(warningList[..i])
      {
        var l := warningList[i];
        var location := LocationPrefix(l);
        LocationMessagesSnoc(warningList, i);
        messages := messages + ["Warning: " + (location + l.key)];
        i := i + 1;
      }
      assert warningList[..i] == warningList;
      var typesAndWarnings := messages;
      i := 0;
      while i < |uniqueList|
        invariant 0 <= i <= |uniqueList|
        invariant messages == typesAndWarnings + UniqueMessages(uniqueList[..i])
      {
        var l := uniqueList[i];
        var location := LocationPrefix(l);
        LocationMessagesSnoc(uniqueList, i);
        messages := messages + ["Unique: attribute " + (location + l.key) + " is repeated"];
        i := i + 1;
      }
      assert uniqueList[..i] == uniqueList;
      var allButErrors := messages;
      i := 0;
      while i < |errorList|
        invariant 0 <= i <= |errorList|
        invariant messages == allButErrors + ErrorMessages(errorList[..i])
      {
        var l := errorList[i];
        var location := LocationPrefix(l);
        LocationMessagesSnoc(errorList, i);
        messages := messages + ["Error: " + (location + l.key)];
        i := i + 1;
      }
      assert errorList[..i] == errorList;
    }
  }
}
