/** The deserializer's ParseResult: what reading the document found wrong
  * (extra, invalid-type, missing, warning, unique and reserved entries), an
  * `invalid` flag only `invalid()` raises, and the reading options. */
module ParseResults {
  import opened Wrappers
  import opened ValidationResults

  /** ParseOptions as the deserializer copies them into its ParseResult. */
  datatype Options = Options(mustValidate: bool, allowEmptyStrings: bool, oaiAuthor: bool)

  /** The entries of a ParseResult.  The extra map's values are never read
    * again, so only its keys are kept, in insertion order. */
  datatype ParseLog = ParseLog(
    invalid: bool,
    invalidTypes: TypeMap,
    reserved: seq<Location>,
    extra: seq<Location>,
    missing: seq<Location>,
    warnings: seq<Location>,
    unique: seq<Location>)
  {
    function Reserved(location: string, key: string): (r: ParseLog)
      ensures KeepsInvalid(this, r)
    {
      this.(reserved := reserved + [Location(location, key)])
    }

    /** `extra.put`: a location already there keeps its place. */
    function Extra(location: string, key: string): (r: ParseLog)
      ensures KeepsInvalid(this, r)
    {
      if Location(location, key) in extra then this
      else this.(extra := extra + [Location(location, key)])
    }

    function Missing(location: string, key: string): (r: ParseLog)
      ensures KeepsInvalid(this, r)
    {
      this.(missing := missing + [Location(location, key)])
    }

    function Warning(location: string, key: string): (r: ParseLog)
      ensures KeepsInvalid(this, r)
    {
      this.(warnings := warnings + [Location(location, key)])
    }

    function Unique(location: string, key: string): (r: ParseLog)
      ensures KeepsInvalid(this, r)
    {
      this.(unique := unique + [Location(location, key)])
    }

    /** `invalidType.put`; it does not raise the flag. */
    function InvalidType(location: string, key: string, expectedType: string): (r: ParseLog)
      ensures KeepsInvalid(this, r)
    {
      PutKeys(invalidTypes, Location(location, key), expectedType);
      this.(invalidTypes := Put(invalidTypes, Location(location, key), expectedType))
    }

    function Invalid(): (r: ParseLog)
      ensures KeepsInvalid(this, r)
    {
      this.(invalid := true)
    }
  }

  /** Recording never lowers the flag: once invalid, always invalid. */
  predicate KeepsInvalid(a: ParseLog, b: ParseLog) {
    a.invalid ==> b.invalid
  }

  /** A freshly built ParseResult. */
  const Fresh := ParseLog(false, [], [], [], [], [], [])

  /** Every location appears at most once among the extra entries. */
  predicate ExtraDistinct(log: ParseLog) {
    forall i, j :: 0 <= i < j < |log.extra| ==> log.extra[i] != log.extra[j]
  }

  /** Recording an entry never forgets one, and only `Invalid` raises the
    * flag; an extra location is recorded once however often it is met. */
  lemma RecordingRules(log: ParseLog, location: string, key: string, expectedType: string)
    ensures var l := Location(location, key);
      && log.Reserved(location, key).reserved == log.reserved + [l]
      && log.Missing(location, key).missing == log.missing + [l]
      && log.Warning(location, key).warnings == log.warnings + [l]
      && log.Unique(location, key).unique == log.unique + [l]
      && l in log.Extra(location, key).extra
      && log.Extra(location, key).Extra(location, key) == log.Extra(location, key)
      && Find(log.InvalidType(location, key, expectedType).invalidTypes, l) == Some(expectedType)
    ensures log.Reserved(location, key).invalid == log.invalid
    ensures log.Extra(location, key).invalid == log.invalid
    ensures log.Missing(location, key).invalid == log.invalid
    ensures log.Warning(location, key).invalid == log.invalid
    ensures log.Unique(location, key).invalid == log.invalid
    ensures log.InvalidType(location, key, expectedType).invalid == log.invalid
    ensures log.Invalid().invalid
  {
    PutFind(log.invalidTypes, Location(location, key), expectedType, Location(location, key));
  }

  lemma ExtraKeepsDistinct(log: ParseLog, location: string, key: string)
    requires ExtraDistinct(log)
    ensures ExtraDistinct(log.Extra(location, key))
  {
  }

  // ----- getMessages ------------------------------------------------------------

  function ExtraMessage(l: Location): string {
    "Extra: attribute " + Prefixed(l) + " is unexpected"
  }

  function MissingMessage(l: Location): string {
    "Missing: attribute " + Prefixed(l) + " is missing"
  }

  function ReservedMessage(l: Location): string {
    "Reserved: attribute " + Prefixed(l) + " is reserved by The OpenAPI Initiative"
  }

  function ExtraMessages(ls: seq<Location>): seq<string> {
    seq(|ls|, i requires 0 <= i < |ls| => ExtraMessage(ls[i]))
  }

  function MissingMessages(ls: seq<Location>): seq<string> {
    seq(|ls|, i requires 0 <= i < |ls| => MissingMessage(ls[i]))
  }

  function ReservedMessages(ls: seq<Location>): seq<string> {
    seq(|ls|, i requires 0 <= i < |ls| => ReservedMessage(ls[i]))
  }

  lemma GroupMessagesSnoc(ls: seq<Location>, i: nat)
    requires i < |ls|
    ensures ExtraMessages(ls[..i + 1]) == ExtraMessages(ls[..i]) + [ExtraMessage(ls[i])]
    ensures MissingMessages(ls[..i + 1]) == MissingMessages(ls[..i]) + [MissingMessage(ls[i])]
    ensures ReservedMessages(ls[..i + 1]) == ReservedMessages(ls[..i]) + [ReservedMessage(ls[i])]
  {
    assert ls[..i + 1][..i] == ls[..i];
  }

  /** ParseResult.getMessages: extra, invalid-type, missing, warning, unique
    * and reserved entries, in that order. */
  function ParseMessages(log: ParseLog): seq<string> {
    ExtraMessages(log.extra) + TypeMessages(log.invalidTypes) + MissingMessages(log.missing)
    + WarningMessages(log.warnings) + UniqueMessages(log.unique) + ReservedMessages(log.reserved)
  }

  /** The `location.` prefix appears only for a non-empty location. */
  lemma ParsePrefixOnlyWhenLocated(l: Location)
    ensures l.location == "" ==> MissingMessage(l) == "Missing: attribute " + l.key + " is missing"
    ensures l.location != "" ==>
      MissingMessage(l) == "Missing: attribute " + l.location + "." + l.key + " is missing"
    ensures l.location == "" ==> ExtraMessage(l) == "Extra: attribute " + l.key + " is unexpected"
    ensures l.location != "" ==>
      ExtraMessage(l) == "Extra: attribute " + l.location + "." + l.key + " is unexpected"
  {
  }

  // ----- the object -----------------------------------------------------------

  class ParseResult {
    var invalid: bool
    var mustValidate: bool
    var allowEmptyStrings: bool
    var oaiAuthor: bool
    var invalidTypeMap: TypeMap
    var reservedList: seq<Location>
    var extraKeys: seq<Location>
    var missingList: seq<Location>
    var warningList: seq<Location>
    var uniqueList: seq<Location>

    function Log(): ParseLog
      reads this
    {
      ParseLog(invalid, invalidTypeMap, reservedList, extraKeys, missingList, warningList, uniqueList)
    }

    function Settings(): Options
      reads this
    {
      Options(mustValidate, allowEmptyStrings, oaiAuthor)
    }

    /** `ParseResult.builder().build()` followed by the three option setters. */
    constructor (options: Options)
      ensures Log() == Fresh && Settings() == options
    {
      invalid := false;
      mustValidate := options.mustValidate;
      allowEmptyStrings := options.allowEmptyStrings;
      oaiAuthor := options.oaiAuthor;
      invalidTypeMap := [];
      reservedList := [];
      extraKeys := [];
      missingList := [];
      warningList := [];
      uniqueList := [];
    }

    method Reserved(location: string, key: string)
      modifies this
      ensures Log() == old(Log()).Reserved(location, key) && Settings() == old(Settings())
    {
      reservedList := reservedList + [Location(location, key)];
    }

    method Extra(location: string, key: string)
      modifies this
      ensures Log() == old(Log()).Extra(location, key) && Settings() == old(Settings())
    {
      if Location(location, key) !in extraKeys {
        extraKeys := extraKeys + [Location(location, key)];
      }
    }

    method Missing(location: string, key: string)
      modifies this
      ensures Log() == old(Log()).Missing(location, key) && Settings() == old(Settings())
    {
      missingList := missingList + [Location(location, key)];
    }

    method Warning(location: string, key: string)
      modifies this
      ensures Log() == old(Log()).Warning(location, key) && Settings() == old(Settings())
    {
      warningList := warningList + [Location(location, key)];
    }

    method Unique(location: string, key: string)
      modifies this
      ensures Log() == old(Log()).Unique(location, key) && Settings() == old(Settings())
    {
      uniqueList := uniqueList + [Location(location, key)];
    }

    method InvalidType(location: string, key: string, expectedType: string)
      modifies this
      ensures Log() == old(Log()).InvalidType(location, key, expectedType) && Settings() == old(Settings())
    {
      invalidTypeMap := Put(invalidTypeMap, Location(location, key), expectedType);
    }

    method Invalid()
      modifies this
      ensures Log() == old(Log()).Invalid() && Settings() == old(Settings())
    {
      invalid := true;
    }

    method GetMessages() returns (messages: seq<string>)
      ensures messages == ParseMessages(Log())
    {
      messages := [];
      for i := 0 to |extraKeys|
        invariant messages == ExtraMessages(extraKeys[..i])
      {
        GroupMessagesSnoc(extraKeys, i);
        messages := messages + [ExtraMessage(extraKeys[i])];
      }
      assert extraKeys[..|extraKeys|] == extraKeys;
      ghost var done := messages;
      for i := 0 to |invalidTypeMap|
        invariant messages == done + TypeMessages(invalidTypeMap[..i])
      {
        TypeMessagesSnoc(invalidTypeMap, i);
        messages := messages + [TypeMessage(invalidTypeMap[i])];
      }
      assert invalidTypeMap[..|invalidTypeMap|] == invalidTypeMap;
      done := messages;
      for i := 0 to |missingList|
        invariant messages == done + MissingMessages(missingList[..i])
      {
        GroupMessagesSnoc(missingList, i);
        messages := messages + [MissingMessage(missingList[i])];
      }
      assert missingList[..|missingList|] == missingList;
      done := messages;
      for i := 0 to |warningList|
        invariant messages == done + WarningMessages(warningList[..i])
      {
        LocationMessagesSnoc(warningList, i);
        messages := messages + [WarningMessage(warningList[i])];
      }
      assert warningList[..|warningList|] == warningList;
      done := messages;
      for i := 0 to |uniqueList|
        invariant messages == done + UniqueMessages(uniqueList[..i])
      {
        LocationMessagesSnoc(uniqueList, i);
        messages := messages + [UniqueMessage(uniqueList[i])];
      }
      assert uniqueList[..|uniqueList|] == uniqueList;
      done := messages;
      for i := 0 to |reservedList|
        invariant messages == done + ReservedMessages(reservedList[..i])
      {
        GroupMessagesSnoc(reservedList, i);
        messages := messages + [ReservedMessage(reservedList[i])];
      }
      assert reservedList[..|reservedList|] == reservedList;
    }
  }
}
