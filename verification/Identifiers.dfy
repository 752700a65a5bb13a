/**
 Delimited identifiers: the database access control ID (`linode/databaseaccesscontrols/resource.go`), the
 database engine slug (`linode/helper/database.go`) and the comma-separated import ID
 (`linode/helper/framework_import.go`).
 */
module Identifiers {
  import opened Wrappers
  import opened Text

  // ---------------------------------------------------------------- access control ID

  function FormatID(dbID: GoInt, dbType: string): string {
    Itoa(dbID) + [':'] + dbType
  }

  /** `parseID`; None is an error. */
  function ParseID(id: string): Option<(GoInt, string)> {
    var split := Split(id, ':');
    if |split| != 2 then None
    else
      var dbID := Atoi(split[0]);
      if dbID.None? then None else Some((dbID.value, split[1]))
  }

  /** An ID parses exactly when it is an integer and a type around its only colon. */
  lemma ParseIDIff(id: string, dbID: GoInt, dbType: string)
    ensures ParseID(id) == Some((dbID, dbType))
            <==> exists number :: Atoi(number) == Some(dbID) && id == number + ":" + dbType
                                  && ':' !in number && ':' !in dbType
  {
    var split := Split(id, ':');
    if ParseID(id) == Some((dbID, dbType)) {
      SplitInTwo(id, ':', split[0], dbType);
    }
    if number :| Atoi(number) == Some(dbID) && id == number + ":" + dbType && ':' !in number && ':' !in dbType {
      SplitInTwo(id, ':', number, dbType);
    }
  }

  /** Formatting an ID and parsing it returns the pair exactly when the type holds no colon; else parsing fails. */
  lemma ParseFormatID(dbID: GoInt, dbType: string)
    ensures ParseID(FormatID(dbID, dbType)) == if ':' in dbType then None else Some((dbID, dbType))
  {
    AtoiItoa(dbID);
    SplitAtSeparator(Itoa(dbID), dbType, ':');
    var split := Split(FormatID(dbID, dbType), ':');
    if |split| == 2 {
      SplitInTwo(FormatID(dbID, dbType), ':', split[0], split[1]);
      assert Split(dbType, ':') == split[1..];
      JoinSplit(dbType, ':');
      assert dbType == split[1];
    } else if ':' !in dbType {
      SplitWhole(dbType, ':');
    }
  }

  /** Any ID that parses is equivalent to the one formatted from its parts. */
  lemma FormatParseID(id: string)
    ensures ParseID(id).Some? ==>
              ':' !in ParseID(id).value.1 && ParseID(FormatID(ParseID(id).value.0, ParseID(id).value.1)) == ParseID(id)
  {
    if ParseID(id).Some? {
      var split := Split(id, ':');
      SplitInTwo(id, ':', split[0], split[1]);
      ParseFormatID(ParseID(id).value.0, split[1]);
    }
  }

  // ---------------------------------------------------------------- engine slug

  function CreateLegacyDatabaseEngineSlug(engine: string, version: string): string {
    engine + ['/'] + version
  }

  function MajorVersion(version: string): string {
    Split(version, '.')[0]
  }

  /** The major version is the text before the first dot, or all of it. */
  lemma MajorVersionIff(version: string, major: string)
    ensures MajorVersion(version) == major
            <==> '.' !in major && (version == major || (major + ['.']) <= version)
  {
    JoinSplit(version, '.');
    var parts := Split(version, '.');
    assert '.' !in parts[0];
    if |parts| > 1 {
      assert version == parts[0] + ['.'] + Join(parts[1..], ['.']);
    }
    if '.' !in major && version == major {
      SplitWhole(version, '.');
    }
    if '.' !in major && (major + ['.']) <= version {
      SplitAtSeparator(major, version[|major| + 1..], '.');
      assert version == major + ['.'] + version[|major| + 1..];
    }
  }

  function CreateDatabaseEngineSlug(engine: string, version: string): string {
    engine + ['/'] + MajorVersion(version)
  }

  /** None is an error. */
  function ParseDatabaseEngineSlug(engineID: string): Option<(string, string)> {
    var components := Split(engineID, '/');
    if |components| != 2 then None else Some((components[0], components[1]))
  }

  /** Parsing succeeds exactly on two slash-free parts around a slash, and returns them. */
  lemma ParseSlugIff(engineID: string, engine: string, version: string)
    ensures ParseDatabaseEngineSlug(engineID) == Some((engine, version))
            <==> engineID == engine + "/" + version && '/' !in engine && '/' !in version
  {
    SplitInTwo(engineID, '/', engine, version);
    var components := Split(engineID, '/');
    if ParseDatabaseEngineSlug(engineID) == Some((engine, version)) {
      assert components == [engine, version];
    }
  }

  /** A slug built from engine and version parses back exactly when engine and major version are slash-free. */
  lemma ParseCreatedSlugIff(engine: string, version: string)
    ensures ParseDatabaseEngineSlug(CreateDatabaseEngineSlug(engine, version)) == Some((engine, MajorVersion(version)))
            <==> '/' !in engine && '/' !in MajorVersion(version)
    ensures ParseDatabaseEngineSlug(CreateLegacyDatabaseEngineSlug(engine, version)) == Some((engine, version))
            <==> '/' !in engine && '/' !in version
  {
    ParseSlugIff(CreateDatabaseEngineSlug(engine, version), engine, MajorVersion(version));
    ParseSlugIff(CreateLegacyDatabaseEngineSlug(engine, version), engine, version);
  }

  /** Building a slug again from the parts of a built slug changes nothing, in either form. */
  lemma ReslugStable(engine: string, version: string)
    requires '/' !in engine && '/' !in MajorVersion(version)
    ensures var slug := CreateDatabaseEngineSlug(engine, version);
            var parsed := ParseDatabaseEngineSlug(slug);
            && parsed.Some?
            && CreateDatabaseEngineSlug(parsed.value.0, parsed.value.1) == slug
            && CreateLegacyDatabaseEngineSlug(parsed.value.0, parsed.value.1) == slug
  {
    ParseCreatedSlugIff(engine, version);
    JoinSplit(version, '.');
    var major := MajorVersion(version);
    assert '.' !in Split(version, '.')[0];
    SplitWhole(major, '.');
  }

  // ---------------------------------------------------------------- import ID

  datatype ImportValue = StringID(s: string) | IntID(n: GoInt)

  /** An `ImportableID`; a failing converter yields None. */
  datatype ImportableID = ImportableID(name: string, typeConverter: string -> Option<ImportValue>)

  function IDTypeConverterString(value: string): Option<ImportValue> {
    Some(StringID(value))
  }

  function IDTypeConverterInt64(value: string): Option<ImportValue> {
    var n := Atoi(value);
    if n.Some? then Some(IntID(n.value)) else None
  }

  type State = map<string, ImportValue>

  /** The comma-separated parts of an import ID, spaces ignored. */
  function ImportParts(id: string): (parts: seq<string>)
    ensures |parts| >= 1
  {
    Split(RemoveAll(id, ' '), ',')
  }

  /** The parts are what the commas separate once all spaces are removed. */
  lemma ImportPartsMeaning(id: string)
    ensures FreeOf(ImportParts(id), ' ') && FreeOf(ImportParts(id), ',')
    ensures Join(ImportParts(id), ",") == RemoveAll(id, ' ')
    ensures ' ' !in id ==> Join(ImportParts(id), ",") == id
  {
    var parts := ImportParts(id);
    JoinSplit(RemoveAll(id, ' '), ',');
    RemoveAllAbsent(id, ' ');
    forall i | 0 <= i < |parts| ensures ' ' !in parts[i] {
      PartOfJoin(parts, ",", i);
    }
  }

  /** A space anywhere makes no difference. */
  lemma SpaceIgnored(x: string, y: string)
    ensures ImportParts(x + " " + y) == ImportParts(x + y)
  {
    RemoveAllAppend(x + " ", y, ' ');
    RemoveAllAppend(x, " ", ' ');
    RemoveAllAppend(x, y, ' ');
    assert RemoveAll(" ", ' ') == [];
    assert RemoveAll(x, ' ') + [] == RemoveAll(x, ' ');
  }

  /** What a part holds, the joined text holds. */
  lemma {:induction false} PartOfJoin(parts: seq<string>, sep: string, i: nat)
    requires i < |parts|
    ensures forall c :: c in parts[i] ==> c in Join(parts, sep)
  {
    if i > 0 {
      PartOfJoin(parts[1..], sep, i - 1);
    }
  }

  predicate Importable(part: string, field: ImportableID) {
    part != "" && field.typeConverter(part).Some?
  }

  /** The state after the first k parts were written. */
  function Written(state: State, fields: seq<ImportableID>, parts: seq<string>, k: nat): State
    requires k <= |fields| && k <= |parts|
    requires forall i :: 0 <= i < k ==> Importable(parts[i], fields[i])
  {
    if k == 0 then state
    else
      assert Importable(parts[k - 1], fields[k - 1]);
      Written(state, fields, parts, k - 1)[fields[k - 1].name := fields[k - 1].typeConverter(parts[k - 1]).value]
  }

  /**
   `ImportStateWithMultipleIDs`: succeeds exactly when there is one part per field, none is empty and all
   convert. A failing import has written the fields before the first bad part.
   */
  method ImportStateWithMultipleIDs(id: string, fields: seq<ImportableID>, state: State)
    returns (ok: bool, newState: State, ghost k: nat)
    ensures var parts := ImportParts(id);
            ok <==> |parts| == |fields|
                    && forall i :: 0 <= i < |parts| ==> parts[i] != "" && fields[i].typeConverter(parts[i]).Some?
    ensures k <= |fields| && k <= |ImportParts(id)|
    ensures if |ImportParts(id)| != |fields| then k == 0
            else if ok then k == |fields|
            else k < |fields| && (ImportParts(id)[k] == "" || fields[k].typeConverter(ImportParts(id)[k]).None?)
    ensures forall i :: 0 <= i < k ==> Importable(ImportParts(id)[i], fields[i])
    ensures newState == Written(state, fields, ImportParts(id), k)
  {
    var idParts := ImportParts(id);
    newState, k := state, 0;
    if |idParts| != |fields| {
      return false, newState, k;
    }
    for i := 0 to |idParts|
      invariant k == i && forall j :: 0 <= j < i ==> Importable(idParts[j], fields[j])
      invariant newState == Written(state, fields, idParts, i)
    {
      if idParts[i] == "" {
        return false, newState, k;
      }
      var converted := fields[i].typeConverter(idParts[i]);
      if converted.None? {
        return false, newState, k;
      }
      newState := newState[fields[i].name := converted.value];
      k := i + 1;
    }
    ok := true;
  }

  lemma {:induction false} RemoveSpacesFromJoined(parts: seq<string>)
    requires FreeOf(parts, ' ')
    ensures RemoveAll(Join(parts, ", "), ' ') == Join(parts, ",")
  {
    if |parts| == 1 {
      RemoveAllAbsent(parts[0], ' ');
    } else if |parts| > 1 {
      var tail := Join(parts[1..], ", ");
      RemoveSpacesFromJoined(parts[1..]);
      RemoveAllAbsent(parts[0], ' ');
      RemoveAllAppend(parts[0] + ", ", tail, ' ');
      RemoveAllAppend(parts[0], ", ", ' ');
      assert RemoveAll(", ", ' ') == "," by {
        assert ", "[1..] == " " && " "[1..] == "";
      }
    }
  }

  /** A ", "-joined list of non-empty parts without spaces and commas has exactly those parts. */
  lemma JoinedPartsImport(parts: seq<string>)
    requires |parts| >= 1 && FreeOf(parts, ' ') && FreeOf(parts, ',')
    ensures ImportParts(Join(parts, ", ")) == parts
  {
    RemoveSpacesFromJoined(parts);
    SplitJoin(parts, ',');
  }

  /** Importing such a list with string converters always succeeds part by part. */
  lemma JoinedStringsImport(parts: seq<string>, fields: seq<ImportableID>)
    requires 1 <= |parts| == |fields| && FreeOf(parts, ' ') && FreeOf(parts, ',')
    requires forall i :: 0 <= i < |parts| ==> parts[i] != "" && fields[i].typeConverter == IDTypeConverterString
    ensures ImportParts(Join(parts, ", ")) == parts
    ensures forall i :: 0 <= i < |parts| ==>
              Importable(parts[i], fields[i]) && fields[i].typeConverter(parts[i]) == Some(StringID(parts[i]))
  {
    JoinedPartsImport(parts);
  }

  /** Importing a list of printed integers with integer converters recovers the integers. */
  lemma JoinedIntsImport(ids: seq<GoInt>, fields: seq<ImportableID>)
    requires 1 <= |ids| == |fields|
    requires forall i :: 0 <= i < |ids| ==> fields[i].typeConverter == IDTypeConverterInt64
    ensures var parts := seq(|ids|, i requires 0 <= i < |ids| => Itoa(ids[i]));
            && ImportParts(Join(parts, ", ")) == parts
            && forall i :: 0 <= i < |ids| ==>
                 Importable(parts[i], fields[i]) && fields[i].typeConverter(parts[i]) == Some(IntID(ids[i]))
  {
    var parts := seq(|ids|, i requires 0 <= i < |ids| => Itoa(ids[i]));
    forall i | 0 <= i < |parts|
      ensures parts[i] != "" && ' ' !in parts[i] && ',' !in parts[i] && Atoi(parts[i]) == Some(ids[i])
    {
      AtoiItoa(ids[i]);
    }
    JoinedPartsImport(parts);
  }

  /** The integer converter accepts exactly what parses as an integer. */
  lemma IntConverterIff(part: string, v: ImportValue)
    ensures IDTypeConverterInt64(part) == Some(v) <==> v.IntID? && Atoi(part) == Some(v.n)
  {
  }

  /** Attributes that no written field names keep what the state held. */
  lemma {:induction false} WrittenKeepsOthers(state: State, fields: seq<ImportableID>, parts: seq<string>, k: nat)
    requires k <= |fields| && k <= |parts|
    requires forall i :: 0 <= i < k ==> Importable(parts[i], fields[i])
    ensures forall name :: (forall i :: 0 <= i < k ==> fields[i].name != name) ==>
              && (name in Written(state, fields, parts, k) <==> name in state)
              && (name in state ==> Written(state, fields, parts, k)[name] == state[name])
  {
    if k > 0 {
      WrittenKeepsOthers(state, fields, parts, k - 1);
    }
  }

  /** With distinct field names, each field ends up holding its own part. */
  lemma {:induction false} WrittenHolds(state: State, fields: seq<ImportableID>, parts: seq<string>, k: nat, i: nat)
    requires i < k <= |fields| && k <= |parts|
    requires forall j :: 0 <= j < k ==> Importable(parts[j], fields[j])
    requires forall j, l :: 0 <= j < l < |fields| ==> fields[j].name != fields[l].name
    ensures fields[i].name in Written(state, fields, parts, k)
    ensures Written(state, fields, parts, k)[fields[i].name] == fields[i].typeConverter(parts[i]).value
  {
    if i < k - 1 {
      WrittenHolds(state, fields, parts, k - 1, i);
    }
  }
}
