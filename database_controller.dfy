/** The database administration handlers: listing, creating and deleting
    databases by name, on top of the connection registry. */
module DatabaseController {
  import opened Values
  import opened DatabaseManager

  const NameRequired := "Database name is required"
  const BadName := "Database name can only contain letters, numbers, underscores, and hyphens"
  const DefaultProtected := "Cannot delete the default database"

  /** `req.body.dbName`: absent or `null`, some value that is not a string,
      or a string. */
  datatype NameArg = Missing | NotAString | Text(s: string)

  predicate IsNameChar(c: char) {
    ('a' <= c <= 'z') || ('A' <= c <= 'Z') || ('0' <= c <= '9') || c == '_' || c == '-'
  }

  /** `/^[a-zA-Z0-9_-]+$/.test(s)` */
  predicate IsValidDbName(s: string) {
    |s| > 0 && forall k :: 0 <= k < |s| ==> IsNameChar(s[k])
  }

  /** An accepted name cannot leave the data directory or carry another
      extension, and its file lists under the same name. */
  lemma ValidNameIsPlain(s: string)
    requires IsValidDbName(s)
    ensures '.' !in s && '/' !in s && '\\' !in s
    ensures forall k :: 0 <= k < |s| ==> !IsJsSpace(s[k])
    ensures ListDatabases([s + DbExtension]) == [s]
  {
    assert '.' !in s by {
      forall k | 0 <= k < |s| ensures s[k] != '.' {
        assert IsNameChar(s[k]);
      }
    }
    ListsItsOwnName(s);
  }

  /** The validation chain of `createDatabase`: the error it stops at, if any. */
  function CreateNameError(arg: NameArg): (e: Option<string>)
    ensures e.None? <==> arg.Text? && IsValidDbName(arg.s)
    ensures e == Some(NameRequired) <==> !arg.Text? || arg.s == ""
    ensures e.Some? ==> e.value == NameRequired || e.value == BadName
  {
    if !arg.Text? || arg.s == "" then Some(NameRequired)
    else if !IsValidDbName(arg.s) then Some(BadName)
    else None
  }

  function CreatedMessage(dbName: string): string {
    "Database \"" + dbName + "\" created successfully"
  }

  function DeletedMessage(dbName: string): string {
    "Database \"" + dbName + "\" deleted successfully"
  }

  /** The `data` of a 201 reply: `{dbName}`. */
  datatype CreatedDb = CreatedDb(dbName: string)

  /** `getAllDatabases` on the directory listing `files`. */
  function GetAllDatabases(files: seq<string>): (r: Reply<seq<string>>)
    ensures r == Reply(200, OkData(ListDatabases(files)))
    ensures forall n :: IsValidDbName(n) && n + DbExtension in files ==> n in r.body.data.value
    ensures forall n :: n in r.body.data.value ==>
      exists f :: f in files && EndsWith(f, DbExtension) && n == RemoveFirst(f, DbExtension)
  {
    var names := ListDatabases(files);
    assert forall n :: IsValidDbName(n) && n + DbExtension in files ==> n in names by {
      forall n | IsValidDbName(n) && n + DbExtension in files ensures n in names {
        ValidNameIsPlain(n);
        RemoveOwnExtension(n);
      }
    }
    Reply(200, OkData(names))
  }

  /** `createDatabase`: an accepted name is handed to get-or-create and gets
      201 whether or not the database existed. */
  method CreateDatabase(registry: Registry, arg: NameArg) returns (r: Reply<CreatedDb>)
    requires registry.Valid()
    modifies registry
    ensures registry.Valid()
    ensures CreateNameError(arg).Some? ==>
      r == Reply(400, Err(CreateNameError(arg).value)) && registry.databases == old(registry.databases)
    ensures CreateNameError(arg).None? ==>
      var n := arg.s;
      r == Reply(201, Ok(Some(CreatedDb(n)), Some(CreatedMessage(n)))) &&
      n in registry.databases && registry.databases[n].open &&
      (n in old(registry.databases) ==> registry.databases == old(registry.databases)) &&
      (n !in old(registry.databases) ==>
         registry.databases == old(registry.databases)[n := registry.databases[n]])
  {
    var invalid := CreateNameError(arg);
    if invalid.Some? {
      return Reply(400, Err(invalid.value));
    }
    var dbName := arg.s;
    var db := registry.CreateDatabase(dbName);
    r := Reply(201, Ok(Some(CreatedDb(dbName)), Some(CreatedMessage(dbName))));
  }

  /** The guards of `deleteDatabase`: only the empty name and the default
      database are refused; no character check is made. */
  function DeleteNameError(dbName: string): (e: Option<string>)
    ensures e.None? <==> dbName != "" && dbName != DefaultDbName
    ensures dbName == "" ==> e == Some(NameRequired)
    ensures dbName == DefaultDbName ==> e == Some(DefaultProtected)
  {
    if dbName == "" then Some(NameRequired)
    else if dbName == DefaultDbName then Some(DefaultProtected)
    else None
  }

  /** A name `createDatabase` refuses can still reach deletion. */
  lemma DeleteSkipsTheWhitelist()
    ensures CreateNameError(Text("../data")) == Some(BadName)
    ensures DeleteNameError("../data") == None
  {
    assert !IsNameChar("../data"[0]);
    assert "../data" != DefaultDbName by { assert "../data"[0] != DefaultDbName[0]; }
  }

  /** `deleteDatabase` with the `:dbName` route parameter. */
  method DeleteDatabase(registry: Registry, dbName: string) returns (r: Reply<()>)
    requires registry.Valid()
    modifies registry, registry.databases.Values
    ensures registry.Valid()
    ensures DeleteNameError(dbName).Some? ==>
      r == Reply(400, Err(DeleteNameError(dbName).value)) && registry.databases == old(registry.databases)
    ensures DeleteNameError(dbName).None? ==>
      r == Reply(200, OkMessage(DeletedMessage(dbName))) &&
      registry.databases == old(registry.databases) - {dbName} &&
      (dbName in old(registry.databases) ==> !old(registry.databases)[dbName].open)
  {
    var refused := DeleteNameError(dbName);
    if refused.Some? {
      return Reply(400, Err(refused.value));
    }
    registry.DeleteDatabase(dbName);
    r := Reply(200, OkMessage(DeletedMessage(dbName)));
  }
}
