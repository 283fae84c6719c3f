/** The connection registry of the back end: a map from database name to an
    open connection, filled on first use and emptied by `deleteDatabase`,
    and the listing of the database files. Opening, closing and deleting the
    files themselves is not modelled; a connection records its name and
    whether it is still open. */
module DatabaseManager {
  import opened Values

  const DefaultDbName := "taxfree"
  const DbExtension := ".db"

  /** A better-sqlite3 connection to `<name>.db`. */
  class Connection {
    const name: string
    var open: bool

    constructor (name: string)
      ensures this.name == name && open
    {
      this.name := name;
      open := true;
    }

    /** `db.close()` */
    method Close()
      modifies this
      ensures !open
    {
      open := false;
    }
  }

  /** `getDatabase(dbName = defaultDbName)`: the name used when none is given. */
  function DbNameOrDefault(dbName: Option<string>): (n: string)
    ensures dbName.None? ==> n == DefaultDbName
    ensures dbName.Some? ==> n == dbName.value
  {
    if dbName.None? then DefaultDbName else dbName.value
  }

  /** The module-level `databases` Map. */
  class Registry {
    var databases: map<string, Connection>

    /** Every entry is an open connection to the database of its key. */
    ghost predicate Valid()
      reads this, databases.Values
    {
      forall n :: n in databases ==> databases[n].name == n && databases[n].open
    }

    /** Module load: `export const db = getDatabase(defaultDbName)`. */
    constructor ()
      ensures Valid()
      ensures databases.Keys == {DefaultDbName}
    {
      var c := new Connection(DefaultDbName);
      databases := map[DefaultDbName := c];
    }

    /** `getDatabase`: the cached connection if there is one, otherwise a new
        connection stored under exactly that name. */
    method GetDatabase(dbName: Option<string>) returns (c: Connection)
      requires Valid()
      modifies this
      ensures Valid()
      ensures var n := DbNameOrDefault(dbName);
        n in databases && databases[n] == c && c.name == n && c.open
      ensures var n := DbNameOrDefault(dbName);
        n in old(databases) ==> c == old(databases)[n] && databases == old(databases)
      ensures var n := DbNameOrDefault(dbName);
        n !in old(databases) ==> fresh(c) && databases == old(databases)[n := c]
    {
      var n := DbNameOrDefault(dbName);
      if n in databases {
        return databases[n];
      }
      c := new Connection(n);
      databases := databases[n := c];
    }

    /** `createDatabase`: get-or-create, the same as `getDatabase` on that name. */
    method CreateDatabase(dbName: string) returns (c: Connection)
      requires Valid()
      modifies this
      ensures Valid()
      ensures dbName in databases && databases[dbName] == c && c.name == dbName && c.open
      ensures dbName in old(databases) ==> c == old(databases)[dbName] && databases == old(databases)
      ensures dbName !in old(databases) ==> fresh(c) && databases == old(databases)[dbName := c]
    {
      if dbName in databases {
        return databases[dbName];
      }
      c := GetDatabase(Some(dbName));
    }

    /** Creating the same database twice: the second call changes nothing
        and hands back the first call's connection. */
    method CreateDatabaseTwice(dbName: string) returns (first: Connection, second: Connection)
      requires Valid()
      modifies this
      ensures Valid()
      ensures first == second && dbName in databases && databases[dbName] == first
      ensures dbName in old(databases) ==> databases == old(databases)
      ensures dbName !in old(databases) ==> databases == old(databases)[dbName := first]
    {
      first := CreateDatabase(dbName);
      ghost var between := databases;
      second := CreateDatabase(dbName);
      assert databases == between;
    }

    /** `deleteDatabase`, registry part: the connection under that name, if
        any, is closed and its entry removed; every other entry stays. */
    method DeleteDatabase(dbName: string)
      requires Valid()
      modifies this, databases.Values
      ensures Valid()
      ensures databases == old(databases) - {dbName}
      ensures dbName in old(databases) ==> !old(databases)[dbName].open
    {
      if dbName in databases {
        var c := databases[dbName];
        c.Close();
        databases := databases - {dbName};
      }
    }
  }

  // ------------------------------------------------------------ file listing

  /** `p` occurs in `s` at position `k`. */
  predicate OccursAt(s: string, p: string, k: nat) {
    k + |p| <= |s| && s[k..k + |p|] == p
  }

  lemma OccursAtTail(s: string, p: string, k: nat)
    requires 1 <= k && 1 <= |s|
    ensures OccursAt(s, p, k) <==> OccursAt(s[1..], p, k - 1)
  {
    if k + |p| <= |s| {
      var t := s[1..];
      var a := s[k..k + |p|];
      var b := t[k - 1..k - 1 + |p|];
      forall i | 0 <= i < |p| ensures a[i] == b[i] {
        assert t[k - 1 + i] == s[k + i];
      }
      assert a == b;
    }
  }

  /** `s.indexOf(p)`: the first position where `p` occurs in `s`. */
  function IndexOf(s: string, p: string): (r: Option<nat>)
    ensures r.Some? ==> OccursAt(s, p, r.value)
    ensures r.Some? ==> forall k: nat :: k < r.value ==> !OccursAt(s, p, k)
    ensures r.None? ==> forall k: nat :: !OccursAt(s, p, k)
    decreases |s|
  {
    if |s| < |p| then None
    else if s[..|p|] == p then Some(0)
    else
      var rest := IndexOf(s[1..], p);
      assert forall k: nat :: 1 <= k ==> (OccursAt(s, p, k) <==> OccursAt(s[1..], p, k - 1)) by {
        forall k: nat | 1 <= k {
          OccursAtTail(s, p, k);
        }
      }
      if rest.None? then None else Some(rest.value + 1)
  }

  /** `s.replace(p, '')` with a string pattern: only the first occurrence goes. */
  function RemoveFirst(s: string, p: string): string {
    match IndexOf(s, p)
    case None => s
    case Some(i) => s[..i] + s[i + |p|..]
  }

  /** `getAllDatabases` on the directory listing `files`: the names ending in
      `.db`, in listing order, each with its first `.db` removed. */
  function ListDatabases(files: seq<string>): (names: seq<string>)
    ensures |names| <= |files|
    ensures forall n :: n in names <==>
      exists f :: f in files && EndsWith(f, DbExtension) && n == RemoveFirst(f, DbExtension)
  {
    if files == [] then []
    else
      var rest := ListDatabases(files[1..]);
      assert forall f :: f in files <==> f == files[0] || f in files[1..];
      (if EndsWith(files[0], DbExtension) then [RemoveFirst(files[0], DbExtension)] else []) + rest
  }

  lemma {:induction false} ListDatabasesAppend(a: seq<string>, b: seq<string>)
    ensures ListDatabases(a + b) == ListDatabases(a) + ListDatabases(b)
  {
    if a == [] {
      assert a + b == b;
    } else {
      assert (a + b)[0] == a[0];
      assert (a + b)[1..] == a[1..] + b;
      ListDatabasesAppend(a[1..], b);
    }
  }

  /** The file of a database whose name has no `.` ends in `.db` and loses
      exactly that suffix. */
  lemma RemoveOwnExtension(n: string)
    requires '.' !in n
    ensures EndsWith(n + DbExtension, DbExtension)
    ensures RemoveFirst(n + DbExtension, DbExtension) == n
  {
    var f := n + DbExtension;
    assert f[|f| - |DbExtension|..] == DbExtension;
    forall k: nat | k < |n| ensures !OccursAt(f, DbExtension, k) {
      assert f[k] == n[k];
    }
    assert OccursAt(f, DbExtension, |n|) by {
      assert f[|n|..|n| + |DbExtension|] == DbExtension;
    }
    assert IndexOf(f, DbExtension) == Some(|n|);
    assert f[..|n|] == n && f[|n| + |DbExtension|..] == "";
    assert n + "" == n;
  }

  /** ... and so lists as that name. */
  lemma ListsItsOwnName(n: string)
    requires '.' !in n
    ensures ListDatabases([n + DbExtension]) == [n]
  {
    RemoveOwnExtension(n);
    var files: seq<string> := [n + DbExtension];
    assert files[1..] == [];
    assert ListDatabases(files) == [RemoveFirst(files[0], DbExtension)] + ListDatabases(files[1..]);
  }

  /** Only the first `.db` is removed: `a.db.db` lists as `a.db`. */
  lemma RemovesFirstOccurrenceOnly()
    ensures RemoveFirst("a.db.db", DbExtension) == "a.db"
  {
    var s := "a.db.db";
    assert !OccursAt(s, DbExtension, 0) by {
      assert s[0..3][0] == 'a';
    }
    assert OccursAt(s, DbExtension, 1) by {
      assert s[1..4] == DbExtension;
    }
    assert IndexOf(s, DbExtension) == Some(1);
    assert s[..1] + s[4..] == "a.db";
  }
}
