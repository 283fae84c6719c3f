/** The two tables that `initDefaultTables` creates in the default database,
    held in memory. Each table is a sequence of rows in ascending `id` order
    (INTEGER PRIMARY KEY AUTOINCREMENT: ids only grow and are never reused),
    plus the counter SQLite keeps for the next id. The statement methods model
    what better-sqlite3's `stmt.run` does for the INSERT, UPDATE and DELETE
    statements the controllers prepare: the rows they change, `changes`,
    `lastInsertRowid`, and the NOT NULL and UNIQUE constraint errors, which
    leave the table as it was. */
module Tables {
  import opened Values

  /** An opaque value of SQLite's CURRENT_TIMESTAMP, supplied by the caller. */
  type Timestamp = int

  /** The error codes better-sqlite3 attaches to a constraint failure. */
  datatype SqlError = ConstraintNotNull | ConstraintUnique

  /** What `stmt.run` gives for an INSERT: `lastInsertRowid`, or the error thrown. */
  datatype InsertResult = Inserted(lastInsertRowid: nat) | InsertFailed(code: SqlError)

  /** What `stmt.run` gives for an UPDATE: `changes`, or the error thrown. */
  datatype WriteResult = Changed(changes: nat) | WriteFailed(code: SqlError)

  // ---------------------------------------------------------------- cards

  /** The columns of `cards` that the INSERT and UPDATE statements set. */
  datatype CardColumns = CardColumns(
    barcode: Option<string>, name: Option<string>, merchant: Option<string>,
    amount: Option<real>, date: Option<string>, note: Option<string>,
    imageUrl: Option<string>, owner: Option<string>)

  /** A row of `cards`. */
  datatype Card = Card(id: nat, cols: CardColumns, userId: int,
                       createdAt: Timestamp, updatedAt: Timestamp)

  /** Table order: ids strictly ascending. */
  predicate CardIdsAscending(rows: seq<Card>) {
    forall i, j :: 0 <= i < j < |rows| ==> rows[i].id < rows[j].id
  }

  /** `ORDER BY ... DESC` order: ids strictly descending. */
  predicate CardIdsDescending(rows: seq<Card>) {
    forall i, j :: 0 <= i < j < |rows| ==> rows[i].id > rows[j].id
  }

  /** Ids strictly ascending and all below the next id to be handed out. */
  predicate CardIdsBelow(rows: seq<Card>, nextId: nat) {
    (forall i :: 0 <= i < |rows| ==> rows[i].id < nextId) &&
    (forall i, j :: 0 <= i < j < |rows| ==> rows[i].id < rows[j].id)
  }

  /** UNIQUE(barcode, user_id) */
  predicate UniqueBarcodes(rows: seq<Card>) {
    forall i, j :: 0 <= i < j < |rows| ==>
      !(rows[i].cols.barcode == rows[j].cols.barcode && rows[i].userId == rows[j].userId)
  }

  /** Some row of `userId` already carries `barcode`. */
  predicate BarcodeTaken(rows: seq<Card>, barcode: Option<string>, userId: int) {
    exists i :: 0 <= i < |rows| && rows[i].cols.barcode == barcode && rows[i].userId == userId
  }

  /** Some row of `userId` other than the one at index `k` carries `barcode`. */
  predicate BarcodeTakenByOther(rows: seq<Card>, k: nat, barcode: Option<string>, userId: int) {
    exists i :: 0 <= i < |rows| && i != k && rows[i].cols.barcode == barcode && rows[i].userId == userId
  }

  /** The row selected by `WHERE id = ? AND user_id = ?`, by index. */
  function OwnedIndex(rows: seq<Card>, id: int, userId: int): (r: Option<nat>)
    ensures r.Some? ==> r.value < |rows| && rows[r.value].id == id && rows[r.value].userId == userId
    ensures r.None? ==> forall i :: 0 <= i < |rows| ==> !(rows[i].id == id && rows[i].userId == userId)
  {
    if rows == [] then None
    else if rows[0].id == id && rows[0].userId == userId then Some(0)
    else match OwnedIndex(rows[1..], id, userId)
      case None => None
      case Some(k) => Some(k + 1)
  }

  class CardTable {
    var rows: seq<Card>
    var nextId: nat

    /** The schema's constraints: unique ascending ids, barcode NOT NULL,
        UNIQUE(barcode, user_id). */
    ghost predicate Valid()
      reads this
    {
      1 <= nextId && CardIdsBelow(rows, nextId) &&
      (forall i :: 0 <= i < |rows| ==> rows[i].cols.barcode.Some?) &&
      UniqueBarcodes(rows)
    }

    /** CREATE TABLE IF NOT EXISTS cards (...) on a fresh database. */
    constructor ()
      ensures Valid() && rows == [] && nextId == 1
    {
      rows, nextId := [], 1;
    }

    /** INSERT INTO cards (barcode, ..., owner, user_id) VALUES (...) */
    method Insert(cols: CardColumns, userId: int, now: Timestamp) returns (r: InsertResult)
      requires Valid()
      modifies this
      ensures Valid()
      ensures cols.barcode.None? ==>
        r == InsertFailed(ConstraintNotNull) && rows == old(rows) && nextId == old(nextId)
      ensures cols.barcode.Some? && BarcodeTaken(old(rows), cols.barcode, userId) ==>
        r == InsertFailed(ConstraintUnique) && rows == old(rows) && nextId == old(nextId)
      ensures cols.barcode.Some? && !BarcodeTaken(old(rows), cols.barcode, userId) ==>
        r == Inserted(old(nextId)) &&
        rows == old(rows) + [Card(old(nextId), cols, userId, now, now)] &&
        nextId == old(nextId) + 1
    {
      if cols.barcode.None? {
        r := InsertFailed(ConstraintNotNull);
      } else if BarcodeTaken(rows, cols.barcode, userId) {
        r := InsertFailed(ConstraintUnique);
      } else {
        r := Inserted(nextId);
        rows := rows + [Card(nextId, cols, userId, now, now)];
        nextId := nextId + 1;
      }
    }

    /** UPDATE cards SET <cols> WHERE id = ? AND user_id = ?; the trigger
        `update_cards_timestamp` then sets `updated_at`. Constraints are only
        checked on a row that matched. */
    method UpdateOwned(id: int, userId: int, cols: CardColumns, now: Timestamp) returns (r: WriteResult)
      requires Valid()
      modifies this
      ensures Valid() && nextId == old(nextId)
      ensures OwnedIndex(old(rows), id, userId).None? ==> r == Changed(0) && rows == old(rows)
      ensures OwnedIndex(old(rows), id, userId).Some? ==>
        var k := OwnedIndex(old(rows), id, userId).value;
        if cols.barcode.None? then
          r == WriteFailed(ConstraintNotNull) && rows == old(rows)
        else if BarcodeTakenByOther(old(rows), k, cols.barcode, userId) then
          r == WriteFailed(ConstraintUnique) && rows == old(rows)
        else
          r == Changed(1) &&
          rows == old(rows)[k := Card(id, cols, userId, old(rows)[k].createdAt, now)]
    {
      var found := OwnedIndex(rows, id, userId);
      if found.None? {
        r := Changed(0);
      } else if cols.barcode.None? {
        r := WriteFailed(ConstraintNotNull);
      } else if BarcodeTakenByOther(rows, found.value, cols.barcode, userId) {
        r := WriteFailed(ConstraintUnique);
      } else {
        var k := found.value;
        rows := rows[k := Card(id, cols, userId, rows[k].createdAt, now)];
        r := Changed(1);
      }
    }

    /** DELETE FROM cards WHERE id = ? AND user_id = ? */
    method DeleteOwned(id: int, userId: int) returns (changes: nat)
      requires Valid()
      modifies this
      ensures Valid() && nextId == old(nextId)
      ensures OwnedIndex(old(rows), id, userId).None? ==> changes == 0 && rows == old(rows)
      ensures OwnedIndex(old(rows), id, userId).Some? ==>
        var k := OwnedIndex(old(rows), id, userId).value;
        changes == 1 && rows == old(rows)[..k] + old(rows)[k + 1..]
    {
      var found := OwnedIndex(rows, id, userId);
      if found.None? {
        changes := 0;
      } else {
        var k := found.value;
        ghost var before := rows;
        rows := rows[..k] + rows[k + 1..];
        assert forall i :: 0 <= i < |rows| ==> rows[i] == if i < k then before[i] else before[i + 1];
        changes := 1;
      }
    }
  }

  // ---------------------------------------------------------------- users

  /** A row of `users`; `password` holds the bcrypt hash, or NULL. */
  datatype User = User(id: nat, name: string, email: string, password: Option<string>,
                       createdAt: Timestamp, updatedAt: Timestamp)

  predicate UserIdsAscending(rows: seq<User>) {
    forall i, j :: 0 <= i < j < |rows| ==> rows[i].id < rows[j].id
  }

  predicate UserIdsDescending(rows: seq<User>) {
    forall i, j :: 0 <= i < j < |rows| ==> rows[i].id > rows[j].id
  }

  predicate UserIdsBelow(rows: seq<User>, nextId: nat) {
    (forall i :: 0 <= i < |rows| ==> rows[i].id < nextId) &&
    (forall i, j :: 0 <= i < j < |rows| ==> rows[i].id < rows[j].id)
  }

  /** `email TEXT NOT NULL UNIQUE` */
  predicate UniqueEmails(rows: seq<User>) {
    forall i, j :: 0 <= i < j < |rows| ==> rows[i].email != rows[j].email
  }

  predicate EmailTaken(rows: seq<User>, email: string) {
    exists i :: 0 <= i < |rows| && rows[i].email == email
  }

  predicate EmailTakenByOther(rows: seq<User>, k: nat, email: string) {
    exists i :: 0 <= i < |rows| && i != k && rows[i].email == email
  }

  /** The row selected by `WHERE id = ?`, by index. */
  function UserIndex(rows: seq<User>, id: int): (r: Option<nat>)
    ensures r.Some? ==> r.value < |rows| && rows[r.value].id == id
    ensures r.None? ==> forall i :: 0 <= i < |rows| ==> rows[i].id != id
  {
    if rows == [] then None
    else if rows[0].id == id then Some(0)
    else match UserIndex(rows[1..], id)
      case None => None
      case Some(k) => Some(k + 1)
  }

  /** `SELECT * FROM users WHERE email = ?` with `.get`: the row, if any. */
  function FindByEmail(rows: seq<User>, email: string): (r: Option<User>)
    ensures r.Some? ==> r.value in rows && r.value.email == email
    ensures r.None? ==> !EmailTaken(rows, email)
  {
    if rows == [] then None
    else if rows[0].email == email then Some(rows[0])
    else FindByEmail(rows[1..], email)
  }

  class UserTable {
    var rows: seq<User>
    var nextId: nat

    /** The schema's constraints: unique ascending ids, UNIQUE(email). */
    ghost predicate Valid()
      reads this
    {
      1 <= nextId && UserIdsBelow(rows, nextId) && UniqueEmails(rows)
    }

    /** CREATE TABLE IF NOT EXISTS users (...) on a fresh database. */
    constructor ()
      ensures Valid() && rows == [] && nextId == 1
    {
      rows, nextId := [], 1;
    }

    /** INSERT INTO users (name, email[, password]) VALUES (...); name and
        email are always present at the two call sites. */
    method Insert(name: string, email: string, password: Option<string>, now: Timestamp)
      returns (r: InsertResult)
      requires Valid()
      modifies this
      ensures Valid()
      ensures EmailTaken(old(rows), email) ==>
        r == InsertFailed(ConstraintUnique) && rows == old(rows) && nextId == old(nextId)
      ensures !EmailTaken(old(rows), email) ==>
        r == Inserted(old(nextId)) &&
        rows == old(rows) + [User(old(nextId), name, email, password, now, now)] &&
        nextId == old(nextId) + 1
    {
      if EmailTaken(rows, email) {
        r := InsertFailed(ConstraintUnique);
      } else {
        r := Inserted(nextId);
        rows := rows + [User(nextId, name, email, password, now, now)];
        nextId := nextId + 1;
      }
    }

    /** UPDATE users SET name = ?, email = ? WHERE id = ?; the trigger
        `update_users_timestamp` then sets `updated_at`. A JSON `null` is
        bound as NULL, which the NOT NULL columns refuse. */
    method Update(id: int, name: Option<string>, email: Option<string>, now: Timestamp)
      returns (r: WriteResult)
      requires Valid()
      modifies this
      ensures Valid() && nextId == old(nextId)
      ensures UserIndex(old(rows), id).None? ==> r == Changed(0) && rows == old(rows)
      ensures UserIndex(old(rows), id).Some? ==>
        var k := UserIndex(old(rows), id).value;
        if name.None? || email.None? then
          r == WriteFailed(ConstraintNotNull) && rows == old(rows)
        else if EmailTakenByOther(old(rows), k, email.value) then
          r == WriteFailed(ConstraintUnique) && rows == old(rows)
        else
          r == Changed(1) &&
          rows == old(rows)[k := old(rows)[k].(name := name.value, email := email.value, updatedAt := now)]
    {
      var found := UserIndex(rows, id);
      if found.None? {
        r := Changed(0);
      } else if name.None? || email.None? {
        r := WriteFailed(ConstraintNotNull);
      } else if EmailTakenByOther(rows, found.value, email.value) {
        r := WriteFailed(ConstraintUnique);
      } else {
        var k := found.value;
        rows := rows[k := rows[k].(name := name.value, email := email.value, updatedAt := now)];
        r := Changed(1);
      }
    }

    /** DELETE FROM users WHERE id = ? */
    method Delete(id: int) returns (changes: nat)
      requires Valid()
      modifies this
      ensures Valid() && nextId == old(nextId)
      ensures UserIndex(old(rows), id).None? ==> changes == 0 && rows == old(rows)
      ensures UserIndex(old(rows), id).Some? ==>
        var k := UserIndex(old(rows), id).value;
        changes == 1 && rows == old(rows)[..k] + old(rows)[k + 1..]
    {
      var found := UserIndex(rows, id);
      if found.None? {
        changes := 0;
      } else {
        var k := found.value;
        ghost var before := rows;
        rows := rows[..k] + rows[k + 1..];
        assert forall i :: 0 <= i < |rows| ==> rows[i] == if i < k then before[i] else before[i + 1];
        changes := 1;
      }
    }
  }
}
