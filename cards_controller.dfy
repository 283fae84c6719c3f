/** The card handlers. Every route that reaches them sits behind
    `authenticateToken`, so each handler receives the caller's account id
    (`req.user.id`) and every statement it runs is conjoined with
    `user_id = caller`: a card of another account reads exactly like a card
    that does not exist. */
module CardsController {
  import opened Values
  import opened Tables

  const CardNotFound := "Card not found"
  const BarcodeRequired := "Barcode is required"
  const OwnerRequired := "Owner is required"
  const DuplicateBarcode := "该一维码已存在"
  const CreateFailed := "Failed to create card"
  const UpdateFailed := "Failed to update card"
  const Updated := "Card updated successfully"
  const Deleted := "Card deleted successfully"

  // ------------------------------------------------------------ ownership

  /** The rows of account `u`, in table order. */
  function OwnRows(rows: seq<Card>, u: int): seq<Card> {
    if rows == [] then []
    else (if rows[0].userId == u then [rows[0]] else []) + OwnRows(rows[1..], u)
  }

  lemma {:induction false} OwnRowsAppend(a: seq<Card>, b: seq<Card>, u: int)
    ensures OwnRows(a + b, u) == OwnRows(a, u) + OwnRows(b, u)
  {
    if a == [] {
      assert a + b == b;
    } else {
      var ab := a + b;
      assert ab[0] == a[0];
      assert ab[1..] == a[1..] + b;
      OwnRowsAppend(a[1..], b, u);
      assert OwnRows(ab, u) == (if a[0].userId == u then [a[0]] else []) + OwnRows(a[1..] + b, u);
    }
  }

  /** Appending a row of another account leaves `u`'s rows alone. */
  lemma OwnRowsAppendForeign(rows: seq<Card>, x: Card, u: int)
    requires x.userId != u
    ensures OwnRows(rows + [x], u) == OwnRows(rows, u)
  {
    OwnRowsAppend(rows, [x], u);
    assert OwnRows([x], u) == [] by { assert [x][1..] == []; }
  }

  /** Removing a row of another account leaves `u`'s rows alone. */
  lemma OwnRowsRemoveForeign(rows: seq<Card>, k: nat, u: int)
    requires k < |rows| && rows[k].userId != u
    ensures OwnRows(rows[..k] + rows[k + 1..], u) == OwnRows(rows, u)
  {
    assert rows == rows[..k] + ([rows[k]] + rows[k + 1..]);
    OwnRowsAppend(rows[..k], [rows[k]] + rows[k + 1..], u);
    OwnRowsAppend(rows[..k], rows[k + 1..], u);
    assert ([rows[k]] + rows[k + 1..])[1..] == rows[k + 1..];
  }

  /** Replacing a row of another account by a row of another account leaves
      `u`'s rows alone. */
  lemma OwnRowsReplaceForeign(rows: seq<Card>, k: nat, x: Card, u: int)
    requires k < |rows| && rows[k].userId != u && x.userId != u
    ensures OwnRows(rows[k := x], u) == OwnRows(rows, u)
  {
    var rows' := rows[k := x];
    assert rows == rows[..k] + ([rows[k]] + rows[k + 1..]);
    assert rows' == rows[..k] + ([x] + rows[k + 1..]);
    OwnRowsAppend(rows[..k], [rows[k]] + rows[k + 1..], u);
    OwnRowsAppend(rows[..k], [x] + rows[k + 1..], u);
    assert ([rows[k]] + rows[k + 1..])[1..] == rows[k + 1..];
    assert ([x] + rows[k + 1..])[1..] == rows[k + 1..];
  }

  // ------------------------------------------------------------ getCards

  /** The fixed fragments of the query text, each `?` written as `Placeholder`. */
  const Placeholder := "?"
  const SelectPrefix := "SELECT * FROM cards WHERE user_id = " + Placeholder
  const OrderSuffix := " ORDER BY created_at DESC"
  const AndSeparator := " AND "
  const OwnerCondition := "owner = " + Placeholder
  const MerchantCondition := "merchant = " + Placeholder
  const SearchCondition :=
    "(barcode LIKE " + Placeholder + " OR name LIKE " + Placeholder +
    " OR merchant LIKE " + Placeholder + " OR owner LIKE " + Placeholder + ")"
  /** The owner value the front end sends for "no owner filter". */
  const AllOwners := "全部"

  /** A value bound to a `?` of the prepared statement. */
  datatype SqlParam = IntParam(n: int) | TextParam(s: string)

  /** `req.query`: each parameter absent or a string. */
  datatype CardQuery = CardQuery(owner: Option<string>, merchant: Option<string>, search: Option<string>)

  predicate OwnerFilterOn(q: CardQuery) {
    TruthyText(q.owner) && q.owner.value != AllOwners
  }

  predicate MerchantFilterOn(q: CardQuery) {
    TruthyText(q.merchant)
  }

  predicate SearchOn(q: CardQuery) {
    TruthyText(q.search)
  }

  /** `%${search}%` */
  function SearchTerm(search: string): string {
    "%" + search + "%"
  }

  /** Each filter's condition, present when the filter applies. */
  function OwnerConditions(q: CardQuery): seq<string> {
    if OwnerFilterOn(q) then [OwnerCondition] else []
  }

  function MerchantConditions(q: CardQuery): seq<string> {
    if MerchantFilterOn(q) then [MerchantCondition] else []
  }

  function SearchConditions(q: CardQuery): seq<string> {
    if SearchOn(q) then [SearchCondition] else []
  }

  /** Each filter's parameters, one per `?` of its condition. */
  function OwnerParams(q: CardQuery): seq<SqlParam> {
    if OwnerFilterOn(q) then [TextParam(q.owner.value)] else []
  }

  function MerchantParams(q: CardQuery): seq<SqlParam> {
    if MerchantFilterOn(q) then [TextParam(q.merchant.value)] else []
  }

  function SearchParams(q: CardQuery): seq<SqlParam> {
    if SearchOn(q) then var t := TextParam(SearchTerm(q.search.value)); [t, t, t, t] else []
  }

  /** The filter conditions that apply to `q`, in the order they are added. */
  function ActiveConditions(q: CardQuery): seq<string> {
    OwnerConditions(q) + MerchantConditions(q) + SearchConditions(q)
  }

  /** The parameters bound after the caller's id, in placeholder order. */
  function ActiveParams(q: CardQuery): seq<SqlParam> {
    OwnerParams(q) + MerchantParams(q) + SearchParams(q)
  }

  /** Each condition appended to the clause as its own ` AND ` conjunct. */
  function Conjuncts(conds: seq<string>): string {
    if conds == [] then "" else AndSeparator + conds[0] + Conjuncts(conds[1..])
  }

  /** `' AND ' + conds.join(' AND ')` is the same as appending every condition
      as an ` AND ` conjunct. */
  lemma {:induction false} JoinIsConjuncts(conds: seq<string>)
    requires conds != []
    ensures AndSeparator + Join(conds, AndSeparator) == Conjuncts(conds)
  {
    if |conds| == 1 {
      assert conds[1..] == [];
    } else {
      JoinIsConjuncts(conds[1..]);
    }
  }

  lemma PlaceholdersOfSelect()
    ensures Occurrences(SelectPrefix, '?') == 1
  {
    OccurrencesSkipPrefix("SELECT * FROM cards WHERE user_id = ", Placeholder, '?');
  }

  lemma PlaceholdersOfOwner()
    ensures Occurrences(OwnerCondition, '?') == 1
  {
    OccurrencesSkipPrefix("owner = ", Placeholder, '?');
  }

  lemma PlaceholdersOfMerchant()
    ensures Occurrences(MerchantCondition, '?') == 1
  {
    OccurrencesSkipPrefix("merchant = ", Placeholder, '?');
  }

  lemma PlaceholdersOfSearch()
    ensures Occurrences(SearchCondition, '?') == 4
  {
    var s1 := "(barcode LIKE " + Placeholder;
    var s2 := s1 + " OR name LIKE " + Placeholder;
    var s3 := s2 + " OR merchant LIKE " + Placeholder;
    var s4 := s3 + " OR owner LIKE " + Placeholder;
    OccurrencesSkipPrefix("(barcode LIKE ", Placeholder, '?');
    OccurrencesSkipSuffix(s1, " OR name LIKE ", '?');
    OccurrencesAppend(s1 + " OR name LIKE ", Placeholder, '?');
    OccurrencesSkipSuffix(s2, " OR merchant LIKE ", '?');
    OccurrencesAppend(s2 + " OR merchant LIKE ", Placeholder, '?');
    OccurrencesSkipSuffix(s3, " OR owner LIKE ", '?');
    OccurrencesAppend(s3 + " OR owner LIKE ", Placeholder, '?');
    OccurrencesSkipSuffix(s4, ")", '?');
  }

  /** One condition appended as a conjunct brings its own placeholders only. */
  lemma PlaceholdersOfConjunct(c: string)
    ensures Occurrences(Conjuncts([c]), '?') == Occurrences(c, '?')
  {
    assert [c][1..] == [];
    assert Conjuncts([c]) == AndSeparator + c + "";
    OccurrencesAppend(AndSeparator + c, "", '?');
    OccurrencesSkipPrefix(AndSeparator, c, '?');
  }

  /** The filter clause carries exactly one `?` per parameter bound after the
      caller's id. */
  lemma PlaceholdersOfFilters(q: CardQuery)
    ensures Occurrences(Conjuncts(ActiveConditions(q)), '?') == |ActiveParams(q)|
  {
    var o, m, s := OwnerConditions(q), MerchantConditions(q), SearchConditions(q);
    assert ActiveConditions(q) == o + (m + s);
    ConjunctsAppend(o, m + s);
    ConjunctsAppend(m, s);
    OccurrencesAppend(Conjuncts(o), Conjuncts(m + s), '?');
    OccurrencesAppend(Conjuncts(m), Conjuncts(s), '?');
    if OwnerFilterOn(q) { PlaceholdersOfConjunct(OwnerCondition); PlaceholdersOfOwner(); }
    if MerchantFilterOn(q) { PlaceholdersOfConjunct(MerchantCondition); PlaceholdersOfMerchant(); }
    if SearchOn(q) { PlaceholdersOfConjunct(SearchCondition); PlaceholdersOfSearch(); }
  }

  lemma {:induction false} ConjunctsAppend(a: seq<string>, b: seq<string>)
    ensures Conjuncts(a + b) == Conjuncts(a) + Conjuncts(b)
  {
    if a == [] {
      assert a + b == b;
    } else {
      assert (a + b)[0] == a[0];
      assert (a + b)[1..] == a[1..] + b;
      ConjunctsAppend(a[1..], b);
    }
  }

  /** The conditions and the parameters `getCards` collects from the query
      string, the caller's id bound first. */
  method CollectFilters(userId: int, q: CardQuery) returns (conditions: seq<string>, params: seq<SqlParam>)
    ensures conditions == ActiveConditions(q)
    ensures params == [IntParam(userId)] + ActiveParams(q)
  {
    params := [IntParam(userId)];
    conditions := [];

    if TruthyText(q.owner) && q.owner.value != AllOwners {
      conditions := conditions + [OwnerCondition];
      params := params + [TextParam(q.owner.value)];
    }
    assert conditions == OwnerConditions(q) && params == [IntParam(userId)] + OwnerParams(q);
    if TruthyText(q.merchant) {
      conditions := conditions + [MerchantCondition];
      params := params + [TextParam(q.merchant.value)];
    }
    assert conditions == OwnerConditions(q) + MerchantConditions(q);
    assert params == [IntParam(userId)] + OwnerParams(q) + MerchantParams(q);
    if TruthyText(q.search) {
      conditions := conditions + [SearchCondition];
      var searchTerm := TextParam("%" + q.search.value + "%");
      params := params + [searchTerm, searchTerm, searchTerm, searchTerm];
    }
  }

  /** The query text and the parameter list `getCards` prepares: the caller's
      ownership conjunct always comes first, each filter is appended as an
      ` AND ` conjunct, and every `?` has exactly one parameter. */
  method BuildCardsQuery(userId: int, q: CardQuery) returns (query: string, params: seq<SqlParam>)
    ensures query == SelectPrefix + Conjuncts(ActiveConditions(q)) + OrderSuffix
    ensures SelectPrefix <= query && EndsWith(query, OrderSuffix)
    ensures params == [IntParam(userId)] + ActiveParams(q)
    ensures |params| >= 1 && params[0] == IntParam(userId)
    ensures Occurrences(query, '?') == |params|
  {
    query := SelectPrefix;
    var conditions;
    conditions, params := CollectFilters(userId, q);
    if |conditions| > 0 {
      JoinIsConjuncts(conditions);
      query := query + (AndSeparator + Join(conditions, AndSeparator));
    }
    assert query == SelectPrefix + Conjuncts(conditions);
    query := query + OrderSuffix;

    Framed(SelectPrefix, Conjuncts(conditions), OrderSuffix, '?');
    PlaceholdersOfSelect();
    PlaceholdersOfFilters(q);
  }

  /** `column LIKE pattern` for a column that may be NULL (NULL never matches). */
  predicate LikeColumn(column: Option<string>, pattern: string, like: (string, string) -> bool) {
    column.Some? && like(column.value, pattern)
  }

  /** The WHERE clause of the built query, read as a condition on one row;
      `like` stands for SQLite's LIKE operator. */
  predicate CardMatches(c: Card, caller: int, q: CardQuery, like: (string, string) -> bool) {
    && c.userId == caller
    && (OwnerFilterOn(q) ==> c.cols.owner == Some(q.owner.value))
    && (MerchantFilterOn(q) ==> c.cols.merchant == Some(q.merchant.value))
    && (SearchOn(q) ==>
          var p := SearchTerm(q.search.value);
          LikeColumn(c.cols.barcode, p, like) || LikeColumn(c.cols.name, p, like) ||
          LikeColumn(c.cols.merchant, p, like) || LikeColumn(c.cols.owner, p, like))
  }

  /** The rows the query returns, newest (highest id) first. */
  function ListCards(rows: seq<Card>, caller: int, q: CardQuery, like: (string, string) -> bool): seq<Card> {
    if rows == [] then []
    else
      var last := rows[|rows| - 1];
      (if CardMatches(last, caller, q, like) then [last] else []) +
      ListCards(rows[..|rows| - 1], caller, q, like)
  }

  lemma {:induction false} ListCardsMembers(rows: seq<Card>, caller: int, q: CardQuery, like: (string, string) -> bool)
    ensures forall c :: c in ListCards(rows, caller, q, like) <==> c in rows && CardMatches(c, caller, q, like)
  {
    if rows != [] {
      var init := rows[..|rows| - 1];
      ListCardsMembers(init, caller, q, like);
      assert rows == init + [rows[|rows| - 1]];
    }
  }

  lemma {:induction false} ListCardsNewestFirst(rows: seq<Card>, caller: int, q: CardQuery, like: (string, string) -> bool)
    requires CardIdsAscending(rows)
    ensures CardIdsDescending(ListCards(rows, caller, q, like))
  {
    if rows != [] {
      var init := rows[..|rows| - 1];
      var last := rows[|rows| - 1];
      ListCardsNewestFirst(init, caller, q, like);
      ListCardsMembers(init, caller, q, like);
      var rest := ListCards(init, caller, q, like);
      forall c | c in rest ensures c.id < last.id {
        var i :| 0 <= i < |init| && init[i] == c;
        assert init[i] == rows[i];
      }
      var r := ListCards(rows, caller, q, like);
      if CardMatches(last, caller, q, like) {
        assert r == [last] + rest;
        forall i, j | 0 <= i < j < |r| ensures r[i].id > r[j].id {
          assert r[j] == rest[j - 1];
          if i > 0 {
            assert r[i] == rest[i - 1];
          } else {
            assert r[0] == last;
            assert rest[j - 1] in rest;
          }
        }
      } else {
        assert r == rest;
      }
    }
  }

  /** `getCards`: builds the query and returns the caller's cards that pass
      the filters, newest first. */
  method GetCards(rows: seq<Card>, caller: int, q: CardQuery, like: (string, string) -> bool)
    returns (r: Reply<seq<Card>>)
    ensures r == Reply(200, OkData(ListCards(rows, caller, q, like)))
    ensures forall c :: c in r.body.data.value <==> c in rows && CardMatches(c, caller, q, like)
    ensures forall c :: c in r.body.data.value ==> c.userId == caller
    ensures CardIdsAscending(rows) ==> CardIdsDescending(r.body.data.value)
  {
    var query, params := BuildCardsQuery(caller, q);
    var cards := ListCards(rows, caller, q, like);
    ListCardsMembers(rows, caller, q, like);
    if CardIdsAscending(rows) {
      ListCardsNewestFirst(rows, caller, q, like);
    }
    r := Reply(200, OkData(cards));
  }

  // ------------------------------------------------------------ getCardById

  /** The card `SELECT * FROM cards WHERE id = ? AND user_id = ?` returns. */
  function OwnedCard(rows: seq<Card>, id: int, caller: int): Option<Card> {
    match OwnedIndex(rows, id, caller)
    case None => None
    case Some(k) => Some(rows[k])
  }

  /** `getCardById`: 200 with the card exactly when a card with that id
      belongs to the caller; otherwise the one 404 reply. */
  function GetCardById(rows: seq<Card>, caller: int, id: int): (r: Reply<Card>)
    ensures r.status == 200 <==> exists i :: 0 <= i < |rows| && rows[i].id == id && rows[i].userId == caller
    ensures r.status == 200 ==>
      r.body.Ok? && r.body.data.Some? && r.body.data.value in rows &&
      r.body.data.value.id == id && r.body.data.value.userId == caller
    ensures r.status != 200 ==> r == Reply(404, Err(CardNotFound))
  {
    match OwnedCard(rows, id, caller)
    case None => Reply(404, Err(CardNotFound))
    case Some(c) => Reply(200, OkData(c))
  }

  // ------------------------------------------------------------ getOwners

  /** SQLite's BINARY collation on text: code point order, a proper prefix first. */
  predicate StrLess(a: string, b: string) {
    |b| > 0 && (|a| == 0 || a[0] < b[0] || (a[0] == b[0] && StrLess(a[1..], b[1..])))
  }

  lemma {:induction false} StrLessIrreflexive(a: string)
    ensures !StrLess(a, a)
  {
    if |a| > 0 {
      StrLessIrreflexive(a[1..]);
    }
  }

  lemma {:induction false} StrLessTransitive(a: string, b: string, c: string)
    requires StrLess(a, b) && StrLess(b, c)
    ensures StrLess(a, c)
  {
    if |a| > 0 && a[0] == b[0] && b[0] == c[0] {
      StrLessTransitive(a[1..], b[1..], c[1..]);
    }
  }

  lemma {:induction false} StrLessTotal(a: string, b: string)
    requires a != b
    ensures StrLess(a, b) || StrLess(b, a)
  {
    if |a| > 0 && |b| > 0 && a[0] == b[0] {
      assert a == [a[0]] + a[1..] && b == [b[0]] + b[1..];
      StrLessTotal(a[1..], b[1..]);
    }
  }

  lemma StrLessIsStrictOrder()
    ensures forall a: string :: !StrLess(a, a)
    ensures forall a: string, b: string, c: string :: StrLess(a, b) && StrLess(b, c) ==> StrLess(a, c)
    ensures forall a: string, b: string :: a != b ==> StrLess(a, b) || StrLess(b, a)
  {
    forall a: string ensures !StrLess(a, a) {
      StrLessIrreflexive(a);
    }
    forall a: string, b: string, c: string | StrLess(a, b) && StrLess(b, c) ensures StrLess(a, c) {
      StrLessTransitive(a, b, c);
    }
    forall a: string, b: string | a != b ensures StrLess(a, b) || StrLess(b, a) {
      StrLessTotal(a, b);
    }
  }

  /** Strictly ascending, hence also free of duplicates. */
  predicate Ascending(s: seq<string>) {
    forall i, j :: 0 <= i < j < |s| ==> StrLess(s[i], s[j])
  }

  /** Inserts `x` into an ascending list unless it is already there. */
  function InsertOrdered(x: string, s: seq<string>): (r: seq<string>)
    requires Ascending(s)
    ensures Ascending(r)
    ensures forall y :: y in r <==> y == x || y in s
  {
    StrLessIsStrictOrder();
    if s == [] then [x]
    else if x == s[0] then s
    else if StrLess(x, s[0]) then
      assert forall j :: 0 <= j < |s| ==> StrLess(x, s[j]) by {
        assert forall j :: 0 < j < |s| ==> StrLess(s[0], s[j]);
      }
      [x] + s
    else
      var rest := InsertOrdered(x, s[1..]);
      assert forall y :: y in rest ==> StrLess(s[0], y) by {
        assert forall j :: 0 < j < |s| ==> StrLess(s[0], s[j]);
        assert forall y :: y in s[1..] ==> exists j :: 0 < j < |s| && s[j] == y;
      }
      [s[0]] + rest
  }

  /** `SELECT DISTINCT ... ORDER BY owner` over the selected values. */
  function SortDistinct(xs: seq<string>): (r: seq<string>)
    ensures Ascending(r)
    ensures forall y :: y in r <==> y in xs
  {
    if xs == [] then [] else InsertOrdered(xs[0], SortDistinct(xs[1..]))
  }

  /** `TRIM(owner) != ''`: SQLite's one-argument TRIM strips only spaces. */
  predicate HasNonSpace(s: string) {
    exists i :: 0 <= i < |s| && s[i] != ' '
  }

  /** The owner values that pass `user_id = ? AND owner IS NOT NULL AND
      TRIM(owner) != '' AND LENGTH(TRIM(owner)) > 0`, then `.filter(Boolean)`,
      in table order and with repetitions. */
  function OwnerValues(rows: seq<Card>, caller: int): seq<string> {
    if rows == [] then []
    else
      var o := rows[0].cols.owner;
      (if rows[0].userId == caller && o.Some? && HasNonSpace(o.value) && o.value != "" then [o.value] else []) +
      OwnerValues(rows[1..], caller)
  }

  /** `s` is the owner of some card of `caller` and has a non-space character. */
  predicate IsListedOwner(rows: seq<Card>, caller: int, s: string) {
    exists i :: 0 <= i < |rows| && rows[i].userId == caller && rows[i].cols.owner == Some(s) && HasNonSpace(s)
  }

  lemma {:induction false} OwnerValuesMembers(rows: seq<Card>, caller: int)
    ensures forall s :: s in OwnerValues(rows, caller) <==> IsListedOwner(rows, caller, s)
  {
    if rows != [] {
      OwnerValuesMembers(rows[1..], caller);
      forall s ensures IsListedOwner(rows, caller, s) <==>
        (rows[0].userId == caller && rows[0].cols.owner == Some(s) && HasNonSpace(s)) || IsListedOwner(rows[1..], caller, s)
      {
        if IsListedOwner(rows, caller, s) {
          var i :| 0 <= i < |rows| && rows[i].userId == caller && rows[i].cols.owner == Some(s) && HasNonSpace(s);
          if i > 0 {
            assert rows[1..][i - 1] == rows[i];
          }
        }
        if IsListedOwner(rows[1..], caller, s) {
          var i :| 0 <= i < |rows[1..]| && rows[1..][i].userId == caller && rows[1..][i].cols.owner == Some(s) && HasNonSpace(s);
          assert rows[i + 1] == rows[1..][i];
        }
      }
    }
  }

  /** The outcome of `PRAGMA table_info(cards)`: it threw, or it reported
      whether the two required columns exist. */
  datatype SchemaProbe = ProbeFailed | Columns(hasUserId: bool, hasOwner: bool)

  /** `getOwners`: always a success reply; the caller's distinct non-blank
      owners in ascending order when the schema has both columns, else `[]`. */
  function GetOwners(rows: seq<Card>, caller: int, probe: SchemaProbe): (r: Reply<seq<string>>)
    ensures r.status == 200 && r.body.Ok? && r.body.data.Some?
    ensures probe != Columns(true, true) ==> r.body.data.value == []
    ensures probe == Columns(true, true) ==>
      Ascending(r.body.data.value) &&
      forall s :: s in r.body.data.value <==> IsListedOwner(rows, caller, s)
  {
    if probe.ProbeFailed? || !probe.hasUserId || !probe.hasOwner then
      Reply(200, OkData([]))
    else
      OwnerValuesMembers(rows, caller);
      Reply(200, OkData(SortDistinct(OwnerValues(rows, caller))))
  }

  // ------------------------------------------------------------ writes

  /** `req.body` of a create or update; `userId` is the `user_id` a client may
      put in the body, which no handler reads. */
  datatype CardBody = CardBody(
    barcode: Field<string>, name: Field<string>, merchant: Field<string>,
    amount: Field<real>, date: Field<string>, note: Field<string>,
    imageUrl: Field<string>, owner: Field<string>, userId: Field<int>)

  /** The columns `createCard` inserts: every field `|| null`. */
  function InsertedColumns(b: CardBody): CardColumns {
    CardColumns(OrNull(b.barcode), OrNull(b.name), OrNull(b.merchant), NumberOrNull(b.amount),
                OrNull(b.date), OrNull(b.note), OrNull(b.imageUrl), OrNull(b.owner))
  }

  /** The columns `updateCard` sets: the fields exactly as sent, an unsent
      one as NULL. */
  function UpdatedColumns(b: CardBody): CardColumns {
    CardColumns(Bound(b.barcode), Bound(b.name), Bound(b.merchant), Bound(b.amount),
                Bound(b.date), Bound(b.note), Bound(b.imageUrl), Bound(b.owner))
  }

  /** The fields of a create request that the 201 reply echoes. */
  datatype SentFields = SentFields(
    barcode: Field<string>, name: Field<string>, merchant: Field<string>,
    amount: Field<real>, date: Field<string>, note: Field<string>,
    imageUrl: Field<string>, owner: Field<string>)

  function Echo(b: CardBody): SentFields {
    SentFields(b.barcode, b.name, b.merchant, b.amount, b.date, b.note, b.imageUrl, b.owner)
  }

  /** The `data` of a 201 reply: the id, the fields as sent (a `user_id` in the
      body is not among them) and the caller's id. */
  datatype CreatedCard = CreatedCard(id: nat, sent: SentFields, userId: int)

  /** `createCard` */
  method CreateCard(cards: CardTable, caller: int, body: CardBody, now: Timestamp)
    returns (r: Reply<CreatedCard>)
    requires cards.Valid()
    modifies cards
    ensures cards.Valid()
    ensures !Truthy(body.barcode) ==>
      r == Reply(400, Err(BarcodeRequired)) && cards.rows == old(cards.rows) && cards.nextId == old(cards.nextId)
    ensures Truthy(body.barcode) && !Truthy(body.owner) ==>
      r == Reply(400, Err(OwnerRequired)) && cards.rows == old(cards.rows) && cards.nextId == old(cards.nextId)
    ensures Truthy(body.barcode) && Truthy(body.owner) ==>
      if BarcodeTaken(old(cards.rows), Some(body.barcode.value), caller) then
        r == Reply(400, Err(DuplicateBarcode)) && cards.rows == old(cards.rows) && cards.nextId == old(cards.nextId)
      else
        var id := old(cards.nextId);
        r == Reply(201, OkData(CreatedCard(id, Echo(body), caller))) &&
        cards.rows == old(cards.rows) + [Card(id, InsertedColumns(body), caller, now, now)] &&
        cards.nextId == id + 1
    ensures forall u :: u != caller ==> OwnRows(cards.rows, u) == OwnRows(old(cards.rows), u)
  {
    if !Truthy(body.barcode) {
      return Reply(400, Err(BarcodeRequired));
    }
    if !Truthy(body.owner) {
      return Reply(400, Err(OwnerRequired));
    }
    ghost var before := cards.rows;
    var result := cards.Insert(InsertedColumns(body), caller, now);
    match result {
      case Inserted(rowid) =>
        r := Reply(201, OkData(CreatedCard(rowid, Echo(body), caller)));
      case InsertFailed(code) =>
        r := if code == ConstraintUnique then Reply(400, Err(DuplicateBarcode)) else Reply(500, Err(CreateFailed));
    }
    forall u | u != caller ensures OwnRows(cards.rows, u) == OwnRows(old(cards.rows), u) {
      if result.Inserted? {
        var added := Card(result.lastInsertRowid, InsertedColumns(body), caller, now, now);
        assert cards.rows == before + [added];
        OwnRowsAppendForeign(before, added, u);
      }
    }
  }

  /** `updateCard` */
  method UpdateCard(cards: CardTable, caller: int, id: int, body: CardBody, now: Timestamp)
    returns (r: Reply<()>)
    requires cards.Valid()
    modifies cards
    ensures cards.Valid() && cards.nextId == old(cards.nextId)
    ensures !Truthy(body.owner) ==>
      r == Reply(400, Err(OwnerRequired)) && cards.rows == old(cards.rows)
    ensures Truthy(body.owner) ==>
      match OwnedIndex(old(cards.rows), id, caller)
      case None =>
        r == Reply(404, Err(CardNotFound)) && cards.rows == old(cards.rows)
      case Some(k) =>
        var cols := UpdatedColumns(body);
        if cols.barcode.None? || BarcodeTakenByOther(old(cards.rows), k, cols.barcode, caller) then
          r == Reply(500, Err(UpdateFailed)) && cards.rows == old(cards.rows)
        else
          r == Reply(200, OkMessage(Updated)) &&
          cards.rows == old(cards.rows)[k := Card(id, cols, caller, old(cards.rows)[k].createdAt, now)]
    ensures forall u :: u != caller ==> OwnRows(cards.rows, u) == OwnRows(old(cards.rows), u)
  {
    if !Truthy(body.owner) {
      return Reply(400, Err(OwnerRequired));
    }
    var found := OwnedIndex(cards.rows, id, caller);
    var result := cards.UpdateOwned(id, caller, UpdatedColumns(body), now);
    match result {
      case WriteFailed(_) =>
        r := Reply(500, Err(UpdateFailed));
      case Changed(changes) =>
        r := if changes == 0 then Reply(404, Err(CardNotFound)) else Reply(200, OkMessage(Updated));
    }
    forall u | u != caller ensures OwnRows(cards.rows, u) == OwnRows(old(cards.rows), u) {
      if found.Some? && cards.rows != old(cards.rows) {
        OwnRowsReplaceForeign(old(cards.rows), found.value, cards.rows[found.value], u);
      }
    }
  }

  /** `deleteCard` */
  method DeleteCard(cards: CardTable, caller: int, id: int) returns (r: Reply<()>)
    requires cards.Valid()
    modifies cards
    ensures cards.Valid() && cards.nextId == old(cards.nextId)
    ensures match OwnedIndex(old(cards.rows), id, caller)
      case None =>
        r == Reply(404, Err(CardNotFound)) && cards.rows == old(cards.rows)
      case Some(k) =>
        r == Reply(200, OkMessage(Deleted)) && cards.rows == old(cards.rows)[..k] + old(cards.rows)[k + 1..]
    ensures forall u :: u != caller ==> OwnRows(cards.rows, u) == OwnRows(old(cards.rows), u)
  {
    var found := OwnedIndex(cards.rows, id, caller);
    var changes := cards.DeleteOwned(id, caller);
    if changes == 0 {
      r := Reply(404, Err(CardNotFound));
    } else {
      r := Reply(200, OkMessage(Deleted));
    }
    forall u | u != caller ensures OwnRows(cards.rows, u) == OwnRows(old(cards.rows), u) {
      if found.Some? {
        OwnRowsRemoveForeign(old(cards.rows), found.value, u);
      }
    }
  }

  // ------------------------------------------------------------ isolation

  lemma {:induction false} OwnedCardInOwnRows(rows: seq<Card>, id: int, caller: int)
    ensures OwnedCard(rows, id, caller) == OwnedCard(OwnRows(rows, caller), id, caller)
  {
    if rows != [] {
      OwnedCardInOwnRows(rows[1..], id, caller);
      var own := OwnRows(rows[1..], caller);
      assert rows == [rows[0]] + rows[1..];
      OwnedCardCons(rows[0], rows[1..], id, caller);
      if rows[0].userId == caller {
        assert OwnRows(rows, caller) == [rows[0]] + own;
        OwnedCardCons(rows[0], own, id, caller);
      } else {
        assert OwnRows(rows, caller) == own;
      }
    }
  }

  lemma OwnedCardCons(x: Card, rest: seq<Card>, id: int, caller: int)
    ensures OwnedCard([x] + rest, id, caller) ==
      if x.id == id && x.userId == caller then Some(x) else OwnedCard(rest, id, caller)
  {
    assert ([x] + rest)[0] == x;
    assert ([x] + rest)[1..] == rest;
    match OwnedIndex(rest, id, caller)
    case None =>
    case Some(k) => assert ([x] + rest)[k + 1] == rest[k];
  }

  lemma {:induction false} ListCardsInOwnRows(rows: seq<Card>, caller: int, q: CardQuery, like: (string, string) -> bool)
    ensures ListCards(rows, caller, q, like) == ListCards(OwnRows(rows, caller), caller, q, like)
  {
    if rows != [] {
      var init, last := rows[..|rows| - 1], rows[|rows| - 1];
      assert rows == init + [last];
      ListCardsInOwnRows(init, caller, q, like);
      OwnRowsAppend(init, [last], caller);
      assert [last][1..] == [];
      var own := OwnRows(init, caller);
      if last.userId == caller {
        assert OwnRows(rows, caller) == own + [last];
        assert (own + [last])[..|own + [last]| - 1] == own;
      } else {
        assert OwnRows(rows, caller) == own;
      }
    }
  }

  lemma {:induction false} OwnerValuesInOwnRows(rows: seq<Card>, caller: int)
    ensures OwnerValues(rows, caller) == OwnerValues(OwnRows(rows, caller), caller)
  {
    if rows != [] {
      OwnerValuesInOwnRows(rows[1..], caller);
      var own := OwnRows(rows[1..], caller);
      if rows[0].userId == caller {
        assert OwnRows(rows, caller) == [rows[0]] + own;
        assert ([rows[0]] + own)[1..] == own;
      } else {
        assert OwnRows(rows, caller) == own;
      }
    }
  }

  /** Everything the read handlers answer the caller is determined by the
      caller's own cards. */
  lemma ReadsDependOnOwnRowsOnly(rows: seq<Card>, caller: int, id: int, q: CardQuery,
                                 like: (string, string) -> bool, probe: SchemaProbe)
    ensures GetCardById(rows, caller, id) == GetCardById(OwnRows(rows, caller), caller, id)
    ensures ListCards(rows, caller, q, like) == ListCards(OwnRows(rows, caller), caller, q, like)
    ensures GetOwners(rows, caller, probe) == GetOwners(OwnRows(rows, caller), caller, probe)
  {
    OwnedCardInOwnRows(rows, id, caller);
    ListCardsInOwnRows(rows, caller, q, like);
    OwnerValuesInOwnRows(rows, caller);
  }

  /** A card of another account is indistinguishable from no card at all:
      taking it out of the table changes no reply to the caller. */
  lemma ForeignCardIsInvisible(rows: seq<Card>, k: nat, caller: int, id: int, q: CardQuery,
                               like: (string, string) -> bool, probe: SchemaProbe)
    requires k < |rows| && rows[k].userId != caller
    ensures GetCardById(rows, caller, id) == GetCardById(rows[..k] + rows[k + 1..], caller, id)
    ensures ListCards(rows, caller, q, like) == ListCards(rows[..k] + rows[k + 1..], caller, q, like)
    ensures GetOwners(rows, caller, probe) == GetOwners(rows[..k] + rows[k + 1..], caller, probe)
  {
    OwnRowsRemoveForeign(rows, k, caller);
    ReadsDependOnOwnRowsOnly(rows, caller, id, q, like, probe);
    ReadsDependOnOwnRowsOnly(rows[..k] + rows[k + 1..], caller, id, q, like, probe);
  }
}
