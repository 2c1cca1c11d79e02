/** The `short-links` table: the entity's columns and the constraints the
    schema puts on them, with the two operations the service uses, a lookup
    by one column (`findOneBy`) and `save` of a new entity. The table is a
    sequence of rows in insertion order; a row's id is its position, standing
    in for the generated uuid. */
module ShortLinkStore {
  import opened Wrappers

  /** `varchar(255)` */
  const VarcharLength := 255

  /** One row of the table. Timestamps are milliseconds since the epoch. */
  datatype ShortLink = ShortLink(
    id: nat,
    originalUrl: string,
    shortCode: string,
    canonicalUrl: string,
    canonicalHash: string,
    expiredAt: Option<int>,
    createdBy: string,
    createdAt: int,
    updatedAt: int)

  /** The partial entity handed to `save`; `createdBy` is missing when the
      request carries no user payload. */
  datatype NewShortLink = NewShortLink(
    originalUrl: string,
    shortCode: string,
    canonicalUrl: string,
    canonicalHash: string,
    createdBy: Option<string>,
    expiredAt: Option<int>)

  /** The constrained columns. */
  datatype Column = ShortCodeColumn | CanonicalHashColumn | CreatedByColumn

  /** The ways PostgreSQL refuses an insert into this table. */
  datatype StoreError =
    | ValueTooLong(column: Column)
    | NotNullViolation(column: Column)
    | UniqueViolation(column: Column)

  /** The error message contains "duplicate key value violates unique constraint". */
  predicate IsDuplicateKey(e: StoreError) {
    e.UniqueViolation?
  }

  /** The value of a key column of a row. */
  function KeyOf(row: ShortLink, column: Column): string {
    match column
    case ShortCodeColumn => row.shortCode
    case CanonicalHashColumn => row.canonicalHash
    case CreatedByColumn => row.createdBy
  }

  /** `findOneBy({ [column]: key })`: the first row, in table order, whose column holds `key`. */
  function FindBy(rows: seq<ShortLink>, column: Column, key: string): (r: Option<ShortLink>)
    ensures r.Some? ==> r.value in rows && KeyOf(r.value, column) == key
    ensures r.None? ==> forall row :: row in rows ==> KeyOf(row, column) != key
  {
    if rows == [] then None
    else if KeyOf(rows[0], column) == key then Some(rows[0])
    else FindBy(rows[1..], column, key)
  }

  /** `findOneBy({ id })` */
  function FindById(rows: seq<ShortLink>, id: nat): (r: Option<ShortLink>)
    ensures r.Some? ==> r.value in rows && r.value.id == id
    ensures r.None? ==> forall row :: row in rows ==> row.id != id
  {
    if rows == [] then None
    else if rows[0].id == id then Some(rows[0])
    else FindById(rows[1..], id)
  }

  /** The row `save` would insert at time `now`, or the constraint it breaks:
      over-long `varchar` values first, then the NOT NULL `createdBy`, then
      the unique `shortCode` and `canonicalHash`. */
  function Insert(rows: seq<ShortLink>, draft: NewShortLink, now: int): (r: Result<ShortLink, StoreError>)
  {
    if |draft.shortCode| > VarcharLength then Failure(ValueTooLong(ShortCodeColumn))
    else if |draft.canonicalHash| > VarcharLength then Failure(ValueTooLong(CanonicalHashColumn))
    else if draft.createdBy.Some? && |draft.createdBy.value| > VarcharLength then Failure(ValueTooLong(CreatedByColumn))
    else if draft.createdBy.None? then Failure(NotNullViolation(CreatedByColumn))
    else if FindBy(rows, ShortCodeColumn, draft.shortCode).Some? then Failure(UniqueViolation(ShortCodeColumn))
    else if FindBy(rows, CanonicalHashColumn, draft.canonicalHash).Some? then Failure(UniqueViolation(CanonicalHashColumn))
    else
      Success(ShortLink(|rows|, draft.originalUrl, draft.shortCode, draft.canonicalUrl, draft.canonicalHash,
                        draft.expiredAt, draft.createdBy.value, now, now))
  }

  /** The table after `save`: one more row on success, unchanged on failure. */
  function AfterSave(rows: seq<ShortLink>, r: Result<ShortLink, StoreError>): seq<ShortLink> {
    if r.Success? then rows + [r.value] else rows
  }

  /** What the schema guarantees of the table: ids are positions, and no two
      rows share a short code or a canonical hash. */
  ghost predicate WellFormed(rows: seq<ShortLink>) {
    && (forall i :: 0 <= i < |rows| ==> rows[i].id == i)
    && (forall i, j :: 0 <= i < j < |rows| ==> rows[i].shortCode != rows[j].shortCode)
    && (forall i, j :: 0 <= i < j < |rows| ==> rows[i].canonicalHash != rows[j].canonicalHash)
  }

  /** `save` succeeds exactly when every constraint holds; the new row holds
      the draft's values with the next id and both timestamps set to `now`. */
  lemma InsertSpec(rows: seq<ShortLink>, draft: NewShortLink, now: int)
    ensures Insert(rows, draft, now).Success? <==>
      && |draft.shortCode| <= VarcharLength
      && |draft.canonicalHash| <= VarcharLength
      && draft.createdBy.Some? && |draft.createdBy.value| <= VarcharLength
      && (forall row :: row in rows ==> row.shortCode != draft.shortCode)
      && (forall row :: row in rows ==> row.canonicalHash != draft.canonicalHash)
    ensures var r := Insert(rows, draft, now);
      r.Success? ==>
        && r.value.id == |rows|
        && r.value.shortCode == draft.shortCode && r.value.canonicalHash == draft.canonicalHash
        && r.value.originalUrl == draft.originalUrl && r.value.canonicalUrl == draft.canonicalUrl
        && Some(r.value.createdBy) == draft.createdBy && r.value.expiredAt == draft.expiredAt
        && r.value.createdAt == now && r.value.updatedAt == now
  {
    var r := Insert(rows, draft, now);
    if r.Failure? && r.error.UniqueViolation? {
      var found := FindBy(rows, r.error.column, if r.error.column == ShortCodeColumn then draft.shortCode else draft.canonicalHash);
      assert found.Some?;
    }
  }

  /** Saving into a well-formed table leaves it well-formed. */
  lemma InsertPreservesWellFormed(rows: seq<ShortLink>, draft: NewShortLink, now: int)
    requires WellFormed(rows)
    ensures WellFormed(AfterSave(rows, Insert(rows, draft, now)))
  {
    var r := Insert(rows, draft, now);
    if r.Success? {
      InsertSpec(rows, draft, now);
      var rows' := rows + [r.value];
      forall i, j | 0 <= i < j < |rows'|
        ensures rows'[i].shortCode != rows'[j].shortCode
        ensures rows'[i].canonicalHash != rows'[j].canonicalHash
      {
        if j == |rows| {
          assert rows'[i] in rows;
        }
      }
    }
  }

  /** A row appended to the table does not change what a lookup already finds. */
  lemma {:induction false} FindByAppend(rows: seq<ShortLink>, row: ShortLink, column: Column, key: string)
    ensures FindBy(rows + [row], column, key)
         == if FindBy(rows, column, key).Some? then FindBy(rows, column, key)
            else if KeyOf(row, column) == key then Some(row) else None
  {
    if rows != [] {
      assert (rows + [row])[1..] == rows[1..] + [row];
      FindByAppend(rows[1..], row, column, key);
    }
  }

  /** A lookup by a key no other row holds finds the row holding it. */
  lemma {:induction false} FindByKey(rows: seq<ShortLink>, column: Column, i: nat)
    requires i < |rows|
    requires forall j :: 0 <= j < i ==> KeyOf(rows[j], column) != KeyOf(rows[i], column)
    ensures FindBy(rows, column, KeyOf(rows[i], column)) == Some(rows[i])
  {
    if i > 0 {
      FindByKey(rows[1..], column, i - 1);
    }
  }

  /** In a well-formed table each row is what a lookup by its short code, by
      its canonical hash or by its id finds. */
  lemma FindByUnique(rows: seq<ShortLink>, i: nat)
    requires WellFormed(rows) && i < |rows|
    ensures FindBy(rows, ShortCodeColumn, rows[i].shortCode) == Some(rows[i])
    ensures FindBy(rows, CanonicalHashColumn, rows[i].canonicalHash) == Some(rows[i])
    ensures FindById(rows, i) == Some(rows[i])
  {
    FindByKey(rows, ShortCodeColumn, i);
    FindByKey(rows, CanonicalHashColumn, i);
    FindByIdShifted(rows, i, 0);
  }

  /** With ids numbered from `offset`, the lookup by id `i + offset` finds row i. */
  lemma {:induction false} FindByIdShifted(rows: seq<ShortLink>, i: nat, offset: nat)
    requires i < |rows|
    requires forall j :: 0 <= j < |rows| ==> rows[j].id == j + offset
    ensures FindById(rows, i + offset) == Some(rows[i])
  {
    if i > 0 {
      assert rows[0].id == offset;
      var tail := rows[1..];
      assert forall j :: 0 <= j < |tail| ==> tail[j].id == j + (offset + 1);
      FindByIdShifted(tail, i - 1, offset + 1);
    }
  }

  /** In a well-formed table a canonical hash or a short code picks out at
      most one row. */
  lemma UniqueKeys(rows: seq<ShortLink>, a: ShortLink, b: ShortLink)
    requires WellFormed(rows) && a in rows && b in rows
    ensures a.canonicalHash == b.canonicalHash ==> a == b
    ensures a.shortCode == b.shortCode ==> a == b
  {
    var i :| 0 <= i < |rows| && rows[i] == a;
    var j :| 0 <= j < |rows| && rows[j] == b;
    if i < j {
      assert rows[i].shortCode != rows[j].shortCode && rows[i].canonicalHash != rows[j].canonicalHash;
    } else if j < i {
      assert rows[j].shortCode != rows[i].shortCode && rows[j].canonicalHash != rows[i].canonicalHash;
    }
  }
}
