/** The database as the server actions see it: a Prisma table of records keyed
    by id, with one further column under a unique constraint (a customer's or
    supplier's `code`, a product's `sku`), the error codes Prisma raises, and the
    `{ success, error }` objects the actions return. */
module Store {
  import opened Js

  /** A Prisma client error, identified by its `code`. */
  datatype DbError = DbError(code: string)

  /** Unique constraint failed. */
  const UniqueViolation := "P2002"
  /** Foreign key constraint failed. */
  const ForeignKeyViolation := "P2003"
  /** The record to update or delete does not exist. */
  const RecordNotFound := "P2025"
  /** The database server cannot be reached. */
  const ServerUnreachable := "P1001"

  /** The `{ success, error }` object a server action returns. */
  datatype ActionResult = ActionResult(success: bool, error: Option<string>)

  /** `{ success: true }`. */
  const Succeeded := ActionResult(true, None)

  /** `{ success: false, error: message }`. */
  function Failed(message: string): ActionResult
  {
    ActionResult(false, Some(message))
  }

  /** What an action returns together with the table it leaves behind. */
  datatype Outcome<R> = Outcome(result: ActionResult, rows: map<string, R>)

  /** No two records share a value of the unique column. */
  ghost predicate UniqueCodes<R>(rows: map<string, R>, codeOf: R -> string)
  {
    forall i, j :: i in rows && j in rows && codeOf(rows[i]) == codeOf(rows[j]) ==> i == j
  }

  /** Some record other than the one with id `except` has this unique value. */
  predicate CodeInUse<R>(rows: map<string, R>, codeOf: R -> string, code: string, except: string)
  {
    exists i :: i in rows && i != except && codeOf(rows[i]) == code
  }

  /** The error `create` raises for a new record `r` under id `id`, if any.
      `refsResolve` says whether its foreign keys name existing records;
      `connected` whether the server answers. */
  function CreateError<R>(rows: map<string, R>, codeOf: R -> string, id: string, r: R,
                          refsResolve: bool, connected: bool): (e: Option<DbError>)
    ensures e == Some(DbError(UniqueViolation))
            <==> connected && (id in rows || CodeInUse(rows, codeOf, codeOf(r), id))
    ensures e.None? <==> connected && refsResolve && id !in rows && !CodeInUse(rows, codeOf, codeOf(r), id)
    ensures e.None? && UniqueCodes(rows, codeOf) ==> UniqueCodes(rows[id := r], codeOf)
  {
    if !connected then Some(DbError(ServerUnreachable))
    else if id in rows || CodeInUse(rows, codeOf, codeOf(r), id) then Some(DbError(UniqueViolation))
    else if !refsResolve then Some(DbError(ForeignKeyViolation))
    else None
  }

  /** The error `update` raises when the record with id `id` is replaced by `r`, if any. */
  function UpdateError<R>(rows: map<string, R>, codeOf: R -> string, id: string, r: R,
                          connected: bool): (e: Option<DbError>)
    ensures e == Some(DbError(UniqueViolation))
            <==> connected && id in rows && CodeInUse(rows, codeOf, codeOf(r), id)
    ensures e.None? <==> connected && id in rows && !CodeInUse(rows, codeOf, codeOf(r), id)
    ensures e.None? && UniqueCodes(rows, codeOf) ==> UniqueCodes(rows[id := r], codeOf)
  {
    if !connected then Some(DbError(ServerUnreachable))
    else if id !in rows then Some(DbError(RecordNotFound))
    else if CodeInUse(rows, codeOf, codeOf(r), id) then Some(DbError(UniqueViolation))
    else None
  }

  /** The error `delete` raises for the record with id `id`, if any; `linked`
      holds the ids other tables still refer to. */
  function DeleteError<R>(rows: map<string, R>, linked: set<string>, id: string,
                          connected: bool): (e: Option<DbError>)
    ensures e.None? <==> connected && id in rows && id !in linked
    ensures e != Some(DbError(UniqueViolation))
  {
    if !connected then Some(DbError(ServerUnreachable))
    else if id !in rows then Some(DbError(RecordNotFound))
    else if id in linked then Some(DbError(ForeignKeyViolation))
    else None
  }

  /** A table of records of type `R` whose column `codeOf` is unique. */
  class Table<R> {
    const codeOf: R -> string
    var rows: map<string, R>
    /** Ids of records that rows of other tables refer to. */
    var linked: set<string>

    ghost predicate Valid()
      reads this
    {
      UniqueCodes(rows, codeOf) && linked <= rows.Keys
    }

    /** The table as the database holds it when the model starts. */
    constructor (codeOf: R -> string, rows: map<string, R>, linked: set<string>)
      requires UniqueCodes(rows, codeOf) && linked <= rows.Keys
      ensures Valid()
      ensures this.codeOf == codeOf && this.rows == rows && this.linked == linked
    {
      this.codeOf := codeOf;
      this.rows := rows;
      this.linked := linked;
    }

    /** `prisma.<table>.create`: inserts `r` under `id` or raises an error and changes nothing. */
    method Create(id: string, r: R, refsResolve: bool, connected: bool) returns (e: Option<DbError>)
      requires Valid()
      modifies this
      ensures Valid() && linked == old(linked)
      ensures e == CreateError(old(rows), codeOf, id, r, refsResolve, connected)
      ensures rows == if e.None? then old(rows)[id := r] else old(rows)
    {
      e := CreateError(rows, codeOf, id, r, refsResolve, connected);
      if e.None? {
        rows := rows[id := r];
      }
    }

    /** `prisma.<table>.update({ where: { id } })`: replaces the record with id `id` by `r`. */
    method Update(id: string, r: R, connected: bool) returns (e: Option<DbError>)
      requires Valid()
      modifies this
      ensures Valid() && linked == old(linked)
      ensures e == UpdateError(old(rows), codeOf, id, r, connected)
      ensures rows == if e.None? then old(rows)[id := r] else old(rows)
    {
      e := UpdateError(rows, codeOf, id, r, connected);
      if e.None? {
        rows := rows[id := r];
      }
    }

    /** `prisma.<table>.delete({ where: { id } })`: removes the record with id `id`. */
    method Delete(id: string, connected: bool) returns (e: Option<DbError>)
      requires Valid()
      modifies this
      ensures Valid() && linked == old(linked)
      ensures e == DeleteError(old(rows), linked, id, connected)
      ensures rows == if e.None? then old(rows) - {id} else old(rows)
    {
      e := DeleteError(rows, linked, id, connected);
      if e.None? {
        rows := rows - {id};
      }
    }
  }
}
