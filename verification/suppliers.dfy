/** The supplier server actions: `createSupplier`, `updateSupplier` and
    `deleteSupplier` over the supplier table, whose `code` is unique. */
module Suppliers {
  import opened Js
  import opened Store
  import opened Parties

  /** A row of the supplier table (its id is the table's key). */
  datatype Supplier = Supplier(
    code: string,
    name: string,
    email: Option<string>,
    country: Option<string>,
    initialBalance: real,
    details: Details)

  /** The submitted form: each text field as `formData.get` gives it, the
      initial balance as `parseFloat` reads it (None for NaN). */
  datatype SupplierForm = SupplierForm(
    code: Option<string>,
    name: Option<string>,
    email: Option<string>,
    country: Option<string>,
    initialBalance: Option<real>,
    details: Details)

  function CodeOf(c: Supplier): string
  {
    c.code
  }

  const DuplicateCode := "Ce code fournisseur existe déjà."
  const CreateFailed := "Erreur lors de la création du fournisseur."
  const DeleteRefused := "Impossible de supprimer ce fournisseur (peut-être lié à des achats)."

  /** The guard `!code || !name` does not reject the form. */
  predicate RequiredFilled(f: SupplierForm)
  {
    Truthy(f.code) && Truthy(f.name)
  }

  /** The record written from a form; `country` is the one field create and
      update treat differently. */
  function FromForm(f: SupplierForm, country: Option<string>): Supplier
    requires RequiredFilled(f)
  {
    Supplier(f.code.value, f.name.value, f.email, country,
             RealOr(f.initialBalance, 0.0), f.details)
  }

  /** The record `createSupplier` writes: the submitted code, name, email and
      text fields, a balance that does not parse as 0, and a country that is
      never empty, Algérie when none was given. */
  function CreatedRecord(f: SupplierForm): (c: Supplier)
    requires RequiredFilled(f)
    ensures Some(c.code) == f.code && Some(c.name) == f.name && c.code != "" && c.name != ""
    ensures c.email == f.email && c.details == f.details
    ensures c.initialBalance == (if f.initialBalance.Some? then f.initialBalance.value else 0.0)
    ensures Truthy(c.country)
    ensures c.country == f.country <==> Truthy(f.country)
    ensures !Truthy(f.country) ==> c.country == Some(DefaultCountry)
  {
    FromForm(f, Some(StringOr(f.country, DefaultCountry)))
  }

  /** The record `updateSupplier` writes: the created record with the country
      as submitted, so the two agree whenever a country is given. */
  function UpdatedRecord(f: SupplierForm): (c: Supplier)
    requires RequiredFilled(f)
    ensures c == CreatedRecord(f).(country := f.country)
    ensures c == CreatedRecord(f) <==> Truthy(f.country)
  {
    FromForm(f, f.country)
  }

  /** The message a failed create reports. */
  function CreateMessage(e: DbError): (m: string)
    ensures m == DuplicateCode <==> e.code == UniqueViolation
    ensures m == CreateFailed <==> e.code != UniqueViolation
  {
    if e.code == UniqueViolation then DuplicateCode else CreateFailed
  }

  /** The message a failed update reports. */
  function UpdateMessage(e: DbError): (m: string)
    ensures m == DuplicateCode <==> e.code == UniqueViolation
    ensures m == UpdateFailed <==> e.code != UniqueViolation
  {
    if e.code == UniqueViolation then DuplicateCode else UpdateFailed
  }

  /** What `createSupplier` returns and leaves in the table, the new record
      taking id `id`. */
  function CreateOutcome(rows: map<string, Supplier>, id: string, f: SupplierForm, connected: bool)
    : (o: Outcome<Supplier>)
    ensures !RequiredFilled(f) ==> o == Outcome(Failed(CodeAndNameRequired), rows)
    ensures o.result.success
            <==> RequiredFilled(f) && connected && id !in rows && !CodeInUse(rows, CodeOf, f.code.value, id)
    ensures o.result.success ==> o.result == Succeeded && o.rows == rows[id := CreatedRecord(f)]
    ensures !o.result.success ==> o.rows == rows && o.result.error.Some?
    ensures o.result.error == Some(DuplicateCode)
            <==> RequiredFilled(f) && connected && (id in rows || CodeInUse(rows, CodeOf, f.code.value, id))
    ensures RequiredFilled(f) && !o.result.success && o.result.error != Some(DuplicateCode)
            ==> o.result == Failed(CreateFailed)
  {
    if !RequiredFilled(f) then Outcome(Failed(CodeAndNameRequired), rows)
    else
      var e := CreateError(rows, CodeOf, id, CreatedRecord(f), true, connected);
      if e.None? then Outcome(Succeeded, rows[id := CreatedRecord(f)])
      else Outcome(Failed(CreateMessage(e.value)), rows)
  }

  /** What `updateSupplier(id, form)` returns and leaves in the table. */
  function UpdateOutcome(rows: map<string, Supplier>, id: string, f: SupplierForm, connected: bool)
    : (o: Outcome<Supplier>)
    ensures !RequiredFilled(f) ==> o == Outcome(Failed(CodeAndNameRequired), rows)
    ensures o.result.success
            <==> RequiredFilled(f) && connected && id in rows && !CodeInUse(rows, CodeOf, f.code.value, id)
    ensures o.result.success ==> o.result == Succeeded && o.rows == rows[id := UpdatedRecord(f)]
    ensures !o.result.success ==> o.rows == rows && o.result.error.Some?
    ensures o.result.error == Some(DuplicateCode)
            <==> RequiredFilled(f) && connected && id in rows && CodeInUse(rows, CodeOf, f.code.value, id)
    ensures RequiredFilled(f) && !o.result.success && o.result.error != Some(DuplicateCode)
            ==> o.result == Failed(UpdateFailed)
  {
    if !RequiredFilled(f) then Outcome(Failed(CodeAndNameRequired), rows)
    else
      var e := UpdateError(rows, CodeOf, id, UpdatedRecord(f), connected);
      if e.None? then Outcome(Succeeded, rows[id := UpdatedRecord(f)])
      else Outcome(Failed(UpdateMessage(e.value)), rows)
  }

  /** What `deleteSupplier(id)` returns and leaves in the table; `linked` holds
      the suppliers that purchases refer to. */
  function DeleteOutcome(rows: map<string, Supplier>, linked: set<string>, id: string, connected: bool)
    : (o: Outcome<Supplier>)
    ensures o.result.success <==> connected && id in rows && id !in linked
    ensures o.result.success ==> o.result == Succeeded && o.rows == rows - {id}
    ensures !o.result.success ==> o == Outcome(Failed(DeleteRefused), rows)
  {
    if DeleteError(rows, linked, id, connected).None? then Outcome(Succeeded, rows - {id})
    else Outcome(Failed(DeleteRefused), rows)
  }

  /** `createSupplier(formData)`; the database picks the id `newId` for the new row. */
  method CreateSupplier(table: Table<Supplier>, newId: string, f: SupplierForm, connected: bool)
    returns (res: ActionResult)
    requires table.Valid() && table.codeOf == CodeOf
    modifies table
    ensures table.Valid() && table.linked == old(table.linked)
    ensures Outcome(res, table.rows) == CreateOutcome(old(table.rows), newId, f, connected)
  {
    if !RequiredFilled(f) {
      return Failed(CodeAndNameRequired);
    }
    var e := table.Create(newId, CreatedRecord(f), true, connected);
    match e
    case None => res := Succeeded;
    case Some(err) => res := Failed(CreateMessage(err));
  }

  /** `updateSupplier(id, formData)`. */
  method UpdateSupplier(table: Table<Supplier>, id: string, f: SupplierForm, connected: bool)
    returns (res: ActionResult)
    requires table.Valid() && table.codeOf == CodeOf
    modifies table
    ensures table.Valid() && table.linked == old(table.linked)
    ensures Outcome(res, table.rows) == UpdateOutcome(old(table.rows), id, f, connected)
  {
    if !RequiredFilled(f) {
      return Failed(CodeAndNameRequired);
    }
    var e := table.Update(id, UpdatedRecord(f), connected);
    match e
    case None => res := Succeeded;
    case Some(err) => res := Failed(UpdateMessage(err));
  }

  /** `deleteSupplier(id)`. */
  method DeleteSupplier(table: Table<Supplier>, id: string, connected: bool)
    returns (res: ActionResult)
    requires table.Valid()
    modifies table
    ensures table.Valid() && table.linked == old(table.linked)
    ensures Outcome(res, table.rows) == DeleteOutcome(old(table.rows), old(table.linked), id, connected)
  {
    var e := table.Delete(id, connected);
    res := if e.None? then Succeeded else Failed(DeleteRefused);
  }

  /** The stored record carries the submitted fields: code, name, email and the
      other text fields as given; an initial balance that does not parse becomes 0; the
      country defaults to Algérie on create only. */
  lemma StoredFields(rows: map<string, Supplier>, id: string, f: SupplierForm, connected: bool, creating: bool)
    requires (if creating then CreateOutcome(rows, id, f, connected) else UpdateOutcome(rows, id, f, connected)).result.success
    ensures var c := (if creating then CreateOutcome(rows, id, f, connected) else UpdateOutcome(rows, id, f, connected)).rows[id];
      && Some(c.code) == f.code && Some(c.name) == f.name
      && c.email == f.email && c.details == f.details
      && c.initialBalance == (if f.initialBalance.Some? then f.initialBalance.value else 0.0)
      && c.country == (if !creating then f.country
                       else if Truthy(f.country) then f.country
                       else Some(DefaultCountry))
  {
  }

  /** Once a create succeeds, any other create with the same code reports the
      duplicate code and leaves the table as it is. */
  lemma CreateThenCreateSameCode(rows: map<string, Supplier>, id1: string, id2: string,
                                                    f1: SupplierForm, f2: SupplierForm)
    requires CreateOutcome(rows, id1, f1, true).result.success
    requires RequiredFilled(f2) && f2.code == f1.code
    ensures var after := CreateOutcome(rows, id1, f1, true).rows;
      CreateOutcome(after, id2, f2, true) == Outcome(Failed(DuplicateCode), after)
  {
    var after := CreateOutcome(rows, id1, f1, true).rows;
    assert after[id1] == CreatedRecord(f1);
    if id2 != id1 {
      assert CodeInUse(after, CodeOf, f2.code.value, id2);
    }
  }

  /** Creates and updates keep the codes of the table unique. */
  lemma CreateUpdateKeepCodesUnique(rows: map<string, Supplier>, id: string, f: SupplierForm, connected: bool)
    requires UniqueCodes(rows, CodeOf)
    ensures UniqueCodes(CreateOutcome(rows, id, f, connected).rows, CodeOf)
    ensures UniqueCodes(UpdateOutcome(rows, id, f, connected).rows, CodeOf)
  {
  }

  /** After a supplier is deleted, updating it fails with the generic message. */
  lemma DeleteThenUpdate(rows: map<string, Supplier>, linked: set<string>, id: string, f: SupplierForm)
    requires DeleteOutcome(rows, linked, id, true).result.success
    requires RequiredFilled(f)
    ensures var after := DeleteOutcome(rows, linked, id, true).rows;
      UpdateOutcome(after, id, f, true) == Outcome(Failed(UpdateFailed), after)
  {
  }
}
