/** The customer server actions: `createCustomer`, `updateCustomer` and
    `deleteCustomer` over the customer table, whose `code` is unique. */
module Customers {
  import opened Js
  import opened Store
  import opened Parties

  /** A row of the customer table (its id is the table's key). */
  datatype Customer = Customer(
    code: string,
    name: string,
    email: Option<string>,
    country: Option<string>,
    initialBalance: real,
    creditLimit: real,
    customerType: Option<string>,
    details: Details)

  /** The submitted form: each text field as `formData.get` gives it, each
      amount as `parseFloat` reads it (None for NaN). */
  datatype CustomerForm = CustomerForm(
    code: Option<string>,
    name: Option<string>,
    email: Option<string>,
    country: Option<string>,
    initialBalance: Option<real>,
    creditLimit: Option<real>,
    customerType: Option<string>,
    details: Details)

  function CodeOf(c: Customer): string
  {
    c.code
  }

  const DuplicateCode := "Ce code client existe déjà."
  const CreateFailed := "Erreur lors de la création du client."
  const DeleteRefused := "Impossible de supprimer ce client (peut-être lié à des ventes)."

  /** The guard `!code || !name` does not reject the form. */
  predicate RequiredFilled(f: CustomerForm)
  {
    Truthy(f.code) && Truthy(f.name)
  }

  /** The record written from a form; `country` is the one field create and
      update treat differently. */
  function FromForm(f: CustomerForm, country: Option<string>): Customer
    requires RequiredFilled(f)
  {
    Customer(f.code.value, f.name.value, f.email, country,
             RealOr(f.initialBalance, 0.0), RealOr(f.creditLimit, 0.0),
             f.customerType, f.details)
  }

  /** The record `createCustomer` writes: the submitted code, name, email, type
      and text fields, amounts that do not parse as 0, and a country that is
      never empty, Algérie when none was given. */
  function CreatedRecord(f: CustomerForm): (c: Customer)
    requires RequiredFilled(f)
    ensures Some(c.code) == f.code && Some(c.name) == f.name && c.code != "" && c.name != ""
    ensures c.email == f.email && c.customerType == f.customerType && c.details == f.details
    ensures c.initialBalance == (if f.initialBalance.Some? then f.initialBalance.value else 0.0)
    ensures c.creditLimit == (if f.creditLimit.Some? then f.creditLimit.value else 0.0)
    ensures Truthy(c.country)
    ensures c.country == f.country <==> Truthy(f.country)
    ensures !Truthy(f.country) ==> c.country == Some(DefaultCountry)
  {
    FromForm(f, Some(StringOr(f.country, DefaultCountry)))
  }

  /** The record `updateCustomer` writes: the created record with the country
      as submitted, so the two agree whenever a country is given. */
  function UpdatedRecord(f: CustomerForm): (c: Customer)
    requires RequiredFilled(f)
    ensures c == CreatedRecord(f).(country := f.country)
    ensures c == CreatedRecord(f) <==> Truthy(f.country)
  {
    FromForm(f, f.country)
  }

  /** The message a failed create reports. */
  function CreateMessage(e: DbError): (m: string)
    ensures m == DuplicateCode <==> e.code == UniqueViolation
    ensures m == CreateFailed <==> e.code != UniqueViolation
  {
    if e.code == UniqueViolation then DuplicateCode else CreateFailed
  }

  /** The message a failed update reports. */
  function UpdateMessage(e: DbError): (m: string)
    ensures m == DuplicateCode <==> e.code == UniqueViolation
    ensures m == UpdateFailed <==> e.code != UniqueViolation
  {
    if e.code == UniqueViolation then DuplicateCode else UpdateFailed
  }

  /** What `createCustomer` returns and leaves in the table, the new record
      taking id `id`. */
  function CreateOutcome(rows: map<string, Customer>, id: string, f: CustomerForm, connected: bool)
    : (o: Outcome<Customer>)
    ensures !RequiredFilled(f) ==> o == Outcome(Failed(CodeAndNameRequired), rows)
    ensures o.result.success
            <==> RequiredFilled(f) && connected && id !in rows && !CodeInUse(rows, CodeOf, f.code.value, id)
    ensures o.result.success ==> o.result == Succeeded && o.rows == rows[id := CreatedRecord(f)]
    ensures !o.result.success ==> o.rows == rows && o.result.error.Some?
    ensures o.result.error == Some(DuplicateCode)
            <==> RequiredFilled(f) && connected && (id in rows || CodeInUse(rows, CodeOf, f.code.value, id))
    ensures RequiredFilled(f) && !o.result.success && o.result.error != Some(DuplicateCode)
            ==> o.result == Failed(CreateFailed)
  {
    if !RequiredFilled(f) then Outcome(Failed(CodeAndNameRequired), rows)
    else
      var e := CreateError(rows, CodeOf, id, CreatedRecord(f), true, connected);
      if e.None? then Outcome(Succeeded, rows[id := CreatedRecord(f)])
      else Outcome(Failed(CreateMessage(e.value)), rows)
  }

  /** What `updateCustomer(id, form)` returns and leaves in the table. */
  function UpdateOutcome(rows: map<string, Customer>, id: string, f: CustomerForm, connected: bool)
    : (o: Outcome<Customer>)
    ensures !RequiredFilled(f) ==> o == Outcome(Failed(CodeAndNameRequired), rows)
    ensures o.result.success
            <==> RequiredFilled(f) && connected && id in rows && !CodeInUse(rows, CodeOf, f.code.value, id)
    ensures o.result.success ==> o.result == Succeeded && o.rows == rows[id := UpdatedRecord(f)]
    ensures !o.result.success ==> o.rows == rows && o.result.error.Some?
    ensures o.result.error == Some(DuplicateCode)
            <==> RequiredFilled(f) && connected && id in rows && CodeInUse(rows, CodeOf, f.code.value, id)
    ensures RequiredFilled(f) && !o.result.success && o.result.error != Some(DuplicateCode)
            ==> o.result == Failed(UpdateFailed)
  {
    if !RequiredFilled(f) then Outcome(Failed(CodeAndNameRequired), rows)
    else
      var e := UpdateError(rows, CodeOf, id, UpdatedRecord(f), connected);
      if e.None? then Outcome(Succeeded, rows[id := UpdatedRecord(f)])
      else Outcome(Failed(UpdateMessage(e.value)), rows)
  }

  /** What `deleteCustomer(id)` returns and leaves in the table; `linked` holds
      the customers that sales refer to. */
  function DeleteOutcome(rows: map<string, Customer>, linked: set<string>, id: string, connected: bool)
    : (o: Outcome<Customer>)
    ensures o.result.success <==> connected && id in rows && id !in linked
    ensures o.result.success ==> o.result == Succeeded && o.rows == rows - {id}
    ensures !o.result.success ==> o == Outcome(Failed(DeleteRefused), rows)
  {
    if DeleteError(rows, linked, id, connected).None? then Outcome(Succeeded, rows - {id})
    else Outcome(Failed(DeleteRefused), rows)
  }

  /** `createCustomer(formData)`; the database picks the id `newId` for the new row. */
  method CreateCustomer(table: Table<Customer>, newId: string, f: CustomerForm, connected: bool)
    returns (res: ActionResult)
    requires table.Valid() && table.codeOf == CodeOf
    modifies table
    ensures table.Valid() && table.linked == old(table.linked)
    ensures Outcome(res, table.rows) == CreateOutcome(old(table.rows), newId, f, connected)
  {
    if !RequiredFilled(f) {
      return Failed(CodeAndNameRequired);
    }
    var e := table.Create(newId, CreatedRecord(f), true, connected);
    match e
    case None => res := Succeeded;
    case Some(err) => res := Failed(CreateMessage(err));
  }

  /** `updateCustomer(id, formData)`. */
  method UpdateCustomer(table: Table<Customer>, id: string, f: CustomerForm, connected: bool)
    returns (res: ActionResult)
    requires table.Valid() && table.codeOf == CodeOf
    modifies table
    ensures table.Valid() && table.linked == old(table.linked)
    ensures Outcome(res, table.rows) == UpdateOutcome(old(table.rows), id, f, connected)
  {
    if !RequiredFilled(f) {
      return Failed(CodeAndNameRequired);
    }
    var e := table.Update(id, UpdatedRecord(f), connected);
    match e
    case None => res := Succeeded;
    case Some(err) => res := Failed(UpdateMessage(err));
  }

  /** `deleteCustomer(id)`. */
  method DeleteCustomer(table: Table<Customer>, id: string, connected: bool)
    returns (res: ActionResult)
    requires table.Valid()
    modifies table
    ensures table.Valid() && table.linked == old(table.linked)
    ensures Outcome(res, table.rows) == DeleteOutcome(old(table.rows), old(table.linked), id, connected)
  {
    var e := table.Delete(id, connected);
    res := if e.None? then Succeeded else Failed(DeleteRefused);
  }

  /** The stored record carries the submitted fields: code, name, email and the
      other text fields as given; amounts that do not parse become 0; the
      country defaults to Algérie on create only. */
  lemma StoredFields(rows: map<string, Customer>, id: string, f: CustomerForm, connected: bool, creating: bool)
    requires (if creating then CreateOutcome(rows, id, f, connected) else UpdateOutcome(rows, id, f, connected)).result.success
    ensures var c := (if creating then CreateOutcome(rows, id, f, connected) else UpdateOutcome(rows, id, f, connected)).rows[id];
      && Some(c.code) == f.code && Some(c.name) == f.name
      && c.email == f.email && c.customerType == f.customerType && c.details == f.details
      && c.initialBalance == (if f.initialBalance.Some? then f.initialBalance.value else 0.0)
      && c.creditLimit == (if f.creditLimit.Some? then f.creditLimit.value else 0.0)
      && c.country == (if !creating then f.country
                       else if Truthy(f.country) then f.country
                       else Some(DefaultCountry))
  {
  }

  /** Once a create succeeds, any other create with the same code reports the
      duplicate code and leaves the table as it is. */
  lemma CreateThenCreateSameCode(rows: map<string, Customer>, id1: string, id2: string,
                                                    f1: CustomerForm, f2: CustomerForm)
    requires CreateOutcome(rows, id1, f1, true).result.success
    requires RequiredFilled(f2) && f2.code == f1.code
    ensures var after := CreateOutcome(rows, id1, f1, true).rows;
      CreateOutcome(after, id2, f2, true) == Outcome(Failed(DuplicateCode), after)
  {
    var after := CreateOutcome(rows, id1, f1, true).rows;
    assert after[id1] == CreatedRecord(f1);
    if id2 != id1 {
      assert CodeInUse(after, CodeOf, f2.code.value, id2);
    }
  }

  /** Creates and updates keep the codes of the table unique. */
  lemma CreateUpdateKeepCodesUnique(rows: map<string, Customer>, id: string, f: CustomerForm, connected: bool)
    requires UniqueCodes(rows, CodeOf)
    ensures UniqueCodes(CreateOutcome(rows, id, f, connected).rows, CodeOf)
    ensures UniqueCodes(UpdateOutcome(rows, id, f, connected).rows, CodeOf)
  {
  }

  /** After a customer is deleted, updating it fails with the generic message. */
  lemma DeleteThenUpdate(rows: map<string, Customer>, linked: set<string>, id: string, f: CustomerForm)
    requires DeleteOutcome(rows, linked, id, true).result.success
    requires RequiredFilled(f)
    ensures var after := DeleteOutcome(rows, linked, id, true).rows;
      UpdateOutcome(after, id, f, true) == Outcome(Failed(UpdateFailed), after)
  {
  }
}
