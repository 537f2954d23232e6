/** `createProduct`: checks the required fields of the product form, fills in
    the defaults and writes the product to the product table, whose `sku` is
    unique and whose category and unit must exist. */
module Products {
  import opened Js
  import opened Store

  /** A row of the product table as `createProduct` writes it. */
  datatype ProductRecord = ProductRecord(
    name: string,
    sku: string,
    categoryId: string,
    unitId: string,
    minStock: int,
    tva: real,
    description: Option<string>,
    originCountry: string)

  /** The submitted form: text fields as `formData.get` gives them, `minStock`
      as `parseInt` reads it and `tva` as `parseFloat` reads it (None for NaN). */
  datatype ProductForm = ProductForm(
    name: Option<string>,
    sku: Option<string>,
    categoryId: Option<string>,
    unitId: Option<string>,
    minStock: Option<int>,
    tva: Option<real>,
    description: Option<string>)

  function SkuOf(p: ProductRecord): string
  {
    p.sku
  }

  const RequiredMissing := "Veuillez remplir tous les champs obligatoires."
  const CreateFailed := "Erreur lors de la création (SKU dupliqué ?)."
  const DefaultMinStock := 10
  const OriginCountry := "Algérie"

  /** The guard `!name || !sku || !categoryId || !unitId` does not reject the form. */
  predicate RequiredFilled(f: ProductForm)
  {
    Truthy(f.name) && Truthy(f.sku) && Truthy(f.categoryId) && Truthy(f.unitId)
  }

  /** `parseInt(minStock) || 10`: an unreadable threshold and an explicit 0
      both become 10, so the stored threshold is never 0. */
  function MinStockOf(parsed: Option<int>): (m: int)
    ensures m != 0
    ensures m == DefaultMinStock <==> parsed.None? || parsed.value in {0, DefaultMinStock}
    ensures m != DefaultMinStock ==> m == parsed.value
  {
    IntOr(parsed, DefaultMinStock)
  }

  /** `parseFloat(tva) || 0`: an unreadable rate becomes 0, any other is kept. */
  function TvaOf(parsed: Option<real>): (t: real)
    ensures t == if parsed.Some? then parsed.value else 0.0
  {
    RealOr(parsed, 0.0)
  }

  /** The record `createProduct` writes: the submitted name, SKU, category,
      unit and description, a threshold of 10 when none parses or 0 is given,
      a VAT rate of 0 when none parses, and the origin Algérie. */
  function NewProduct(f: ProductForm): (p: ProductRecord)
    requires RequiredFilled(f)
    ensures Some(p.name) == f.name && Some(p.sku) == f.sku && p.name != "" && p.sku != ""
    ensures Some(p.categoryId) == f.categoryId && Some(p.unitId) == f.unitId
    ensures p.description == f.description && p.originCountry == OriginCountry
    ensures p.minStock == if f.minStock.None? || f.minStock.value == 0 then DefaultMinStock else f.minStock.value
    ensures p.tva == if f.tva.Some? then f.tva.value else 0.0
  {
    ProductRecord(f.name.value, f.sku.value, f.categoryId.value, f.unitId.value,
                  MinStockOf(f.minStock), TvaOf(f.tva), f.description, OriginCountry)
  }

  /** What `createProduct` returns and leaves in the table, the new product
      taking id `id`; `categories` and `units` are the ids of the existing
      categories and units. */
  function CreateOutcome(rows: map<string, ProductRecord>, id: string, f: ProductForm,
                         categories: set<string>, units: set<string>, connected: bool)
    : (o: Outcome<ProductRecord>)
    ensures !RequiredFilled(f) ==> o == Outcome(Failed(RequiredMissing), rows)
    ensures o.result.success
            <==> && RequiredFilled(f) && connected && id !in rows
                 && !CodeInUse(rows, SkuOf, f.sku.value, id)
                 && f.categoryId.value in categories && f.unitId.value in units
    ensures o.result.success ==> o.result == Succeeded && o.rows == rows[id := NewProduct(f)]
    ensures RequiredFilled(f) && !o.result.success ==> o == Outcome(Failed(CreateFailed), rows)
  {
    if !RequiredFilled(f) then Outcome(Failed(RequiredMissing), rows)
    else
      var refs := f.categoryId.value in categories && f.unitId.value in units;
      if CreateError(rows, SkuOf, id, NewProduct(f), refs, connected).None?
      then Outcome(Succeeded, rows[id := NewProduct(f)])
      else Outcome(Failed(CreateFailed), rows)
  }

  /** `createProduct(formData)`; the database picks the id `newId` for the new row. */
  method CreateProduct(table: Table<ProductRecord>, newId: string, f: ProductForm,
                       categories: set<string>, units: set<string>, connected: bool)
    returns (res: ActionResult)
    requires table.Valid() && table.codeOf == SkuOf
    modifies table
    ensures table.Valid() && table.linked == old(table.linked)
    ensures Outcome(res, table.rows) == CreateOutcome(old(table.rows), newId, f, categories, units, connected)
  {
    if !RequiredFilled(f) {
      return Failed(RequiredMissing);
    }
    var refs := f.categoryId.value in categories && f.unitId.value in units;
    var e := table.Create(newId, NewProduct(f), refs, connected);
    res := if e.None? then Succeeded else Failed(CreateFailed);
  }

  /** A product is stored with its threshold defaulted and the fixed origin:
      an explicit 0 is stored as 10. */
  lemma StoredProduct(rows: map<string, ProductRecord>, id: string, f: ProductForm,
                      categories: set<string>, units: set<string>, connected: bool)
    requires CreateOutcome(rows, id, f, categories, units, connected).result.success
    ensures var p := CreateOutcome(rows, id, f, categories, units, connected).rows[id];
      && Some(p.name) == f.name && Some(p.sku) == f.sku
      && Some(p.categoryId) == f.categoryId && Some(p.unitId) == f.unitId
      && p.description == f.description && p.originCountry == OriginCountry
      && (f.minStock == Some(0) ==> p.minStock == DefaultMinStock)
      && (f.minStock.None? ==> p.minStock == DefaultMinStock)
      && (p.minStock > 0 <==> f.minStock.None? || f.minStock.value >= 0)
  {
  }

  /** Once a product is created, another product with the same SKU is refused
      and the table stays as it is. */
  lemma DuplicateSkuRefused(rows: map<string, ProductRecord>, id1: string, id2: string,
                                               f1: ProductForm, f2: ProductForm,
                                               categories: set<string>, units: set<string>)
    requires CreateOutcome(rows, id1, f1, categories, units, true).result.success
    requires RequiredFilled(f2) && f2.sku == f1.sku
    ensures var after := CreateOutcome(rows, id1, f1, categories, units, true).rows;
      CreateOutcome(after, id2, f2, categories, units, true) == Outcome(Failed(CreateFailed), after)
  {
    var after := CreateOutcome(rows, id1, f1, categories, units, true).rows;
    assert after[id1] == NewProduct(f1);
    if id2 != id1 {
      assert CodeInUse(after, SkuOf, f2.sku.value, id2);
    }
  }
}
