/** What the customer and supplier server actions have in common: the text
    fields both pass through to the database unchanged, and their shared
    constants. */
module Parties {
  import opened Js

  /** The optional text fields of a customer or supplier that the actions copy
      from the form as they are (`null` when the form lacks them). */
  datatype Details = Details(
    phone: Option<string>,
    fax: Option<string>,
    address: Option<string>,
    contactPerson: Option<string>,
    legalStatus: Option<string>,
    rcNum: Option<string>,
    mfNum: Option<string>,
    nisNum: Option<string>,
    aiNum: Option<string>,
    bankAccount: Option<string>)

  /** The country a create stores when the form leaves it empty. */
  const DefaultCountry := "Algérie"

  const CodeAndNameRequired := "Le code et le nom sont obligatoires."

  /** The message of every failed update other than a duplicate code. */
  const UpdateFailed := "Erreur lors de la modification."
}
