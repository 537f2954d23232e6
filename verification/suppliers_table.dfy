/** The search of the supplier table: a supplier is listed when its name,
    code or email includes the search text, letter case aside. */
module SuppliersTable {
  import opened Js
  import opened Suppliers

  /** The `filter` test: the lower-cased search occurs, at some position, in
      the lower-cased name or code, or in the email when there is one. */
  predicate Matches(c: Supplier, search: string)
    ensures Matches(c, search)
            <==> || (exists i: nat :: OccursAt(Lower(c.name), Lower(search), i))
                 || (exists i: nat :: OccursAt(Lower(c.code), Lower(search), i))
                 || (c.email.Some? && exists i: nat :: OccursAt(Lower(c.email.value), Lower(search), i))
  {
    IncludesIffOccurs(Lower(c.name), Lower(search));
    IncludesIffOccurs(Lower(c.code), Lower(search));
    Includes(Lower(c.name), Lower(search))
    || Includes(Lower(c.code), Lower(search))
    || (c.email.Some?
        && (IncludesIffOccurs(Lower(c.email.value), Lower(search));
            Includes(Lower(c.email.value), Lower(search))))
  }

  /** `filteredData`: the suppliers the search keeps, in their order, each
      matching one with all its copies. */
  function Filtered(initialData: seq<Supplier>, search: string): (r: seq<Supplier>)
    ensures |r| <= |initialData| && IsSubsequence(r, initialData)
    ensures forall c :: c in r <==> c in initialData && Matches(c, search)
    ensures forall c :: multiset(r)[c] == if Matches(c, search) then multiset(initialData)[c] else 0
  {
    var keep := (c: Supplier) => Matches(c, search);
    FilterIsSubsequence(initialData, keep);
    FilterMembership(initialData, keep);
    FilterMultiset(initialData, keep);
    Filter(initialData, keep)
  }

  /** A supplier without an email is listed only on its name or code. */
  lemma NullEmailNeverMatches(c: Supplier, search: string)
    requires c.email.None?
    ensures Matches(c, search) <==> Includes(Lower(c.name), Lower(search)) || Includes(Lower(c.code), Lower(search))
  {
  }

  /** An empty search lists every supplier. */
  lemma EmptySearchKeepsAll(initialData: seq<Supplier>)
    ensures Filtered(initialData, "") == initialData
  {
    FilterKeepsAll(initialData, (c: Supplier) => Matches(c, ""));
  }
}
