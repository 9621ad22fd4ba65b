/** What a mutating operation of either contact store returns. */
module StoreChange {
  import opened ContactRecord

  /** Whether the operation took effect, and the list after it. */
  datatype Change = Change(applied: bool, contacts: seq<Contact>)
}
