/** The records the contact view works on (the JSON objects of the contacts
    and activityLogs collections) and the lookup by id every handler uses. */
module Contacts {

  datatype Option<+T> = None | Some(value: T)

  /** Contact ids are the store's string ids. */
  type Id = string

  /** A contact record. An empty phone or company stands both for the empty
      string and for a missing field: the code treats them alike, since both
      are falsy. createdAt is the ISO timestamp string, never interpreted. */
  datatype Contact = Contact(
    id: Id,
    name: string,
    email: string,
    phone: string,
    company: string,
    favorite: bool,
    createdAt: string)

  /** The body of a PUT or POST: a contact without its id. */
  datatype Draft = Draft(
    name: string,
    email: string,
    phone: string,
    company: string,
    favorite: bool,
    createdAt: string)

  datatype Action = CREATE | UPDATE | DELETE | FAVORITE | UNFAVORITE

  /** An activity-log entry; contactName is a text snapshot, not a key. */
  datatype Activity = Activity(action: Action, contactName: string, timestamp: string)

  /** contacts.find(c => c.id === id), as the position of the match. */
  function FindById(contacts: seq<Contact>, id: Id): (r: Option<nat>)
    ensures r.Some? ==> r.value < |contacts| && contacts[r.value].id == id
    ensures r.Some? ==> forall j :: 0 <= j < r.value ==> contacts[j].id != id
    ensures r.None? <==> forall j :: 0 <= j < |contacts| ==> contacts[j].id != id
  {
    if contacts == [] then None
    else if contacts[0].id == id then Some(0)
    else match FindById(contacts[1..], id)
      case None => None
      case Some(k) => Some(k + 1)
  }

  /** The ids of the contacts, as a set. */
  function Ids(contacts: seq<Contact>): set<Id> {
    set c | c in contacts :: c.id
  }
}
