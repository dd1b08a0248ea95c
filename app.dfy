/** The view state of the contact manager page and the handlers that change
    it (js/app.js): the contact and activity lists as last fetched, the
    selection set, the pending delete, the search, favourites and sort
    controls, and what the page shows (cards, select-all box, bulk bar,
    stats, chart). Each request to the store is returned as a StoreCall,
    and whether it resolved is a parameter. */
module App {
  import opened Text
  import opened Seqs
  import opened Sorting
  import opened Contacts
  import opened Projection
  import opened Validation
  import opened Views

  /** What the delete dialog is asking about. */
  datatype Pending = NoPending | PendingSingle(id: Id) | PendingBulk

  /** A request a handler sends to the store, in the order it awaits them.
      DeleteMany is the batch of DELETEs sent together under Promise.all. */
  datatype StoreCall =
    | PatchFavorite(id: Id, favorite: bool)
    | PutContact(id: Id, body: Draft)
    | PostContact(body: Draft)
    | DeleteContact(id: Id)
    | DeleteMany(ids: set<Id>)
    | AppendLog(action: Action, contactName: string)

  /** The check behind the select-all box (js/app.js:279): there are cards
      and every one of them is selected. */
  predicate AllVisibleSelected(data: seq<Contact>, selected: set<Id>) {
    |data| > 0 && forall i :: 0 <= i < |data| ==> data[i].id in selected
  }

  /** Cards drawn from a list are all selected once the whole list is, and
      none is once none of the list is. */
  lemma SelectionCoversCards(data: seq<Contact>, contacts: seq<Contact>, selected: set<Id>)
    requires |data| > 0 && forall i :: 0 <= i < |data| ==> data[i] in contacts
    ensures Ids(contacts) <= selected ==> AllVisibleSelected(data, selected)
    ensures Ids(contacts) !! selected ==> !AllVisibleSelected(data, selected)
  {
    assert data[0].id in Ids(contacts);
    forall i | 0 <= i < |data| ensures data[i].id in Ids(contacts) {
      assert data[i] in contacts;
    }
  }

  const BulkPrefix: string := "ลบพร้อมกัน "
  const BulkSuffix: string := " รายการ"

  /** The log label of a bulk delete: "deleted N together". */
  function BulkLabel(n: nat): string {
    BulkPrefix + Decimal(n) + BulkSuffix
  }

  /** The count reads back from the label: between the fixed words stand
      exactly the decimal digits of n. */
  lemma BulkLabelShowsCount(n: nat)
    ensures var r := BulkLabel(n);
      var m := |r| - |BulkSuffix|;
      && |BulkPrefix| < m
      && r[..|BulkPrefix|] == BulkPrefix && r[m..] == BulkSuffix
      && Digits(r[|BulkPrefix|..m]) && DigitsValue(r[|BulkPrefix|..m]) == n
  {
    var r := BulkLabel(n);
    var m := |r| - |BulkSuffix|;
    assert r[..|BulkPrefix|] == BulkPrefix;
    assert r[|BulkPrefix|..m] == Decimal(n);
    assert r[m..] == BulkSuffix;
  }

  /** `contact.favorite = newFav` on the k-th contact. */
  function FlipAt(contacts: seq<Contact>, k: nat): (r: seq<Contact>)
    requires k < |contacts|
    ensures |r| == |contacts| && r[k].favorite != contacts[k].favorite
    ensures r[k].(favorite := contacts[k].favorite) == contacts[k]
    ensures forall i :: 0 <= i < |contacts| && i != k ==> r[i] == contacts[i]
  {
    contacts[k := contacts[k].(favorite := !contacts[k].favorite)]
  }

  /** Flipping twice restores the list. */
  lemma FlipTwice(contacts: seq<Contact>, k: nat)
    requires k < |contacts|
    ensures FlipAt(FlipAt(contacts, k), k) == contacts
  {
  }

  lemma {:induction false} FavouritesUpdate(s: seq<Contact>, k: nat, x: Contact)
    requires k < |s|
    ensures |Favourites(s[k := x])| + (if s[k].favorite then 1 else 0)
         == |Favourites(s)| + (if x.favorite then 1 else 0)
  {
    var t := s[k := x];
    assert t[0] == (if k == 0 then x else s[0]);
    if k == 0 {
      assert t[1..] == s[1..];
    } else {
      FavouritesUpdate(s[1..], k - 1, x);
      assert t[1..] == s[1..][k - 1 := x];
    }
  }

  lemma CompaniesUpdate(s: seq<Contact>, k: nat, x: Contact)
    requires k < |s| && x.company == s[k].company
    ensures Companies(s[k := x]) == Companies(s)
  {
    var t := s[k := x];
    forall co | co in Companies(t) ensures co in Companies(s) {
      var c :| c in t && c.company != "" && c.company == co;
      var i :| 0 <= i < |t| && t[i] == c;
      assert s[i] in s && s[i].company == co;
    }
    forall co | co in Companies(s) ensures co in Companies(t) {
      var c :| c in s && c.company != "" && c.company == co;
      var i :| 0 <= i < |s| && s[i] == c;
      assert t[i] in t && t[i].company == co;
    }
  }

  /** A favourite flip moves the favourite count by one and leaves the
      other two numbers of the stats panel alone. */
  lemma FlipStats(contacts: seq<Contact>, k: nat)
    requires k < |contacts|
    ensures var before, after := UpdateStats(contacts), UpdateStats(FlipAt(contacts, k));
      && after.total == before.total
      && after.companies == before.companies
      && after.favorites == if contacts[k].favorite then before.favorites - 1 else before.favorites + 1
  {
    var x := contacts[k].(favorite := !contacts[k].favorite);
    FavouritesUpdate(contacts, k, x);
    CompaniesUpdate(contacts, k, x);
  }

  /** The values the edit dialog holds. */
  datatype Form = Form(idField: string, name: string, email: string, phone: string, company: string)

  /** editContact (js/app.js:606-624): the form filled from the contact with
      this id, or nothing for an unknown id. */
  function EditForm(contacts: seq<Contact>, id: Id): (r: Option<Form>)
    ensures r.None? <==> FindById(contacts, id).None?
    ensures r.Some? ==> r.value.idField == id
  {
    match FindById(contacts, id)
    case None => None
    case Some(k) =>
      var c := contacts[k];
      Some(Form(c.id, c.name, c.email, c.phone, c.company))
  }

  /** The record the submit handler sends (js/app.js:636-643): every field
      trimmed; an update keeps the stored contact's favourite flag and
      creation time, a create is not a favourite and is stamped `now`.
      Nothing when the id names no contact, where the handler throws. */
  function BuildRecord(form: Form, contacts: seq<Contact>, now: string): (r: Option<Draft>)
    ensures form.idField == "" ==> r.Some? && !r.value.favorite && r.value.createdAt == now
    ensures form.idField != "" ==> (r.None? <==> FindById(contacts, form.idField).None?)
    ensures r.Some? && form.idField != "" ==>
      var c := contacts[FindById(contacts, form.idField).value];
      c.id == form.idField && r.value.favorite == c.favorite && r.value.createdAt == c.createdAt
    ensures r.Some? ==>
      r.value.name == Trim(form.name) && r.value.email == Trim(form.email) &&
      r.value.phone == Trim(form.phone) && r.value.company == Trim(form.company)
  {
    var name, email, phone, company := Trim(form.name), Trim(form.email), Trim(form.phone), Trim(form.company);
    if form.idField == "" then Some(Draft(name, email, phone, company, false, now))
    else match FindById(contacts, form.idField)
      case None => None
      case Some(k) => Some(Draft(name, email, phone, company, contacts[k].favorite, contacts[k].createdAt))
  }

  /** The stored fields carry no surrounding white space. */
  predicate Trimmed(c: Contact) {
    Trim(c.name) == c.name && Trim(c.email) == c.email && Trim(c.phone) == c.phone && Trim(c.company) == c.company
  }

  /** Opening a stored contact for editing and saving it unchanged sends
      back exactly the stored record, and is never refused as a duplicate
      of itself. */
  lemma EditSaveRoundTrip(contacts: seq<Contact>, id: Id, now: string)
    requires id != "" && FindById(contacts, id).Some?
    requires UniqueKeys(contacts) && Trimmed(contacts[FindById(contacts, id).value])
    ensures var c := contacts[FindById(contacts, id).value];
      var form := EditForm(contacts, id).value;
      && BuildRecord(form, contacts, now) == Some(Draft(c.name, c.email, c.phone, c.company, c.favorite, c.createdAt))
      && (Check(form.name, form.email, form.phone, contacts, Some(id)).Passes() <==>
            !AllSpace(c.name) && c.email != "" && EmailShape(c.email))
  {
    var c := contacts[FindById(contacts, id).value];
    assert c in contacts;
    UnchangedEditPasses(contacts, c);
  }

  /** pendingDeleteId as written holds a contact id, or the string 'BULK'
      for a bulk delete, or null; this is how the confirm handler reads it
      (js/app.js:474, 484, 491 and 495-498). */
  function PendingAsWritten(pendingDeleteId: Option<string>): Pending {
    match pendingDeleteId
    case None => NoPending
    case Some(s) => if s == "BULK" then PendingBulk else PendingSingle(s)
  }

  /** A contact whose id is "BULK": confirmDelete stores its id, and the
      confirm handler then takes the bulk branch, deleting the selection
      instead of that contact. */
  lemma BulkSentinelCollides()
    ensures PendingAsWritten(Some("BULK")) == PendingBulk
    ensures PendingAsWritten(Some("BULK")) != PendingSingle("BULK")
  {
  }

  /** A store of a favourite and an ordinary contact, shown with the
      favourites filter on: the view holds the favourite only, while
      toggleSelect as written re-renders both. */
  lemma ToggleSelectShowsFilteredOut()
    ensures var a := Contact("1", "Anan", "anan@example.com", "", "", true, "");
      var b := Contact("2", "Boon", "boon@example.com", "", "", false, "");
      var view := Project([a, b], "", true, "default", (x: string, y: string) => 0);
      view == [a] && view != [a, b]
  {
    var a := Contact("1", "Anan", "anan@example.com", "", "", true, "");
    var b := Contact("2", "Boon", "boon@example.com", "", "", false, "");
    var cmp := Order(Default, (x: string, y: string) => 0);
    assert Lower("") == "";
    assert [a, b][1..] == [b];
    assert Filter(Starred, [a, b]) == [a];
    assert Filtered([a, b], "", true) == [a];
    assert Sort(cmp, [a]) == Insert(cmp, a, Sort(cmp, []));
  }

  /** A collation that ranks shorter strings first. */
  function ByLength(x: string, y: string): int {
    |x| - |y|
  }

  /** The comparator's fallback keeps the list's current order, and with
      no filter on that is the order the last in-place sort left: a store
      that sends [bb, a], shown by name and then by the "default" key, stays
      [a, bb] instead of returning to the store's order. */
  lemma FallbackKeepsSortedOrder()
    ensures var bb := Contact("1", "bb", "bb@example.com", "", "", false, "");
      var a := Contact("2", "a", "a@example.com", "", "", false, "");
      var sorted := Project([bb, a], "", false, "name-asc", ByLength);
      && SortsInPlace("", false)
      && sorted == [a, bb]
      && Project(sorted, "", false, "default", ByLength) == [a, bb]
      && Project([bb, a], "", false, "default", ByLength) == [bb, a]
  {
    var bb := Contact("1", "bb", "bb@example.com", "", "", false, "");
    var a := Contact("2", "a", "a@example.com", "", "", false, "");
    var asc, def := Order(NameAsc, ByLength), Order(Default, ByLength);
    assert Lower("") == "";
    assert [bb, a][1..] == [a] && [a, bb][1..] == [bb];
    assert Sort(asc, [a]) == [a] && Sort(def, [a]) == [a] && Sort(def, [bb]) == [bb];
    assert Sort(asc, [bb, a]) == Insert(asc, bb, [a]) == [a, bb];
    assert Sort(def, [a, bb]) == Insert(def, a, [bb]) == [a, bb];
    assert Sort(def, [bb, a]) == Insert(def, bb, [a]) == [bb, a];
  }

  lemma IdsPrefixStep(contacts: seq<Contact>, i: nat)
    requires i < |contacts|
    ensures Ids(contacts[..i + 1]) == Ids(contacts[..i]) + {contacts[i].id}
  {
    var s, c := contacts[..i], contacts[i];
    assert contacts[..i + 1] == s + [c];
    assert forall d :: d in s + [c] <==> d in s || d == c;
  }

  class ContactApp {
    var contacts: seq<Contact>
    var activities: seq<Activity>
    var selected: set<Id>
    var pending: Pending
    var deleteDialogOpen: bool
    var favoritesOnly: bool
    /** searchInput.value */
    var keyword: string
    /** sortSelect.value */
    var sortBy: string
    /** String.prototype.localeCompare with the 'th' locale. */
    const collate: (string, string) -> int
    /** The cards in the grid, in order. */
    var shown: seq<Contact>
    var selectAllChecked: bool
    var bulkBarVisible: bool
    var stats: Stats
    var chartCounts: map<string, nat>
    var chartVisible: bool

    /** The delete dialog always has something to delete, and every card
        shows a contact of the list. */
    ghost predicate Valid()
      reads this`deleteDialogOpen, this`pending, this`shown, this`contacts
    {
      && (deleteDialogOpen ==> pending != NoPending)
      && (forall i :: 0 <= i < |shown| ==> shown[i] in contacts)
    }

    /** The page before the first fetch resolves. */
    constructor (initialSort: string, collation: (string, string) -> int)
      ensures Valid()
      ensures contacts == [] && activities == [] && selected == {} && pending == NoPending
      ensures !deleteDialogOpen && !favoritesOnly && keyword == "" && sortBy == initialSort
      ensures collate == collation && shown == [] && !selectAllChecked && !bulkBarVisible
    {
      contacts := [];
      activities := [];
      selected := {};
      pending := NoPending;
      deleteDialogOpen := false;
      favoritesOnly := false;
      keyword := "";
      sortBy := initialSort;
      collate := collation;
      shown := [];
      selectAllChecked := false;
      bulkBarVisible := false;
      stats := Stats(0, 0, 0);
      chartCounts := map[];
      chartVisible := false;
    }

    /** renderContactCards (js/app.js:269-335): an empty list empties the
        grid and returns before the select-all box is touched. */
    method RenderContactCards(data: seq<Contact>)
      modifies this`shown, this`selectAllChecked
      ensures shown == data
      ensures selectAllChecked == if data == [] then old(selectAllChecked) else AllVisibleSelected(data, selected)
    {
      shown := data;
      if |data| == 0 {
        return;
      }
      selectAllChecked := AllVisibleSelected(data, selected);
    }

    /** updateBulkBar (js/app.js:462-470): the bar shows exactly when
        something is selected; an empty selection also unticks select-all. */
    method UpdateBulkBar()
      modifies this`bulkBarVisible, this`selectAllChecked
      ensures bulkBarVisible <==> selected != {}
      ensures selectAllChecked == (selected != {} && old(selectAllChecked))
    {
      if |selected| > 0 {
        bulkBarVisible := true;
      } else {
        bulkBarVisible := false;
        selectAllChecked := false;
      }
    }

    /** applyFiltersAndRender (js/app.js:233-267): the cards are the
        projection of the list; with no filter on, the sort reorders the
        list itself. */
    method ApplyFiltersAndRender()
      requires Valid()
      modifies this`contacts, this`shown, this`selectAllChecked
      ensures Valid()
      ensures shown == Project(old(contacts), keyword, favoritesOnly, sortBy, collate)
      ensures contacts == if SortsInPlace(keyword, favoritesOnly) then shown else old(contacts)
      ensures multiset(contacts) == multiset(old(contacts))
      ensures forall i :: 0 <= i < |shown| ==> shown[i] in old(contacts)
      ensures selectAllChecked == if shown == [] then old(selectAllChecked) else AllVisibleSelected(shown, selected)
    {
      var result := Project(contacts, keyword, favoritesOnly, sortBy, collate);
      ProjectDrawsFromList(contacts, keyword, favoritesOnly, sortBy, collate);
      if SortsInPlace(keyword, favoritesOnly) {
        InPlaceIsPermutation(contacts, keyword, favoritesOnly, sortBy, collate);
        contacts := result;
        assert forall i :: 0 <= i < |result| ==> result[i] in contacts by {
          forall i | 0 <= i < |result| ensures result[i] in contacts {
            assert contacts[i] == result[i];
          }
        }
      }
      RenderContactCards(result);
    }

    /** renderApp (js/app.js:100-105): cards, stats, chart and bulk bar,
        with the stats and chart taken over the list whatever order the
        sort leaves it in. */
    method RenderApp()
      requires Valid()
      modifies this`contacts, this`shown, this`selectAllChecked, this`bulkBarVisible
      modifies this`stats, this`chartCounts, this`chartVisible
      ensures Valid()
      ensures shown == Project(old(contacts), keyword, favoritesOnly, sortBy, collate)
      ensures contacts == if SortsInPlace(keyword, favoritesOnly) then shown else old(contacts)
      ensures multiset(contacts) == multiset(old(contacts))
      ensures stats == UpdateStats(old(contacts))
      ensures ChartShows(chartCounts, chartVisible, old(contacts))
      ensures bulkBarVisible <==> selected != {}
      ensures selectAllChecked == (selected != {} && if shown == [] then old(selectAllChecked) else AllVisibleSelected(shown, selected))
    {
      ghost var before := contacts;
      ApplyFiltersAndRender();
      RenderPanels(before);
    }

    /** The rest of renderApp (js/app.js:102-104): stats, chart and bulk
        bar, drawn from a list that holds the same contacts as `listed`. */
    method RenderPanels(ghost listed: seq<Contact>)
      requires multiset(contacts) == multiset(listed)
      modifies this`stats, this`chartCounts, this`chartVisible, this`bulkBarVisible, this`selectAllChecked
      ensures stats == UpdateStats(listed)
      ensures ChartShows(chartCounts, chartVisible, listed)
      ensures bulkBarVisible <==> selected != {}
      ensures selectAllChecked == (selected != {} && old(selectAllChecked))
    {
      StatsIgnoreOrder(contacts, listed);
      ShowStats();
      RenderChart();
      ChartIgnoresOrder(chartCounts, chartVisible, contacts, listed);
      UpdateBulkBar();
    }

    /** updateStats (js/app.js:110-118). */
    method ShowStats()
      modifies this`stats
      ensures stats == UpdateStats(contacts)
    {
      stats := UpdateStats(contacts);
    }

    /** renderChart (js/app.js:120-171): the chart is hidden when no
        contact has a company, and otherwise draws one slice per company. */
    method RenderChart()
      modifies this`chartCounts, this`chartVisible
      ensures ChartShows(chartCounts, chartVisible, contacts)
    {
      var counts, hasCompany := CompanyCounts(contacts);
      chartCounts := counts;
      chartVisible := hasCompany;
    }

    /** fetchContacts (js/app.js:79-87): a resolved fetch replaces the list
        and re-renders; a failed one changes nothing. The selection is not
        pruned against the new list. */
    method Reload(fetched: Option<seq<Contact>>)
      requires Valid()
      modifies this`contacts, this`shown, this`selectAllChecked, this`bulkBarVisible
      modifies this`stats, this`chartCounts, this`chartVisible
      ensures Valid()
      ensures fetched.None? ==> unchanged(this)
      ensures fetched.Some? ==>
        && shown == Project(fetched.value, keyword, favoritesOnly, sortBy, collate)
        && multiset(contacts) == multiset(fetched.value)
        && contacts == (if SortsInPlace(keyword, favoritesOnly) then shown else fetched.value)
        && stats == UpdateStats(fetched.value)
        && ChartShows(chartCounts, chartVisible, fetched.value)
        && (bulkBarVisible <==> selected != {})
        && selectAllChecked == (selected != {} && if shown == [] then old(selectAllChecked) else AllVisibleSelected(shown, selected))
      ensures selected == old(selected)
    {
      if fetched.Some? {
        contacts := fetched.value;
        shown := [];
        RenderApp();
      }
    }

    /** fetchActivities (js/app.js:89-97): the newest log entries, as the
        store sends them. */
    method ReloadActivities(fetched: Option<seq<Activity>>)
      modifies this`activities
      ensures activities == if fetched.Some? then fetched.value else old(activities)
    {
      if fetched.Some? {
        activities := fetched.value;
      }
    }

    /** Typing in the search box (js/app.js:675). */
    method Search(text: string)
      requires Valid()
      modifies this`keyword, this`contacts, this`shown, this`selectAllChecked
      ensures Valid() && keyword == text
      ensures shown == Project(old(contacts), text, favoritesOnly, sortBy, collate)
      ensures contacts == if SortsInPlace(keyword, favoritesOnly) then shown else old(contacts)
      ensures multiset(contacts) == multiset(old(contacts))
      ensures selectAllChecked == if shown == [] then old(selectAllChecked) else AllVisibleSelected(shown, selected)
    {
      keyword := text;
      ApplyFiltersAndRender();
    }

    /** Choosing a sort key (js/app.js:676). */
    method ChooseSort(key: string)
      requires Valid()
      modifies this`sortBy, this`contacts, this`shown, this`selectAllChecked
      ensures Valid() && sortBy == key
      ensures shown == Project(old(contacts), keyword, favoritesOnly, key, collate)
      ensures contacts == if SortsInPlace(keyword, favoritesOnly) then shown else old(contacts)
      ensures multiset(contacts) == multiset(old(contacts))
      ensures selectAllChecked == if shown == [] then old(selectAllChecked) else AllVisibleSelected(shown, selected)
    {
      sortBy := key;
      ApplyFiltersAndRender();
    }

    /** toggleFilterFav (js/app.js:403-407). */
    method ToggleFilterFav()
      requires Valid()
      modifies this`favoritesOnly, this`contacts, this`shown, this`selectAllChecked
      ensures Valid() && favoritesOnly == !old(favoritesOnly)
      ensures shown == Project(old(contacts), keyword, favoritesOnly, sortBy, collate)
      ensures contacts == if SortsInPlace(keyword, favoritesOnly) then shown else old(contacts)
      ensures multiset(contacts) == multiset(old(contacts))
      ensures selectAllChecked == if shown == [] then old(selectAllChecked) else AllVisibleSelected(shown, selected)
    {
      favoritesOnly := !favoritesOnly;
      ApplyFiltersAndRender();
    }

    /** toggleFav (js/app.js:411-435): nothing for an unknown id; otherwise
        PATCH the flipped flag and, once that resolves, log it and flip the
        flag of that contact only. logActivity swallows its own failures, so
        only the PATCH decides. */
    method ToggleFav(id: Id, name: string, patchOk: bool) returns (calls: seq<StoreCall>)
      requires Valid()
      modifies this`contacts, this`shown, this`selectAllChecked, this`bulkBarVisible
      modifies this`stats, this`chartCounts, this`chartVisible
      ensures Valid()
      ensures FindById(old(contacts), id).None? ==> calls == [] && unchanged(this)
      ensures FindById(old(contacts), id).Some? ==>
        var k := FindById(old(contacts), id).value;
        var newFav := !old(contacts)[k].favorite;
        && calls == [PatchFavorite(id, newFav)] + (if patchOk then [AppendLog(if newFav then FAVORITE else UNFAVORITE, name)] else [])
        && (!patchOk ==> unchanged(this))
        && (patchOk ==>
             && shown == Project(FlipAt(old(contacts), k), keyword, favoritesOnly, sortBy, collate)
             && contacts == (if SortsInPlace(keyword, favoritesOnly) then shown else FlipAt(old(contacts), k))
             && stats == UpdateStats(FlipAt(old(contacts), k))
             && ChartShows(chartCounts, chartVisible, FlipAt(old(contacts), k))
             && (bulkBarVisible <==> selected != {})
             && selectAllChecked == (selected != {} && if shown == [] then old(selectAllChecked) else AllVisibleSelected(shown, selected)))
    {
      var found := FindById(contacts, id);
      if found.None? {
        return [];
      }
      var k := found.value;
      var newFav := !contacts[k].favorite;
      calls := [PatchFavorite(id, newFav)];
      if !patchOk {
        return;
      }
      calls := calls + [AppendLog(if newFav then FAVORITE else UNFAVORITE, name)];
      contacts := FlipAt(contacts, k);
      shown := [];
      RenderApp();
    }

    /** toggleSelect as written (js/app.js:440-445): after the selection
        changes it renders the whole contact list, whatever the search and
        favourites filter hide. */
    method ToggleSelectAsWritten(id: Id, isSelected: bool)
      requires Valid()
      modifies this`selected, this`bulkBarVisible, this`selectAllChecked, this`shown
      ensures Valid()
      ensures selected == if isSelected then old(selected) + {id} else old(selected) - {id}
      ensures bulkBarVisible <==> selected != {}
      ensures shown == contacts
      ensures selectAllChecked == if contacts == [] then selected != {} && old(selectAllChecked)
                                  else AllVisibleSelected(contacts, selected)
    {
      if isSelected {
        selected := selected + {id};
      } else {
        selected := selected - {id};
      }
      UpdateBulkBar();
      RenderContactCards(contacts);
    }

    /** toggleSelect re-rendering the current view: the id joins or leaves
        the selection, no other id changes, and the cards stay the
        filtered, sorted projection. */
    method ToggleSelect(id: Id, isSelected: bool)
      requires Valid()
      modifies this`selected, this`bulkBarVisible, this`selectAllChecked, this`contacts, this`shown
      ensures Valid()
      ensures selected == if isSelected then old(selected) + {id} else old(selected) - {id}
      ensures bulkBarVisible <==> selected != {}
      ensures shown == Project(old(contacts), keyword, favoritesOnly, sortBy, collate)
      ensures contacts == if SortsInPlace(keyword, favoritesOnly) then shown else old(contacts)
      ensures multiset(contacts) == multiset(old(contacts))
      ensures selectAllChecked == (selected != {} && if shown == [] then old(selectAllChecked) else AllVisibleSelected(shown, selected))
    {
      if isSelected {
        selected := selected + {id};
      } else {
        selected := selected - {id};
      }
      UpdateBulkBar();
      ApplyFiltersAndRender();
      assert shown != [] && AllVisibleSelected(shown, selected) ==> shown[0].id in selected;
    }

    /** The select-all box (js/app.js:447-460): the click has already set
        the box to isChecked; ticking it selects every contact of the whole
        list, unticking it unselects them, and ids of no listed contact keep
        their state. With no cards the re-render leaves the box as clicked. */
    method SelectAllChanged(isChecked: bool)
      requires Valid()
      modifies this`selected, this`bulkBarVisible, this`selectAllChecked, this`contacts, this`shown
      ensures Valid()
      ensures selected == if isChecked then old(selected) + Ids(old(contacts)) else old(selected) - Ids(old(contacts))
      ensures bulkBarVisible <==> selected != {}
      ensures shown == Project(old(contacts), keyword, favoritesOnly, sortBy, collate)
      ensures contacts == if SortsInPlace(keyword, favoritesOnly) then shown else old(contacts)
      ensures multiset(contacts) == multiset(old(contacts))
      ensures selectAllChecked == (selected != {} && if shown == [] then isChecked else AllVisibleSelected(shown, selected))
      ensures isChecked && shown != [] ==> selectAllChecked
      ensures !isChecked && shown != [] ==> !selectAllChecked
    {
      selectAllChecked := isChecked;
      MarkEveryContact(isChecked);
      UpdateBulkBar();
      ghost var listed := contacts;
      ApplyFiltersAndRender();
      if shown != [] {
        SelectionCoversCards(shown, listed, selected);
        assert AllVisibleSelected(shown, selected) ==> shown[0].id in selected;
      }
    }

    /** The forEach of the select-all handler (js/app.js:452-455): every id
        of the list joins the selection, or every one leaves it. */
    method MarkEveryContact(isChecked: bool)
      modifies this`selected
      ensures selected == if isChecked then old(selected) + Ids(contacts) else old(selected) - Ids(contacts)
    {
      for i := 0 to |contacts|
        invariant selected == if isChecked then old(selected) + Ids(contacts[..i]) else old(selected) - Ids(contacts[..i])
      {
        IdsPrefixStep(contacts, i);
        if isChecked {
          selected := selected + {contacts[i].id};
        } else {
          selected := selected - {contacts[i].id};
        }
      }
      assert contacts[..|contacts|] == contacts;
    }

    /** The bulk delete button (js/app.js:472-477): with a selection it opens
        the dialog for a bulk delete, without one it does nothing. */
    method BulkDeleteClicked()
      requires Valid()
      modifies this`pending, this`deleteDialogOpen
      ensures Valid()
      ensures selected == {} ==> unchanged(this)
      ensures selected != {} ==> pending == PendingBulk && deleteDialogOpen
    {
      if |selected| == 0 {
        return;
      }
      pending := PendingBulk;
      deleteDialogOpen := true;
    }

    /** confirmDelete (js/app.js:482-487): opens the dialog for one contact. */
    method ConfirmDelete(id: Id)
      requires Valid()
      modifies this`pending, this`deleteDialogOpen
      ensures Valid()
      ensures pending == PendingSingle(id) && deleteDialogOpen
    {
      pending := PendingSingle(id);
      deleteDialogOpen := true;
    }

    /** The cancel button (js/app.js:489-492). */
    method CancelDelete()
      requires Valid()
      modifies this`pending, this`deleteDialogOpen
      ensures Valid()
      ensures pending == NoPending && !deleteDialogOpen
    {
      deleteDialogOpen := false;
      pending := NoPending;
    }

    /** The confirm button (js/app.js:494-526). deletesOk says whether the
        DELETE requests resolved. On success a bulk delete clears the
        selection and a single delete unselects its id, and the list is
        fetched again; on failure the selection stays. The pending delete
        is left as it was. */
    method DeleteConfirmed(deletesOk: bool) returns (calls: seq<StoreCall>, refresh: bool)
      requires Valid() && deleteDialogOpen
      modifies this`selected, this`deleteDialogOpen
      ensures Valid()
      ensures !deleteDialogOpen && refresh == deletesOk
      ensures old(pending).PendingBulk? ==>
        && calls == [DeleteMany(old(selected))] + (if deletesOk then [AppendLog(DELETE, BulkLabel(|old(selected)|))] else [])
        && selected == if deletesOk then {} else old(selected)
      ensures old(pending).PendingSingle? ==>
        var id := old(pending).id;
        var name := match FindById(contacts, id) case Some(k) => contacts[k].name case None => "Unknown";
        && calls == [DeleteContact(id)] + (if deletesOk then [AppendLog(DELETE, name)] else [])
        && selected == if deletesOk then old(selected) - {id} else old(selected)
    {
      var target := pending;
      deleteDialogOpen := false;
      refresh := deletesOk;
      if target.PendingBulk? {
        var ids := selected;
        calls := [DeleteMany(ids)];
        if deletesOk {
          calls := calls + [AppendLog(DELETE, BulkLabel(|ids|))];
          selected := {};
        }
      } else {
        var id := target.id;
        var name := match FindById(contacts, id) case Some(k) => contacts[k].name case None => "Unknown";
        calls := [DeleteContact(id)];
        if deletesOk {
          calls := calls + [AppendLog(DELETE, name)];
          selected := selected - {id};
        }
      }
    }

    /** The form's submit handler (js/app.js:626-670): nothing is sent when
        validation fails or the edited contact is gone; otherwise PUT or POST
        the record built from the form, then, once that resolves, log it and
        fetch the list again. */
    method Submit(form: Form, now: string, storeOk: bool)
      returns (verdict: Verdict, calls: seq<StoreCall>, refresh: bool)
      ensures verdict == Check(form.name, form.email, form.phone, contacts,
                               if form.idField == "" then None else Some(form.idField))
      ensures !verdict.Passes() || BuildRecord(form, contacts, now).None? ==> calls == [] && !refresh
      ensures verdict.Passes() && BuildRecord(form, contacts, now).Some? ==>
        var d := BuildRecord(form, contacts, now).value;
        && calls == (if form.idField == "" then [PostContact(d)] else [PutContact(form.idField, d)])
                    + (if storeOk then [AppendLog(if form.idField == "" then CREATE else UPDATE, d.name)] else [])
        && refresh == storeOk
    {
      var currentId := if form.idField == "" then None else Some(form.idField);
      var isValid;
      isValid, verdict := ValidateForm(form.name, form.email, form.phone, contacts, currentId);
      calls := [];
      refresh := false;
      if !isValid {
        return;
      }
      var record := BuildRecord(form, contacts, now);
      if record.None? {
        return;
      }
      var d := record.value;
      if form.idField != "" {
        calls := [PutContact(form.idField, d)];
        if storeOk {
          calls := calls + [AppendLog(UPDATE, d.name)];
        }
      } else {
        calls := [PostContact(d)];
        if storeOk {
          calls := calls + [AppendLog(CREATE, d.name)];
        }
      }
      refresh := storeOk;
    }
  }
}
