/** The filter-sort projection of applyFiltersAndRender (js/app.js:233-264):
    keyword filter, favourites filter, then a stable sort by the comparator
    the sort select chooses. The locale collation of
    String.prototype.localeCompare(..., 'th') is a parameter, `collate`,
    assumed only to be a consistent comparator of strings. */
module Projection {
  import opened Text
  import opened Seqs
  import opened Sorting
  import opened Contacts

  /** The keyword test, for a keyword already lower-cased: a substring of
      the name, the email, or the company when there is one. */
  predicate MatchesKeyword(c: Contact, kw: string) {
    || Includes(Lower(c.name), kw)
    || Includes(Lower(c.email), kw)
    || (c.company != "" && Includes(Lower(c.company), kw))
  }

  /** Steps 1 and 2: each filter runs only when it is switched on. */
  function Filtered(contacts: seq<Contact>, keyword: string, favoritesOnly: bool): seq<Contact> {
    var kw := Lower(keyword);
    var afterKeyword := if kw != "" then Filter(c => MatchesKeyword(c, kw), contacts) else contacts;
    if favoritesOnly then Filter(Starred, afterKeyword) else afterKeyword
  }

  /** The values of the sort select that the comparator tells apart; any
      other value falls through every test. */
  datatype SortKey = Default | NameAsc | NameDesc | ByCompany | Unlisted

  function KeyOf(sortBy: string): (k: SortKey)
    ensures k == Default <==> sortBy == "default"
    ensures k == NameAsc <==> sortBy == "name-asc"
    ensures k == NameDesc <==> sortBy == "name-desc"
    ensures k == ByCompany <==> sortBy == "company"
  {
    if sortBy == "default" then Default
    else if sortBy == "name-asc" then NameAsc
    else if sortBy == "name-desc" then NameDesc
    else if sortBy == "company" then ByCompany
    else Unlisted
  }

  /** The comparator handed to result.sort for the select's key. Under
      Default, two contacts of the same favourite flag fall through the
      remaining tests to 0. */
  function Compare(key: SortKey, collate: (string, string) -> int, a: Contact, b: Contact): int {
    match key
    case Default => if a.favorite != b.favorite then (if a.favorite then -1 else 1) else 0
    case NameAsc => collate(a.name, b.name)
    case NameDesc => collate(b.name, a.name)
    case ByCompany => collate(a.company, b.company)
    case Unlisted => 0
  }

  function Order(key: SortKey, collate: (string, string) -> int): (Contact, Contact) -> int {
    (a, b) => Compare(key, collate, a, b)
  }

  /** The list applyFiltersAndRender renders. */
  function Project(contacts: seq<Contact>, keyword: string, favoritesOnly: bool,
                   sortBy: string, collate: (string, string) -> int): seq<Contact> {
    Sort(Order(KeyOf(sortBy), collate), Filtered(contacts, keyword, favoritesOnly))
  }

  /** Neither filter runs, so `result` is the contacts array itself and the
      sort reorders the global list in place. */
  predicate SortsInPlace(keyword: string, favoritesOnly: bool) {
    Lower(keyword) == "" && !favoritesOnly
  }

  /** Whether a contact passes both filters. */
  predicate Visible(c: Contact, keyword: string, favoritesOnly: bool) {
    && (Lower(keyword) == "" || MatchesKeyword(c, Lower(keyword)))
    && (!favoritesOnly || c.favorite)
  }

  /** The filters keep exactly the visible contacts, each as often as it
      occurs in the list. */
  lemma FilteredCount(contacts: seq<Contact>, keyword: string, favoritesOnly: bool)
    ensures forall c :: multiset(Filtered(contacts, keyword, favoritesOnly))[c]
                        == if Visible(c, keyword, favoritesOnly) then multiset(contacts)[c] else 0
  {
    var kw := Lower(keyword);
    var p := c => MatchesKeyword(c, kw);
    var f := Starred;
    var afterKeyword := if kw != "" then Filter(p, contacts) else contacts;
    if kw != "" { FilterCount(p, contacts); }
    if favoritesOnly { FilterCount(f, afterKeyword); }
  }

  /** Filter soundness and completeness: the projection holds exactly the
      visible contacts, with their multiplicities. */
  lemma ProjectCount(contacts: seq<Contact>, keyword: string, favoritesOnly: bool,
                     sortBy: string, collate: (string, string) -> int)
    ensures forall c :: multiset(Project(contacts, keyword, favoritesOnly, sortBy, collate))[c]
                        == if Visible(c, keyword, favoritesOnly) then multiset(contacts)[c] else 0
    ensures forall c :: c in Project(contacts, keyword, favoritesOnly, sortBy, collate)
                        <==> c in contacts && Visible(c, keyword, favoritesOnly)
  {
    var r := Project(contacts, keyword, favoritesOnly, sortBy, collate);
    SortPermutes(Order(KeyOf(sortBy), collate), Filtered(contacts, keyword, favoritesOnly));
    FilteredCount(contacts, keyword, favoritesOnly);
    forall c ensures c in r <==> c in contacts && Visible(c, keyword, favoritesOnly) {
      assert c in r <==> multiset(r)[c] > 0;
      assert c in contacts <==> multiset(contacts)[c] > 0;
    }
  }

  /** Every card the projection produces shows a contact of the list. */
  lemma ProjectDrawsFromList(contacts: seq<Contact>, keyword: string, favoritesOnly: bool,
                             sortBy: string, collate: (string, string) -> int)
    ensures var r := Project(contacts, keyword, favoritesOnly, sortBy, collate);
      forall i :: 0 <= i < |r| ==> r[i] in contacts
  {
    var r := Project(contacts, keyword, favoritesOnly, sortBy, collate);
    ProjectCount(contacts, keyword, favoritesOnly, sortBy, collate);
    forall i | 0 <= i < |r| ensures r[i] in contacts {
      assert r[i] in r;
    }
  }

  /** Whenever the collation is a consistent comparator, so is every
      comparator the sort select can choose. */
  lemma OrderConsistent(key: SortKey, collate: (string, string) -> int)
    requires Consistent(collate)
    ensures Consistent(Order(key, collate))
  {
    var cmp := Order(key, collate);
    forall a, b ensures Flips(cmp, a, b) {
      Flip(collate, a.name, b.name);
      Flip(collate, a.company, b.company);
    }
    forall a, b, c ensures Chains(cmp, a, b, c) {
      if cmp(a, b) <= 0 && cmp(b, c) <= 0 {
        match key
        case NameAsc => Chain(collate, a.name, b.name, c.name);
        case NameDesc => Chain(collate, c.name, b.name, a.name);
        case ByCompany => Chain(collate, a.company, b.company, c.company);
        case _ =>
      }
    }
  }

  /** The projection is ordered by the chosen comparator, and contacts it
      ranks level keep their input order (the sort is stable). */
  lemma ProjectOrdered(contacts: seq<Contact>, keyword: string, favoritesOnly: bool,
                       sortBy: string, collate: (string, string) -> int)
    requires Consistent(collate)
    ensures var r := Project(contacts, keyword, favoritesOnly, sortBy, collate);
      && (sortBy == "name-asc" ==> forall i, j :: 0 <= i < j < |r| ==> collate(r[i].name, r[j].name) <= 0)
      && (sortBy == "name-desc" ==> forall i, j :: 0 <= i < j < |r| ==> collate(r[j].name, r[i].name) <= 0)
      && (sortBy == "company" ==> forall i, j :: 0 <= i < j < |r| ==> collate(r[i].company, r[j].company) <= 0)
    ensures forall z :: Ties(Order(KeyOf(sortBy), collate), Project(contacts, keyword, favoritesOnly, sortBy, collate), z)
                        == Ties(Order(KeyOf(sortBy), collate), Filtered(contacts, keyword, favoritesOnly), z)
  {
    var cmp := Order(KeyOf(sortBy), collate);
    var s := Filtered(contacts, keyword, favoritesOnly);
    OrderConsistent(KeyOf(sortBy), collate);
    SortSorted(cmp, s);
    forall z ensures Ties(cmp, Sort(cmp, s), z) == Ties(cmp, s, z) {
      SortStable(cmp, s, z);
    }
  }

  predicate Starred(c: Contact) {
    c.favorite
  }

  predicate Unstarred(c: Contact) {
    !c.favorite
  }

  function Favourites(s: seq<Contact>): seq<Contact> {
    Filter(Starred, s)
  }

  function Others(s: seq<Contact>): seq<Contact> {
    Filter(Unstarred, s)
  }

  lemma {:induction false} InsertAfterFavourites(collate: (string, string) -> int, x: Contact, f: seq<Contact>, n: seq<Contact>)
    requires !x.favorite
    requires forall i :: 0 <= i < |f| ==> f[i].favorite
    requires forall i :: 0 <= i < |n| ==> !n[i].favorite
    ensures Insert(Order(Default, collate), x, f + n) == f + [x] + n
  {
    if f != [] {
      InsertAfterFavourites(collate, x, f[1..], n);
      assert (f + n)[1..] == f[1..] + n;
      assert f + [x] + n == [f[0]] + (f[1..] + [x] + n);
    } else {
      assert f + n == n;
    }
  }

  /** A favourite goes in front under the Default key: no contact
      comes strictly before it. */
  lemma InsertFavourite(collate: (string, string) -> int, x: Contact, t: seq<Contact>)
    requires x.favorite
    ensures Insert(Order(Default, collate), x, t) == [x] + t
  {
  }

  /** The two groups of a list with a known first element. */
  lemma GroupsCons(x: Contact, rest: seq<Contact>)
    ensures x.favorite ==> Favourites([x] + rest) == [x] + Favourites(rest) && Others([x] + rest) == Others(rest)
    ensures !x.favorite ==> Favourites([x] + rest) == Favourites(rest) && Others([x] + rest) == [x] + Others(rest)
  {
    FilterCons(Starred, x, rest);
    FilterCons(Unstarred, x, rest);
    if x.favorite {
      assert [] + Others(rest) == Others(rest);
    } else {
      assert [] + Favourites(rest) == Favourites(rest);
    }
  }

  /** Inserting a contact into a list already grouped favourites-first
      gives the grouping of the longer list. */
  lemma InsertKeepsGroups(collate: (string, string) -> int, x: Contact, rest: seq<Contact>)
    ensures Insert(Order(Default, collate), x, Favourites(rest) + Others(rest))
         == Favourites([x] + rest) + Others([x] + rest)
  {
    var f, n := Favourites(rest), Others(rest);
    if x.favorite {
      calc {
        Insert(Order(Default, collate), x, f + n);
      == { InsertFavourite(collate, x, f + n); }
        [x] + (f + n);
      == { assert [x] + (f + n) == ([x] + f) + n; }
        ([x] + f) + n;
      == { GroupsCons(x, rest); }
        Favourites([x] + rest) + Others([x] + rest);
      }
    } else {
      calc {
        Insert(Order(Default, collate), x, f + n);
      == { InsertAfterFavourites(collate, x, f, n); }
        f + [x] + n;
      == { assert f + [x] + n == f + ([x] + n); }
        f + ([x] + n);
      == { GroupsCons(x, rest); }
        Favourites([x] + rest) + Others([x] + rest);
      }
    }
  }

  /** The Default key puts every favourite before every other contact and
      keeps the input order within each group. */
  lemma {:induction false} DefaultSortGroups(collate: (string, string) -> int, s: seq<Contact>)
    ensures Sort(Order(Default, collate), s) == Favourites(s) + Others(s)
  {
    if s != [] {
      DefaultSortGroups(collate, s[1..]);
      InsertKeepsGroups(collate, s[0], s[1..]);
      assert s == [s[0]] + s[1..];
    }
  }

  /** The projection under the Default key: favourites first, each group
      in list order. */
  lemma ProjectDefault(contacts: seq<Contact>, keyword: string, favoritesOnly: bool,
                       collate: (string, string) -> int)
    ensures var s := Filtered(contacts, keyword, favoritesOnly);
      Project(contacts, keyword, favoritesOnly, "default", collate) == Favourites(s) + Others(s)
  {
    DefaultSortGroups(collate, Filtered(contacts, keyword, favoritesOnly));
  }

  /** Any other sort value makes the comparator answer 0 throughout, so the
      filtered list keeps the order the list has now, which is the store's
      order only until an in-place sort reorders the list. */
  lemma ProjectOtherKey(contacts: seq<Contact>, keyword: string, favoritesOnly: bool,
                        sortBy: string, collate: (string, string) -> int)
    requires sortBy !in {"default", "name-asc", "name-desc", "company"}
    ensures Project(contacts, keyword, favoritesOnly, sortBy, collate) == Filtered(contacts, keyword, favoritesOnly)
  {
    SortAllLevel(Order(KeyOf(sortBy), collate), Filtered(contacts, keyword, favoritesOnly));
  }

  /** Projecting a projection changes nothing. In particular, once the
      in-place sort has reordered the contacts, rendering again leaves them
      as they are. */
  lemma ProjectIdempotent(contacts: seq<Contact>, keyword: string, favoritesOnly: bool,
                          sortBy: string, collate: (string, string) -> int)
    requires Consistent(collate)
    ensures var r := Project(contacts, keyword, favoritesOnly, sortBy, collate);
      Project(r, keyword, favoritesOnly, sortBy, collate) == r
  {
    var r := Project(contacts, keyword, favoritesOnly, sortBy, collate);
    var kw := Lower(keyword);
    ProjectCount(contacts, keyword, favoritesOnly, sortBy, collate);
    assert forall i :: 0 <= i < |r| ==> Visible(r[i], keyword, favoritesOnly) by {
      forall i | 0 <= i < |r| ensures Visible(r[i], keyword, favoritesOnly) {
        assert r[i] in r;
      }
    }
    if kw != "" {
      FilterAllPass(c => MatchesKeyword(c, kw), r);
    }
    if favoritesOnly {
      FilterAllPass(Starred, r);
    }
    assert Filtered(r, keyword, favoritesOnly) == r;
    OrderConsistent(KeyOf(sortBy), collate);
    SortIdempotent(Order(KeyOf(sortBy), collate), Filtered(contacts, keyword, favoritesOnly));
  }

  /** Without a filter the projection is a reordering of the whole list. */
  lemma InPlaceIsPermutation(contacts: seq<Contact>, keyword: string, favoritesOnly: bool,
                             sortBy: string, collate: (string, string) -> int)
    requires SortsInPlace(keyword, favoritesOnly)
    ensures multiset(Project(contacts, keyword, favoritesOnly, sortBy, collate)) == multiset(contacts)
  {
    SortPermutes(Order(KeyOf(sortBy), collate), contacts);
  }
}
