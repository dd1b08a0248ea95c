/** The views derived from the contact list and the activity log:
    updateStats (js/app.js:110-118), the company counting loop of
    renderChart (js/app.js:120-129) and the per-contact activity slice of
    openDetail (js/app.js:340-350). */
module Views {
  import opened Seqs
  import opened Contacts
  import opened Projection

  /** The distinct truthy companies: `new Set(contacts.map(c => c.company).filter(Boolean))`. */
  function Companies(contacts: seq<Contact>): set<string> {
    set c | c in contacts && c.company != "" :: c.company
  }

  /** The three numbers of the stats panel. */
  datatype Stats = Stats(total: nat, companies: nat, favorites: nat)

  lemma {:induction false} CompaniesBound(contacts: seq<Contact>)
    ensures |Companies(contacts)| <= |contacts|
  {
    if contacts != [] {
      var c, rest := contacts[0], contacts[1..];
      CompaniesBound(rest);
      assert contacts == [c] + rest;
      assert Companies(contacts) == Companies(rest) + (if c.company != "" then {c.company} else {});
    }
  }

  /** updateStats: neither the company count nor the favourite count can
      exceed the number of contacts. */
  function UpdateStats(contacts: seq<Contact>): (s: Stats)
    ensures s.companies <= s.total && s.favorites <= s.total
  {
    CompaniesBound(contacts);
    Stats(|contacts|, |Companies(contacts)|, |Favourites(contacts)|)
  }

  /** The stats depend only on which contacts there are, not on their
      order; so the in-place sort of applyFiltersAndRender, which reorders
      the contacts themselves, never changes them. */
  lemma StatsIgnoreOrder(a: seq<Contact>, b: seq<Contact>)
    requires multiset(a) == multiset(b)
    ensures Companies(a) == Companies(b)
    ensures UpdateStats(a) == UpdateStats(b)
  {
    assert |a| == |multiset(a)| == |multiset(b)| == |b|;
    CompaniesIgnoreOrder(a, b);
    FilterLengthIgnoresOrder(Starred, a, b);
  }

  lemma CompaniesIgnoreOrder(a: seq<Contact>, b: seq<Contact>)
    requires multiset(a) == multiset(b)
    ensures Companies(a) == Companies(b)
  {
    forall c ensures c in a <==> c in b {
      assert c in a <==> c in multiset(a);
      assert c in b <==> c in multiset(b);
    }
  }

  /** The same holds for the per-company counts the chart draws. */
  lemma CountsIgnoreOrder(a: seq<Contact>, b: seq<Contact>)
    requires multiset(a) == multiset(b)
    ensures forall k :: CountOf(a, k) == CountOf(b, k)
  {
    forall k ensures CountOf(a, k) == CountOf(b, k) {
      CountOfIsFilter(a, k);
      CountOfIsFilter(b, k);
      FilterLengthIgnoresOrder(NamesCompany(k), a, b);
    }
  }

  /** The counts the chart draws for the contacts s: every distinct
      non-empty company, mapped to the number of contacts naming it. */
  function CompanyTally(s: seq<Contact>): map<string, nat> {
    map k | k in Companies(s) :: CountOf(s, k)
  }

  /** What the chart shows for the contacts s: those counts, and no chart
      when no contact has a company. */
  ghost predicate ChartShows(counts: map<string, nat>, visible: bool, s: seq<Contact>) {
    counts == CompanyTally(s) && (visible <==> Companies(s) != {})
  }

  /** So the chart drawn after the in-place sort is the chart of the list
      as it was before. */
  lemma ChartIgnoresOrder(counts: map<string, nat>, visible: bool, a: seq<Contact>, b: seq<Contact>)
    requires multiset(a) == multiset(b) && ChartShows(counts, visible, a)
    ensures ChartShows(counts, visible, b)
  {
    StatsIgnoreOrder(a, b);
    CountsIgnoreOrder(a, b);
    assert CompanyTally(a) == CompanyTally(b);
  }

  /** How many contacts name company k. */
  function CountOf(contacts: seq<Contact>, k: string): nat {
    if contacts == [] then 0
    else CountOf(contacts[..|contacts| - 1], k) + (if contacts[|contacts| - 1].company == k then 1 else 0)
  }

  /** The count is the length of `contacts.filter(c => c.company === k)`. */
  lemma {:induction false} CountOfIsFilter(contacts: seq<Contact>, k: string)
    ensures CountOf(contacts, k) == |Filter(NamesCompany(k), contacts)|
  {
    if contacts != [] {
      var s, c := contacts[..|contacts| - 1], contacts[|contacts| - 1];
      assert contacts == s + [c];
      CountOfIsFilter(s, k);
      FilterAppend(NamesCompany(k), s, [c]);
    }
  }

  function NamesCompany(k: string): Contact -> bool {
    (c: Contact) => c.company == k
  }

  lemma CountOfSnoc(s: seq<Contact>, c: Contact, k: string)
    ensures CountOf(s + [c], k) == CountOf(s, k) + (if c.company == k then 1 else 0)
  {
    assert (s + [c])[..|s|] == s;
  }

  lemma CompaniesSnoc(s: seq<Contact>, c: Contact)
    ensures Companies(s + [c]) == Companies(s) + (if c.company != "" then {c.company} else {})
  {
    assert forall d :: d in s + [c] <==> d in s || d == c;
  }

  /** Every company the tally lists is named by at least one contact. */
  lemma CompanyTallyPositive(s: seq<Contact>)
    ensures forall k :: k in CompanyTally(s) ==> CompanyTally(s)[k] > 0
  {
    forall k | k in CompanyTally(s) ensures CountOf(s, k) > 0 {
      var c :| c in s && c.company != "" && c.company == k;
      CountOfIsFilter(s, k);
      FilterMembers(NamesCompany(k), s);
      assert c in Filter(NamesCompany(k), s);
    }
  }

  /** One iteration of the counting loop keeps the counts exact. */
  lemma CountStep(counts: map<string, nat>, contacts: seq<Contact>, i: nat, counts': map<string, nat>)
    requires i < |contacts| && counts == CompanyTally(contacts[..i])
    requires contacts[i].company == "" ==> counts' == counts
    requires contacts[i].company != "" ==>
      var co := contacts[i].company;
      counts' == counts[co := (if co in counts then counts[co] else 0) + 1]
    ensures counts' == CompanyTally(contacts[..i + 1])
  {
    var s, c := contacts[..i], contacts[i];
    assert contacts[..i + 1] == s + [c];
    if c.company == "" {
      TallySnocBlank(s, c);
    } else {
      TallySnocNamed(s, c);
    }
  }

  /** A contact without a company leaves the tally as it is. */
  lemma TallySnocBlank(s: seq<Contact>, c: Contact)
    requires c.company == ""
    ensures CompanyTally(s + [c]) == CompanyTally(s)
  {
    var m, t := CompanyTally(s + [c]), CompanyTally(s);
    CompaniesSnoc(s, c);
    assert m.Keys == t.Keys;
    forall k | k in m ensures m[k] == t[k] {
      CountOfSnoc(s, c, k);
    }
  }

  /** A contact with a company adds one to that company's count, starting
      from 0 when the company is new. */
  lemma TallySnocNamed(s: seq<Contact>, c: Contact)
    requires c.company != ""
    ensures var t, co := CompanyTally(s), c.company;
      CompanyTally(s + [c]) == t[co := (if co in t then t[co] else 0) + 1]
  {
    var co := c.company;
    var m, t := CompanyTally(s + [c]), CompanyTally(s);
    var t' := t[co := (if co in t then t[co] else 0) + 1];
    CompaniesSnoc(s, c);
    if co !in t {
      CountOfAbsent(s, co);
    }
    assert m.Keys == t'.Keys;
    forall k | k in m ensures m[k] == t'[k] {
      CountOfSnoc(s, c, k);
    }
  }

  /** The counting loop of renderChart, with companyCounts as a map that
      has no inherited keys: one key per distinct non-empty company, mapped
      to the number of contacts naming it; hasCompany is set when any
      contact has a company. */
  method CompanyCounts(contacts: seq<Contact>) returns (counts: map<string, nat>, hasCompany: bool)
    ensures counts == CompanyTally(contacts)
    ensures hasCompany <==> Companies(contacts) != {}
  {
    counts := map[];
    hasCompany := false;
    for i := 0 to |contacts|
      invariant counts == CompanyTally(contacts[..i])
      invariant hasCompany <==> counts != map[]
    {
      var c := contacts[i];
      var before := counts;
      if c.company != "" {
        hasCompany := true;
        counts := counts[c.company := (if c.company in counts then counts[c.company] else 0) + 1];
        assert c.company in counts;
      }
      CountStep(before, contacts, i, counts);
    }
    assert contacts[..|contacts|] == contacts;
    assert counts.Keys == Companies(contacts);
  }

  /** A company not among the keys is named by no contact. */
  lemma CountOfAbsent(contacts: seq<Contact>, k: string)
    requires k != "" && k !in Companies(contacts)
    ensures CountOf(contacts, k) == 0
  {
    var f := Filter(NamesCompany(k), contacts);
    CountOfIsFilter(contacts, k);
    FilterCount(NamesCompany(k), contacts);
    assert multiset(f) == multiset{};
  }

  // The counting loop as written stores its counts in a plain object
  // literal `{}`, whose keys are looked up through Object.prototype.

  /** The own property names of Object.prototype, other than __proto__,
      whose value on a fresh `{}` is a function (ECMAScript 2024, section
      20.1.3 and Annex B.2.2). */
  const InheritedNames: set<string> := {
    "constructor", "hasOwnProperty", "isPrototypeOf", "propertyIsEnumerable",
    "toLocaleString", "toString", "valueOf", "__defineGetter__",
    "__defineSetter__", "__lookupGetter__", "__lookupSetter__" }

  /** A value the object holds for a company: a number, or the string that
      `function + 1` concatenates, which the chart cannot draw. */
  datatype ChartValue = Tally(n: nat) | Garbled

  function Bump(v: ChartValue): ChartValue {
    match v
    case Tally(n) => Tally(n + 1)
    case Garbled => Garbled
  }

  /** One step of `companyCounts[c.company] = (companyCounts[c.company] || 0) + 1`
      on a plain object: an inherited function is truthy, so `+ 1` makes a
      string; assigning that string to "__proto__" calls the prototype
      setter, which ignores it, so no such key appears. */
  function ChartStep(m: map<string, ChartValue>, company: string): map<string, ChartValue> {
    if company == "" || company == "__proto__" then m
    else if company in m then m[company := Bump(m[company])]
    else if company in InheritedNames then m[company := Garbled]
    else m[company := Tally(1)]
  }

  /** The object after the forEach over the contacts, as written. */
  function ChartCountsAsWritten(contacts: seq<Contact>): map<string, ChartValue> {
    if contacts == [] then map[]
    else ChartStep(ChartCountsAsWritten(contacts[..|contacts| - 1]), contacts[|contacts| - 1].company)
  }

  /** The object holds the counts of the contacts s. */
  ghost predicate HoldsCounts(m: map<string, ChartValue>, s: seq<Contact>) {
    && m.Keys == Companies(s)
    && forall k :: k in m ==> m[k] == Tally(CountOf(s, k))
  }

  lemma ChartStepCounts(m: map<string, ChartValue>, s: seq<Contact>, c: Contact)
    requires HoldsCounts(m, s)
    requires c.company !in InheritedNames && c.company != "__proto__"
    ensures HoldsCounts(ChartStep(m, c.company), s + [c])
  {
    var m' := ChartStep(m, c.company);
    CompaniesSnoc(s, c);
    if c.company != "" && c.company !in m {
      CountOfAbsent(s, c.company);
    }
    forall k | k in m' ensures m'[k] == Tally(CountOf(s + [c], k)) {
      CountOfSnoc(s, c, k);
    }
  }

  /** Where no company is an Object.prototype name the object as written
      holds exactly the counts of CompanyCounts. */
  lemma {:induction false} ChartCountsAgree(contacts: seq<Contact>)
    requires forall i :: 0 <= i < |contacts| ==>
      contacts[i].company !in InheritedNames && contacts[i].company != "__proto__"
    ensures ChartCountsAsWritten(contacts).Keys == Companies(contacts)
    ensures forall k :: k in ChartCountsAsWritten(contacts) ==>
      ChartCountsAsWritten(contacts)[k] == Tally(CountOf(contacts, k))
  {
    if contacts != [] {
      var s, c := contacts[..|contacts| - 1], contacts[|contacts| - 1];
      assert contacts == s + [c];
      ChartCountsAgree(s);
      ChartStepCounts(ChartCountsAsWritten(s), s, c);
    }
  }

  /** A contact whose company is "toString" gets a value the chart cannot
      draw instead of the count 1, and one whose company is "__proto__" is
      counted in the stats but never reaches the chart. */
  lemma PrototypeNamesMiscounted()
    ensures var c := Contact("1", "Somchai", "somchai@example.com", "", "toString", false, "");
      && ChartCountsAsWritten([c]) == map["toString" := Garbled]
      && Companies([c]) == {"toString"} && CountOf([c], "toString") == 1
    ensures var d := Contact("2", "Malee", "malee@example.com", "", "__proto__", false, "");
      && ChartCountsAsWritten([d]) == map[]
      && Companies([d]) == {"__proto__"} && UpdateStats([d]).companies == 1
  {
    var c := Contact("1", "Somchai", "somchai@example.com", "", "toString", false, "");
    var d := Contact("2", "Malee", "malee@example.com", "", "__proto__", false, "");
    assert [c][..0] == [] && [d][..0] == [];
    assert ChartCountsAsWritten([c]) == map["toString" := Garbled];
    assert ChartCountsAsWritten([d]) == map[];
    assert Companies([c]) == {"toString"} by { assert c in [c]; }
    assert Companies([d]) == {"__proto__"} by { assert d in [d]; }
  }

  /** openDetail's activity slice: the first five log entries, in log
      order, whose contactName is exactly the contact's name. The log is
      fetched newest first, so these are the five most recent. */
  function PersonalLog(activities: seq<Activity>, name: string): (r: seq<Activity>)
    ensures |r| <= 5
    ensures forall i :: 0 <= i < |r| ==> r[i].contactName == name
  {
    Take(Filter((a: Activity) => a.contactName == name, activities), 5)
  }

  /** The slice is a prefix of the matching entries: the first min(5, n)
      of them, in log order, so every match when there are at most five. */
  lemma PersonalLogSlice(activities: seq<Activity>, name: string)
    ensures PersonalLog(activities, name) <= Filter((a: Activity) => a.contactName == name, activities)
    ensures IsSubsequence(PersonalLog(activities, name), activities)
    ensures var n := |Filter((a: Activity) => a.contactName == name, activities)|;
      |PersonalLog(activities, name)| == if n < 5 then n else 5
    ensures forall a :: a in PersonalLog(activities, name) ==> a in activities
    ensures |Filter((a: Activity) => a.contactName == name, activities)| <= 5 ==>
      forall a :: a in activities && a.contactName == name ==> a in PersonalLog(activities, name)
  {
    var p := (a: Activity) => a.contactName == name;
    var all := Filter(p, activities);
    FilterMembers(p, activities);
    FilterIsSubsequence(p, activities);
    if |all| > 5 {
      SubsequencePrefix(all, 5, activities);
    }
    forall a | a in PersonalLog(activities, name) ensures a in activities {
      assert a in all;
    }
  }

  /** What the detail modal shows for a contact, besides presentation. */
  datatype Detail = Detail(contact: Contact, log: seq<Activity>)

  /** openDetail: nothing for an unknown id; otherwise the contact with that
      id and its activity slice. */
  function OpenDetail(contacts: seq<Contact>, activities: seq<Activity>, id: Id): (r: Option<Detail>)
    ensures r.None? <==> id !in Ids(contacts)
    ensures r.Some? ==> r.value.contact in contacts && r.value.contact.id == id
    ensures r.Some? ==> |r.value.log| <= 5
    ensures r.Some? ==> forall i :: 0 <= i < |r.value.log| ==> r.value.log[i].contactName == r.value.contact.name
  {
    match FindById(contacts, id)
    case None =>
      assert forall c :: c in contacts ==> c.id != id;
      None
    case Some(k) =>
      assert contacts[k] in contacts;
      Some(Detail(contacts[k], PersonalLog(activities, contacts[k].name)))
  }
}
