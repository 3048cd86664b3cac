/** The constants catalogue `physics_constants_lookup` of
    tutor_agent/tools/formula.py: a fixed table of 24 physical constants,
    an overview grouped by category, a category filter, and an exact then
    substring search by name. */
module Constants {
  import opened Text

  /** One record of the table. */
  datatype Constant = Constant(value: real, units: string, symbol: string, description: string,
                               category: string, uncertainty: string)

  /** A key of the table with its record. */
  type Entry = (string, Constant)

  /** The table, in the order of its source: its keys are distinct. */
  const Table: seq<Entry> := [
    ("speed_of_light", Constant(299792458.0, "m/s", "c", "Speed of light in vacuum", "fundamental", "exact (defined)")),
    ("planck_constant", Constant(6.62607015e-34, "J⋅s", "h", "Planck constant", "fundamental", "exact (defined)")),
    ("reduced_planck_constant", Constant(1.054571817e-34, "J⋅s", "ℏ", "Reduced Planck constant (h/2π)", "fundamental", "exact (defined)")),
    ("elementary_charge", Constant(1.602176634e-19, "C", "e", "Elementary charge", "fundamental", "exact (defined)")),
    ("gravitational_constant", Constant(6.67430e-11, "m³/(kg⋅s²)", "G", "Gravitational constant", "fundamental", "2.2e-5")),
    ("vacuum_permeability", Constant(1.25663706212e-6, "H/m", "μ₀", "Vacuum permeability", "electromagnetic", "1.9e-10")),
    ("vacuum_permittivity", Constant(8.8541878128e-12, "F/m", "ε₀", "Vacuum permittivity", "electromagnetic", "1.3e-10")),
    ("coulomb_constant", Constant(8.9875517923e9, "N⋅m²/C²", "k", "Coulomb constant (1/(4πε₀))", "electromagnetic", "exact (derived)")),
    ("avogadro_number", Constant(6.02214076e23, "1/mol", "Nₐ", "Avogadro number", "atomic", "exact (defined)")),
    ("boltzmann_constant", Constant(1.380649e-23, "J/K", "k_B", "Boltzmann constant", "atomic", "exact (defined)")),
    ("gas_constant", Constant(8.314462618, "J/(mol⋅K)", "R", "Universal gas constant", "atomic", "exact (derived)")),
    ("electron_mass", Constant(9.1093837015e-31, "kg", "mₑ", "Electron rest mass", "atomic", "3.0e-10")),
    ("proton_mass", Constant(1.67262192369e-27, "kg", "mₚ", "Proton rest mass", "atomic", "3.1e-10")),
    ("neutron_mass", Constant(1.67492749804e-27, "kg", "mₙ", "Neutron rest mass", "atomic", "9.5e-10")),
    ("atomic_mass_unit", Constant(1.66053906660e-27, "kg", "u", "Atomic mass unit", "atomic", "5.0e-10")),
    ("standard_gravity", Constant(9.80665, "m/s²", "g", "Standard acceleration due to gravity", "earth", "exact (defined)")),
    ("earth_mass", Constant(5.972e24, "kg", "M⊕", "Earth mass", "earth", "4.4e-4")),
    ("earth_radius", Constant(6.371e6, "m", "R⊕", "Earth mean radius", "earth", "varies")),
    ("solar_mass", Constant(1.98847e30, "kg", "M☉", "Solar mass", "astronomical", "2.0e-4")),
    ("astronomical_unit", Constant(1.495978707e11, "m", "au", "Astronomical unit", "astronomical", "exact (defined)")),
    ("stefan_boltzmann_constant", Constant(5.670374419e-8, "W/(m²⋅K⁴)", "σ", "Stefan-Boltzmann constant", "thermodynamic", "exact (derived)")),
    ("wien_displacement_constant", Constant(2.897771955e-3, "m⋅K", "b", "Wien displacement law constant", "thermodynamic", "exact (derived)")),
    ("fine_structure_constant", Constant(7.2973525693e-3, "dimensionless", "α", "Fine-structure constant", "nuclear", "1.5e-10")),
    ("rydberg_constant", Constant(1.0973731568160e7, "1/m", "R∞", "Rydberg constant", "nuclear", "1.9e-12"))
  ]

  /** The name, symbol and description the overview lists for a constant. */
  datatype Summary = Summary(name: string, symbol: string, description: string)

  /** What the lookup returns, one alternative per kind of answer. */
  datatype LookupResult =
    | Overview(categories: map<string, seq<Summary>>, total: nat)
    | CategoryListing(category: string, constants: seq<Entry>, count: nat)
    | UnknownCategory(requested: string, available: set<string>)
    | Found(name: string, constant: Constant)
    | PartialMatches(matches: seq<Entry>, searchTerm: string)
    | UnknownConstant(name: string, availableConstants: seq<string>, totalAvailable: nat)

  // ---------------------------------------------------------------------
  // Reference definitions

  predicate DistinctKeys(table: seq<Entry>) {
    forall i, j :: 0 <= i < j < |table| ==> table[i].0 != table[j].0
  }

  function SummaryOf(e: Entry): Summary {
    Summary(e.0, e.1.symbol, e.1.description)
  }

  function Summaries(entries: seq<Entry>): (s: seq<Summary>)
    ensures |s| == |entries|
    ensures forall i :: 0 <= i < |entries| ==> s[i] == SummaryOf(entries[i])
  {
    if entries == [] then [] else Summaries(entries[..|entries| - 1]) + [SummaryOf(entries[|entries| - 1])]
  }

  /** The overview's grouping: each entry's summary appended, in table
      order, to the list of its category, the list being created on first
      use. */
  function Grouped(table: seq<Entry>): map<string, seq<Summary>> {
    if table == [] then map[]
    else
      var groups := Grouped(table[..|table| - 1]);
      var e := table[|table| - 1];
      var listed := if e.1.category in groups then groups[e.1.category] else [];
      groups[e.1.category := listed + [SummaryOf(e)]]
  }

  /** The entries of one category, in table order. */
  function InCategory(table: seq<Entry>, c: string): seq<Entry> {
    if table == [] then []
    else InCategory(table[..|table| - 1], c) + (if table[|table| - 1].1.category == c then [table[|table| - 1]] else [])
  }

  /** The distinct categories of the table. */
  function Categories(table: seq<Entry>): (cs: set<string>)
    ensures forall c :: c in cs <==> exists i :: 0 <= i < |table| && table[i].1.category == c
  {
    set i | 0 <= i < |table| :: table[i].1.category
  }

  /** The partial-match test: the term occurs in the key or in the
      lower-cased description. */
  predicate Matches(e: Entry, term: string) {
    IsSubstring(term, e.0) || IsSubstring(term, Lower(e.1.description))
  }

  /** The entries the term partially matches, in table order. */
  function Matching(table: seq<Entry>, term: string): seq<Entry> {
    if table == [] then []
    else Matching(table[..|table| - 1], term) + (if Matches(table[|table| - 1], term) then [table[|table| - 1]] else [])
  }

  /** The record stored under a key. */
  function Find(table: seq<Entry>, key: string): (r: Option<Constant>)
    ensures r.Some? <==> exists i :: 0 <= i < |table| && table[i].0 == key
    ensures r.Some? ==> (key, r.value) in table
  {
    if table == [] then None
    else if table[0].0 == key then Some(table[0].1)
    else
      var r := Find(table[1..], key);
      assert forall i :: 1 <= i < |table| ==> table[i] == table[1..][i - 1];
      r
  }

  function Keys(table: seq<Entry>): (ks: seq<string>)
    ensures |ks| == |table|
    ensures forall i :: 0 <= i < |table| ==> ks[i] == table[i].0
  {
    seq(|table|, i requires 0 <= i < |table| => table[i].0)
  }

  /** Python truthiness of an optional string argument. */
  predicate Given(s: Option<string>) {
    s.Some? && s.value != ""
  }

  /** `physics_constants_lookup(constant_name, category)`. */
  function Expected(name: Option<string>, category: Option<string>): (r: LookupResult)
    ensures r.Overview? <==> !Given(name) && !Given(category)
    ensures r.CategoryListing? || r.UnknownCategory? <==> Given(category)
    ensures r.Found? || r.PartialMatches? || r.UnknownConstant? <==> Given(name) && !Given(category)
  {
    if !Given(name) && !Given(category) then
      Overview(Grouped(Table), |Table|)
    else if Given(category) then
      var c := Lower(category.value);
      var listed := InCategory(Table, c);
      if listed != [] then CategoryListing(c, listed, |listed|) else UnknownCategory(c, Categories(Table))
    else
      var key := NormalizeKey(name.value);
      var exact := Find(Table, key);
      if exact.Some? then Found(key, exact.value)
      else
        var matches := Matching(Table, key);
        if matches != [] then PartialMatches(matches, key)
        else UnknownConstant(key, Keys(Table)[..10], |Table|)
  }

  // ---------------------------------------------------------------------
  // The lookup

  /** The overview loop: append each constant's summary to its category. */
  method GroupSummaries(table: seq<Entry>) returns (categories: map<string, seq<Summary>>)
    ensures categories == Grouped(table)
  {
    categories := map[];
    for i := 0 to |table|
      invariant categories == Grouped(table[..i])
    {
      var (key, k) := table[i];
      if k.category !in categories {
        categories := categories[k.category := []];
      }
      categories := categories[k.category := categories[k.category] + [Summary(key, k.symbol, k.description)]];
      assert table[..i + 1][..i] == table[..i];
    }
    assert table[..|table|] == table;
  }

  /** The category loop: keep the constants of the requested category. */
  method SelectCategory(table: seq<Entry>, c: string) returns (listed: seq<Entry>)
    ensures listed == InCategory(table, c)
  {
    listed := [];
    for i := 0 to |table|
      invariant listed == InCategory(table[..i], c)
    {
      if table[i].1.category == c {
        listed := listed + [table[i]];
      }
      assert table[..i + 1][..i] == table[..i];
    }
    assert table[..|table|] == table;
  }

  /** The partial-match loop. */
  method SelectMatches(table: seq<Entry>, term: string) returns (matches: seq<Entry>)
    ensures matches == Matching(table, term)
  {
    matches := [];
    for i := 0 to |table|
      invariant matches == Matching(table[..i], term)
    {
      var (key, k) := table[i];
      if IsSubstring(term, key) || IsSubstring(term, Lower(k.description)) {
        matches := matches + [table[i]];
      }
      assert table[..i + 1][..i] == table[..i];
    }
    assert table[..|table|] == table;
  }

  /** `physics_constants_lookup(constant_name, category)`: the overview when
      neither argument is given, else the category listing when a category
      is given, else the exact or partial search by name. */
  method Lookup(name: Option<string>, category: Option<string>) returns (r: LookupResult)
    ensures r == Expected(name, category)
  {
    if !Given(name) && !Given(category) {
      var categories := GroupSummaries(Table);
      return Overview(categories, |Table|);
    }
    if Given(category) {
      var c := Lower(category.value);
      var listed := SelectCategory(Table, c);
      if |listed| > 0 {
        return CategoryListing(c, listed, |listed|);
      }
      return UnknownCategory(c, Categories(Table));
    }
    var key := NormalizeKey(name.value);
    var exact := Find(Table, key);
    if exact.Some? {
      return Found(key, exact.value);
    }
    var matches := SelectMatches(Table, key);
    if |matches| > 0 {
      return PartialMatches(matches, key);
    }
    return UnknownConstant(key, Keys(Table)[..10], |Table|);
  }

  // ---------------------------------------------------------------------
  // Properties of the catalogue

  /** Filtering by category keeps each entry of that category as often as
      the table holds it, and no other entry. */
  lemma {:induction false} InCategoryCounts(table: seq<Entry>, c: string, e: Entry)
    ensures multiset(InCategory(table, c))[e] == if e.1.category == c then multiset(table)[e] else 0
    decreases |table|
  {
    if table != [] {
      var init, last := table[..|table| - 1], table[|table| - 1];
      InCategoryCounts(init, c, e);
      assert table == init + [last];
    }
  }

  /** With distinct keys every entry occurs in the table exactly once. */
  lemma {:induction false} DistinctOnce(table: seq<Entry>, i: int)
    requires DistinctKeys(table) && 0 <= i < |table|
    ensures multiset(table)[table[i]] == 1
    decreases |table|
  {
    var init, last := table[..|table| - 1], table[|table| - 1];
    assert table == init + [last];
    if i == |table| - 1 {
      assert forall j :: 0 <= j < |init| ==> init[j].0 != last.0 by {
        assert forall j :: 0 <= j < |init| ==> init[j] == table[j];
      }
      assert last !in init;
    } else {
      DistinctOnce(init, i);
      assert table[i] != last by {
        assert table[i].0 != table[|table| - 1].0;
      }
    }
  }

  /** Each constant is listed exactly once, under its own category, and
      under no other. */
  lemma ListedOnceUnderOwnCategory(table: seq<Entry>, i: int, c: string)
    requires DistinctKeys(table) && 0 <= i < |table|
    ensures multiset(InCategory(table, c))[table[i]] == if c == table[i].1.category then 1 else 0
  {
    InCategoryCounts(table, c, table[i]);
    DistinctOnce(table, i);
  }

  /** The overview has one list per category of the table, and the list of
      a category holds the summaries of exactly that category's entries, in
      table order. */
  lemma {:induction false} GroupedByCategory(table: seq<Entry>)
    ensures forall c :: c in Grouped(table) <==> c in Categories(table)
    ensures forall c :: c in Grouped(table) ==> Grouped(table)[c] == Summaries(InCategory(table, c))
    decreases |table|
  {
    if table != [] {
      var init, last := table[..|table| - 1], table[|table| - 1];
      GroupedByCategory(init);
      forall c
        ensures c in Grouped(table) <==> c in Categories(table)
      {
        if c in Categories(table) && c != last.1.category {
          var i :| 0 <= i < |table| && table[i].1.category == c;
          assert init[i].1.category == c;
        }
      }
      forall c | c in Grouped(table)
        ensures Grouped(table)[c] == Summaries(InCategory(table, c))
      {
        if c == last.1.category {
          assert InCategory(table, c) == InCategory(init, c) + [last];
          if c !in Grouped(init) {
            assert InCategory(init, c) == [] by {
              EmptyCategory(init, c);
            }
          }
          SummariesAppend(InCategory(init, c), last);
        } else {
          assert InCategory(table, c) == InCategory(init, c);
          assert Grouped(table)[c] == Grouped(init)[c];
        }
      }
    }
  }

  lemma SummariesAppend(entries: seq<Entry>, e: Entry)
    ensures Summaries(entries + [e]) == Summaries(entries) + [SummaryOf(e)]
  {
    assert (entries + [e])[..|entries|] == entries;
  }

  /** A category no entry has selects nothing. */
  lemma {:induction false} EmptyCategory(table: seq<Entry>, c: string)
    requires c !in Categories(table)
    ensures InCategory(table, c) == []
    decreases |table|
  {
    if table != [] {
      var init := table[..|table| - 1];
      assert forall i :: 0 <= i < |init| ==> init[i].1.category != c by {
        assert forall i :: 0 <= i < |init| ==> init[i] == table[i];
      }
      EmptyCategory(init, c);
    }
  }

  /** The table holds 24 constants under distinct keys. */
  lemma TableKeys()
    ensures |Table| == 24
    ensures DistinctKeys(Table)
  {
    KeysDistinctLow();
    KeysDistinctHigh();
    KeysDistinctAcross();
  }

  lemma KeysDistinctLow()
    ensures forall i, j :: 0 <= i < j < 12 ==> Table[i].0 != Table[j].0
  {
  }

  lemma KeysDistinctHigh()
    ensures forall i, j :: 12 <= i < j < 24 ==> Table[i].0 != Table[j].0
  {
  }

  lemma KeysDistinctAcross()
    ensures forall i, j :: 0 <= i < 12 <= j < 24 ==> Table[i].0 != Table[j].0
  {
  }

  const CategoryNames: set<string> := {"fundamental", "electromagnetic", "atomic", "earth", "astronomical", "thermodynamic", "nuclear"}

  lemma EveryCategoryNamed()
    ensures forall i :: 0 <= i < |Table| ==> Table[i].1.category in CategoryNames
  {
  }

  lemma CategoriesWithin()
    ensures Categories(Table) <= CategoryNames
  {
    EveryCategoryNamed();
  }

  lemma CategoriesCover()
    ensures CategoryNames <= Categories(Table)
  {
    assert Table[0].1.category == "fundamental";
    assert Table[5].1.category == "electromagnetic";
    assert Table[8].1.category == "atomic";
    assert Table[15].1.category == "earth";
    assert Table[18].1.category == "astronomical";
    assert Table[20].1.category == "thermodynamic";
    assert Table[22].1.category == "nuclear";
  }

  lemma SevenNames()
    ensures |CategoryNames| == 7
  {
  }

  /** The table's constants fall into 7 categories. */
  lemma TableCategories()
    ensures Categories(Table) == CategoryNames
    ensures |Categories(Table)| == 7
  {
    CategoriesWithin();
    CategoriesCover();
    SevenNames();
  }

  /** The partial matches are exactly the entries whose key or lower-cased
      description contains the term, each as often as the table holds it. */
  lemma {:induction false} MatchingCounts(table: seq<Entry>, term: string, e: Entry)
    ensures multiset(Matching(table, term))[e] == if Matches(e, term) then multiset(table)[e] else 0
    decreases |table|
  {
    if table != [] {
      var init, last := table[..|table| - 1], table[|table| - 1];
      MatchingCounts(init, term, e);
      assert table == init + [last];
    }
  }

  // ---------------------------------------------------------------------
  // Properties of the lookup

  /** The overview lists each of the 24 constants exactly once, under its
      own category, and reports 24 as the total. */
  lemma OverviewListsEachOnce(i: int)
    requires 0 <= i < |Table|
    ensures Expected(None, None).total == 24
    ensures Table[i].1.category in Expected(None, None).categories
    ensures Expected(None, None).categories[Table[i].1.category] == Summaries(InCategory(Table, Table[i].1.category))
    ensures forall c :: multiset(InCategory(Table, c))[Table[i]] == if c == Table[i].1.category then 1 else 0
  {
    TableKeys();
    GroupedByCategory(Table);
    forall c
      ensures multiset(InCategory(Table, c))[Table[i]] == if c == Table[i].1.category then 1 else 0
    {
      ListedOnceUnderOwnCategory(Table, i, c);
    }
  }

  /** A category, when given, is looked at before any name. */
  lemma CategoryBeforeName(name: Option<string>, category: Option<string>)
    requires Given(category)
    ensures Expected(name, category) == Expected(None, category)
  {
  }

  /** The category path of the lookup. */
  lemma CategoryPath(category: string)
    requires category != ""
    ensures Expected(None, Some(category)) ==
              if InCategory(Table, Lower(category)) != [] then
                CategoryListing(Lower(category), InCategory(Table, Lower(category)), |InCategory(Table, Lower(category))|)
              else UnknownCategory(Lower(category), Categories(Table))
  {
  }

  /** The search path of the lookup, for a name that is not a key. */
  lemma SearchPath(name: string)
    requires name != "" && NormalizeKey(name) !in Keys(Table)
    ensures Expected(Some(name), None) ==
              if Matching(Table, NormalizeKey(name)) != [] then PartialMatches(Matching(Table, NormalizeKey(name)), NormalizeKey(name))
              else UnknownConstant(NormalizeKey(name), Keys(Table)[..10], |Table|)
  {
    assert Find(Table, NormalizeKey(name)).None?;
  }

  /** A category lists exactly the constants of the lower-cased category,
      and is unknown, with the 7 categories offered, when it has none. */
  lemma CategoryListingExact(category: string)
    requires category != ""
    ensures Expected(None, Some(category)).CategoryListing? <==> Lower(category) in CategoryNames
    ensures Expected(None, Some(category)).CategoryListing? ==>
              var r := Expected(None, Some(category));
              r.category == Lower(category) && r.count == |r.constants|
              && forall e :: multiset(r.constants)[e] == if e.1.category == Lower(category) then multiset(Table)[e] else 0
    ensures Expected(None, Some(category)).UnknownCategory? ==>
              Expected(None, Some(category)) == UnknownCategory(Lower(category), CategoryNames)
  {
    TableCategories();
    CategoryPath(category);
    Selected(Table, Lower(category));
  }

  /** Filtering a table by a category selects something exactly when some
      entry has that category, and then each entry of the category as often
      as the table holds it. */
  lemma Selected(table: seq<Entry>, c: string)
    ensures InCategory(table, c) != [] <==> c in Categories(table)
    ensures forall e :: multiset(InCategory(table, c))[e] == if e.1.category == c then multiset(table)[e] else 0
  {
    forall e
      ensures multiset(InCategory(table, c))[e] == if e.1.category == c then multiset(table)[e] else 0
    {
      InCategoryCounts(table, c, e);
    }
    if c in Categories(table) {
      var i :| 0 <= i < |table| && table[i].1.category == c;
      InCategoryCounts(table, c, table[i]);
    } else {
      EmptyCategory(table, c);
    }
  }

  /** A name is found exactly when its normalised form is a key, and then
      with the record stored under that key. */
  lemma NameFound(name: string)
    requires name != ""
    ensures Expected(Some(name), None).Found? <==> NormalizeKey(name) in Keys(Table)
    ensures Expected(Some(name), None).Found? ==>
              Expected(Some(name), None).name == NormalizeKey(name)
              && (NormalizeKey(name), Expected(Some(name), None).constant) in Table
  {
  }

  /** Failing an exact match, the partial matches are exactly the entries
      whose key or lower-cased description contains the normalised name,
      reported as partial matches even when there is only one; with none,
      the first 10 keys and the total of 24 are reported. */
  lemma NameSearched(name: string)
    requires name != "" && NormalizeKey(name) !in Keys(Table)
    ensures Expected(Some(name), None).PartialMatches? <==> exists i :: 0 <= i < |Table| && Matches(Table[i], NormalizeKey(name))
    ensures Expected(Some(name), None).PartialMatches? ==>
              var r := Expected(Some(name), None);
              r.searchTerm == NormalizeKey(name)
              && forall e :: multiset(r.matches)[e] == if Matches(e, NormalizeKey(name)) then multiset(Table)[e] else 0
    ensures Expected(Some(name), None).UnknownConstant? ==>
              Expected(Some(name), None) == UnknownConstant(NormalizeKey(name), Keys(Table)[..10], 24)
  {
    TableKeys();
    SearchPath(name);
    Searched(Table, NormalizeKey(name));
  }

  /** The partial search selects something exactly when some entry matches
      the term, and then each matching entry as often as the table holds it. */
  lemma Searched(table: seq<Entry>, term: string)
    ensures Matching(table, term) != [] <==> exists i :: 0 <= i < |table| && Matches(table[i], term)
    ensures forall e :: multiset(Matching(table, term))[e] == if Matches(e, term) then multiset(table)[e] else 0
  {
    forall e
      ensures multiset(Matching(table, term))[e] == if Matches(e, term) then multiset(table)[e] else 0
    {
      MatchingCounts(table, term, e);
    }
    if exists i :: 0 <= i < |table| && Matches(table[i], term) {
      var i :| 0 <= i < |table| && Matches(table[i], term);
      assert table[i] in multiset(table);
      assert multiset(Matching(table, term))[table[i]] > 0;
    }
  }

  /** Any spelling that normalises to `speed_of_light` finds the speed of
      light under that key. */
  lemma NameSpellings(name: string)
    requires NormalizeKey(name) == "speed_of_light"
    ensures Expected(Some(name), None) == Found("speed_of_light", Table[0].1)
  {
    assert Table[0].0 == "speed_of_light";
  }

  /** "Speed of Light" normalises to `speed_of_light`. */
  lemma SpacedSpelling()
    ensures NormalizeKey("Speed of Light") == "speed_of_light"
  {
    NormalizeKeyAt("Speed of Light");
  }

  /** "speed-of-light" normalises to `speed_of_light`. */
  lemma HyphenatedSpelling()
    ensures NormalizeKey("speed-of-light") == "speed_of_light"
  {
    NormalizeKeyAt("speed-of-light");
  }

  /** "SPEED_OF_LIGHT" normalises to `speed_of_light`. */
  lemma UpperCaseSpelling()
    ensures NormalizeKey("SPEED_OF_LIGHT") == "speed_of_light"
  {
    NormalizeKeyAt("SPEED_OF_LIGHT");
  }

  /** The category is matched without regard to letter case: "ATOMIC"
      lists the atomic constants. */
  lemma CategoryCaseInsensitive()
    ensures Expected(None, Some("ATOMIC")) == Expected(None, Some("atomic"))
    ensures Expected(None, Some("ATOMIC")).CategoryListing?
    ensures Expected(None, Some("ATOMIC")).category == "atomic"
  {
    assert Lower("ATOMIC") == "atomic";
    assert Lower("atomic") == "atomic";
    CategoryListingExact("atomic");
  }
}
