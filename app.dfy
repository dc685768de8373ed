/** The filter state of the map page's root component `App`: the category
    dropdown, the Budget 2021 governorate and municipality filters, and the
    detail popup of a budget record. Leaflet layers are recorded as values
    (which records a layer shows), not drawn. */
module App {
  import opened Options
  import opened Json
  import opened Seqs
  import Merge
  import JsString

  /** One record of the budget file: an object's properties in key order. */
  type BudgetItem = seq<(string, Json)>

  /** The category whose choice switches the page to the budget records. */
  const BudgetCategory: string := "Budget 2021"

  /** The category option that shows every location. */
  const AllCategories: string := "Toutes"

  const GovernorateKey: string := "Nom_Gouvernorat_Ar"
  const MunicipalityKey: string := "Nom_Municipalite_Ar"

  /** What the page currently shows on the map. */
  datatype Layer =
    | NoLayer
    | StandardLayer(locations: seq<Merge.Location>)
    | BudgetLayer(items: seq<BudgetItem>)

  // ---------------------------------------------------------------------------
  // Dropdown lists: `[...new Set(values.filter(Boolean))].sort()`

  /** `t` is what the dropdown shows for the property `key` of `item`: the
      property is present and truthy, and `t` is its text. */
  predicate IsDropdownText(item: BudgetItem, key: string, t: string) {
    TruthyRead(Field(item, key)) && t == ToText(Field(item, key).value)
  }

  /** The truthy values of the property `key`, as text, in record order. */
  function DropdownTexts(data: seq<BudgetItem>, key: string): (r: seq<string>)
    ensures forall t :: t in r <==> exists item :: item in data && IsDropdownText(item, key, t)
  {
    if data == [] then []
    else
      var init, last := data[..|data| - 1], data[|data| - 1];
      assert data == init + [last];
      var v := Field(last, key);
      var rest := DropdownTexts(init, key);
      var r := rest + (if TruthyRead(v) then [ToText(v.value)] else []);
      forall t ensures t in r <==> exists item :: item in data && IsDropdownText(item, key, t) {
        if t in rest {
          var item :| item in init && IsDropdownText(item, key, t);
          assert item in data;
        } else if t in r {
          assert IsDropdownText(last, key, t) && last in data;
        }
        if exists item :: item in data && IsDropdownText(item, key, t) {
          var item :| item in data && IsDropdownText(item, key, t);
          if item !in init {
            assert item == last;
          }
        }
      }
      r
  }

  /** The default order of `Array.prototype.sort`: lexicographic on characters,
      a proper prefix first. */
  predicate StrLess(a: string, b: string)
    ensures StrLess(a, b) ==> a != b
    decreases |a|
  {
    if a == [] then b != []
    else b != [] && (a[0] < b[0] || (a[0] == b[0] && StrLess(a[1..], b[1..])))
  }

  lemma {:induction false} StrLessTransitive(a: string, b: string, c: string)
    requires StrLess(a, b) && StrLess(b, c)
    ensures StrLess(a, c)
    decreases |a|
  {
    if a != [] && a[0] == b[0] && b[0] == c[0] {
      StrLessTransitive(a[1..], b[1..], c[1..]);
    }
  }

  lemma {:induction false} StrLessTotal(a: string, b: string)
    ensures a == b || StrLess(a, b) || StrLess(b, a)
    decreases |a|
  {
    if a != [] && b != [] && a[0] == b[0] {
      StrLessTotal(a[1..], b[1..]);
      if a[1..] == b[1..] {
        assert a == [a[0]] + a[1..] && b == [b[0]] + b[1..];
      }
    }
  }

  /** Sorted with no two equal elements. */
  predicate StrictlySorted(s: seq<string>) {
    forall i, j :: 0 <= i < j < |s| ==> StrLess(s[i], s[j])
  }

  /** A strictly sorted list never holds an element twice. */
  lemma StrictlySortedDistinct(s: seq<string>)
    requires StrictlySorted(s)
    ensures forall i, j :: 0 <= i < |s| && 0 <= j < |s| && i != j ==> s[i] != s[j]
  {
    forall i, j | 0 <= i < |s| && 0 <= j < |s| && i != j
      ensures s[i] != s[j]
    {
      if i < j {
        assert StrLess(s[i], s[j]);
      } else {
        assert StrLess(s[j], s[i]);
      }
    }
  }

  /** `x` added to a strictly sorted list at its place, unless it is there already. */
  function InsertSorted(x: string, s: seq<string>): (r: seq<string>)
    requires StrictlySorted(s)
    ensures StrictlySorted(r)
    ensures forall y :: y in r <==> y == x || y in s
  {
    if s == [] then [x]
    else if x == s[0] then s
    else if StrLess(x, s[0]) then
      forall j | 0 < j < |s| ensures StrLess(x, s[j]) {
        StrLessTransitive(x, s[0], s[j]);
      }
      [x] + s
    else
      StrLessTotal(x, s[0]);
      var rest := InsertSorted(x, s[1..]);
      assert forall y :: y in s <==> y == s[0] || y in s[1..] by {
        assert s == [s[0]] + s[1..];
      }
      forall j | 0 <= j < |rest| ensures StrLess(s[0], rest[j]) {
        assert rest[j] in rest;
      }
      [s[0]] + rest
  }

  /** `[...new Set(values)].sort()`: the distinct values in ascending order. */
  function SortedSet(values: seq<string>): (r: seq<string>)
    ensures StrictlySorted(r)
    ensures forall y :: y in r <==> y in values
  {
    if values == [] then []
    else
      var init := values[..|values| - 1];
      assert values == init + [values[|values| - 1]];
      InsertSorted(values[|values| - 1], SortedSet(init))
  }

  /** Two strictly sorted lists with the same elements are the same list: the
      dropdown does not depend on the order the values came in. */
  lemma {:induction false} SortedSetUnique(a: seq<string>, b: seq<string>)
    requires StrictlySorted(a) && StrictlySorted(b)
    requires forall y :: y in a <==> y in b
    ensures a == b
    decreases |a|
  {
    assert a != [] ==> a[0] in b;
    assert b != [] ==> b[0] in a;
    if a != [] && b != [] {
      if a[0] != b[0] {
        var i :| 0 < i < |b| && b[i] == a[0];
        var j :| 0 < j < |a| && a[j] == b[0];
        assert StrLess(b[0], a[0]) && StrLess(a[0], b[0]);
        StrLessTransitive(a[0], b[0], a[0]);
        assert false;
      }
      StrictlySortedDistinct(a);
      StrictlySortedDistinct(b);
      forall y ensures y in a[1..] <==> y in b[1..] {
        assert a == [a[0]] + a[1..] && b == [b[0]] + b[1..];
        if y in a[1..] {
          var k :| 0 <= k < |a[1..]| && a[1..][k] == y;
          assert a[k + 1] == y && y != a[0] && y in b;
          var m :| 0 <= m < |b| && b[m] == y;
          assert m != 0 && b[1..][m - 1] == y;
        }
        if y in b[1..] {
          var k :| 0 <= k < |b[1..]| && b[1..][k] == y;
          assert b[k + 1] == y && y != b[0] && y in a;
          var m :| 0 <= m < |a| && a[m] == y;
          assert m != 0 && a[1..][m - 1] == y;
        }
      }
      SortedSetUnique(a[1..], b[1..]);
      assert a == [a[0]] + a[1..] && b == [b[0]] + b[1..];
    }
  }

  /** The list a dropdown shows for the property `key`. */
  function DropdownList(data: seq<BudgetItem>, key: string): (r: seq<string>)
    ensures StrictlySorted(r)
    ensures forall t :: t in r <==> exists item :: item in data && IsDropdownText(item, key, t)
  {
    SortedSet(DropdownTexts(data, key))
  }

  /** The dropdown list is the only strictly sorted list of exactly those texts. */
  lemma DropdownListUnique(data: seq<BudgetItem>, key: string, s: seq<string>)
    requires StrictlySorted(s)
    requires forall t :: t in s <==> exists item :: item in data && IsDropdownText(item, key, t)
    ensures s == DropdownList(data, key)
  {
    SortedSetUnique(s, DropdownList(data, key));
  }

  // ---------------------------------------------------------------------------
  // Budget filter

  /** The filter test: an empty selection matches every record, a non-empty one
      only a record whose property is that very string. */
  predicate Matches(item: BudgetItem, gov: string, mun: string)
    ensures gov == "" && mun == "" ==> Matches(item, gov, mun)
    ensures Matches(item, gov, mun) && gov != "" ==> Field(item, GovernorateKey) == Some(Str(gov))
    ensures Matches(item, gov, mun) && mun != "" ==> Field(item, MunicipalityKey) == Some(Str(mun))
  {
    (gov == "" || Field(item, GovernorateKey) == Some(Str(gov)))
    && (mun == "" || Field(item, MunicipalityKey) == Some(Str(mun)))
  }

  /** The filter test for given selections. */
  function Selection(gov: string, mun: string): BudgetItem -> bool {
    item => Matches(item, gov, mun)
  }

  /** The records the budget filter keeps. */
  function BudgetFilter(data: seq<BudgetItem>, gov: string, mun: string): (r: seq<BudgetItem>)
    ensures forall item :: item in r ==> item in data && Matches(item, gov, mun)
    ensures gov == "" && mun == "" ==> r == data
  {
    if gov == "" && mun == "" then
      FilterAll(Selection(gov, mun), data);
      Filter(Selection(gov, mun), data)
    else
      Filter(Selection(gov, mun), data)
  }

  /** The kept records are the matching ones, in their order, each as often as it
      occurs in the data. */
  lemma BudgetFilterKeeps(data: seq<BudgetItem>, gov: string, mun: string, item: BudgetItem)
    ensures IsSubsequence(BudgetFilter(data, gov, mun), data)
    ensures item in BudgetFilter(data, gov, mun) <==> item in data && Matches(item, gov, mun)
    ensures multiset(BudgetFilter(data, gov, mun))[item]
         == if Matches(item, gov, mun) then multiset(data)[item] else 0
  {
    FilterMultiplicity(Selection(gov, mun), data, item);
  }

  /** With both selections empty every record is kept. */
  lemma EmptySelectionKeepsAll(data: seq<BudgetItem>)
    ensures BudgetFilter(data, "", "") == data
  {
    FilterAll(Selection("", ""), data);
  }

  // ---------------------------------------------------------------------------
  // Category filter

  /** The test of one category. */
  function OfCategory(category: string): Merge.Location -> bool {
    (l: Merge.Location) => l.categorie == category
  }

  /** The locations shown for a category: all of them for "Toutes". */
  function CategoryFilter(locations: seq<Merge.Location>, category: string): (r: seq<Merge.Location>)
    ensures forall l :: l in r ==> l in locations && (category == AllCategories || l.categorie == category)
  {
    if category == AllCategories then locations
    else Filter(OfCategory(category), locations)
  }

  /** "Toutes" keeps every location; another category keeps exactly the locations
      of that category, in their order and with their repetitions. */
  lemma CategoryFilterKeeps(locations: seq<Merge.Location>, category: string, l: Merge.Location)
    ensures category == AllCategories ==> CategoryFilter(locations, category) == locations
    ensures category != AllCategories ==>
      IsSubsequence(CategoryFilter(locations, category), locations)
      && (l in CategoryFilter(locations, category) <==> l in locations && l.categorie == category)
      && multiset(CategoryFilter(locations, category))[l]
         == if l.categorie == category then multiset(locations)[l] else 0
  {
    if category != AllCategories {
      FilterMultiplicity(OfCategory(category), locations, l);
    }
  }

  // ---------------------------------------------------------------------------
  // Detail popup of a budget record

  const PopupHeader: string :=
    "<div style=\"max-height:300px; overflow-y:auto; min-width:250px;\">\n"
    + "              <h3 style=\"margin-top:0; color:#28a745; font-size:14px;\">D\U{E9}tails</h3>\n"
    + "              <table style=\"width:100%; border-collapse:collapse; font-size:12px;\"><tbody>"

  const PopupFooter: string := "</tbody></table>\n            </div>"

  /** The coordinates are not listed in the popup. */
  predicate ShownInPopup(field: (string, Json)) {
    field.0 != "lat" && field.0 != "lng"
  }

  /** The markup of a table row up to its key, between its key and its value, and
      after its value. */
  const KeyCellOpen: string :=
    "\n          <tr>\n"
    + "            <td style=\"font-weight:bold; color:#555; padding:3px; border-bottom:1px solid #eee;\">"
  const ValueCellOpen: string :=
    "</td>\n"
    + "            <td style=\"padding:3px; border-bottom:1px solid #eee;\">"
  const RowClose: string := "</td>\n          </tr>"

  /** The table row of one property: its key in bold, then its value as text. The
      key cell holds exactly the key and the value cell exactly `String(value)`. */
  function PopupRow(field: (string, Json)): (r: string)
    ensures |r| == |KeyCellOpen| + |field.0| + |ValueCellOpen| + |ToText(field.1)| + |RowClose|
    ensures JsString.InfixAt(field.0, r, |KeyCellOpen|)
    ensures JsString.InfixAt(ToText(field.1), r, |KeyCellOpen| + |field.0| + |ValueCellOpen|)
  {
    var r := KeyCellOpen + field.0 + ValueCellOpen + ToText(field.1) + RowClose;
    assert r[|KeyCellOpen|..|KeyCellOpen| + |field.0|] == field.0;
    var i := |KeyCellOpen| + |field.0| + |ValueCellOpen|;
    assert r[i..i + |ToText(field.1)|] == ToText(field.1);
    r
  }

  /** The rows of the popup table, one per shown property, in key order. */
  function PopupRows(item: BudgetItem): string {
    Concat(PopupRow, Filter(ShownInPopup, item))
  }

  /** The listed properties are those other than "lat" and "lng", in key order and
      each as often as it occurs; a record without coordinates lists all of them. */
  lemma PopupLists(item: BudgetItem, field: (string, Json))
    ensures IsSubsequence(Filter(ShownInPopup, item), item)
    ensures field in Filter(ShownInPopup, item) <==> field in item && field.0 != "lat" && field.0 != "lng"
    ensures multiset(Filter(ShownInPopup, item))[field]
         == if field.0 != "lat" && field.0 != "lng" then multiset(item)[field] else 0
    ensures (forall k :: 0 <= k < |item| ==> ShownInPopup(item[k])) ==> PopupRows(item) == Concat(PopupRow, item)
  {
    FilterMultiplicity(ShownInPopup, item, field);
    if forall k :: 0 <= k < |item| ==> ShownInPopup(item[k]) {
      FilterAll(ShownInPopup, item);
    }
  }

  /** The popup of a record: the `for…in` loop appends one row per own property
      other than the coordinates. */
  method GenerateFullPopup(data: BudgetItem) returns (html: string)
    ensures html == PopupHeader + PopupRows(data) + PopupFooter
  {
    var rows := "";
    for i := 0 to |data|
      invariant rows == Concat(PopupRow, Filter(ShownInPopup, data[..i]))
    {
      assert data[..i + 1] == data[..i] + [data[i]];
      FilterSnoc(ShownInPopup, data[..i], data[i]);
      if ShownInPopup(data[i]) {
        ConcatSnoc(PopupRow, Filter(ShownInPopup, data[..i]), data[i]);
        rows := rows + PopupRow(data[i]);
      } else {
        assert Filter(ShownInPopup, data[..i]) + [] == Filter(ShownInPopup, data[..i]);
      }
    }
    assert data[..|data|] == data;
    html := PopupHeader + rows + PopupFooter;
  }

  // ---------------------------------------------------------------------------
  // The component

  /** The component's filter state. The HTTP responses its loaders subscribe to
      are parameters: `None` is the error callback, which only logs. */
  class App {
    var isBudgetActive: bool
    var allBudgetData: seq<BudgetItem>
    var filteredBudgetData: seq<BudgetItem>
    var listGouvernorats: seq<string>
    var listMunicipalites: seq<string>
    var selectedGov: string
    var selectedMun: string
    var currentLayer: Layer

    constructor ()
      ensures !isBudgetActive && currentLayer == NoLayer
      ensures allBudgetData == [] && filteredBudgetData == []
      ensures listGouvernorats == [] && listMunicipalites == []
      ensures selectedGov == "" && selectedMun == ""
    {
      isBudgetActive := false;
      allBudgetData, filteredBudgetData := [], [];
      listGouvernorats, listMunicipalites := [], [];
      selectedGov, selectedMun := "", "";
      currentLayer := NoLayer;
    }

    /** Both dropdown lists, from all the budget records. */
    method ExtractFilterOptions()
      modifies this
      ensures listGouvernorats == DropdownList(allBudgetData, GovernorateKey)
      ensures listMunicipalites == DropdownList(allBudgetData, MunicipalityKey)
      ensures isBudgetActive == old(isBudgetActive) && allBudgetData == old(allBudgetData)
      ensures filteredBudgetData == old(filteredBudgetData) && currentLayer == old(currentLayer)
      ensures selectedGov == old(selectedGov) && selectedMun == old(selectedMun)
    {
      listGouvernorats := SortedSet(DropdownTexts(allBudgetData, GovernorateKey));
      listMunicipalites := SortedSet(DropdownTexts(allBudgetData, MunicipalityKey));
    }

    /** Shows the given budget records (the markers themselves are not modelled). */
    method RenderBudgetLayer(data: seq<BudgetItem>)
      modifies this
      ensures currentLayer == BudgetLayer(data)
      ensures isBudgetActive == old(isBudgetActive) && allBudgetData == old(allBudgetData)
      ensures filteredBudgetData == old(filteredBudgetData)
      ensures listGouvernorats == old(listGouvernorats) && listMunicipalites == old(listMunicipalites)
      ensures selectedGov == old(selectedGov) && selectedMun == old(selectedMun)
    {
      currentLayer := BudgetLayer(data);
    }

    /** Filters the budget records by the current selections and shows them. */
    method ApplyBudgetFilters()
      modifies this
      ensures filteredBudgetData == BudgetFilter(allBudgetData, selectedGov, selectedMun)
      ensures currentLayer == BudgetLayer(filteredBudgetData)
      ensures isBudgetActive == old(isBudgetActive) && allBudgetData == old(allBudgetData)
      ensures listGouvernorats == old(listGouvernorats) && listMunicipalites == old(listMunicipalites)
      ensures selectedGov == old(selectedGov) && selectedMun == old(selectedMun)
    {
      filteredBudgetData := BudgetFilter(allBudgetData, selectedGov, selectedMun);
      RenderBudgetLayer(filteredBudgetData);
    }

    /** Clears both selections; every budget record is shown again. */
    method ResetFilters()
      modifies this
      ensures selectedGov == "" && selectedMun == ""
      ensures filteredBudgetData == allBudgetData
      ensures currentLayer == BudgetLayer(allBudgetData)
      ensures isBudgetActive == old(isBudgetActive) && allBudgetData == old(allBudgetData)
      ensures listGouvernorats == old(listGouvernorats) && listMunicipalites == old(listMunicipalites)
    {
      selectedGov := "";
      selectedMun := "";
      ApplyBudgetFilters();
      EmptySelectionKeepsAll(allBudgetData);
    }

    /** The budget response handler: keeps the records, builds both dropdowns and
      shows the records that match the current selections. */
    method LoadBudgetData(response: Option<seq<BudgetItem>>)
      modifies this
      ensures response.None? ==> (
        allBudgetData == old(allBudgetData) && filteredBudgetData == old(filteredBudgetData)
        && listGouvernorats == old(listGouvernorats) && listMunicipalites == old(listMunicipalites)
        && currentLayer == old(currentLayer))
      ensures response.Some? ==> (
        allBudgetData == response.value
        && listGouvernorats == DropdownList(response.value, GovernorateKey)
        && listMunicipalites == DropdownList(response.value, MunicipalityKey)
        && filteredBudgetData == BudgetFilter(response.value, selectedGov, selectedMun)
        && currentLayer == BudgetLayer(filteredBudgetData))
      ensures isBudgetActive == old(isBudgetActive)
      ensures selectedGov == old(selectedGov) && selectedMun == old(selectedMun)
    {
      if response.Some? {
        allBudgetData := response.value;
        ExtractFilterOptions();
        ApplyBudgetFilters();
      }
    }

    /** The locations response handler: shows the locations of the category. */
    method LoadStandardData(category: string, response: Option<seq<Merge.Location>>)
      modifies this
      ensures response.None? ==> currentLayer == old(currentLayer)
      ensures response.Some? ==> currentLayer == StandardLayer(CategoryFilter(response.value, category))
      ensures isBudgetActive == old(isBudgetActive) && allBudgetData == old(allBudgetData)
      ensures filteredBudgetData == old(filteredBudgetData)
      ensures listGouvernorats == old(listGouvernorats) && listMunicipalites == old(listMunicipalites)
      ensures selectedGov == old(selectedGov) && selectedMun == old(selectedMun)
    {
      if response.Some? {
        var filtered := CategoryFilter(response.value, category);
        currentLayer := StandardLayer(filtered);
      }
    }

    /** The map is ready: every location is shown. */
    method OnMapReady(locations: Option<seq<Merge.Location>>)
      modifies this
      ensures locations.None? ==> currentLayer == old(currentLayer)
      ensures locations.Some? ==> currentLayer == StandardLayer(locations.value)
      ensures isBudgetActive == old(isBudgetActive) && allBudgetData == old(allBudgetData)
      ensures filteredBudgetData == old(filteredBudgetData)
      ensures listGouvernorats == old(listGouvernorats) && listMunicipalites == old(listMunicipalites)
      ensures selectedGov == old(selectedGov) && selectedMun == old(selectedMun)
    {
      LoadStandardData(AllCategories, locations);
    }

    /** A new category: the budget flag follows the choice, the current layer is
      removed, and either the budget records or the locations of the category are
      loaded. The governorate and municipality selections are kept. */
    method OnCategoryChange(selectedCat: string, budget: Option<seq<BudgetItem>>, locations: Option<seq<Merge.Location>>)
      modifies this
      ensures isBudgetActive <==> selectedCat == BudgetCategory
      ensures selectedGov == old(selectedGov) && selectedMun == old(selectedMun)
      ensures isBudgetActive && budget.Some? ==> (
        allBudgetData == budget.value
        && listGouvernorats == DropdownList(budget.value, GovernorateKey)
        && listMunicipalites == DropdownList(budget.value, MunicipalityKey)
        && filteredBudgetData == BudgetFilter(budget.value, selectedGov, selectedMun)
        && currentLayer == BudgetLayer(filteredBudgetData))
      ensures !isBudgetActive && locations.Some? ==>
        currentLayer == StandardLayer(CategoryFilter(locations.value, selectedCat))
      ensures (isBudgetActive && budget.None?) || (!isBudgetActive && locations.None?) ==> currentLayer == NoLayer
      ensures !isBudgetActive || budget.None? ==> (
        allBudgetData == old(allBudgetData) && filteredBudgetData == old(filteredBudgetData)
        && listGouvernorats == old(listGouvernorats) && listMunicipalites == old(listMunicipalites))
    {
      isBudgetActive := selectedCat == BudgetCategory;
      currentLayer := NoLayer;
      if isBudgetActive {
        LoadBudgetData(budget);
      } else {
        LoadStandardData(selectedCat, locations);
      }
    }
  }
}
