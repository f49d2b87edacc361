/**
 * The download settings screen: the include/exclude category dialog (one four-state
 * box per category), the download-directory dialog, and the summaries shown under the
 * category and restriction preferences.
 */
module DownloadSettings {
  import opened Wrappers
  import opened Text
  import opened Sorting

  /** A category as the settings screen sees it. */
  datatype Category = Category(id: int, name: string, order: int)

  /** A box of the quad-state list. */
  datatype QuadState = Unchecked | Checked | Inversed | Indeterminate

  /** `category.id.toString()`, the form ids are stored in. */
  function IdString(c: Category): string
  {
    IntToString(c.id)
  }

  predicate DistinctIds(cats: seq<Category>)
  {
    forall i, j :: 0 <= i < j < |cats| ==> cats[i].id != cats[j].id
  }

  /** The ids of all categories, as stored strings. */
  function CategoryIds(cats: seq<Category>): set<string>
  {
    set c | c in cats :: IdString(c)
  }

  // ---------------------------------------------------------------------------
  // DownloadCategoriesDialog: encode and decode

  /** The initial box of one category; the included set is looked at first. */
  function InitialState(c: Category, included: set<string>, excluded: set<string>): (r: QuadState)
    ensures r == Checked <==> IdString(c) in included
    ensures r == Inversed <==> IdString(c) !in included && IdString(c) in excluded
    ensures r == Unchecked <==> IdString(c) !in included && IdString(c) !in excluded
  {
    if IdString(c) in included then Checked
    else if IdString(c) in excluded then Inversed
    else Unchecked
  }

  /** The boxes the dialog opens with, one per category in order. */
  function InitialStates(cats: seq<Category>, included: set<string>, excluded: set<string>): (r: seq<QuadState>)
    ensures |r| == |cats|
    ensures forall i :: 0 <= i < |cats| ==> r[i] == InitialState(cats[i], included, excluded)
  {
    seq(|cats|, i requires 0 <= i < |cats| => InitialState(cats[i], included, excluded))
  }

  /** The stored ids of the categories whose box is in `state`. */
  function IdsIn(cats: seq<Category>, selected: seq<QuadState>, state: QuadState): set<string>
    requires |selected| == |cats|
  {
    set i | 0 <= i < |cats| && selected[i] == state :: IdString(cats[i])
  }

  /** Pressing OK on untouched boxes stores `included ∩ ids` and `(excluded \ included) ∩ ids`. */
  lemma UntouchedOk(cats: seq<Category>, included: set<string>, excluded: set<string>)
    ensures var sel := InitialStates(cats, included, excluded);
            && IdsIn(cats, sel, Checked) == included * CategoryIds(cats)
            && IdsIn(cats, sel, Inversed) == (excluded - included) * CategoryIds(cats)
  {
    var sel := InitialStates(cats, included, excluded);
    forall x | x in included * CategoryIds(cats)
      ensures x in IdsIn(cats, sel, Checked)
    {
      var i :| 0 <= i < |cats| && IdString(cats[i]) == x;
      assert sel[i] == Checked;
    }
    forall x | x in (excluded - included) * CategoryIds(cats)
      ensures x in IdsIn(cats, sel, Inversed)
    {
      var i :| 0 <= i < |cats| && IdString(cats[i]) == x;
      assert sel[i] == Inversed;
    }
  }

  lemma IdStringDistinct(cats: seq<Category>, i: int, j: int)
    requires DistinctIds(cats) && 0 <= i < |cats| && 0 <= j < |cats| && i != j
    ensures IdString(cats[i]) != IdString(cats[j])
  {
    if IdString(cats[i]) == IdString(cats[j]) {
      IntToStringInjective(cats[i].id, cats[j].id);
    }
  }

  /** A category's id is stored under `state` iff its box is in `state`. */
  lemma {:induction false} InIdsIn(cats: seq<Category>, selected: seq<QuadState>, state: QuadState, i: int)
    requires DistinctIds(cats) && |selected| == |cats| && 0 <= i < |cats|
    ensures IdString(cats[i]) in IdsIn(cats, selected, state) <==> selected[i] == state
  {
    if IdString(cats[i]) in IdsIn(cats, selected, state) {
      var j :| 0 <= j < |cats| && selected[j] == state && IdString(cats[j]) == IdString(cats[i]);
      if j != i {
        IdStringDistinct(cats, i, j);
      }
    }
  }

  /** With distinct ids the two stored sets are disjoint, and an unchecked category is in
    * neither. */
  lemma OkDisjoint(cats: seq<Category>, selected: seq<QuadState>)
    requires DistinctIds(cats) && |selected| == |cats|
    ensures IdsIn(cats, selected, Checked) * IdsIn(cats, selected, Inversed) == {}
    ensures forall i :: 0 <= i < |cats| && selected[i] == Unchecked ==>
              IdString(cats[i]) !in IdsIn(cats, selected, Checked) + IdsIn(cats, selected, Inversed)
  {
    forall x | x in IdsIn(cats, selected, Checked)
      ensures x !in IdsIn(cats, selected, Inversed)
    {
      var i :| 0 <= i < |cats| && selected[i] == Checked && IdString(cats[i]) == x;
      InIdsIn(cats, selected, Inversed, i);
    }
    forall i | 0 <= i < |cats| && selected[i] == Unchecked
      ensures IdString(cats[i]) !in IdsIn(cats, selected, Checked) + IdsIn(cats, selected, Inversed)
    {
      InIdsIn(cats, selected, Checked, i);
      InIdsIn(cats, selected, Inversed, i);
    }
  }

  /** Reopening the dialog after OK shows the boxes that were confirmed (for distinct
    * ids and boxes that are checked, inversed or unchecked). */
  lemma ReopenShowsConfirmed(cats: seq<Category>, selected: seq<QuadState>)
    requires DistinctIds(cats) && |selected| == |cats|
    requires forall i :: 0 <= i < |selected| ==> selected[i] != Indeterminate
    ensures InitialStates(cats, IdsIn(cats, selected, Checked), IdsIn(cats, selected, Inversed)) == selected
  {
    var inc := IdsIn(cats, selected, Checked);
    var exc := IdsIn(cats, selected, Inversed);
    var r := InitialStates(cats, inc, exc);
    forall i | 0 <= i < |cats|
      ensures r[i] == selected[i]
    {
      InIdsIn(cats, selected, Checked, i);
      InIdsIn(cats, selected, Inversed, i);
    }
  }

  /** The category dialog: the boxes, and the two preferences it writes on OK. */
  class DownloadCategoriesDialog {
    const categories: seq<Category>
    var selected: seq<QuadState>
    /** `downloadNewChapterCategories` */
    var includePref: set<string>
    /** `downloadNewChapterCategoriesExclude` */
    var excludePref: set<string>

    predicate Valid()
      reads this
    {
      |selected| == |categories|
    }

    constructor (categories: seq<Category>, included: set<string>, excluded: set<string>)
      ensures Valid()
      ensures this.categories == categories && includePref == included && excludePref == excluded
      ensures selected == InitialStates(categories, included, excluded)
    {
      this.categories := categories;
      includePref := included;
      excludePref := excluded;
      selected := InitialStates(categories, included, excluded);
    }

    /** The list reports new boxes. */
    method OnSelections(selections: seq<QuadState>)
      requires |selections| == |categories|
      modifies this`selected
      ensures Valid() && selected == selections
    {
      selected := selections;
    }

    /** OK writes both preferences, whether or not anything changed. */
    method OnPositive()
      requires Valid()
      modifies this`includePref, this`excludePref
      ensures includePref == IdsIn(categories, selected, Checked)
      ensures excludePref == IdsIn(categories, selected, Inversed)
      ensures DistinctIds(categories) ==> includePref * excludePref == {}
    {
      if DistinctIds(categories) {
        OkDisjoint(categories, selected);
      }
      includePref := IdsIn(categories, selected, Checked);
      excludePref := IdsIn(categories, selected, Inversed);
    }
  }

  // ---------------------------------------------------------------------------
  // DownloadDirectoriesDialog

  /** The first option that occurs in `currentDir`, or -1. */
  function FirstContained(dirs: seq<string>, currentDir: string): (r: int)
    ensures -1 <= r < |dirs|
    ensures r == -1 <==> forall j :: 0 <= j < |dirs| ==> !Contains(currentDir, dirs[j])
    ensures r >= 0 ==> Contains(currentDir, dirs[r]) && forall j :: 0 <= j < r ==> !Contains(currentDir, dirs[j])
    decreases |dirs|
  {
    if |dirs| == 0 then -1
    else if Contains(currentDir, dirs[0]) then 0
    else
      var k := FirstContained(dirs[1..], currentDir);
      if k == -1 then -1 else k + 1
  }

  datatype DirectoryChoice = CustomPicker | Predefined(path: string)

  class DownloadDirectoriesDialog {
    /** The default download folder and the "custom location" entry, in that order. */
    const externalDirs: seq<string>
    var selectedIndex: int

    constructor (externalDirs: seq<string>, currentDir: string)
      ensures this.externalDirs == externalDirs
      ensures selectedIndex == FirstContained(externalDirs, currentDir)
    {
      this.externalDirs := externalDirs;
      selectedIndex := FirstContained(externalDirs, currentDir);
    }

    method Choose(which: int)
      requires 0 <= which < |externalDirs|
      modifies this`selectedIndex
      ensures selectedIndex == which
    {
      selectedIndex := which;
    }

    /** OK: the last option opens the picker, any other stores that path. With nothing
      * preselected or chosen the indexing throws, which is `Err`. */
    method OnPositive() returns (r: Result<DirectoryChoice, string>)
      ensures selectedIndex == |externalDirs| - 1 ==> r == Ok(CustomPicker)
      ensures 0 <= selectedIndex < |externalDirs| - 1 ==> r == Ok(Predefined(externalDirs[selectedIndex]))
      ensures (selectedIndex < 0 && selectedIndex != |externalDirs| - 1) || selectedIndex >= |externalDirs| ==> r.Err?
    {
      if selectedIndex == |externalDirs| - 1 {
        r := Ok(CustomPicker);
      } else if 0 <= selectedIndex < |externalDirs| {
        r := Ok(Predefined(externalDirs[selectedIndex]));
      } else {
        r := Err("IndexOutOfBoundsException");
      }
    }
  }

  // ---------------------------------------------------------------------------
  // Summaries

  /** A summary line: a fixed resource label, or the items joined with ", ". */
  datatype Summary = Label(key: string) | Items(items: seq<string>)

  /** `categories.find { it.id == id }` */
  function FindCategory(cats: seq<Category>, id: int): (r: Option<Category>)
    ensures r.Some? <==> exists c :: c in cats && c.id == id
    ensures r.Some? ==> r.value in cats && r.value.id == id
    decreases |cats|
  {
    if |cats| == 0 then None
    else if cats[0].id == id then Some(cats[0])
    else FindCategory(cats[1..], id)
  }

  /** `ids.mapNotNull { categories.find { ... } }` */
  function FoundCategories(ids: seq<int>, cats: seq<Category>): (r: seq<Category>)
    ensures forall c :: c in r ==> c in cats && c.id in ids
    ensures forall id :: id in ids && FindCategory(cats, id).Some? ==> FindCategory(cats, id).value in r
    decreases |ids|
  {
    if |ids| == 0 then []
    else match FindCategory(cats, ids[0])
      case None => FoundCategories(ids[1..], cats)
      case Some(c) => [c] + FoundCategories(ids[1..], cats)
  }

  function ByOrder(a: Category, b: Category): bool
  {
    a.order <= b.order
  }

  /** The categories a stored id set names, by category order. `toLong` runs only inside
    * the `find` predicate, so it throws (`Err`) only when there is a category to test and
    * some entry is not a 64-bit integer; with no categories nothing is found. */
  function SelectedCategories(stored: seq<string>, cats: seq<Category>): (r: Result<seq<Category>, string>)
    ensures r.Err? <==> |cats| > 0 && ParseIds(stored).None?
    ensures |cats| == 0 ==> r == Ok([])
  {
    if |cats| == 0 then Ok([])
    else match ParseIds(stored)
      case None => Err("NumberFormatException")
      case Some(ids) => Ok(SortBy(FoundCategories(ids, cats), ByOrder))
  }

  /** A stored entry names the category `c` when it parses to `c`'s id. */
  ghost predicate Names(stored: seq<string>, c: Category)
  {
    exists j :: 0 <= j < |stored| && ToLongOrNull(stored[j]) == Some(c.id)
  }

  /** The selected categories are exactly the categories some stored entry names, ordered
    * by category order. */
  lemma SelectedCategoriesSpec(stored: seq<string>, cats: seq<Category>)
    requires SelectedCategories(stored, cats).Ok?
    ensures var sel := SelectedCategories(stored, cats).value;
            && Sorted(sel, ByOrder)
            && (forall c :: c in sel ==> c in cats && Names(stored, c))
            && (forall j :: 0 <= j < |stored| && ToLongOrNull(stored[j]).Some?
                            && FindCategory(cats, ToLongOrNull(stored[j]).value).Some?
                            ==> FindCategory(cats, ToLongOrNull(stored[j]).value).value in sel)
  {
    if |cats| > 0 {
      var ids := ParseIds(stored).value;
      var found := FoundCategories(ids, cats);
      SortBySorted(found, ByOrder);
      var sel := SortBy(found, ByOrder);
      forall c | c in sel
        ensures c in cats && Names(stored, c)
      {
        assert c in multiset(sel);
        assert c in found;
        var k :| 0 <= k < |ids| && ids[k] == c.id;
        assert ToLongOrNull(stored[k]) == Some(c.id);
      }
      forall j | 0 <= j < |stored| && ToLongOrNull(stored[j]).Some?
                 && FindCategory(cats, ToLongOrNull(stored[j]).value).Some?
        ensures FindCategory(cats, ToLongOrNull(stored[j]).value).value in sel
      {
        assert ids[j] == ToLongOrNull(stored[j]).value;
        assert FindCategory(cats, ids[j]).value in multiset(found);
      }
    }
  }

  /** The included/excluded summary: an empty list shows `emptyLabel` ("all" for the included
    * set, "none" for the excluded sets). */
  function CategorySummary(stored: seq<string>, cats: seq<Category>, emptyLabel: string): (r: Result<Summary, string>)
    ensures r.Err? <==> |cats| > 0 && ParseIds(stored).None?
    ensures r.Ok? ==> (r.value == Label(emptyLabel) <==> SelectedCategories(stored, cats).value == [])
    ensures r.Ok? && r.value.Items? ==>
              var sel := SelectedCategories(stored, cats).value;
              |r.value.items| == |sel| && forall i :: 0 <= i < |sel| ==> r.value.items[i] == sel[i].name
  {
    match SelectedCategories(stored, cats)
    case Err(e) => Err(e)
    case Ok(sel) =>
      if |sel| == 0 then Ok(Label(emptyLabel))
      else Ok(Items(seq(|sel|, i requires 0 <= i < |sel| => sel[i].name)))
  }

  /** The summary names exactly the stored categories that exist, in category order: each
    * item is the name of a category some stored entry names, each existing category a
    * stored entry names has its name listed, and the names follow non-decreasing category
    * order. */
  lemma CategorySummaryNames(stored: seq<string>, cats: seq<Category>, emptyLabel: string)
    requires CategorySummary(stored, cats, emptyLabel).Ok?
    requires CategorySummary(stored, cats, emptyLabel).value.Items?
    ensures var items := CategorySummary(stored, cats, emptyLabel).value.items;
            && (forall i :: 0 <= i < |items| ==> exists c :: c in cats && Names(stored, c) && c.name == items[i])
            && (forall j :: 0 <= j < |stored| && ToLongOrNull(stored[j]).Some?
                            && FindCategory(cats, ToLongOrNull(stored[j]).value).Some?
                            ==> FindCategory(cats, ToLongOrNull(stored[j]).value).value.name in items)
            && exists sel: seq<Category> ::
                 |sel| == |items| && Sorted(sel, ByOrder) && (forall i :: 0 <= i < |sel| ==> sel[i].name == items[i])
  {
    var sel := SelectedCategories(stored, cats).value;
    var items := CategorySummary(stored, cats, emptyLabel).value.items;
    SelectedCategoriesSpec(stored, cats);
    forall i | 0 <= i < |items|
      ensures exists c :: c in cats && Names(stored, c) && c.name == items[i]
    {
      assert sel[i] in sel;
    }
    forall j | 0 <= j < |stored| && ToLongOrNull(stored[j]).Some?
               && FindCategory(cats, ToLongOrNull(stored[j]).value).Some?
      ensures FindCategory(cats, ToLongOrNull(stored[j]).value).value.name in items
    {
      var k :| 0 <= k < |sel| && sel[k] == FindCategory(cats, ToLongOrNull(stored[j]).value).value;
      assert items[k] == sel[k].name;
    }
  }

  /** With no categories the source never calls `toLong`: an unparsable entry still shows
    * the empty label. */
  lemma NoCategoriesShowsEmptyLabel(stored: seq<string>, emptyLabel: string)
    ensures CategorySummary(stored, [], emptyLabel) == Ok(Label(emptyLabel))
  {
  }

  /** The stored values of the three known device restrictions and their labels. */
  datatype Restrictions = Restrictions(wifiKey: string, chargingKey: string, batteryKey: string,
                                       wifiLabel: string, chargingLabel: string, batteryLabel: string)

  function RestrictionLabel(k: string, rs: Restrictions): string
  {
    if k == rs.wifiKey then rs.wifiLabel
    else if k == rs.chargingKey then rs.chargingLabel
    else if k == rs.batteryKey then rs.batteryLabel
    else k
  }

  /** The restriction summary: the stored keys in string order, known keys replaced by
    * their labels and others kept verbatim; "none" when nothing is stored. */
  function RestrictionSummary(stored: seq<string>, rs: Restrictions): (r: Summary)
    ensures |stored| == 0 <==> r == Label("none")
    ensures r.Items? ==> |r.items| == |stored|
  {
    var keys := SortBy(stored, StrLe);
    if |keys| == 0 then Label("none")
    else Items(seq(|keys|, i requires 0 <= i < |keys| => RestrictionLabel(keys[i], rs)))
  }

  /** The summary lists each stored key once per occurrence, in sorted key order. */
  lemma RestrictionSummarySpec(stored: seq<string>, rs: Restrictions)
    requires |stored| > 0
    ensures var keys := SortBy(stored, StrLe);
            && Sorted(keys, StrLe) && multiset(keys) == multiset(stored)
            && RestrictionSummary(stored, rs).items == seq(|keys|, i requires 0 <= i < |keys| => RestrictionLabel(keys[i], rs))
  {
    StrLePreorder();
    SortBySorted(stored, StrLe);
  }

  /** Unknown keys appear verbatim; a known key shows only its label. */
  lemma RestrictionLabels(k: string, rs: Restrictions)
    requires k != rs.wifiKey && k != rs.chargingKey && k != rs.batteryKey
    ensures RestrictionLabel(k, rs) == k
  {
  }
}
