/**
 * The create/rename category dialog: the save rules (name checks, order of a new
 * category), the two category-set preferences its check boxes edit, and how the boxes
 * are initialised from those sets.
 */
module ManageCategory {
  import opened Wrappers
  import opened Text

  datatype MangaSort = Unsorted | AlphaAsc

  /** A stored category; `id` is null until the database assigns one. */
  datatype Category = Category(id: Option<int>, name: string, order: int, mangaSort: MangaSort)

  /** A check box of the dialog. */
  datatype Box = Box(visible: bool, checked: bool)

  datatype SaveError = NameExists | NameBlankOrUnchanged

  /** `category?.id` */
  function CurrentId(current: Option<Category>): Option<int>
  {
    if current.None? then None else current.value.id
  }

  /** The first guard of save and of view setup: an existing category without a positive
    * id (the default category) cannot be edited. */
  predicate Uneditable(current: Option<Category>)
  {
    current.Some? && (current.value.id == None || current.value.id.value <= 0)
  }

  /** `categoryExists`: a stored category other than the one being edited has the name,
    * ignoring case. */
  predicate CategoryExists(stored: seq<Category>, name: string, current: Option<Category>)
  {
    exists i :: 0 <= i < |stored| && EqualsIgnoreCase(stored[i].name, name) && CurrentId(current) != stored[i].id
  }

  /** The name rule of save: not blank, not taken, and not the current name. */
  predicate AcceptsName(stored: seq<Category>, text: string, current: Option<Category>)
  {
    !IsBlank(text) && !CategoryExists(stored, text, current)
    && !EqualsIgnoreCase(text, if current.None? then "" else current.value.name)
  }

  /** In a table whose names are distinct ignoring case, renaming a stored category to its
    * own name is never reported as a duplicate, while the name of any other stored
    * category always is. */
  lemma SelfIsNotDuplicate(stored: seq<Category>, k: nat, c: Category)
    requires k < |stored| && stored[k] == c
    requires forall i, j :: 0 <= i < j < |stored| ==> !EqualsIgnoreCase(stored[i].name, stored[j].name)
    ensures !CategoryExists(stored, c.name, Some(c))
    ensures forall i :: 0 <= i < |stored| && stored[i].id != c.id ==> CategoryExists(stored, stored[i].name, Some(c))
  {
    forall i | 0 <= i < |stored| && stored[i].id != c.id
      ensures !EqualsIgnoreCase(stored[i].name, c.name)
    {
      assert i != k;
    }
    forall i | 0 <= i < |stored| && stored[i].id != c.id
      ensures CategoryExists(stored, stored[i].name, Some(c))
    {
      EqualsIgnoreCaseRefl(stored[i].name);
    }
  }

  /** `categories.maxOf { it.order }`; it throws on an empty list. */
  function MaxOrder(stored: seq<Category>): (r: Option<int>)
    ensures r.None? <==> |stored| == 0
    ensures r.Some? ==> (forall i :: 0 <= i < |stored| ==> stored[i].order <= r.value)
                        && exists i :: 0 <= i < |stored| && stored[i].order == r.value
    decreases |stored|
  {
    if |stored| == 0 then None
    else
      var rest := MaxOrder(stored[1..]);
      if rest.None? || stored[0].order >= rest.value then Some(stored[0].order)
      else
        assert forall i :: 1 <= i < |stored| ==> stored[i] == stored[1..][i - 1];
        rest
  }

  /** `Long.toInt()`: keeps the low 32 bits as a signed value. */
  function LongToInt(x: int): (r: int)
    ensures INT_MIN <= r <= INT_MAX
    ensures INT_MIN <= x <= INT_MAX ==> r == x
  {
    (x - INT_MIN) % 0x1_0000_0000 + INT_MIN
  }

  /** The database row for `c` after an update of the row with its id. */
  function ReplaceById(stored: seq<Category>, c: Category): (r: seq<Category>)
    ensures |r| == |stored|
    ensures forall i :: 0 <= i < |stored| ==> r[i] == (if stored[i].id == c.id then c else stored[i])
  {
    seq(|stored|, i requires 0 <= i < |stored| => if stored[i].id == c.id then c else stored[i])
  }

  // ---------------------------------------------------------------------------
  // updatePref and setCheckbox

  /** The set written back and whether it is non-empty. */
  datatype PrefUpdate = PrefUpdate(ids: set<string>, nonEmpty: bool)

  /** `updatePref`: with a category id, add or remove it according to the box. */
  function UpdatePref(ids: set<string>, id: Option<int>, checked: bool): (r: PrefUpdate)
    ensures id.None? ==> r == PrefUpdate(ids, true)
    ensures id.Some? ==> r.nonEmpty == (r.ids != {})
    ensures id.Some? ==> (IntToString(id.value) in r.ids <==> checked)
    ensures forall s :: s != IntToString(if id.None? then 0 else id.value) ==> (s in r.ids <==> s in ids)
  {
    if id.None? then PrefUpdate(ids, true)
    else
      var s := IntToString(id.value);
      var updated := if checked then ids + {s} else ids - {s};
      PrefUpdate(updated, updated != {})
  }

  /** Checking then unchecking a box leaves the set as it was, when it did not hold the id. */
  lemma UpdatePrefUndo(ids: set<string>, id: int)
    requires IntToString(id) !in ids
    ensures UpdatePref(UpdatePref(ids, Some(id), true).ids, Some(id), false).ids == ids
  {
  }

  /** `entries.any { category?.id == it.toIntOrNull() }` */
  predicate AnyParsesTo(ids: set<string>, id: Option<int>)
  {
    exists s :: s in ids && ToIntOrNull(s) == id
  }

  /** `setCheckbox`: shown iff the set is non-empty and `shouldShow`; then ticked iff some
    * entry parses to the category id. A hidden box keeps its tick. */
  function SetCheckbox(box: Box, ids: set<string>, id: Option<int>, shouldShow: bool): (r: Box)
    ensures r.visible <==> ids != {} && shouldShow
    ensures r.visible ==> (r.checked <==> AnyParsesTo(ids, id))
    ensures !r.visible ==> r.checked == box.checked
  {
    var visible := ids != {} && shouldShow;
    Box(visible, if visible then AnyParsesTo(ids, id) else box.checked)
  }

  /** A box saved ticked is shown ticked when the dialog is opened again; one saved
    * unticked is shown ticked only if another entry spells the same id. */
  lemma SavedBoxReopens(ids: set<string>, id: int, checked: bool, box: Box)
    requires INT_MIN <= id <= INT_MAX
    ensures var saved := UpdatePref(ids, Some(id), checked).ids;
            var shown := SetCheckbox(box, saved, Some(id), true);
            && shown.visible == (saved != {})
            && (checked ==> shown.checked)
            && (!checked && shown.visible ==>
                  (shown.checked <==> exists s :: s in ids && s != IntToString(id) && ToIntOrNull(s) == Some(id)))
  {
    var s := IntToString(id);
    ParseIntToString(id);
    assert ToIntOrNull(s) == Some(id);
    var saved := UpdatePref(ids, Some(id), checked).ids;
    if checked {
      assert s in saved;
    }
  }

  // ---------------------------------------------------------------------------
  // The library-update set (lines 103-108)

  /** The library-update preference and interval after save. */
  datatype LibraryUpdate = LibraryUpdate(ids: set<string>, interval: int)

  /** As written: the library-update set is edited with the download-new box, and only
    * when the interval is positive. */
  function LibraryUpdateAsWritten(ids: set<string>, interval: int, id: Option<int>,
                                  downloadNewChecked: bool, includeGlobalChecked: bool): (r: LibraryUpdate)
    ensures interval <= 0 ==> r == LibraryUpdate(ids, interval)
    ensures interval > 0 ==> r.ids == UpdatePref(ids, id, downloadNewChecked).ids
  {
    if interval > 0 then
      var u := UpdatePref(ids, id, downloadNewChecked);
      LibraryUpdate(u.ids, if u.nonEmpty then interval else 0)
    else LibraryUpdate(ids, interval)
  }

  /** As intended: the "include in global update" box edits the library-update set. */
  function LibraryUpdateIntended(ids: set<string>, interval: int, id: Option<int>,
                                 downloadNewChecked: bool, includeGlobalChecked: bool): (r: LibraryUpdate)
    ensures interval <= 0 ==> r == LibraryUpdate(ids, interval)
  {
    if interval > 0 then
      var u := UpdatePref(ids, id, includeGlobalChecked);
      LibraryUpdate(u.ids, if u.nonEmpty then interval else 0)
    else LibraryUpdate(ids, interval)
  }

  /** With updates on, the saved set holds the category iff its "include in global update"
    * box is ticked, and the interval drops to 0 exactly when the set becomes empty. */
  lemma LibraryUpdateFollowsIncludeBox(ids: set<string>, interval: int, id: int,
                                       downloadNewChecked: bool, includeGlobalChecked: bool)
    requires interval > 0
    ensures var r := LibraryUpdateIntended(ids, interval, Some(id), downloadNewChecked, includeGlobalChecked);
            && (IntToString(id) in r.ids <==> includeGlobalChecked)
            && (forall s :: s != IntToString(id) ==> (s in r.ids <==> s in ids))
            && (r.interval == 0 <==> r.ids == {})
            && (r.interval != 0 ==> r.interval == interval)
  {
  }

  /** The code as written ignores the "include in global update" box: for category 5 in a
    * library-update set {"5", "7"}, the box is shown ticked; saving with it still ticked
    * but the download box clear drops the category from library updates. */
  lemma LibraryUpdateAsWrittenIgnoresIncludeBox(box: Box)
    ensures SetCheckbox(box, {"5", "7"}, Some(5), true) == Box(true, true)
    ensures LibraryUpdateAsWritten({"5", "7"}, 12, Some(5), false, true) == LibraryUpdate({"7"}, 12)
    ensures LibraryUpdateIntended({"5", "7"}, 12, Some(5), false, true) == LibraryUpdate({"5", "7"}, 12)
  {
    assert IntToString(5) == "5";
    ParseIntToString(5);
    assert AnyParsesTo({"5", "7"}, Some(5));
    assert {"5", "7"} - {"5"} == {"7"};
    assert {"5", "7"} + {"5"} == {"5", "7"};
  }

  // ---------------------------------------------------------------------------
  // The dialog

  class ManageCategoryDialog {
    /** The category being edited, or None for a new one. */
    var category: Option<Category>
    /** The categories table. */
    var stored: seq<Category>
    /** `downloadNewCategories`, `downloadNew`, `libraryUpdateCategories`, `libraryUpdateInterval` */
    var downloadNewCategories: set<string>
    var downloadNew: bool
    var libraryUpdateCategories: set<string>
    var libraryUpdateInterval: int
    var titleVisible: bool
    var downloadNewBox: Box
    var includeGlobalBox: Box
    /** The error shown under the name field. */
    var error: Option<SaveError>
    /** The id passed to the library refresh callback, once it has run. */
    var updatedLibraryWith: Option<Option<int>>

    constructor (category: Option<Category>, stored: seq<Category>, downloadNewCategories: set<string>,
                 downloadNew: bool, libraryUpdateCategories: set<string>, libraryUpdateInterval: int)
      ensures this.category == category && this.stored == stored
      ensures this.downloadNewCategories == downloadNewCategories && this.downloadNew == downloadNew
      ensures this.libraryUpdateCategories == libraryUpdateCategories
      ensures this.libraryUpdateInterval == libraryUpdateInterval
      ensures titleVisible && downloadNewBox == Box(true, false) && includeGlobalBox == Box(true, false)
      ensures error == None && updatedLibraryWith == None
    {
      this.category := category;
      this.stored := stored;
      this.downloadNewCategories := downloadNewCategories;
      this.downloadNew := downloadNew;
      this.libraryUpdateCategories := libraryUpdateCategories;
      this.libraryUpdateInterval := libraryUpdateInterval;
      titleVisible := true;
      downloadNewBox := Box(true, false);
      includeGlobalBox := Box(true, false);
      error := None;
      updatedLibraryWith := None;
    }

    /** `onViewCreated`: the default category hides everything; otherwise each box is set
      * up from its preference. */
    method OnViewCreated()
      modifies this`titleVisible, this`downloadNewBox, this`includeGlobalBox
      ensures Uneditable(category) ==>
                && !titleVisible && !downloadNewBox.visible && !includeGlobalBox.visible
                && downloadNewBox.checked == old(downloadNewBox.checked)
                && includeGlobalBox.checked == old(includeGlobalBox.checked)
      ensures !Uneditable(category) ==>
                && titleVisible == old(titleVisible)
                && downloadNewBox.visible == (if downloadNew then downloadNewCategories != {} else true)
                && (downloadNewBox.checked <==>
                      downloadNew && (if downloadNewCategories != {} then AnyParsesTo(downloadNewCategories, CurrentId(category))
                                      else old(downloadNewBox.checked)))
                && includeGlobalBox == SetCheckbox(old(includeGlobalBox), libraryUpdateCategories,
                                                   CurrentId(category), libraryUpdateInterval > 0)
    {
      if Uneditable(category) {
        titleVisible := false;
        downloadNewBox := downloadNewBox.(visible := false);
        includeGlobalBox := includeGlobalBox.(visible := false);
        return;
      }
      downloadNewBox := SetCheckbox(downloadNewBox, downloadNewCategories, CurrentId(category), true);
      if downloadNew && downloadNewCategories == {} {
        downloadNewBox := downloadNewBox.(visible := false);
      } else if !downloadNew {
        downloadNewBox := downloadNewBox.(visible := true);
      }
      downloadNewBox := downloadNewBox.(checked := downloadNew && downloadNewBox.checked);
      includeGlobalBox := SetCheckbox(includeGlobalBox, libraryUpdateCategories, CurrentId(category),
                                      libraryUpdateInterval > 0);
    }

    /** `onPositiveButtonClick` with the typed `text`; `insertedId` is the id the database
      * assigns to a new row. `Err` is the exception of `maxOf` on an empty table. */
    method OnPositiveButtonClick(text: string, insertedId: Option<int>) returns (r: Result<bool, string>)
      modifies this
      ensures Uneditable(old(category)) ==>
                r == Ok(false) && stored == old(stored) && category == old(category) && error == old(error)
      ensures !Uneditable(old(category)) && !AcceptsName(old(stored), text, old(category)) ==>
                && r == Ok(false)
                && stored == old(stored) && category == old(category)
                && downloadNewCategories == old(downloadNewCategories)
                && libraryUpdateCategories == old(libraryUpdateCategories)
                && error == Some(if CategoryExists(old(stored), text, old(category)) then NameExists else NameBlankOrUnchanged)
      ensures (!Uneditable(old(category)) && AcceptsName(old(stored), text, old(category)) && old(category).None?
               && |old(stored)| == 0) ==>
                r.Err? && stored == old(stored) && category == old(category) && error == old(error)
      ensures r == Ok(true) ==>
                && !Uneditable(old(category)) && AcceptsName(old(stored), text, old(category))
                && category.Some? && category.value.name == text
                && (old(category).None? ==>
                      && category.value == Category(if insertedId.None? then None else Some(LongToInt(insertedId.value)),
                                                    text, MaxOrder(old(stored)).value + 1, AlphaAsc)
                      && (forall i :: 0 <= i < |old(stored)| ==> old(stored)[i].order < category.value.order)
                      && stored == old(stored) + [category.value])
                && (old(category).Some? ==>
                      && category.value == old(category).value.(name := text)
                      && stored == ReplaceById(old(stored), category.value))
                && updatedLibraryWith == Some(CurrentId(category))
      ensures r == Ok(true) ==>
                var dn := UpdatePref(old(downloadNewCategories), CurrentId(category), old(downloadNewBox).checked);
                downloadNewCategories == dn.ids && downloadNew == dn.nonEmpty
      ensures r == Ok(true) ==>
                var lu := LibraryUpdateIntended(old(libraryUpdateCategories), old(libraryUpdateInterval),
                                                CurrentId(category), old(downloadNewBox).checked,
                                                old(includeGlobalBox).checked);
                libraryUpdateCategories == lu.ids && libraryUpdateInterval == lu.interval
      ensures r == Ok(true) ==> error == old(error)
      ensures r != Ok(true) ==>
                && downloadNewCategories == old(downloadNewCategories) && downloadNew == old(downloadNew)
                && libraryUpdateCategories == old(libraryUpdateCategories)
                && libraryUpdateInterval == old(libraryUpdateInterval)
                && updatedLibraryWith == old(updatedLibraryWith)
      ensures titleVisible == old(titleVisible)
      ensures downloadNewBox == old(downloadNewBox) && includeGlobalBox == old(includeGlobalBox)
      ensures (!Uneditable(old(category)) && AcceptsName(old(stored), text, old(category))
               && (old(category).Some? || |old(stored)| > 0)) ==> r == Ok(true)
    {
      if Uneditable(category) {
        return Ok(false);
      }
      var nameTaken := CategoryExists(stored, text, category);
      if AcceptsName(stored, text, category) {
        if category.None? {
          var maxOrder := MaxOrder(stored);
          if maxOrder.None? {
            return Err("NoSuchElementException");
          }
          var id := if insertedId.None? then None else Some(LongToInt(insertedId.value));
          var created := Category(id, text, maxOrder.value + 1, AlphaAsc);
          stored := stored + [created];
          category := Some(created);
        } else {
          var renamed := category.value.(name := text);
          stored := ReplaceById(stored, renamed);
          category := Some(renamed);
        }
      } else if nameTaken {
        error := Some(NameExists);
        return Ok(false);
      } else {
        error := Some(NameBlankOrUnchanged);
        return Ok(false);
      }
      var dn := UpdatePref(downloadNewCategories, CurrentId(category), downloadNewBox.checked);
      downloadNewCategories := dn.ids;
      downloadNew := dn.nonEmpty;
      var lu := LibraryUpdateIntended(libraryUpdateCategories, libraryUpdateInterval, CurrentId(category),
                                      downloadNewBox.checked, includeGlobalBox.checked);
      libraryUpdateCategories := lu.ids;
      libraryUpdateInterval := lu.interval;
      updatedLibraryWith := Some(CurrentId(category));
      r := Ok(true);
    }
  }
}
