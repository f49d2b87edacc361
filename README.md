# TachiyomiJ2K rules, modelled in Dafny

This project models the deterministic core of the TachiyomiJ2K manga reader for Android.
Each part is a small set of rules or an in-place list operation. Platform types are
replaced by plain values: timestamps are integer milliseconds, preferences are fields,
and the database is a map. The parts are:

- **Rate limiter** (`RateLimit`). This is the OkHttp interceptor's sliding window: the
  window length, the wait time, and the bounded FIFO of request timestamps. The clock
  reading `now` is a parameter.
- **Extension repositories** (`Repos`). The `owner/name` validator, plus create, delete
  and rename on the repository list. Case-insensitive uniqueness is kept as an invariant.
- **Auto-download and cover rules** (`MangaExtensions`):
  - whether new chapters of a manga are downloaded;
  - which new chapters are downloaded;
  - when a cover is refreshed or removed.
- **Download settings** (`DownloadSettings`):
  - the quad-state include/exclude category dialog;
  - the download-directory dialog;
  - the summaries of the category and device-restriction preferences.
- **Category dialog** (`ManageCategory`). Saving a new or renamed category: the name
  checks, the order of a new category, and the updates to the download-new and
  library-update category sets.
- **Pre-migration source selection** (`PreMigration`). Which sources start enabled, and
  the order they are shown in. Also select-all, invert, the filter toggles, the language
  menu, and the preferences saved when the migration starts.
- **Per-manga reading statistics** (`MangaStats`):
  - the period and its length in days;
  - the history grouped by day;
  - the stats rows, their total, and their two sort orders.
- **Similar manga** (`SimilarHandler`, `SimilarRepository`, `SimilarPresenter`, `MangaDex`):
  - the handler's five fetches over a cache of one DTO per manga;
  - the repository's assembly of the groups in a fixed order;
  - the presenter's screen state;
  - the conversion of a MangaDex record into a basic manga.

Three shared modules support these:
- `Text`: ASCII case folding, splitting and joining, and decimal rendering and parsing of ids.
- `Sorting`: an insertion sort by a total preorder, with permutation and sortedness
  lemmas.
- `Collections`: Kotlin's `toMap`/`associate`, `mapNotNull` and `firstNotNullOfOrNull`.
`Wrappers` holds `Option` and `Result`.

How the source's behaviour is represented:
- **Exceptions.** A Kotlin exception the source can raise becomes an `Err` result.
  Examples are `NumberFormatException`, an index out of bounds, `maxOf` on an empty list,
  and `error("Source not found")`.
- **Objects the source mutates** become classes. The methods' `modifies` clauses and
  `ensures` clauses state the whole new state.
- **Pure Kotlin expressions** become functions. Lemmas relate them to one another.

## Model

| member | source | states |
|---|---|---|
| RateLimit.WindowMillisValue | app/src/main/java/eu/kanade/tachiyomi/network/interceptor/RateLimitInterceptor.kt:42-53 | `WindowMillis`, built on `Convert` (which truncates like `TimeUnit.convert`): with the optimisation on, the window is min(permits, whole seconds of the period) × 1000 ms. With it off, it is the period in whole milliseconds. |
| RateLimit.WindowMillisExamples | app/src/test/java/eu/kanade/tachiyomi/network/interceptor/RateLimitInterceptorTest.kt:17-31 | The five cases of the unit test give 50000, 50000, 1000, 3000 and 1000 ms. |
| RateLimit.AdmittedShape | app/src/main/java/eu/kanade/tachiyomi/network/interceptor/RateLimitInterceptor.kt:63-89 | After a request is admitted, the queue holds at most `permits` entries. A full queue loses its oldest entry; otherwise the queue grows by one. The other entries keep their order. The new last entry is `now + wait` when the wait is positive and `now` otherwise, so it is never before `now`. |
| RateLimit.FullQueueWait | app/src/main/java/eu/kanade/tachiyomi/network/interceptor/RateLimitInterceptor.kt:63-73 | `WaitTime` is 0 while the queue is not full. With a full queue, the wait is positive iff newest − oldest ≤ window and `now` is before oldest + window. The recorded slot is then oldest + window. |
| RateLimit.AdmissionKeepsSpacing | app/src/main/java/eu/kanade/tachiyomi/network/interceptor/RateLimitInterceptor.kt:81-89 | The queue is always the last `permits` admitted slots. Admitted slots never decrease. Every slot is at least one window after the slot `permits` places before it. |
| RateLimit.LastNAppend | app/src/main/java/eu/kanade/tachiyomi/network/interceptor/RateLimitInterceptor.kt:81-89 | Dropping the oldest entry of a full queue and then appending keeps exactly the last `permits` entries of the history. |
| RateLimit.RateLimitInterceptor.constructor | app/src/main/java/eu/kanade/tachiyomi/network/interceptor/RateLimitInterceptor.kt:33-53 | The interceptor starts with an empty queue and the window of `WindowMillis`. |
| RateLimit.RateLimitInterceptor.Intercept | app/src/main/java/eu/kanade/tachiyomi/network/interceptor/RateLimitInterceptor.kt:55-93 | A call cancelled at either check fails and leaves the queue unchanged. With `permits` = 0, reading the newest entry is out of bounds. Otherwise the call proceeds with `WaitTime`, and the queue becomes `Admitted`: exactly one entry is appended and the size stays at most `permits`. |
| Repos.RepoRegexIff | app/src/main/java/eu/kanade/tachiyomi/ui/source/browse/repos/RepoPresenter.kt:110 | `MatchesRepoRegex`, the pattern `^[a-zA-Z0-9-_.]*?/[a-zA-Z0-9-_.]*?$`, matches iff the name has exactly one `/` and both sides (possibly empty) are made only of ASCII letters, digits, `-`, `_` and `.`. |
| Repos.MatchFromSeen | app/src/main/java/eu/kanade/tachiyomi/ui/source/browse/repos/RepoPresenter.kt:110 | After the `/`, the rest of the name matches iff it is made only of allowed characters. |
| Repos.CheckRepo | app/src/main/java/eu/kanade/tachiyomi/ui/source/browse/repos/RepoPresenter.kt:87-107 | A name is accepted iff no stored repository equals it ignoring case and it matches the pattern. A duplicate is reported before a bad format. |
| Repos.ReposWithCreate | app/src/main/java/eu/kanade/tachiyomi/ui/source/browse/repos/RepoPresenter.kt:41-43 | The displayed list is the create item followed by the repositories in order. |
| Repos.NotExistsNotIn | app/src/main/java/eu/kanade/tachiyomi/ui/source/browse/repos/RepoPresenter.kt:105-107 | A name that no repository equals ignoring case is not in the list. |
| Repos.CreateKeepsUnique | app/src/main/java/eu/kanade/tachiyomi/ui/source/browse/repos/RepoPresenter.kt:50-53 | Inserting an accepted name at the front keeps the list unique ignoring case. |
| Repos.RenameKeepsUnique | app/src/main/java/eu/kanade/tachiyomi/ui/source/browse/repos/RepoPresenter.kt:77-80 | Replacing an entry with an accepted name keeps the list unique ignoring case. |
| Repos.DeleteKeepsUnique | app/src/main/java/eu/kanade/tachiyomi/ui/source/browse/repos/RepoPresenter.kt:64-66 | Removing the first occurrence keeps the list unique ignoring case. |
| Repos.RemoveFirst | app/src/main/java/eu/kanade/tachiyomi/ui/source/browse/repos/RepoPresenter.kt:64-66 | `remove` of a name that is absent leaves the list as it is. Otherwise the result is the list with its first occurrence cut out: one copy fewer, all else in order. |
| Repos.DeleteUndoesCreate | app/src/main/java/eu/kanade/tachiyomi/ui/source/browse/repos/RepoPresenter.kt:50-66 | Deleting a name just created restores the previous list. |
| Repos.RenameBackRestores | app/src/main/java/eu/kanade/tachiyomi/ui/source/browse/repos/RepoPresenter.kt:77-80 | After a rename to an accepted name, the new name sits at the old index, and renaming it back restores the list. |
| Repos.RepoPresenter.constructor | app/src/main/java/eu/kanade/tachiyomi/ui/source/browse/repos/RepoPresenter.kt:26 | The presenter starts with an empty list and the stored set. |
| Repos.RepoPresenter.GetRepos | app/src/main/java/eu/kanade/tachiyomi/ui/source/browse/repos/RepoPresenter.kt:31-39 | Loading replaces the list with the stored repositories and shows them after the create item. |
| Repos.RepoPresenter.CreateRepo | app/src/main/java/eu/kanade/tachiyomi/ui/source/browse/repos/RepoPresenter.kt:50-57 | Returns true iff the name is accepted. It then inserts the name at index 0, stores the set of the list and shows the list. Otherwise nothing changes except the error reported. Uniqueness is preserved. |
| Repos.RepoPresenter.DeleteRepo | app/src/main/java/eu/kanade/tachiyomi/ui/source/browse/repos/RepoPresenter.kt:64-69 | null is a no-op. Otherwise only the first occurrence is removed and the set is stored. Uniqueness is preserved. |
| Repos.RepoPresenter.RenameRepo | app/src/main/java/eu/kanade/tachiyomi/ui/source/browse/repos/RepoPresenter.kt:77-85 | A name equal to the old one ignoring case returns true and changes nothing: list, stored set, shown list and error all keep their values. A rejected name returns false, reports its error and changes nothing else. An accepted name replaces the old entry in place, keeping the length, and stores and shows the list. A missing old repository is an index error that changes nothing. Uniqueness is preserved. |
| MangaExtensions.EffectiveCategories | app/src/main/java/eu/kanade/tachiyomi/util/MangaExtensions.kt:65 | A manga without categories counts as being in category 0. Otherwise its own categories are used. |
| MangaExtensions.ShouldDownloadNewChapters | app/src/main/java/eu/kanade/tachiyomi/util/MangaExtensions.kt:62-85 | False for a non-favourite or when the setting is 0. An unparsable stored id is an error. Otherwise the result is true iff no category is excluded and (the include set is empty or some category is included); both sets empty gives true. |
| MangaExtensions.ExcludedWins | app/src/main/java/eu/kanade/tachiyomi/util/MangaExtensions.kt:78 | Membership in an excluded category gives false, whatever the include set holds. |
| MangaExtensions.NoCategoryIsDefault | app/src/main/java/eu/kanade/tachiyomi/util/MangaExtensions.kt:65 | A manga with no categories is decided exactly as one in category 0. |
| MangaExtensions.ChaptersToDownload | app/src/main/java/eu/kanade/tachiyomi/util/MangaExtensions.kt:105-122 | Empty when skip-unread is on and there are unread chapters. A limit of −1 returns the new chapters unchanged. Otherwise the result is the prefix of the sorted chapters of length min(n, max(0, limit − downloaded unread)). It is always a sub-multiset of the input. |
| MangaExtensions.ChaptersToDownloadAreFirst | app/src/main/java/eu/kanade/tachiyomi/util/MangaExtensions.kt:116-118 | With a limit, the chosen chapters are sorted and each comes no later in chapter order than every chapter left out. |
| MangaExtensions.PrepUpdateCover | app/src/main/java/eu/kanade/tachiyomi/util/MangaExtensions.kt:25-47 | The manga is unchanged with no cache work when the new URL is null or empty, or equals the current one without `refreshSameUrl`. Otherwise the cache is cleared for non-local manga. The modification time becomes `now`, except for a non-local manga with a custom cover. |
| MangaExtensions.PrepUpdateCoverSettles | app/src/main/java/eu/kanade/tachiyomi/util/MangaExtensions.kt:25-47 | Once the new URL is stored, a second refresh with the same URL (without `refreshSameUrl`) changes nothing. |
| MangaExtensions.RemoveCovers | app/src/main/java/eu/kanade/tachiyomi/util/MangaExtensions.kt:56-60 | A local manga is unchanged. Any other manga has its cache cleared and its modification time set to `now`. |
| MangaExtensions.DbManga.constructor | app/src/main/java/eu/kanade/tachiyomi/util/MangaExtensions.kt:49-54 | The database manga keeps its local flag and modification time. |
| MangaExtensions.DbManga.RemoveCovers | app/src/main/java/eu/kanade/tachiyomi/util/MangaExtensions.kt:49-54 | A local manga returns 0 and keeps its time. Any other manga returns the number of deleted files and sets its time to `now`. |
| DownloadSettings.InitialState | app/src/main/java/eu/kanade/tachiyomi/ui/setting/SettingsDownloadController.kt:328-334 | A category starts CHECKED iff its id is included. It starts INVERSED iff the id is excluded but not included, and UNCHECKED iff it is in neither set; include wins. |
| DownloadSettings.InitialStates | app/src/main/java/eu/kanade/tachiyomi/ui/setting/SettingsDownloadController.kt:327-335 | There is one initial state per category, in category order. |
| DownloadSettings.UntouchedOk | app/src/main/java/eu/kanade/tachiyomi/ui/setting/SettingsDownloadController.kt:327-359 | Confirming without changes stores include ∩ ids and (exclude \ include) ∩ ids. |
| DownloadSettings.InIdsIn | app/src/main/java/eu/kanade/tachiyomi/ui/setting/SettingsDownloadController.kt:347-356 | With distinct ids, a category's id is stored under a state iff its selection is that state. |
| DownloadSettings.OkDisjoint | app/src/main/java/eu/kanade/tachiyomi/ui/setting/SettingsDownloadController.kt:347-356 | The stored include and exclude sets are disjoint, and UNCHECKED ids are in neither. |
| DownloadSettings.ReopenShowsConfirmed | app/src/main/java/eu/kanade/tachiyomi/ui/setting/SettingsDownloadController.kt:327-359 | Reopening the dialog after confirming a selection with no indeterminate state shows that same selection. |
| DownloadSettings.DownloadCategoriesDialog.constructor | app/src/main/java/eu/kanade/tachiyomi/ui/setting/SettingsDownloadController.kt:323-335 | The dialog opens with the initial states of its categories. |
| DownloadSettings.DownloadCategoriesDialog.OnSelections | app/src/main/java/eu/kanade/tachiyomi/ui/setting/SettingsDownloadController.kt:343-345 | A selection callback replaces the selection. |
| DownloadSettings.DownloadCategoriesDialog.OnPositive | app/src/main/java/eu/kanade/tachiyomi/ui/setting/SettingsDownloadController.kt:346-360 | OK writes both preferences: the ids at CHECKED positions and the ids at INVERSED positions. These are disjoint when the ids are distinct. |
| DownloadSettings.FirstContained | app/src/main/java/eu/kanade/tachiyomi/ui/setting/SettingsDownloadController.kt:291 | The preselection is the first directory contained in the current path, or −1 when there is none. |
| DownloadSettings.DownloadDirectoriesDialog.constructor | app/src/main/java/eu/kanade/tachiyomi/ui/setting/SettingsDownloadController.kt:289-291 | The directory dialog opens with that preselection. |
| DownloadSettings.DownloadDirectoriesDialog.Choose | app/src/main/java/eu/kanade/tachiyomi/ui/setting/SettingsDownloadController.kt:295-297 | Choosing an option selects it. |
| DownloadSettings.DownloadDirectoriesDialog.OnPositive | app/src/main/java/eu/kanade/tachiyomi/ui/setting/SettingsDownloadController.kt:298-305 | The last option gives `CustomPicker`, and any other valid option gives `Predefined` with its path, for the controller callback to store. An index of −1 that is not the last option is an out-of-bounds `Err`. |
| DownloadSettings.FindCategory | app/src/main/java/eu/kanade/tachiyomi/ui/setting/SettingsDownloadController.kt:159 | Finds a category with the id iff one exists. |
| DownloadSettings.FoundCategories | app/src/main/java/eu/kanade/tachiyomi/ui/setting/SettingsDownloadController.kt:158-159 | Ids that match no category are dropped. Every id that matches one contributes it. |
| DownloadSettings.SelectedCategories | app/src/main/java/eu/kanade/tachiyomi/ui/setting/SettingsDownloadController.kt:158-160 | `toLong` runs inside the `find` predicate, so an unparsable stored id is an error only when there is at least one category. With no categories the selection is empty. |
| DownloadSettings.SelectedCategoriesSpec | app/src/main/java/eu/kanade/tachiyomi/ui/setting/SettingsDownloadController.kt:158-160 | Whenever the selection succeeds, it is sorted by category order. Each selected category exists and some stored entry parses to its id. Each existing category that a parsable stored entry names is selected. |
| DownloadSettings.CategorySummary | app/src/main/java/eu/kanade/tachiyomi/ui/setting/SettingsDownloadController.kt:157-174 | An unparsable stored id is an error exactly when there is at least one category; with no categories the summary is the empty label. The summary is the empty label ("all" or "none") iff no stored id matches a category. Otherwise it lists the name of each selected category, in the order of the selection. |
| DownloadSettings.CategorySummaryNames | app/src/main/java/eu/kanade/tachiyomi/ui/setting/SettingsDownloadController.kt:157-164 | Whenever the summary is a list, every listed name belongs to an existing category that some stored entry parses to. Every parsable stored entry that matches a category contributes that name. The names follow categories sorted by order. |
| DownloadSettings.NoCategoriesShowsEmptyLabel | app/src/main/java/eu/kanade/tachiyomi/ui/setting/SettingsDownloadController.kt:158-163 | With no categories, any stored entries, parsable or not, give the empty label. |
| DownloadSettings.RestrictionSummary | app/src/main/java/eu/kanade/tachiyomi/ui/setting/SettingsDownloadController.kt:198-213 | The summary is "none" iff no restriction is stored. Otherwise it has one label per stored key. |
| DownloadSettings.RestrictionSummarySpec | app/src/main/java/eu/kanade/tachiyomi/ui/setting/SettingsDownloadController.kt:199-212 | The labels follow the stored keys sorted, and those keys are a permutation of the stored ones. |
| DownloadSettings.RestrictionLabels | app/src/main/java/eu/kanade/tachiyomi/ui/setting/SettingsDownloadController.kt:202-207 | An unknown key is shown verbatim. |
| ManageCategory.SelfIsNotDuplicate | app/src/main/java/eu/kanade/tachiyomi/ui/category/ManageCategoryDialog.kt:116-120 | `CategoryExists` ignores the edited category: in a table whose names are unique ignoring case, a category's own row never makes its name a duplicate. Every other row's name is one. |
| ManageCategory.MaxOrder | app/src/main/java/eu/kanade/tachiyomi/ui/category/ManageCategoryDialog.kt:83 | The maximum order exists iff there are stored categories. It is at least every stored order and is one of them. |
| ManageCategory.LongToInt | app/src/main/java/eu/kanade/tachiyomi/ui/category/ManageCategoryDialog.kt:86 | The inserted id is truncated to 32 bits, and ids within the Int range are kept. |
| ManageCategory.ReplaceById | app/src/main/java/eu/kanade/tachiyomi/ui/category/ManageCategoryDialog.kt:89 | Saving an existing category replaces the stored rows with its id and leaves the others alone. |
| ManageCategory.UpdatePref | app/src/main/java/eu/kanade/tachiyomi/ui/category/ManageCategoryDialog.kt:160-170 | Without an id, nothing changes and the result is true. Otherwise the id is in the set iff the box is checked, the other ids are unchanged, and the result says whether the set is non-empty. |
| ManageCategory.UpdatePrefUndo | app/src/main/java/eu/kanade/tachiyomi/ui/category/ManageCategoryDialog.kt:160-170 | Checking and then unchecking a box restores the set. |
| ManageCategory.SetCheckbox | app/src/main/java/eu/kanade/tachiyomi/ui/category/ManageCategoryDialog.kt:172-181 | The box is visible iff the set is non-empty and `shouldShow` holds. A visible box is checked iff some entry parses to the category id. A hidden box keeps its check. |
| ManageCategory.SavedBoxReopens | app/src/main/java/eu/kanade/tachiyomi/ui/category/ManageCategoryDialog.kt:160-181 | Reopening after a save shows a checked box as checked. An unchecked box stays checked only through another entry that parses to the same id. |
| ManageCategory.LibraryUpdateAsWritten | app/src/main/java/eu/kanade/tachiyomi/ui/category/ManageCategoryDialog.kt:103-108 | As written, the library-update set is edited with the download-new box, and only when the interval is positive. |
| ManageCategory.LibraryUpdateAsWrittenIgnoresIncludeBox | app/src/main/java/eu/kanade/tachiyomi/ui/category/ManageCategoryDialog.kt:103-108 | With the set {"5", "7"} the include box of category 5 opens ticked. With it ticked, the download box clear and an interval of 12 h, the code as written removes 5 and stores {"7"}. The intended rule keeps {"5", "7"}. |
| ManageCategory.LibraryUpdateIntended | app/src/main/java/eu/kanade/tachiyomi/ui/category/ManageCategoryDialog.kt:103-108 | The interval and set are unchanged when the interval is not positive. |
| ManageCategory.LibraryUpdateFollowsIncludeBox | app/src/main/java/eu/kanade/tachiyomi/ui/category/ManageCategoryDialog.kt:103-108 | With updates on, the category is in the saved set iff its include box is ticked. Other ids are unchanged. The interval drops to 0 exactly when the set becomes empty. |
| ManageCategory.ManageCategoryDialog.constructor | app/src/main/java/eu/kanade/tachiyomi/ui/category/ManageCategoryDialog.kt:31-34 | The dialog starts from the stored categories and preferences, with the boxes shown and clear. |
| ManageCategory.ManageCategoryDialog.OnViewCreated | app/src/main/java/eu/kanade/tachiyomi/ui/category/ManageCategoryDialog.kt:122-157 | For a system category (id null or ≤ 0), the title and both boxes are hidden. Otherwise the download box is visible unless download-new is on with an empty set. It is checked only if download-new is on and an entry matches. The include box follows `setCheckbox` with "interval > 0". |
| ManageCategory.ManageCategoryDialog.OnPositiveButtonClick | app/src/main/java/eu/kanade/tachiyomi/ui/category/ManageCategoryDialog.kt:74-120 | A system category (`Uneditable`: id null or ≤ 0) returns false and changes nothing. A name that `AcceptsName` rejects (blank, `CategoryExists` duplicate, or unchanged) returns false with the matching error and nothing else written. Otherwise the category is saved: a new one gets order max + 1 and ALPHA_ASC and is appended, and with no stored category at all `maxOf` fails, which is an error that changes nothing. A rename replaces the row with its id. The download-new flag becomes whether its set is non-empty. The library-update set follows the include box: this is the corrected rule `LibraryUpdateIntended` of "## Findings", not `LibraryUpdateAsWritten`, which is what line 104 does. Library update is invoked. The boxes and the title never change. |
| PreMigration.ParsedIds | app/src/main/java/eu/kanade/tachiyomi/ui/migration/manga/design/PreMigrationController.kt:55-56 | The hidden and pinned lists keep exactly the entries that parse as Long. |
| PreMigration.IdStrings | app/src/main/java/eu/kanade/tachiyomi/ui/migration/manga/design/PreMigrationController.kt:110 | One decimal id string per item, in order. |
| PreMigration.SavedSelectionRoundTrip | app/src/main/java/eu/kanade/tachiyomi/ui/migration/manga/design/PreMigrationController.kt:108-110 | When some item is enabled, a source is enabled (`IsEnabled`) under the saved string (`SavedSelection`) iff it was an enabled item. |
| PreMigration.EmptySelectionFallsBack | app/src/main/java/eu/kanade/tachiyomi/ui/migration/manga/design/PreMigrationController.kt:160-167 | With no enabled item, the saved string is empty and a source is enabled iff it is not hidden. |
| PreMigration.EnabledSources | app/src/main/java/eu/kanade/tachiyomi/ui/migration/manga/design/PreMigrationController.kt:148-158 | The sources shown are a permutation of the HTTP catalogue sources in the enabled languages. |
| PreMigration.EnabledSourcesListed | app/src/main/java/eu/kanade/tachiyomi/ui/migration/manga/design/PreMigrationController.kt:148-152 | Only HTTP catalogue sources in an enabled language are listed, and every one of them is. |
| PreMigration.EnabledSourcesOrder | app/src/main/java/eu/kanade/tachiyomi/ui/migration/manga/design/PreMigrationController.kt:148-158 | Enabled sources come first, ordered by saved position. Disabled sources follow, in "(lang) name" order. |
| PreMigration.DisplayOrder | app/src/main/java/eu/kanade/tachiyomi/ui/migration/manga/design/PreMigrationController.kt:246 | After a re-filter or select, the list is a permutation with enabled items first, ordered by name within each block. |
| PreMigration.SelectAll | app/src/main/java/eu/kanade/tachiyomi/ui/migration/manga/design/PreMigrationController.kt:210-213 | Select-all enables every item if any is disabled, otherwise disables all. Sources are unchanged. |
| PreMigration.Inverted | app/src/main/java/eu/kanade/tachiyomi/ui/migration/manga/design/PreMigrationController.kt:217 | Invert flips every item's flag and nothing else. |
| PreMigration.InvertedTwice | app/src/main/java/eu/kanade/tachiyomi/ui/migration/manga/design/PreMigrationController.kt:217 | Inverting twice restores the items. |
| PreMigration.SelectAllAgainInverts | app/src/main/java/eu/kanade/tachiyomi/ui/migration/manga/design/PreMigrationController.kt:209-213 | Select-all applied twice is the inverse of the first. |
| PreMigration.Refiltered | app/src/main/java/eu/kanade/tachiyomi/ui/migration/manga/design/PreMigrationController.kt:250-259 | An affected item is enabled iff its language is on, and (only-enabled is off or it is not hidden), and (only-pinned is off or it is pinned). Other items are untouched. A language toggle affects only that language's items. |
| PreMigration.PreMigrationController.constructor | app/src/main/java/eu/kanade/tachiyomi/ui/migration/manga/design/PreMigrationController.kt:53-67 | The toggles, the hidden and pinned ids, and the languages without "all" come from the preferences. The items are the enabled-sources list, each flagged by `isEnabled`. |
| PreMigration.PreMigrationController.StartMigration | app/src/main/java/eu/kanade/tachiyomi/ui/migration/manga/design/PreMigrationController.kt:108-112 | Saves the enabled ids joined by `/` in list order. Only-enabled is kept iff no enabled source is hidden, and only-pinned iff every enabled source is pinned. |
| PreMigration.PreMigrationController.OnItemClick | app/src/main/java/eu/kanade/tachiyomi/ui/migration/manga/design/PreMigrationController.kt:135-141 | Clicking flips only that item's flag and returns false. |
| PreMigration.PreMigrationController.UpdateDataSetForSelect | app/src/main/java/eu/kanade/tachiyomi/ui/migration/manga/design/PreMigrationController.kt:243-248 | Clears both toggles and shows the items in display order. |
| PreMigration.PreMigrationController.SelectAllAction | app/src/main/java/eu/kanade/tachiyomi/ui/migration/manga/design/PreMigrationController.kt:209-215 | Select-all followed by the display sort, with both toggles cleared. |
| PreMigration.PreMigrationController.SelectInverseAction | app/src/main/java/eu/kanade/tachiyomi/ui/migration/manga/design/PreMigrationController.kt:216-219 | Invert followed by the display sort, with both toggles cleared. |
| PreMigration.PreMigrationController.UpdateEnabledSources | app/src/main/java/eu/kanade/tachiyomi/ui/migration/manga/design/PreMigrationController.kt:250-264 | The items become the re-filtered items in display order. |
| PreMigration.PreMigrationController.ToggleOnlyEnabled | app/src/main/java/eu/kanade/tachiyomi/ui/migration/manga/design/PreMigrationController.kt:220-228 | Sets the toggle and re-filters every item. |
| PreMigration.PreMigrationController.ToggleOnlyPinned | app/src/main/java/eu/kanade/tachiyomi/ui/migration/manga/design/PreMigrationController.kt:220-228 | Sets the toggle and re-filters every item. |
| PreMigration.PreMigrationController.ToggleLanguage | app/src/main/java/eu/kanade/tachiyomi/ui/migration/manga/design/PreMigrationController.kt:229-236 | Adds or removes the language and re-filters that language's items. |
| PreMigration.PreMigrationController.PrepareOptionsMenu | app/src/main/java/eu/kanade/tachiyomi/ui/migration/manga/design/PreMigrationController.kt:190-205 | Each menu language is enabled iff some enabled item has it. The two toggles are shown checked as `startMigration` would save them. |
| MangaStats.DayStartBounds | app/src/main/java/eu/kanade/tachiyomi/ui/manga/stats/StatsMangaPresenter.kt:145-151 | Midnight of a day is at or before every instant of it, less than a day earlier, and on the same day. |
| MangaStats.CustomPeriodDays | app/src/main/java/eu/kanade/tachiyomi/ui/manga/stats/StatsMangaPresenter.kt:137-161 | A custom period runs from 00:00:00.000 of the first day to the last millisecond of the last day. Its range (`DaysRange`) is (last day − first day + 1) days. |
| MangaStats.ShiftKeepsDaysRange | app/src/main/java/eu/kanade/tachiyomi/ui/manga/stats/StatsMangaPresenter.kt:132-139 | Shifting start and end by the same amount keeps the range. |
| MangaStats.GroupByDay | app/src/main/java/eu/kanade/tachiyomi/ui/manga/stats/StatsMangaPresenter.kt:175-188 | There are `daysRange` consecutive day keys from the start. Each holds exactly the history entries in [start, end] whose last read falls on that day. |
| MangaStats.GroupsCoverPeriod | app/src/main/java/eu/kanade/tachiyomi/ui/manga/stats/StatsMangaPresenter.kt:144-188 | Every entry read in a custom period lands in the group of its day. |
| MangaStats.Lookup | app/src/main/java/eu/kanade/tachiyomi/ui/manga/stats/StatsMangaPresenter.kt:101 | Finds the entries under a day key iff that key is one of the groups. |
| MangaStats.Selected | app/src/main/java/eu/kanade/tachiyomi/ui/manga/stats/StatsMangaPresenter.kt:98-102 | No day selects all grouped history, and a day selects its entries. A day outside the map selects nothing. |
| MangaStats.FindChapter | app/src/main/java/eu/kanade/tachiyomi/ui/manga/stats/StatsMangaPresenter.kt:105 | Finds a chapter with the id iff one exists. |
| MangaStats.Row | app/src/main/java/eu/kanade/tachiyomi/ui/manga/stats/StatsMangaPresenter.kt:105-113 | A row carries the entry's read time. A found chapter gives its chapter number, its name as the label and its scanlator as the sub-label. An unknown chapter gives chapter number 0 and no labels. |
| MangaStats.Rows | app/src/main/java/eu/kanade/tachiyomi/ui/manga/stats/StatsMangaPresenter.kt:104-114 | There is exactly one row per selected entry, in order. |
| MangaStats.SumReadAppend | app/src/main/java/eu/kanade/tachiyomi/ui/manga/stats/StatsMangaPresenter.kt:117 | The total read time of two lists is the sum of their totals. |
| MangaStats.RowsTotal | app/src/main/java/eu/kanade/tachiyomi/ui/manga/stats/StatsMangaPresenter.kt:104-117 | The rows' durations add up to the total read duration. |
| MangaStats.SortStatsSpec | app/src/main/java/eu/kanade/tachiyomi/ui/manga/stats/StatsMangaPresenter.kt:120-130 | Both orders of `SortStats` are permutations. CHAPTER_NUMBER sorts by chapter number, then read duration, both descending. READ_DURATION_COUNT swaps the keys. |
| MangaStats.StatsMangaPresenter.constructor | app/src/main/java/eu/kanade/tachiyomi/ui/manga/stats/StatsMangaPresenter.kt:35-43 | The range is computed from the period. History is grouped for it. There are no stats yet, and the sort is CHAPTER_NUMBER. |
| MangaStats.StatsMangaPresenter.SetupReadDuration | app/src/main/java/eu/kanade/tachiyomi/ui/manga/stats/StatsMangaPresenter.kt:95-118 | The current stats are the sorted rows of the selected entries. The total is their summed read time, which is 0 for an absent day. |
| MangaStats.StatsMangaPresenter.SortCurrentStats | app/src/main/java/eu/kanade/tachiyomi/ui/manga/stats/StatsMangaPresenter.kt:120-130 | Sorts the current stats, if any, by the selected sort. |
| MangaStats.StatsMangaPresenter.ChangeReadDurationPeriod | app/src/main/java/eu/kanade/tachiyomi/ui/manga/stats/StatsMangaPresenter.kt:132-135 | Shifts start and end by toAdd × daysRange days, which preserves the range. |
| MangaStats.StatsMangaPresenter.UpdateReadDurationPeriod | app/src/main/java/eu/kanade/tachiyomi/ui/manga/stats/StatsMangaPresenter.kt:144-162 | The period becomes midnight of the first day through the end of the last day. Its range is the number of days covered. |
| MangaStats.StatsMangaPresenter.UpdateMangaHistory | app/src/main/java/eu/kanade/tachiyomi/ui/manga/stats/StatsMangaPresenter.kt:168-170 | Regroups the history for the current period. |
| MangaStats.StatsMangaPresenter.GetCalendarShortDay | app/src/main/java/eu/kanade/tachiyomi/ui/manga/stats/StatsMangaPresenter.kt:190-200 | The label is empty when more than 14 days are grouped. Otherwise it is the day's short name, or "unknown". |
| MangaDex.ToBasicManga | app/src/main/java/eu/kanade/tachiyomi/source/online/utils/MangaDexExtensions.kt:6-22 | The url is "/manga/" + id, so the id is the url after that prefix. The title is `cleanString(getTitle(titles, originalLanguage))`. With a cover file name, the thumbnail is `cdnCoverUrl(id, file, quality)`. Without one, it is the placeholder if `useNoCoverUrl` is set, else null. |
| MangaDex.FirstCoverArtWins | app/src/main/java/eu/kanade/tachiyomi/source/online/utils/MangaDexExtensions.kt:16-21 | Only the first cover-art relationship counts. If it has no file name, the fallback is used even when a later one has a file name. |
| MangaDex.DefaultAlwaysHasThumbnail | app/src/main/java/eu/kanade/tachiyomi/source/online/utils/MangaDexExtensions.kt:6-21 | With the default `useNoCoverUrl`, the thumbnail is never null. |
| SimilarHandler.OrNull | app/src/main/java/eu/kanade/tachiyomi/source/online/handlers/SimilarHandler.kt:47-53 | A response yields a value iff it succeeded. |
| SimilarHandler.ThirdParty | app/src/main/java/eu/kanade/tachiyomi/source/online/handlers/SimilarHandler.kt:200-206 | A third-party call fails on a 404 or an exception. Any other failure reads as null. |
| SimilarHandler.Search | app/src/main/java/eu/kanade/tachiyomi/source/online/handlers/SimilarHandler.kt:386-411 | A failed search fails. With `strictMatch`, a count different from the request fails. Otherwise the response body is returned. |
| SimilarHandler.NonStrictSearchIgnoresCount | app/src/main/java/eu/kanade/tachiyomi/source/online/handlers/SimilarHandler.kt:406-409 | Without `strictMatch`, which every caller uses, the count is never checked. |
| SimilarHandler.MangaKeyInjective | app/src/main/java/eu/kanade/tachiyomi/source/online/handlers/SimilarHandler.kt:67-73 | Different manga ids (including null) give different cache keys. |
| SimilarHandler.Cached | app/src/main/java/eu/kanade/tachiyomi/source/online/handlers/SimilarHandler.kt:95-101 | A missing or undecodable row reads as the empty DTO. Otherwise the stored DTO is used. |
| SimilarHandler.ToRelatedMangaDto | app/src/main/java/eu/kanade/tachiyomi/source/online/handlers/SimilarHandler.kt:110-121 | The related entry has the manga's url and the given relation text. Its thumbnail exists because the default `useNoCoverUrl` is used. |
| SimilarHandler.RelatedList | app/src/main/java/eu/kanade/tachiyomi/source/online/handlers/SimilarHandler.kt:62-64 | One related entry per returned manga, in order, each labelled with its id's text. |
| SimilarHandler.QueryIds | app/src/main/java/eu/kanade/tachiyomi/source/online/handlers/SimilarHandler.kt:173 | The ids sent to the search are exactly the non-null keys of the id map. |
| SimilarHandler.ToSourceList | app/src/main/java/eu/kanade/tachiyomi/source/online/handlers/SimilarHandler.kt:74-76 | One source manga per cached entry, in order. |
| SimilarHandler.SortedByDescending | app/src/main/java/eu/kanade/tachiyomi/source/online/handlers/SimilarHandler.kt:151-153 | A list of at most one entry is returned as is. Otherwise an unparsable key is an error, and the result is a permutation. |
| SimilarHandler.SortedByDescendingSorted | app/src/main/java/eu/kanade/tachiyomi/source/online/handlers/SimilarHandler.kt:151-153 | A successful sort has its keys in descending order. |
| SimilarHandler.CachedList | app/src/main/java/eu/kanade/tachiyomi/source/online/handlers/SimilarHandler.kt:148-153 | No cached list gives an empty result. Otherwise the cached list is mapped and sorted by the source's key. |
| SimilarHandler.MuSimilarLast | app/src/main/java/eu/kanade/tachiyomi/source/online/handlers/SimilarHandler.kt:337-342 | In the MangaUpdates list, "Similar" entries come after every vote entry. |
| SimilarHandler.SelectLine | app/src/main/java/eu/kanade/tachiyomi/source/online/handlers/SimilarHandler.kt:136-143 | No line is picked iff no line splits into exactly two parts on the separator with the first part equal to the MangaDex id. Otherwise the payload is that of the first such line. |
| SimilarHandler.SelectedLineForm | app/src/main/java/eu/kanade/tachiyomi/source/online/handlers/SimilarHandler.kt:136-143 | A picked payload comes from a line that is id + separator + payload. |
| SimilarHandler.WellFormedLineMatches | app/src/main/java/eu/kanade/tachiyomi/source/online/handlers/SimilarHandler.kt:137-139 | A line id + separator + payload, where the payload has no separator, is picked with that payload. |
| SimilarHandler.RelatedIdMap | app/src/main/java/eu/kanade/tachiyomi/source/online/handlers/SimilarHandler.kt:56-59 | An id is a key iff some entry with relationships has it as its first relationship's id. Entries without relationships are dropped. Each key holds the relation of the last entry with that id. |
| SimilarHandler.AnilistIdMap | app/src/main/java/eu/kanade/tachiyomi/source/online/handlers/SimilarHandler.kt:227-234 | Only recommendations in MANGA format contribute: a key is present iff some MANGA recommendation maps to it. It holds "<rating> user votes" of the last MANGA recommendation with that key. |
| SimilarHandler.SimilarIdMap | app/src/main/java/eu/kanade/tachiyomi/source/online/handlers/SimilarHandler.kt:164-168 | There is one key per match id. Each holds "<score × 100 as %.2f>% match" of the last match with that id. |
| SimilarHandler.MalIdMap | app/src/main/java/eu/kanade/tachiyomi/source/online/handlers/SimilarHandler.kt:289-293 | There is one key per recommendation, its mapped MangaDex id. Each holds "<votes> user votes" of the last recommendation with that key. |
| SimilarHandler.MuVotes | app/src/main/java/eu/kanade/tachiyomi/source/online/handlers/SimilarHandler.kt:353-357 | There is one key per recommendation, its mapped MangaDex id. Each holds "<weight> user votes" of the last recommendation with that key. |
| SimilarHandler.MuCategories | app/src/main/java/eu/kanade/tachiyomi/source/online/handlers/SimilarHandler.kt:358-362 | There is one key per category recommendation, and every key holds "Similar". |
| SimilarHandler.MuIdMap | app/src/main/java/eu/kanade/tachiyomi/source/online/handlers/SimilarHandler.kt:353-362 | The keys are those of the vote recommendations together with those of the category recommendations. |
| SimilarHandler.MuCategoryOverrides | app/src/main/java/eu/kanade/tachiyomi/source/online/handlers/SimilarHandler.kt:353-362 | A category recommendation overrides a vote recommendation for the same id, with the text "Similar". Other ids keep their vote text. |
| SimilarHandler.SourceWritesCommute | app/src/main/java/eu/kanade/tachiyomi/source/online/handlers/SimilarHandler.kt:67-70 | Each source writes only its own field pair of the DTO. The writes commute, and applying all five sets all ten fields. |
| SimilarHandler.RefreshKeepsOtherSources | app/src/main/java/eu/kanade/tachiyomi/source/online/handlers/SimilarHandler.kt:245-249 | Refreshing one source leaves the cached fields of the other sources unchanged. |
| SimilarHandler.RelatedParse | app/src/main/java/eu/kanade/tachiyomi/source/online/handlers/SimilarHandler.kt:56-70 | A failed search fails. Otherwise the related list is written into the cached DTO. |
| SimilarHandler.SimilarParse | app/src/main/java/eu/kanade/tachiyomi/source/online/handlers/SimilarHandler.kt:156-184 | No DTO or an empty id map leaves the cache untouched. Otherwise a failed search fails, and a successful one writes the similar pair. |
| SimilarHandler.AnilistParse | app/src/main/java/eu/kanade/tachiyomi/source/online/handlers/SimilarHandler.kt:219-250 | No DTO or an empty id map leaves the cache untouched. Otherwise a failed search fails, and a successful one writes the AniList pair. |
| SimilarHandler.MalParse | app/src/main/java/eu/kanade/tachiyomi/source/online/handlers/SimilarHandler.kt:281-312 | No DTO or an empty id map leaves the cache untouched. Otherwise a failed search fails, and a successful one writes the MyAnimeList pair. |
| SimilarHandler.MuParse | app/src/main/java/eu/kanade/tachiyomi/source/online/handlers/SimilarHandler.kt:345-381 | No DTO or an empty id map leaves the cache untouched. Otherwise a failed search fails, and a successful one writes the MangaUpdates pair. |
| SimilarHandler.AfterParse | app/src/main/java/eu/kanade/tachiyomi/source/online/handlers/SimilarHandler.kt:79-93 | Only a parse that produced a DTO replaces the manga's row. |
| SimilarHandler.SimilarHandlerState.constructor | app/src/main/java/eu/kanade/tachiyomi/source/online/handlers/SimilarHandler.kt:34-39 | The handler starts from the given cache and helpers. |
| SimilarHandler.SimilarHandlerState.Apply | app/src/main/java/eu/kanade/tachiyomi/source/online/handlers/SimilarHandler.kt:79-93 | Stores the outcome of a parse. |
| SimilarHandler.SimilarHandlerState.FetchRelated | app/src/main/java/eu/kanade/tachiyomi/source/online/handlers/SimilarHandler.kt:41-77 | Services are contacted only with a refresh and a non-empty id. A failed related call returns empty. Otherwise the cache row is rewritten, and the cached related list is returned. |
| SimilarHandler.SimilarHandlerState.FetchSimilar | app/src/main/java/eu/kanade/tachiyomi/source/online/handlers/SimilarHandler.kt:126-154 | Without a refresh, returns the cached list sorted by match. An id shorter than 3 characters fails. An undecodable line fails. Otherwise the picked line is parsed, and the cached list is returned sorted. |
| SimilarHandler.SimilarHandlerState.FetchAnilist | app/src/main/java/eu/kanade/tachiyomi/source/online/handlers/SimilarHandler.kt:189-217 | Without a refresh, returns the cached list. With no AniList mapping, returns empty. A 404 or an exception fails. Otherwise the response is parsed, and the cached list is returned sorted by votes. |
| SimilarHandler.SimilarHandlerState.FetchMal | app/src/main/java/eu/kanade/tachiyomi/source/online/handlers/SimilarHandler.kt:255-279 | Without a refresh, returns the cached list. With no MyAnimeList mapping, returns empty. A 404 or an exception fails. Otherwise the response is parsed, and the cached list is returned sorted by votes. |
| SimilarHandler.SimilarHandlerState.FetchMu | app/src/main/java/eu/kanade/tachiyomi/source/online/handlers/SimilarHandler.kt:317-343 | Without a refresh, returns the cached list. With no MangaUpdates mapping, returns empty. A 404 or an exception fails. Otherwise the response is parsed, and the cached list is returned with "Similar" last. |
| SimilarRepository.ActualRefresh | app/src/main/java/eu/kanade/tachiyomi/ui/manga/similar/SimilarRepository.kt:31-35 | A refresh is forced when there is no cached row. Otherwise the caller's flag is used. |
| SimilarRepository.Lang | app/src/main/java/eu/kanade/tachiyomi/ui/manga/similar/SimilarRepository.kt:36-37 | A blank source language becomes "EN". Any other is uppercased. |
| SimilarRepository.FindDelegate | app/src/main/java/eu/kanade/tachiyomi/ui/manga/similar/SimilarRepository.kt:118 | The delegate is found iff some online source shows as "MangaDex (LANG)". It is then the first such source. |
| SimilarRepository.GetDexId | app/src/main/java/eu/kanade/tachiyomi/ui/manga/similar/SimilarRepository.kt:100-112 | The result is the first non-null mapped id over the tracks, or "" if there is none. |
| SimilarRepository.UnknownTrackerHasNoService | app/src/main/java/eu/kanade/tachiyomi/ui/manga/similar/SimilarRepository.kt:102-108 | Only MangaUpdates, AniList, MyAnimeList and Kitsu map to a service ("mu_new", "al", "mal", "kt"). Anything else maps to null. |
| SimilarRepository.DisplayList | app/src/main/java/eu/kanade/tachiyomi/ui/manga/similar/SimilarRepository.kt:122-124 | There is one display manga per source manga, in order. |
| SimilarRepository.CreateGroup | app/src/main/java/eu/kanade/tachiyomi/ui/manga/similar/SimilarRepository.kt:114-127 | An empty list gives no group. Otherwise a missing delegate is an error, and the group keeps the list's length and order. |
| SimilarRepository.GroupOf | app/src/main/java/eu/kanade/tachiyomi/ui/manga/similar/SimilarRepository.kt:41-50 | A group is present iff its fetch succeeded with a non-empty list and the delegate exists. A failure drops only that group. |
| SimilarRepository.OptionList | app/src/main/java/eu/kanade/tachiyomi/ui/manga/similar/SimilarRepository.kt:96 | `listOfNotNull` keeps exactly the present groups. |
| SimilarRepository.OptionListOrder | app/src/main/java/eu/kanade/tachiyomi/ui/manga/similar/SimilarRepository.kt:96 | Dropping nulls keeps the order. |
| SimilarRepository.AssembleOrdered | app/src/main/java/eu/kanade/tachiyomi/ui/manga/similar/SimilarRepository.kt:96 | In `Assemble`, the groups come in the fixed order related, similar, MangaUpdates, AniList, MyAnimeList. |
| SimilarRepository.FetchSimilar | app/src/main/java/eu/kanade/tachiyomi/ui/manga/similar/SimilarRepository.kt:26-98 | The repository's result for a manga keeps that fixed order of groups, whatever the refresh flag. |
| SimilarRepository.InAssemble | app/src/main/java/eu/kanade/tachiyomi/ui/manga/similar/SimilarRepository.kt:41-96 | Every assembled group is the group of its own fetch. |
| SimilarRepository.AssemblePresence | app/src/main/java/eu/kanade/tachiyomi/ui/manga/similar/SimilarRepository.kt:41-96 | In `Assemble`, a kind appears iff its group is present, and with the full length of its fetch. One failing fetch does not affect the others. |
| SimilarPresenter.GroupMap | app/src/main/java/eu/kanade/tachiyomi/ui/manga/similar/SimilarPresenter.kt:83 | Every group's kind is a key, and every key is some group's kind. |
| SimilarPresenter.GroupMapOfAssembled | app/src/main/java/eu/kanade/tachiyomi/ui/manga/similar/SimilarPresenter.kt:79-83 | Each assembled group is found under its own kind. |
| SimilarPresenter.IndexOfManga | app/src/main/java/eu/kanade/tachiyomi/ui/manga/similar/SimilarPresenter.kt:93 | The result is the first index with the id, or −1 iff there is none. |
| SimilarPresenter.MarkFirst | app/src/main/java/eu/kanade/tachiyomi/ui/manga/similar/SimilarPresenter.kt:93-109 | The first entry with the id gets the new flag. The length and every other entry are unchanged. |
| SimilarPresenter.MarkFirstOnlyFirst | app/src/main/java/eu/kanade/tachiyomi/ui/manga/similar/SimilarPresenter.kt:92-107 | Only the flag of the first matching entry can change. Later duplicates keep their value. |
| SimilarPresenter.MarkFirstIdempotent | app/src/main/java/eu/kanade/tachiyomi/ui/manga/similar/SimilarPresenter.kt:90-118 | Updating twice with the same flag equals updating once. |
| SimilarPresenter.SimilarPresenterState.constructor | app/src/main/java/eu/kanade/tachiyomi/ui/manga/similar/SimilarPresenter.kt:33-41 | The screen starts from the preferences. Comfortable grid holds iff the layout is 2, and category prompting iff the default category is −1. |
| SimilarPresenter.SimilarPresenterState.StartLoading | app/src/main/java/eu/kanade/tachiyomi/ui/manga/similar/SimilarPresenter.kt:75-77 | Sets refreshing and clears the groups. |
| SimilarPresenter.SimilarPresenterState.FinishLoading | app/src/main/java/eu/kanade/tachiyomi/ui/manga/similar/SimilarPresenter.kt:80-85 | Clears refreshing and maps each group kind to its list. |
| SimilarPresenter.SimilarPresenterState.GetSimilarManga | app/src/main/java/eu/kanade/tachiyomi/ui/manga/similar/SimilarPresenter.kt:72-88 | Does nothing without a manga. Otherwise the screen ends up with the fetched groups and is no longer refreshing. |
| SimilarPresenter.SimilarPresenterState.OnCreate | app/src/main/java/eu/kanade/tachiyomi/ui/manga/similar/SimilarPresenter.kt:45-58 | The first load does not force a refresh: with a manga, the screen stops refreshing and shows the fetched groups, and without one nothing is loaded. The categories are replaced only when the user is to be asked for one. Nothing else changes. |
| SimilarPresenter.SimilarPresenterState.Refresh | app/src/main/java/eu/kanade/tachiyomi/ui/manga/similar/SimilarPresenter.kt:68-70 | Loads with a forced refresh. |
| SimilarPresenter.SimilarPresenterState.OnBrowseAsList | app/src/main/java/eu/kanade/tachiyomi/ui/manga/similar/SimilarPresenter.kt:59-65 | The list mode follows the preference and nothing else changes. |
| SimilarPresenter.SimilarPresenterState.SwitchDisplayMode | app/src/main/java/eu/kanade/tachiyomi/ui/manga/similar/SimilarPresenter.kt:120-122 | Stores the negation of the current list mode. |
| SimilarPresenter.SimilarPresenterState.UpdateDisplayManga | app/src/main/java/eu/kanade/tachiyomi/ui/manga/similar/SimilarPresenter.kt:90-118 | In every group, the first manga with the id gets the new in-library flag. The keys, the lengths, every other entry and the rest of the screen are unchanged. |
| Collections.Associate | app/src/main/java/eu/kanade/tachiyomi/source/online/handlers/SimilarHandler.kt:56-59 | `toMap` keeps every key, with the value of its last pair. |
| Collections.AssociateBy | app/src/main/java/eu/kanade/tachiyomi/source/online/handlers/SimilarHandler.kt:164-168 | `associate` has one key per element, with the value of the last element giving that key. |
| Collections.MapNotNull | app/src/main/java/eu/kanade/tachiyomi/source/online/handlers/SimilarHandler.kt:56-58 | `mapNotNull` keeps exactly the non-null results: each comes from some element, and every element's non-null result is kept. |
| Collections.FirstSome | app/src/main/java/eu/kanade/tachiyomi/ui/manga/similar/SimilarRepository.kt:101-111 | `firstNotNullOfOrNull` is null iff every element maps to null. Otherwise it is the first non-null value. |
| Text.SplitJoin | app/src/main/java/eu/kanade/tachiyomi/ui/migration/manga/design/PreMigrationController.kt:110 | Ids joined by `/` split back into the same ids. |
| Text.JoinSplitOn | app/src/main/java/eu/kanade/tachiyomi/source/online/handlers/SimilarHandler.kt:137 | Splitting a line on the separator and joining it back gives the line. |
| Text.ParseIntToString | app/src/main/java/eu/kanade/tachiyomi/ui/category/ManageCategoryDialog.kt:180 | An id's decimal string parses back to the id. |

## Left out

- I/O is not modelled: the network, the database, the preference store, the cover cache and the download manager. Their results are parameters, or fields the methods write.
- `Thread.sleep`, `synchronized` and `chain.proceed` in the rate limiter are left out. Requests are handled one at a time, and `now` is a parameter.
- Coroutines (`launch`, `async`, `withContext`) are modelled sequentially.
  - The repository's five fetches are one function that returns the five outcomes (`Env.handler`).
  - Two concurrent handler calls that read and write the same cache row can lose an update in the source. The model does not capture that race.
- Dates are UTC instants in milliseconds. A day is `ms / 86400000`, and `Calendar`, time zones and locales are left out.
  - The week-based initial period (`getFirstDayOfWeek`, `getLastDayOfWeek`) is not modelled: the constructor takes the period.
  - Day-of-week names are a parameter of `GetCalendarShortDay`.
- Floating point is not modelled.
  - Chapter numbers and the similar lists' sort keys are `real`.
  - The `%.2f` percent formatting and `String.toDouble` are parameters (`formatPercent`, `toDouble`).
  - The statistics chart, the column count and the rounding helpers are not part of this model.
- JSON encoding and decoding of the cache DTO and of the similar records, the `MangaMappings` lookups and the `MdUtil` title and cover helpers are parameters. The two `MdConstants` values `toBasicManga` reads are fields of `MdHelpers`.
- The default value of the cache DTO class is not part of this model. An empty DTO is taken to have all nine fields null.
- `TrackManager`'s sync-id constants are not part of this model. The trackers are an enumeration.
- Text is ASCII only. `equals(ignoreCase = true)` and `uppercase(Locale)` fold only ASCII letters, and `isBlank` knows the ASCII whitespace characters and U+00A0 only; other Unicode spaces are left out.
- Category objects are reduced to id, name and order. The download summaries list the stored `name` where the source shows `visualName(context)`. `visualName` is not part of this model.
- ManageCategory.ManageCategoryDialog.OnPositiveButtonClick: the new order `maxOf { it.order } + 1` is a 32-bit `Int` in the source and wraps to `Int.MIN_VALUE` when the largest order is `Int.MAX_VALUE`. The model's order is unbounded, so this wrap-around is not modelled, and the ensures that the new order exceeds every stored order holds only below that bound.
- Sorting.SortBy: Kotlin's sorts are stable, and the model proves only that the result is sorted and a permutation. Stability (equal elements keep their input order) is not stated.
- The two-pass sorts (`sortedBy { name }` then `sortedBy { !enabled }`, and `compareByDescending … thenByDescending`) are modelled as one sort by the combined key. The two orders agree for stable sorts; this equality is not proved.
- `SimilarPresenter.confirmDeletion` is not modelled: it only deletes the cover and the downloads through the cover cache and the download manager.
- RateLimit.RateLimitInterceptor.Intercept: `now + waitTime` is unbounded; a `Long` overflow near the end of the clock range is not modelled.
- RateLimit.RateLimitInterceptor.constructor: `permits` is a `nat`. A negative `permits` is excluded because the source's `ArrayList(permits)` rejects a negative capacity before any call.
- MangaExtensions.ChaptersToDownload: `limit − downloadedUnread` is unbounded; a 32-bit `Int` overflow for limits near the `Int` range is not modelled.
- MangaStats.StatsMangaPresenter.ChangeReadDurationPeriod: the day count `toAdd * daysRange.toInt()` is a 32-bit `Int` product in the source; the model computes it unbounded, so its wrap-around (and the `toInt()` truncation of `daysRange`) is not modelled.
- MangaExtensions.DbManga.RemoveCovers: the `!!` on `toDomainManga()` is taken to succeed. The conversion to the domain manga is not part of this model, so its null case (a `NullPointerException`) is left out.
- `editCover` and the statistics getters that only read the database are not part of the listed core.

## Findings

| source | as written | input that shows it | evidently intended | confidence | as-written member | corrected member |
|---|---|---|---|---|---|---|
| app/src/main/java/eu/kanade/tachiyomi/ui/category/ManageCategoryDialog.kt:103-108 | The library-update set is edited with the download-new box (`binding.downloadNew`). The "include in global update" box is set up at lines 152-156 but never read. | Category id 5, library-update interval 12, library-update set {"5", "7"}: the include box opens ticked. The user leaves it ticked and the download box clear. As written, 5 is removed and the set becomes {"7"}. | The include box decides whether the category is in the library-update set: the set stays {"5", "7"} and the interval stays 12. | not executed | ManageCategory.LibraryUpdateAsWrittenIgnoresIncludeBox | ManageCategory.LibraryUpdateFollowsIncludeBox |
