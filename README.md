# Prompt manager: a verified model of its core

The prompt manager is a single-page React application for keeping a
library of bilingual (English/Chinese) image-generation prompts, filed
under a category and an optional sub-category. The user filters the
library, selects prompts and exports the selection as a Flux, SDXL,
Chinese or JSON text, which goes to the clipboard (or to a downloaded
file), and an audit row is written to the backend.

The repository holds two versions of the application component. The
mounted one is `src/App.jsx`. The older root-level copy is `app.jsx`.
They differ in small, stateable ways, so each has its own module:

- `LiveApp` (`live_app.dfy`) models `src/App.jsx`:
  - the null-tolerant export templates;
  - the trimmed, cross-field search filter;
  - the selection toggle with its falsy-id guard;
  - the resolution of the selection, with unresolved ids dropped;
  - the export plan (rejection, format switch, file names);
  - the clipboard → legacy copy → download fallback chain, run as a method
    statement by statement, with the statements that may throw;
  - the add-prompt validation and the trimmed insert;
  - the category level rule;
  - the `Session` class holding the component's state, with one method per
    handler.
- `LegacyApp` (`legacy_app.dfy`) models `app.jsx`:
  - templates that read every entry;
  - the untrimmed, per-field search;
  - the similar-prompt check of the add form;
  - the unguarded toggle;
  - a resolution that keeps one entry per selected id;
  - an export that knows only the clipboard API;
  - its own `Session` class.
- `Variants` (`variants.dfy`) proves where the two versions agree and gives
  the inputs on which they part.

Shared modules:

- `Records` holds the prompt, the draft, the formats and the export bodies.
- `Text` models `join`, `trim`, `toLowerCase` and `includes`.
- `Seqs` models `map`, `filter`, `find` and `filter(Boolean)`.
- `OrderedSet` models a JavaScript `Set`. It is a sequence without
  duplicates, in insertion order, because the export lists prompts in
  that order.
- `Wrappers` holds `Option`.

Inputs from outside become parameters:

- Every backend round trip is a `configured` flag (whether a client exists,
  for the mounted version) and a `success` flag.
- An insert also takes the record the backend returns.
- `window.confirm` is a boolean.
- The browser's export abilities are the `Browser` value that
  `RunFallbackChain` receives.

Behaviour of the code that the model keeps as written:

- A failed load leaves the list as it was: the catch block
  (src/App.jsx:87-89) never calls `setPrompts`.
- Only `app.jsx` checks for a similar prompt before inserting
  (app.jsx:104-114). `handleAddPrompt` in src/App.jsx:154-198 inserts
  directly.
- `app.jsx` validates and sends the texts as typed, untrimmed
  (app.jsx:98, 119-122).
- In src/App.jsx:336-339 the download tier's cleanup is not in a
  `finally`. A throwing `click` leaves the anchor attached and the object
  URL alive.
- The audit insert of src/App.jsx:348-350 is attempted after the chain
  whatever the chain did, whenever a client exists.
- The templates of app.jsx:23-35 read a field of every entry, so an
  unresolved id (an `undefined` entry, app.jsx:170-172) makes them throw.

## Model

| member | source | states |
|---|---|---|
| Seqs.Map | src/App.jsx:24 | `map`: same length, the function applied at each index |
| Seqs.Filter | src/App.jsx:237 | `filter`: no longer than the input, every kept element is from the input and passes the test |
| Seqs.Find | src/App.jsx:265 | `find`: none exactly when no element passes; otherwise the first passing element |
| Seqs.Somes | src/App.jsx:266 | `filter(Boolean)` on possibly absent entries: the present values, in order and each as often as it occurs (wrapped back, they are the entries `Filter` keeps with the test IsPresent) |
| Text.Join | src/App.jsx:24 | definition of `join`: `""`, the only part, or the first part, the separator and the rest; its properties are JoinAppend, JoinLength, JoinEmptyIff |
| Text.Trim | src/App.jsx:236 | definition of `trim` as TrimEnd after TrimStart; its properties are TrimIsMiddle, TrimCutsSpace, TrimEnds, TrimEmptyIff |
| Text.Contains | src/App.jsx:243 | definition of `includes` by a prefix test at each position; its meaning is ContainsIff |
| OrderedSet.Add | src/App.jsx:256 | definition of `Set.add`: unchanged if present, else appended; its properties are ToggleAppends, ToggleMembership |
| OrderedSet.Delete | src/App.jsx:225 | definition of `Set.delete` as a filter; its properties are DeleteMembership, DeletePreservesOrder |
| OrderedSet.Toggle | src/App.jsx:253-257 | definition of `has ? delete : add`; its properties are the Toggle lemmas |
| Records.Lookup | src/App.jsx:265 | definition of `prompts.find(p => p.id === id)` through Seqs.Find, whose contract gives the first prompt with the id |
| Records.RemoveById | src/App.jsx:221 | definition of `filter(p => p.id !== id)`; its meaning is RemoveByIdSpec |
| Records.FileName | src/App.jsx:276-292 | definition: the file name each switch arm assigns; FileNamesDistinct states they are distinct |
| LiveApp.FluxTemplate | src/App.jsx:23-25 | definition of `FLUX_TEMPLATE`: the helper EnglishOrEmpty is `p?.english_text \|\| ''` and EnglishParts is the `map(...).filter(Boolean)` before the join; its meaning is EnglishPartsAre, FluxEmptyIff, FluxConcat |
| LiveApp.SdxlTemplate | src/App.jsx:28-30 | definition of `SDXL_TEMPLATE`, written as the source writes it; SdxlIsFluxPlusSuffix relates it to Flux |
| LiveApp.ChineseTemplate | src/App.jsx:33-38 | definition of `CHINESE_TEMPLATE`: the helper ChinesePiece is the conditional of line 35 (an absent entry gives `''`), built on Records.Bilingual, the text `chinese（english）`; its meaning is ChinesePiecesArePresent, ChineseShape |
| LiveApp.Query | src/App.jsx:236 | definition: the search text trimmed and lower-cased |
| LiveApp.Haystack | src/App.jsx:242 | definition: `english + " " + chinese`, lower-cased |
| LiveApp.Matches | src/App.jsx:238-245 | definition of the filter callback's three conditions; SearchMatchIff states the search condition |
| LiveApp.FilteredPrompts | src/App.jsx:235-247 | definition of `filteredPrompts`; its meaning is FilteredPromptsSpec |
| LiveApp.ToggleSelection | src/App.jsx:249-260 | definition of `togglePromptSelection`, whose guard `!id` (line 250; also line 202) is Records.IsFalsy, the empty id; its meaning is ToggleSelectionSpec |
| LiveApp.Resolve | src/App.jsx:264-266 | definition of the resolution; its meaning is ResolveSpec, ResolveEmptyIff |
| LiveApp.Render | src/App.jsx:276-292 | definition: the template each recognised format applies |
| LiveApp.DraftComplete | src/App.jsx:158 | definition of the validation: trimmed texts and the category non-empty |
| LiveApp.InsertFields | src/App.jsx:169-172 | definition of the insert payload: the draft with both texts trimmed; InsertFieldsTrimmed states its shape |
| LiveApp.DownloadName | src/App.jsx:335 | definition of `filename \|\| 'export.txt'`; DownloadKeepsFileName applies it |
| LegacyApp.FluxTemplate | app.jsx:23-25 | definition of `FLUX_TEMPLATE`; its meaning is FluxConcat, FluxLength, FluxSmallCases |
| LegacyApp.SdxlTemplate | app.jsx:28-30 | definition of `SDXL_TEMPLATE`; SdxlIsFluxPlusSuffix relates it to Flux |
| LegacyApp.ChineseTemplate | app.jsx:33-35 | definition of `CHINESE_TEMPLATE`; its meaning is ChineseShape |
| LegacyApp.Matches | app.jsx:159-165 | definition of the filter callback; SearchMatchIff states the search condition |
| LegacyApp.FilteredPrompts | app.jsx:158-166 | definition of `filteredPrompts`; its meaning is FilteredPromptsSpec |
| LegacyApp.DraftComplete | app.jsx:98 | definition of the untrimmed validation |
| LegacyApp.Similar | app.jsx:105-106 | definition of the duplicate test: English equal ignoring case, or Chinese equal |
| LegacyApp.FindDuplicate | app.jsx:104-107 | definition of the duplicate search; its meaning is FindDuplicateSpec |
| LegacyApp.ToggleSelection | app.jsx:217-225 | definition of the unguarded toggle; its meaning is ToggleSelectionSpec |
| Text.JoinAppend | src/App.jsx:24 | joining two non-empty part lists is joining each with one separator between |
| Text.JoinLength | src/App.jsx:37 | n parts produce their own characters plus exactly n - 1 separators |
| Text.JoinEmptyIff | src/App.jsx:24 | without empty parts, the joined text is empty exactly when there are no parts |
| Text.TrimStart | src/App.jsx:236 | the result is a suffix that does not start with white space |
| Text.TrimEnd | src/App.jsx:236 | the result is a prefix that does not end with white space |
| Text.TrimIsMiddle | src/App.jsx:236 | `trim` returns the contiguous slice of the input between the cut-off ends |
| Text.TrimCutsSpace | src/App.jsx:236 | everything `trim` cuts off on either side is white space |
| Text.TrimEnds | src/App.jsx:158 | a trimmed text neither starts nor ends with white space |
| Text.TrimEmptyIff | src/App.jsx:158 | `trim()` is empty exactly when the text is white space only |
| Text.TrimKeepsTrimmed | src/App.jsx:236 | a text without white space at either end is its own trim |
| Text.Lower | src/App.jsx:242 | same length, each character lower-cased on its own |
| Text.LowerIdempotent | src/App.jsx:236 | lower-casing twice is lower-casing once |
| Text.ContainsIff | src/App.jsx:243 | `includes` holds exactly when the needle occurs as a slice at some index |
| Text.ContainsHasChars | app.jsx:162-163 | a text cannot contain a needle with a character the text lacks |
| OrderedSet.DeleteMembership | src/App.jsx:225 | `Set.delete(x)` removes x and keeps every other member |
| OrderedSet.DeletePreservesOrder | src/App.jsx:224-226 | deleting keeps the remaining ids in insertion order and without repeats |
| OrderedSet.ToggleMembership | src/App.jsx:253-257 | `has ? delete : add` flips the id's membership and no other |
| OrderedSet.ToggleAppends | src/App.jsx:256 | an added id goes after all others |
| OrderedSet.ToggleKeepsOthers | src/App.jsx:253-257 | apart from the toggled id, the selection is unchanged in content and order |
| OrderedSet.TogglePreservesNoDuplicates | src/App.jsx:252-258 | the toggled selection is still a set |
| OrderedSet.ToggleTwiceMembership | src/App.jsx:253-257 | toggling twice restores every id's membership |
| OrderedSet.ToggleTwiceAbsent | app.jsx:218-223 | toggling an absent id twice gives the selection back exactly |
| OrderedSet.ToggleTwiceMovesToEnd | app.jsx:218-223 | toggling a present id twice moves it to the end: `{1, 2}` becomes `{2, 1}` |
| Records.RemoveByIdSpec | src/App.jsx:221 | `filter(p => p.id !== id)` keeps exactly the other prompts, each as often as it occurred, in order |
| Records.TotalBilingualLength | src/App.jsx:35 | the pieces Records.Bilingual renders (also app.jsx:34) have as total length both texts plus the two brackets per prompt |
| Records.ParseFormat | src/App.jsx:276-295 | a format is recognised exactly when it is one of `flux`, `sdxl`, `chinese`, `json` |
| Records.FileNamesDistinct | src/App.jsx:276-292 | the four arms assign four different file names, and only `json` a `.json` one |
| LiveApp.EnglishPartsAre | src/App.jsx:23-25 | the Flux parts are the non-empty English texts of the non-null prompts, in order |
| LiveApp.FluxEmptyIff | src/App.jsx:23-25 | the Flux text is `""` exactly when no entry has English text (the empty input included) |
| LiveApp.FluxConcat | src/App.jsx:23-25 | exporting a concatenation joins the two halves' texts with one `", "` unless one is empty |
| LiveApp.SdxlIsFluxPlusSuffix | src/App.jsx:28-30 | SDXL is Flux plus `" \| High quality, detailed, 8k"`, and only the suffix without English text |
| LiveApp.ChinesePiecesArePresent | src/App.jsx:33-38 | only null entries are dropped; each present prompt renders one non-empty piece |
| LiveApp.ChineseShape | src/App.jsx:33-38 | n present prompts give n pieces and n - 1 `" + "`; empty exactly without a present prompt |
| LiveApp.FilteredPromptsSpec | src/App.jsx:235-247 | order-preserving subsequence; an entry is kept, as often as it occurs, iff non-null and matching all three filters |
| LiveApp.SearchMatchIff | src/App.jsx:236-244 | the search matches iff the trimmed query is blank or its lower case is a slice of the lower-cased `english + " " + chinese` |
| LiveApp.EmptyFiltersKeepAll | src/App.jsx:235-247 | empty filters and a blank query keep exactly the non-null entries |
| LiveApp.EmptyFiltersOnLoaded | src/App.jsx:235-247 | on loaded prompts the empty filters are the identity |
| LiveApp.ToggleSelectionSpec | src/App.jsx:249-260 | a falsy id is a no-op; otherwise membership flips, others keep membership and order, a new id goes last |
| LiveApp.ToggleSelectionTwice | src/App.jsx:249-260 | toggling twice restores membership |
| LiveApp.ResolveSpec | src/App.jsx:264-266 | the selected records are the loaded ids of the selection, in insertion order, each the first prompt with its id |
| LiveApp.ResolveEmptyIff | src/App.jsx:264-271 | the export is rejected exactly when no selected id is loaded |
| LiveApp.PlanExport | src/App.jsx:263-295 | rejection before anything else; unknown formats stop silently; otherwise the format's template and file name |
| LiveApp.RunFallbackChain | src/App.jsx:297-345 | the chain's report meets `ChainReportFor`, the closed-form reference: the textarea is removed exactly when its set-up (lines 307-314) did not throw, and a throw at `select` leaves it attached; a rejected write skips the legacy tier; one download per failed first tier; modal closed iff a tier finished; cleanup skipped by a throw |
| LiveApp.ChainReportUnique | src/App.jsx:299-345 | the tier-by-tier description fixes a single report for each browser |
| LiveApp.DownloadKeepsFileName | src/App.jsx:335 | the `'export.txt'` default never applies to a recognised format |
| LiveApp.InsertFieldsTrimmed | src/App.jsx:158-175 | a valid draft is sent with non-empty texts without edge white space, other fields as typed |
| LiveApp.BlankTextRejected | src/App.jsx:158-161 | a white-space-only English text fails validation |
| LiveApp.CategoryRow | src/App.jsx:124-133 | level 2 exactly when `parentCategoryId` is non-empty, level 1 otherwise; the parent sent is that id exactly when it is non-empty, else `null`; the name sent is the trimmed name |
| LiveApp.Session.constructor | src/App.jsx:42-61 | the initial state: nothing loaded, nothing selected, no filters, loading |
| LiveApp.Session.LoadPrompts | src/App.jsx:71-93 | a configured, successful load replaces the list; any other outcome keeps it; loading ends in every case |
| LiveApp.Session.SetSearchText | src/App.jsx:468 | the search field takes the typed text |
| LiveApp.Session.SetFilterCategory | src/App.jsx:473-476 | choosing a category clears the sub-category filter |
| LiveApp.Session.SetFilterSubCategory | src/App.jsx:487 | the sub-category filter takes the chosen value |
| LiveApp.Session.ResetFilters | src/App.jsx:498-502 | all three filters cleared, and the visible list is then every loaded prompt |
| LiveApp.Session.TogglePromptSelection | src/App.jsx:249-260 | the selection becomes the toggled one and stays a set of non-falsy ids |
| LiveApp.Session.EditDraft | src/App.jsx:420-455 | the form takes the typed draft |
| LiveApp.Session.ChooseDraftCategory | src/App.jsx:432 | choosing the draft's category clears its sub-category |
| LiveApp.Session.AddPrompt | src/App.jsx:154-198 | rejected iff a trimmed text or the category is empty; on success the returned row is prepended and the form reset; otherwise nothing changes |
| LiveApp.Session.DeletePrompt | src/App.jsx:201-232 | falsy id, declined confirm, no client or failure change nothing; success removes every prompt with the id and the id from the selection |
| LiveApp.Session.EditCategoryForm | src/App.jsx:371-376 | the category inputs take the typed values |
| LiveApp.Session.AddCategory | src/App.jsx:116-151 | a blank name does nothing; the row follows the level rule; success clears the inputs, failure keeps them |
| LiveApp.Session.ExportPrompts | src/App.jsx:263-351 | follows the plan and the chain; the audit row is attempted whenever configured, whatever the chain did; the modal closes iff a tier finished |
| LiveApp.FilterChangeKeepsSelection | src/App.jsx:473-502 | changing or resetting the filters never drops a selected id, and after a reset every loaded prompt with that id is visible again |
| LegacyApp.FluxConcat | app.jsx:23-25 | nothing is dropped: two non-empty halves are always joined with one `", "` |
| LegacyApp.FluxLength | app.jsx:23-25 | n prompts give their English texts and exactly n - 1 separators |
| LegacyApp.FluxSmallCases | app.jsx:23-25 | no prompts give `""`; one prompt gives its English text unchanged |
| LegacyApp.SdxlIsFluxPlusSuffix | app.jsx:28-30 | SDXL is Flux plus `" \| High quality, detailed, 8k"` |
| LegacyApp.ChineseShape | app.jsx:33-35 | every prompt rendered: n pieces, n - 1 `" + "`, empty only for no prompts |
| LegacyApp.FilteredPromptsSpec | app.jsx:158-166 | order-preserving subsequence; a prompt is kept, as often as it occurs, iff it matches |
| LegacyApp.SearchMatchIff | app.jsx:161-163 | the untrimmed search matches iff empty, or its lower case occurs in the lower-cased English text, or it occurs case-sensitively in the Chinese text |
| LegacyApp.EmptyFiltersKeepAll | app.jsx:158-166 | empty filters keep the list unchanged |
| LegacyApp.FindDuplicateSpec | app.jsx:104-107 | a duplicate is found iff some prompt is similar, and it is the first similar one |
| LegacyApp.CaseOnlyDifferenceIsSimilar | app.jsx:104-106 | a draft whose English text equals, ignoring case, that of any loaded prompt is reported as a duplicate |
| LegacyApp.ToggleSelectionSpec | app.jsx:217-225 | membership flips for any id, others keep membership and order; toggling twice restores membership |
| LegacyApp.Resolve | app.jsx:170-172 | one entry per selected id, present exactly when the id is loaded, and then the first loaded prompt with that id, as `find` returns |
| LegacyApp.Render | app.jsx:182-198 | the text templates throw iff an entry is absent; `json` always renders |
| LegacyApp.Session.constructor | app.jsx:38-53 | the initial state: nothing loaded, nothing selected, no filters, loading |
| LegacyApp.Session.LoadPrompts | app.jsx:61-78 | a successful load replaces the list, a failed one keeps it; loading ends in every case |
| LegacyApp.Session.SetSearchText | app.jsx:315 | the search field takes the typed text |
| LegacyApp.Session.SetFilterCategory | app.jsx:320-323 | choosing a category clears the sub-category filter |
| LegacyApp.Session.SetFilterSubCategory | app.jsx:334 | the sub-category filter takes the chosen value |
| LegacyApp.Session.ResetFilters | app.jsx:345-349 | all three filters cleared, and the visible list is then every loaded prompt |
| LegacyApp.Session.TogglePromptSelection | app.jsx:217-225 | the selection becomes the toggled one and stays a set |
| LegacyApp.Session.EditDraft | app.jsx:267-302 | the form takes the typed draft |
| LegacyApp.Session.ChooseDraftCategory | app.jsx:279 | choosing the draft's category clears its sub-category |
| LegacyApp.Session.AddPrompt | app.jsx:95-134 | rejected iff a field is `""`; a similar prompt needs confirmation, declined leaves all unchanged; success prepends the row and resets the form |
| LegacyApp.Session.DeletePrompt | app.jsx:137-155 | a declined confirm or a failure changes nothing; success removes the id from the list and the selection |
| LegacyApp.Session.ExportPrompts | app.jsx:169-215 | rejected iff nothing is selected; unknown formats ignored; only a successful clipboard write closes the modal and yields the audit row |
| Variants.FluxAgrees | app.jsx:23-25 | on prompts that all have English text the two Flux templates agree |
| Variants.FluxDiffersOnEmptyEnglish | src/App.jsx:24 | an empty English text is skipped by the mounted version and gives a leading `", "` in the older one |
| Variants.ChineseAgrees | app.jsx:33-35 | the two Chinese templates agree on every list of loaded prompts |
| Variants.RenderAgrees | app.jsx:182-198 | every format renders the same body in both versions when all selected prompts have English text |
| Variants.ResolveAgrees | app.jsx:170-172 | while every selected id is loaded, the two resolutions agree |
| Variants.UnresolvedSelection | app.jsx:170-177 | a selection of unloaded ids is rejected by the mounted version and makes the older text templates throw |
| Variants.BlankSearchDiffers | app.jsx:161-163 | a white-space-only query keeps a prompt in the mounted version and drops one without white space in the older |
| Variants.JoinedSearchDiffers | app.jsx:161-163 | the query `english + " " + chinese` is found by the mounted version and not by the older |
| Variants.BlankTextValidation | app.jsx:98-101 | a white-space-only English text passes the older validation and fails the newer |
| Variants.FalsyIdToggle | app.jsx:217-225 | the empty id is ignored by the mounted version and selected by the older |

## Left out

- Backend calls (the hosted database client and its queries) are replaced by `configured`/`success` flags and the returned record. Connection set-up and query building are not modelled.
- The `categories` list and `loadCategories`, which only feed the display, are not modelled. The same goes for the reload after `handleAddCategory`, `categoriesFromDb`, the fixed `CATEGORIES` table and the per-category statistics.
- Rendering, CSS, `alert` and `console` are not modelled. Neither are the buttons that only open or close the add form and the export modal.
- `navigator.clipboard`, `document.execCommand`, `Blob`, `URL.createObjectURL` and DOM element creation are not modelled. Only their outcomes remain: a capability flag, a write result, the textarea set-up statement that throws (`createElement`, `appendChild` or `select`), a copy result and the download statement that throws.
- `JSON.stringify` output is symbolic: the `json` body is the list of selected entries itself.
- Timestamps (`new Date().toISOString()`) and the constant fields `is_active` and `source_app` are not carried in the sent draft.
- Asynchronous interleavings are not modelled: double submits, a delete racing a load, the deferred promise continuation of the older export, and stale closures. Each handler is one atomic step.
- Text fields are always strings; a missing (`undefined`) text field is not modelled. In the Flux and SDXL templates it would export as `''` (`|| ''` in src/App.jsx:24,29; `join` in app.jsx:24,29), in CHINESE_TEMPLATE as the text `undefined` (src/App.jsx:35, app.jsx:34), and in app.jsx it would make the search with a non-empty query (app.jsx:162-163) and the duplicate check (app.jsx:105-106) throw a TypeError. Numeric ids, where `0` is falsy, are not modelled either: ids are strings and only `""` is falsy.
- `react-dom` mounting (`src/index.js`) is not part of this model.
- Text.Lower: models `toLowerCase` on the ASCII letters only; other characters are left unchanged, so the full Unicode case mapping is not captured.
- LiveApp.Session.LoadPrompts: a successful load with `null` data stands for a load of the empty list (the caller passes `[]`).
- LegacyApp.Session.LoadPrompts: a successful load with `null` data stands for a load of the empty list (the caller passes `[]`).
- LegacyApp.Session.ExportPrompts: states the outcome of the clipboard promise as if it were immediate; the time at which the modal closes is not modelled.
- LiveApp.RunFallbackChain: the alerts and console messages of each tier are not reported, only the failure alert of the last tier.
- Text.JoinLength, LiveApp.ChineseShape, LegacyApp.FluxLength: lengths count Unicode scalar values, as Dafny strings do; JavaScript `.length` counts UTF-16 code units, so for text with characters outside the Basic Multilingual Plane (emoji) these are not `.length`.
