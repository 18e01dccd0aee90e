/**
  The prompt library as the mounted application (src/App.jsx) runs it:
  the export templates, the filter over the loaded prompts, the session
  state with its handlers, and the export with its clipboard, legacy-copy
  and download fallbacks. Every backend round trip is a `configured` flag
  (whether a client exists) and a `success` flag; `window.confirm` is a
  boolean input.
 */
module LiveApp {
  import opened Wrappers
  import opened Seqs
  import opened Text
  import opened OrderedSet
  import opened Records

  // ---------------------------------------------------------------------
  // Export templates. They accept entries that may be null.
  // ---------------------------------------------------------------------

  /** `Boolean` on strings. */
  predicate NonEmpty(s: string)
  {
    s != ""
  }

  /** `p?.english_text || ''` */
  function EnglishOrEmpty(e: Option<Prompt>): string
  {
    if e.Some? then e.value.englishText else ""
  }

  predicate HasEnglishText(p: Prompt)
  {
    p.englishText != ""
  }

  /** `prompts.map(p => p?.english_text || '').filter(Boolean)` */
  function EnglishParts(entries: seq<Option<Prompt>>): seq<string>
  {
    Filter(NonEmpty, Map(EnglishOrEmpty, entries))
  }

  /** `FLUX_TEMPLATE` */
  function FluxTemplate(entries: seq<Option<Prompt>>): string
  {
    Join(EnglishParts(entries), ", ")
  }

  /** `SDXL_TEMPLATE`, which repeats the Flux expression and appends the suffix. */
  function SdxlTemplate(entries: seq<Option<Prompt>>): string
  {
    Join(Filter(NonEmpty, Map(EnglishOrEmpty, entries)), ", ") + SdxlSuffix
  }

  /** `p ? `${p.chinese_text}（${p.english_text}）` : ''` */
  function ChinesePiece(e: Option<Prompt>): string
  {
    if e.Some? then Bilingual(e.value) else ""
  }

  /** `CHINESE_TEMPLATE` */
  function ChineseTemplate(entries: seq<Option<Prompt>>): string
  {
    Join(Filter(NonEmpty, Map(ChinesePiece, entries)), " + ")
  }

  /**
    The Flux parts are the English texts of the present prompts whose
    English text is non-empty, in input order.
   */
  lemma {:induction false} EnglishPartsAre(entries: seq<Option<Prompt>>)
    ensures EnglishParts(entries) == Map(EnglishText, Filter(HasEnglishText, Somes(entries)))
  {
    if entries != [] {
      EnglishPartsAre(entries[1..]);
      assert Map(EnglishOrEmpty, entries)[1..] == Map(EnglishOrEmpty, entries[1..]);
    }
  }

  /**
    The Flux text is empty exactly when no present prompt has English
    text: the empty selection and all-empty texts give `""`.
   */
  lemma FluxEmptyIff(entries: seq<Option<Prompt>>)
    ensures FluxTemplate(entries) == "" <==>
            forall i :: 0 <= i < |entries| ==> EnglishOrEmpty(entries[i]) == ""
  {
    var mapped := Map(EnglishOrEmpty, entries);
    forall i | 0 <= i < |EnglishParts(entries)| ensures EnglishParts(entries)[i] != "" {
      assert EnglishParts(entries)[i] in EnglishParts(entries);
    }
    JoinEmptyIff(EnglishParts(entries), ", ");
    if forall i :: 0 <= i < |entries| ==> EnglishOrEmpty(entries[i]) == "" {
      FilterNoneKept(NonEmpty, mapped);
    } else {
      var i :| 0 <= i < |entries| && EnglishOrEmpty(entries[i]) != "";
      assert mapped[i] in mapped;
      FilterMembership(NonEmpty, mapped, mapped[i]);
    }
  }

  /**
    Exporting a concatenation is exporting each half and joining the two
    texts with one `", "`, unless one of them is empty.
   */
  lemma FluxConcat(a: seq<Option<Prompt>>, b: seq<Option<Prompt>>)
    ensures FluxTemplate(a + b) ==
            if FluxTemplate(a) == "" then FluxTemplate(b)
            else if FluxTemplate(b) == "" then FluxTemplate(a)
            else FluxTemplate(a) + ", " + FluxTemplate(b)
  {
    MapConcat(EnglishOrEmpty, a, b);
    FilterConcat(NonEmpty, Map(EnglishOrEmpty, a), Map(EnglishOrEmpty, b));
    assert EnglishParts(a + b) == EnglishParts(a) + EnglishParts(b);
    forall i | 0 <= i < |EnglishParts(a)| ensures EnglishParts(a)[i] != "" {
      assert EnglishParts(a)[i] in EnglishParts(a);
    }
    forall i | 0 <= i < |EnglishParts(b)| ensures EnglishParts(b)[i] != "" {
      assert EnglishParts(b)[i] in EnglishParts(b);
    }
    JoinEmptyIff(EnglishParts(a), ", ");
    JoinEmptyIff(EnglishParts(b), ", ");
    if EnglishParts(a) != [] && EnglishParts(b) != [] {
      JoinAppend(EnglishParts(a), EnglishParts(b), ", ");
    } else if EnglishParts(a) == [] {
      assert EnglishParts(a + b) == EnglishParts(b);
    } else {
      assert EnglishParts(a + b) == EnglishParts(a);
    }
  }

  /** The SDXL text is the Flux text followed by the fixed suffix, and only the suffix when no English text survives. */
  lemma SdxlIsFluxPlusSuffix(entries: seq<Option<Prompt>>)
    ensures SdxlTemplate(entries) == FluxTemplate(entries) + " | High quality, detailed, 8k"
    ensures (forall i :: 0 <= i < |entries| ==> EnglishOrEmpty(entries[i]) == "") ==>
            SdxlTemplate(entries) == " | High quality, detailed, 8k"
  {
    FluxEmptyIff(entries);
  }

  /** Only null entries are dropped: every present prompt gives one non-empty piece, in order. */
  lemma {:induction false} ChinesePiecesArePresent(entries: seq<Option<Prompt>>)
    ensures Filter(NonEmpty, Map(ChinesePiece, entries)) == Map(Bilingual, Somes(entries))
  {
    if entries != [] {
      ChinesePiecesArePresent(entries[1..]);
      assert Map(ChinesePiece, entries)[1..] == Map(ChinesePiece, entries[1..]);
    }
  }

  /**
    n present prompts render as n pieces with n - 1 separators `" + "`
    between them; without a present prompt the text is empty.
   */
  lemma ChineseShape(entries: seq<Option<Prompt>>)
    ensures ChineseTemplate(entries) == Join(Map(Bilingual, Somes(entries)), " + ")
    ensures ChineseTemplate(entries) == "" <==> Somes(entries) == []
    ensures Somes(entries) != [] ==>
            |ChineseTemplate(entries)| == BilingualLength(Somes(entries)) + 3 * (|Somes(entries)| - 1)
  {
    ChinesePiecesArePresent(entries);
    var pieces := Map(Bilingual, Somes(entries));
    JoinEmptyIff(pieces, " + ");
    if Somes(entries) != [] {
      JoinLength(pieces, " + ");
      TotalBilingualLength(Somes(entries));
    }
  }

  // ---------------------------------------------------------------------
  // Filter engine (`filteredPrompts`).
  // ---------------------------------------------------------------------

  /** `(searchText || '').trim().toLowerCase()` */
  function Query(searchText: string): string
  {
    Lower(Trim(searchText))
  }

  /** The text searched: both texts separated by a space, lower-cased. */
  function Haystack(p: Prompt): string
  {
    Lower(p.englishText + " " + p.chineseText)
  }

  /** The three conjuncts of the filter callback for a present prompt. */
  predicate Matches(p: Prompt, category: string, subCategory: string, searchText: string)
  {
    && (category == "" || p.category == category)
    && (subCategory == "" || p.subCategory == subCategory)
    && (Query(searchText) == "" || Contains(Haystack(p), Query(searchText)))
  }

  function Keeps(category: string, subCategory: string, searchText: string): Option<Prompt> -> bool
  {
    (e: Option<Prompt>) => e.Some? && Matches(e.value, category, subCategory, searchText)
  }

  /** `filteredPrompts` */
  function FilteredPrompts(entries: seq<Option<Prompt>>, category: string, subCategory: string, searchText: string): seq<Option<Prompt>>
  {
    Filter(Keeps(category, subCategory, searchText), entries)
  }

  /**
    The filtered list is an order-preserving subsequence of the input; an
    entry is kept exactly when it is present and matches all three
    filters, as often as it occurs, and every other entry is dropped.
   */
  lemma FilteredPromptsSpec(entries: seq<Option<Prompt>>, category: string, subCategory: string, searchText: string)
    ensures IsSubsequence(FilteredPrompts(entries, category, subCategory, searchText), entries)
    ensures forall e :: e in FilteredPrompts(entries, category, subCategory, searchText) ==>
                        e.Some? && Matches(e.value, category, subCategory, searchText)
    ensures forall e :: multiset(FilteredPrompts(entries, category, subCategory, searchText))[e] ==
                        if e.Some? && Matches(e.value, category, subCategory, searchText)
                        then multiset(entries)[e] else 0
  {
    var keep := Keeps(category, subCategory, searchText);
    FilterIsSubsequence(keep, entries);
    forall e ensures multiset(Filter(keep, entries))[e] ==
                     if e.Some? && Matches(e.value, category, subCategory, searchText)
                     then multiset(entries)[e] else 0 {
      FilterCount(keep, entries, e);
    }
  }

  /** The search matches exactly when the trimmed, lower-cased query is a slice of the haystack. */
  lemma SearchMatchIff(p: Prompt, searchText: string)
    ensures Matches(p, "", "", searchText) <==>
            Trim(searchText) == "" || exists i :: OccursAt(Haystack(p), Query(searchText), i)
  {
    ContainsIff(Haystack(p), Query(searchText));
  }

  /** Empty filters and a blank query keep every present entry: the identity, minus nulls. */
  lemma {:induction false} EmptyFiltersKeepAll(entries: seq<Option<Prompt>>, searchText: string)
    requires Trim(searchText) == ""
    ensures FilteredPrompts(entries, "", "", searchText) == Filter(IsPresent(), entries)
  {
    if entries != [] {
      EmptyFiltersKeepAll(entries[1..], searchText);
    }
  }

  /** On loaded prompts, with no null among them, empty filters give the prompts back unchanged. */
  lemma EmptyFiltersOnLoaded(prompts: seq<Prompt>, searchText: string)
    requires Trim(searchText) == ""
    ensures FilteredPrompts(Lift(prompts), "", "", searchText) == Lift(prompts)
  {
    EmptyFiltersKeepAll(Lift(prompts), searchText);
    FilterAllKept(IsPresent(), Lift(prompts));
  }

  // ---------------------------------------------------------------------
  // Selection and export resolution.
  // ---------------------------------------------------------------------

  /** `togglePromptSelection`: a falsy id changes nothing; otherwise `has ? delete : add`. */
  function ToggleSelection(selection: seq<Id>, id: Id): seq<Id>
  {
    if IsFalsy(id) then selection else Toggle(selection, id)
  }

  /**
    A falsy id is a no-op. Otherwise the id's membership flips, every other
    id keeps its membership and relative order, and a new id goes last.
   */
  lemma ToggleSelectionSpec(selection: seq<Id>, id: Id)
    ensures IsFalsy(id) ==> ToggleSelection(selection, id) == selection
    ensures !IsFalsy(id) ==> (id in ToggleSelection(selection, id) <==> id !in selection)
    ensures forall other :: other != id ==> (other in ToggleSelection(selection, id) <==> other in selection)
    ensures Delete(ToggleSelection(selection, id), id) == Delete(selection, id)
    ensures !IsFalsy(id) && id !in selection ==> ToggleSelection(selection, id) == selection + [id]
  {
    if !IsFalsy(id) {
      ToggleMembership(selection, id, id);
      forall other | other != id
        ensures other in ToggleSelection(selection, id) <==> other in selection {
        ToggleMembership(selection, id, other);
      }
      ToggleKeepsOthers(selection, id);
    }
  }

  /** Toggling twice restores membership. */
  lemma ToggleSelectionTwice(selection: seq<Id>, id: Id, other: Id)
    ensures other in ToggleSelection(ToggleSelection(selection, id), id) <==> other in selection
  {
    if !IsFalsy(id) {
      ToggleTwiceMembership(selection, id, other);
    }
  }

  /**
    `Array.from(selectedPrompts).map(id => prompts.find(p => p.id === id)).filter(Boolean)`:
    the selected records, in selection order, with unresolved ids dropped.
   */
  function Resolve(selection: seq<Id>, prompts: seq<Prompt>): seq<Prompt>
  {
    Somes(Map(LookupIn(prompts), selection))
  }

  /**
    The resolved records carry exactly the selected ids that name a loaded
    prompt, in selection order; each is the first loaded prompt with its id.
   */
  lemma {:induction false} ResolveSpec(selection: seq<Id>, prompts: seq<Prompt>)
    ensures Map(IdOf, Resolve(selection, prompts)) == Filter(IsLoadedIn(prompts), selection)
    ensures forall p :: p in Resolve(selection, prompts) ==> p in prompts && Lookup(prompts, p.id) == Some(p)
  {
    if selection != [] {
      ResolveSpec(selection[1..], prompts);
      assert Map(LookupIn(prompts), selection)[1..] == Map(LookupIn(prompts), selection[1..]);
      var r := Lookup(prompts, selection[0]);
      if r.Some? {
        assert Resolve(selection, prompts) == [r.value] + Resolve(selection[1..], prompts);
        assert Map(IdOf, Resolve(selection, prompts)) == [r.value.id] + Map(IdOf, Resolve(selection[1..], prompts));
      }
    }
  }

  /** The export is rejected exactly when no selected id names a loaded prompt. */
  lemma ResolveEmptyIff(selection: seq<Id>, prompts: seq<Prompt>)
    ensures Resolve(selection, prompts) == [] <==>
            forall i :: 0 <= i < |selection| ==> Lookup(prompts, selection[i]).None?
  {
    ResolveSpec(selection, prompts);
    if forall i :: 0 <= i < |selection| ==> Lookup(prompts, selection[i]).None? {
      FilterNoneKept(IsLoadedIn(prompts), selection);
    } else {
      var i :| 0 <= i < |selection| && Lookup(prompts, selection[i]).Some?;
      FilterMembership(IsLoadedIn(prompts), selection, selection[i]);
    }
  }

  // ---------------------------------------------------------------------
  // Export: resolution, rejection, format switch.
  // ---------------------------------------------------------------------

  /** The text (or document) each recognised format produces from the selected records. */
  function Render(f: Format, selected: seq<Prompt>): ExportBody
  {
    match f
    case Flux => Plain(FluxTemplate(Lift(selected)))
    case Sdxl => Plain(SdxlTemplate(Lift(selected)))
    case Chinese => Plain(ChineseTemplate(Lift(selected)))
    case Json => JsonDocument(Lift(selected))
  }

  datatype ExportPlan =
    | NothingSelected
    | UnknownFormat
    | Ready(selected: seq<Prompt>, body: ExportBody, filename: string)

  /**
    The first half of `exportPrompts`: resolve the selection, reject an
    empty result before anything else, then pick the template and file
    name, or stop silently for an unrecognised format.
   */
  function PlanExport(selection: seq<Id>, prompts: seq<Prompt>, format: string): (plan: ExportPlan)
    ensures plan.NothingSelected? <==> forall i :: 0 <= i < |selection| ==> Lookup(prompts, selection[i]).None?
    ensures plan.UnknownFormat? <==> Resolve(selection, prompts) != [] && format !in {"flux", "sdxl", "chinese", "json"}
    ensures plan.Ready? ==>
              && plan.selected == Resolve(selection, prompts) && plan.selected != []
              && plan.body == Render(ParseFormat(format).value, plan.selected)
              && plan.filename == FileName(ParseFormat(format).value)
  {
    ResolveEmptyIff(selection, prompts);
    var selected := Resolve(selection, prompts);
    if selected == [] then NothingSelected
    else match ParseFormat(format)
      case None => UnknownFormat
      case Some(f) => Ready(selected, Render(f, selected), FileName(f))
  }

  // ---------------------------------------------------------------------
  // Export: the clipboard / legacy copy / download chain.
  // ---------------------------------------------------------------------

  /** The statements of the download tier, in order; any of them may throw. */
  datatype DownloadStep = MakeBlob | MakeObjectUrl | MakeAnchor | AppendAnchor | ClickAnchor | RemoveAnchor | RevokeObjectUrl

  function StepIndex(s: DownloadStep): nat
  {
    match s
    case MakeBlob => 0
    case MakeObjectUrl => 1
    case MakeAnchor => 2
    case AppendAnchor => 3
    case ClickAnchor => 4
    case RemoveAnchor => 5
    case RevokeObjectUrl => 6
  }

  /** Whether a download that throws at `fault` (if anywhere) got past step `s`. */
  predicate Completes(fault: Option<DownloadStep>, s: DownloadStep)
  {
    fault.None? || StepIndex(s) < StepIndex(fault.value)
  }

  /**
    The browser as an export meets it: whether `navigator.clipboard.writeText`
    exists, whether its promise resolves, what `execCommand('copy')` reports,
    which statement of the textarea's set-up (if any) throws, and which
    download statement (if any) throws.
   */
  datatype Browser = Browser(
    hasClipboardApi: bool,
    clipboardWriteOk: bool,
    textareaFault: Option<TextareaStep>,
    execCopyOk: bool,
    downloadFault: Option<DownloadStep>)

  /**
    The statements before the legacy tier's inner `try` that can throw:
    `createElement`, `appendChild` and `select`. A throw there goes to the
    outer catch, past the `finally` that removes the textarea.
   */
  datatype TextareaStep = CreateTextarea | AppendTextarea | SelectTextarea

  /** The position of a set-up statement in the source. */
  function TextareaIndex(t: TextareaStep): nat
  {
    match t
    case CreateTextarea => 0
    case AppendTextarea => 1
    case SelectTextarea => 2
  }

  datatype Tier = ClipboardApi | LegacyCopy | FileDownload

  datatype ChainReport = ChainReport(
    finishedBy: Option<Tier>,
    modalClosed: bool,
    textareaCreated: bool,
    textareaRemoved: bool,
    textareaLeftAttached: bool,
    downloadAttempts: nat,
    savedAs: Option<string>,
    anchorLeftAttached: bool,
    objectUrlLeaked: bool,
    failureAlert: bool)

  /** An attempt at the first tier that is present fails, so control reaches the download tier. */
  predicate FallsBackToDownload(b: Browser)
  {
    if b.hasClipboardApi then !b.clipboardWriteOk else b.textareaFault.Some? || !b.execCopyOk
  }

  /** `filename || 'export.txt'` */
  function DownloadName(filename: string): string
  {
    if filename == "" then "export.txt" else filename
  }

  /**
    What the chain does, stated tier by tier: the legacy tier runs only
    without the clipboard API (a rejected write goes straight to the
    download); its textarea is removed exactly when its set-up did not
    throw, and a throw at `select` leaves it attached; a failed
    first tier leads to exactly one download attempt; the modal closes
    exactly when some tier finished; the download's cleanup is skipped by
    an exception.
   */
  predicate ChainReportFor(b: Browser, filename: string, r: ChainReport)
  {
    var download := FallsBackToDownload(b);
    && r.textareaCreated == (!b.hasClipboardApi && b.textareaFault != Some(CreateTextarea))
    && r.textareaRemoved == (!b.hasClipboardApi && b.textareaFault.None?)
    && r.textareaLeftAttached == (!b.hasClipboardApi && b.textareaFault == Some(SelectTextarea))
    && r.downloadAttempts == (if download then 1 else 0)
    && r.finishedBy == (if !download then Some(if b.hasClipboardApi then ClipboardApi else LegacyCopy)
                        else if b.downloadFault.None? then Some(FileDownload)
                        else None)
    && r.modalClosed == r.finishedBy.Some?
    && r.savedAs == (if download && Completes(b.downloadFault, ClickAnchor) then Some(DownloadName(filename)) else None)
    && r.anchorLeftAttached == (download && Completes(b.downloadFault, AppendAnchor) && !Completes(b.downloadFault, RemoveAnchor))
    && r.objectUrlLeaked == (download && Completes(b.downloadFault, MakeObjectUrl) && !Completes(b.downloadFault, RevokeObjectUrl))
    && r.failureAlert == (download && b.downloadFault.Some?)
  }

  /** The description above leaves nothing open: it fixes one report per browser. */
  lemma ChainReportUnique(b: Browser, filename: string, r1: ChainReport, r2: ChainReport)
    requires ChainReportFor(b, filename, r1) && ChainReportFor(b, filename, r2)
    ensures r1 == r2
  {
  }

  /**
    The try/catch/finally of `exportPrompts`, statement by statement. A
    statement that throws is recorded in `thrown`, which the catch block
    reads.
   */
  method RunFallbackChain(b: Browser, filename: string) returns (r: ChainReport)
    ensures ChainReportFor(b, filename, r)
  {
    var finishedBy: Option<Tier> := None;
    var modalClosed := false;
    var textareaCreated, textareaAttached, textareaRemoved := false, false, false;
    var thrown := false;
    if b.hasClipboardApi {
      // await navigator.clipboard.writeText(safeExport)
      if b.clipboardWriteOk {
        finishedBy, modalClosed := Some(ClipboardApi), true;
      } else {
        thrown := true;
      }
    } else {
      // the set-up statements before index `stop` run; the one at `stop` throws
      var stop := if b.textareaFault.Some? then TextareaIndex(b.textareaFault.value) else 3;
      if stop > TextareaIndex(CreateTextarea) { textareaCreated := true; }
      if stop > TextareaIndex(AppendTextarea) { textareaAttached := true; }
      if stop < 3 {
        thrown := true;
      } else {
        // try { document.execCommand('copy') ... } finally { removeChild(textarea) }
        if b.execCopyOk {
          finishedBy, modalClosed := Some(LegacyCopy), true;
        } else {
          thrown := true;
        }
        textareaAttached, textareaRemoved := false, true;
      }
    }
    var downloadAttempts := 0;
    var savedAs: Option<string> := None;
    var anchorAttached, urlLive := false, false;
    var failureAlert := false;
    if thrown {
      downloadAttempts := downloadAttempts + 1;
      // the statements before index `stop` run; the one at `stop` throws
      var stop := if b.downloadFault.Some? then StepIndex(b.downloadFault.value) else 7;
      if stop > StepIndex(MakeObjectUrl) { urlLive := true; }
      if stop > StepIndex(AppendAnchor) { anchorAttached := true; }
      if stop > StepIndex(ClickAnchor) { savedAs := Some(DownloadName(filename)); }
      if stop > StepIndex(RemoveAnchor) { anchorAttached := false; }
      if stop > StepIndex(RevokeObjectUrl) { urlLive := false; }
      var failed := stop < 7;
      if !failed {
        finishedBy, modalClosed := Some(FileDownload), true;
      } else {
        failureAlert := true;
      }
    }
    r := ChainReport(finishedBy, modalClosed, textareaCreated, textareaRemoved, textareaAttached, downloadAttempts,
                     savedAs, anchorAttached, urlLive, failureAlert);
  }

  /** For every recognised format the download keeps the format's own file name. */
  lemma DownloadKeepsFileName(f: Format)
    ensures DownloadName(FileName(f)) == FileName(f)
  {
  }

  // ---------------------------------------------------------------------
  // Forms.
  // ---------------------------------------------------------------------

  /** The add-prompt validation: trimmed texts and the category must be non-empty. */
  predicate DraftComplete(d: Draft)
  {
    Trim(d.englishText) != "" && Trim(d.chineseText) != "" && d.category != ""
  }

  /** The fields sent on insert: the draft with both texts trimmed. */
  function InsertFields(d: Draft): Draft
  {
    d.(englishText := Trim(d.englishText), chineseText := Trim(d.chineseText))
  }

  /** A complete draft is sent with non-empty texts that neither start nor end with white space. */
  lemma InsertFieldsTrimmed(d: Draft)
    requires DraftComplete(d)
    ensures var f := InsertFields(d);
            && f.englishText != "" && !IsSpace(f.englishText[0]) && !IsSpace(f.englishText[|f.englishText| - 1])
            && f.chineseText != "" && !IsSpace(f.chineseText[0]) && !IsSpace(f.chineseText[|f.chineseText| - 1])
            && f.category == d.category && f.subCategory == d.subCategory && f.imageUrl == d.imageUrl
  {
    TrimEnds(d.englishText);
    TrimEnds(d.chineseText);
  }

  /** A white-space-only text never passes the add-prompt validation. */
  lemma BlankTextRejected(d: Draft)
    requires forall k :: 0 <= k < |d.englishText| ==> IsSpace(d.englishText[k])
    ensures !DraftComplete(d)
  {
    TrimEmptyIff(d.englishText);
  }

  /** `{ name, parent_id: parentCategoryId || null, level }` */
  datatype CategoryInsert = CategoryInsert(name: string, parentId: Option<Id>, level: nat)

  /** The row `handleAddCategory` inserts, with `level = parentCategoryId ? 2 : 1`. */
  function CategoryRow(name: string, parentCategoryId: string): (row: CategoryInsert)
    ensures row.level == 1 <==> row.parentId.None?
    ensures row.level == 2 <==> row.parentId.Some?
    ensures row.parentId.Some? ==> row.parentId.value == parentCategoryId != ""
    ensures row.level == 2 <==> parentCategoryId != ""
    ensures row.parentId.Some? <==> parentCategoryId != ""
    ensures row.name == Trim(name)
  {
    CategoryInsert(Trim(name),
                   if parentCategoryId != "" then Some(parentCategoryId) else None,
                   if parentCategoryId != "" then 2 else 1)
  }

  // ---------------------------------------------------------------------
  // Session state.
  // ---------------------------------------------------------------------

  datatype AddOutcome = MissingFields | AddNotConfigured | AddFailed(sent: Draft) | Added(sent: Draft)

  datatype DeleteOutcome = NoId | DeleteDeclined | DeleteNotConfigured | DeleteFailed | Deleted

  datatype CategoryOutcome = BlankName | CategoryNotConfigured | CategoryFailed(sent: CategoryInsert) | CategoryAdded(sent: CategoryInsert)

  datatype ExportOutcome =
    | ExportRejected
    | ExportIgnored
    | ExportAttempted(selected: seq<Prompt>, body: ExportBody, filename: string, chain: ChainReport, audit: Option<ExportLog>)

  /** The state the application component keeps between renders. */
  class Session {
    var prompts: seq<Prompt>
    var selection: seq<Id>
    var filterCategory: string
    var filterSubCategory: string
    var searchText: string
    var loading: bool
    var showAddForm: bool
    var showExportModal: bool
    var draft: Draft
    var newCategoryName: string
    var parentCategoryId: string

    /** The selection is a set (no id twice) and never holds a falsy id. */
    ghost predicate Valid()
      reads this
    {
      NoDuplicates(selection) && forall i :: 0 <= i < |selection| ==> !IsFalsy(selection[i])
    }

    /** The list the user sees. */
    function Visible(): seq<Option<Prompt>>
      reads this
    {
      FilteredPrompts(Lift(prompts), filterCategory, filterSubCategory, searchText)
    }

    /** The initial `useState` values. */
    constructor ()
      ensures Valid()
      ensures prompts == [] && selection == []
      ensures filterCategory == "" && filterSubCategory == "" && searchText == ""
      ensures loading && !showAddForm && !showExportModal
      ensures draft == EmptyDraft && newCategoryName == "" && parentCategoryId == ""
    {
      prompts, selection := [], [];
      filterCategory, filterSubCategory, searchText := "", "", "";
      loading, showAddForm, showExportModal := true, false, false;
      draft, newCategoryName, parentCategoryId := EmptyDraft, "", "";
    }

    /** `loadPrompts`: replace the list on success (null data is the empty list); loading ends in every case. */
    method LoadPrompts(configured: bool, success: bool, rows: seq<Prompt>)
      modifies this`prompts, this`loading
      ensures !loading
      ensures prompts == if configured && success then rows else old(prompts)
    {
      loading := true;
      if configured && success {
        prompts := rows;
      }
      loading := false;
    }

    method SetSearchText(text: string)
      modifies this`searchText
      ensures searchText == text
    {
      searchText := text;
    }

    /** Choosing a category filter clears the sub-category filter. */
    method SetFilterCategory(category: string)
      modifies this`filterCategory, this`filterSubCategory
      ensures filterCategory == category && filterSubCategory == ""
    {
      filterCategory := category;
      filterSubCategory := "";
    }

    method SetFilterSubCategory(subCategory: string)
      modifies this`filterSubCategory
      ensures filterSubCategory == subCategory
    {
      filterSubCategory := subCategory;
    }

    /** "Reset filters" clears all three; the list then shows every loaded prompt. */
    method ResetFilters()
      modifies this`filterCategory, this`filterSubCategory, this`searchText
      ensures filterCategory == "" && filterSubCategory == "" && searchText == ""
      ensures Visible() == Lift(prompts)
    {
      filterCategory, filterSubCategory, searchText := "", "", "";
      EmptyFiltersOnLoaded(prompts, searchText);
    }

    method TogglePromptSelection(id: Id)
      requires Valid()
      modifies this`selection
      ensures Valid()
      ensures selection == ToggleSelection(old(selection), id)
    {
      if IsFalsy(id) {
        return;
      }
      TogglePreservesNoDuplicates(selection, id);
      ghost var before := selection;
      selection := Toggle(selection, id);
      forall i | 0 <= i < |selection| ensures !IsFalsy(selection[i]) {
        assert selection[i] in selection;
        ToggleMembership(before, id, selection[i]);
      }
    }

    /** Typing into the add-prompt form. */
    method EditDraft(d: Draft)
      modifies this`draft
      ensures draft == d
    {
      draft := d;
    }

    /** Choosing the draft's category clears its sub-category. */
    method ChooseDraftCategory(category: string)
      modifies this`draft
      ensures draft == old(draft).(category := category, subCategory := "")
    {
      draft := draft.(category := category, subCategory := "");
    }

    /**
      `handleAddPrompt`: validation, then the insert; on success the row
      the backend returns goes first and the form resets. Every other
      outcome leaves the state as it was.
     */
    method AddPrompt(configured: bool, success: bool, created: Prompt) returns (outcome: AddOutcome)
      modifies this`prompts, this`draft, this`showAddForm
      ensures outcome.MissingFields? <==> !DraftComplete(old(draft))
      ensures outcome.AddNotConfigured? <==> DraftComplete(old(draft)) && !configured
      ensures outcome.Added? <==> DraftComplete(old(draft)) && configured && success
      ensures outcome.AddFailed? || outcome.Added? ==> outcome.sent == InsertFields(old(draft))
      ensures outcome.Added? ==> prompts == [created] + old(prompts) && draft == EmptyDraft && !showAddForm
      ensures !outcome.Added? ==> prompts == old(prompts) && draft == old(draft) && showAddForm == old(showAddForm)
    {
      if !DraftComplete(draft) {
        return MissingFields;
      }
      if !configured {
        return AddNotConfigured;
      }
      var sent := InsertFields(draft);
      if !success {
        return AddFailed(sent);
      }
      prompts := [created] + prompts;
      draft := EmptyDraft;
      showAddForm := false;
      outcome := Added(sent);
    }

    /**
      `handleDeletePrompt`: a falsy id or a declined confirmation does
      nothing; after a successful soft delete every prompt with the id
      leaves the list and the id leaves the selection.
     */
    method DeletePrompt(id: Id, confirmed: bool, configured: bool, success: bool) returns (outcome: DeleteOutcome)
      requires Valid()
      modifies this`prompts, this`selection
      ensures Valid()
      ensures outcome == if IsFalsy(id) then NoId
                         else if !confirmed then DeleteDeclined
                         else if !configured then DeleteNotConfigured
                         else if !success then DeleteFailed
                         else Deleted
      ensures outcome == Deleted ==> prompts == RemoveById(old(prompts), id) && selection == Delete(old(selection), id)
      ensures outcome != Deleted ==> prompts == old(prompts) && selection == old(selection)
      ensures forall p :: p in prompts ==> p in old(prompts)
      ensures outcome == Deleted ==> id !in selection && forall p :: p in prompts ==> p.id != id
    {
      if IsFalsy(id) {
        return NoId;
      }
      if !confirmed {
        return DeleteDeclined;
      }
      if !configured {
        return DeleteNotConfigured;
      }
      if !success {
        return DeleteFailed;
      }
      RemoveByIdSpec(prompts, id);
      DeletePreservesOrder(selection, id);
      DeleteMembership(selection, id, id);
      ghost var before := selection;
      prompts := RemoveById(prompts, id);
      selection := Delete(selection, id);
      forall i | 0 <= i < |selection| ensures !IsFalsy(selection[i]) {
        assert selection[i] in selection;
        DeleteMembership(before, id, selection[i]);
      }
      outcome := Deleted;
    }

    /** Typing into the add-category panel. */
    method EditCategoryForm(name: string, parentId: string)
      modifies this`newCategoryName, this`parentCategoryId
      ensures newCategoryName == name && parentCategoryId == parentId
    {
      newCategoryName, parentCategoryId := name, parentId;
    }

    /**
      `handleAddCategory`: a blank name does nothing; otherwise the row is
      sent with level 2 under a parent and 1 without, and a success clears
      the inputs.
     */
    method AddCategory(configured: bool, success: bool) returns (outcome: CategoryOutcome)
      modifies this`newCategoryName, this`parentCategoryId
      ensures outcome.BlankName? <==> Trim(old(newCategoryName)) == ""
      ensures outcome.CategoryNotConfigured? <==> Trim(old(newCategoryName)) != "" && !configured
      ensures outcome.CategoryAdded? <==> Trim(old(newCategoryName)) != "" && configured && success
      ensures outcome.CategoryFailed? || outcome.CategoryAdded? ==>
                outcome.sent == CategoryRow(old(newCategoryName), old(parentCategoryId))
      ensures outcome.CategoryAdded? ==> newCategoryName == "" && parentCategoryId == ""
      ensures !outcome.CategoryAdded? ==> newCategoryName == old(newCategoryName) && parentCategoryId == old(parentCategoryId)
    {
      if Trim(newCategoryName) == "" {
        return BlankName;
      }
      if !configured {
        return CategoryNotConfigured;
      }
      var row := CategoryRow(newCategoryName, parentCategoryId);
      if !success {
        return CategoryFailed(row);
      }
      newCategoryName, parentCategoryId := "", "";
      outcome := CategoryAdded(row);
    }

    /**
      `exportPrompts`: the plan, then the fallback chain, then the audit
      insert whenever a client is configured, whatever the chain did. The
      modal closes exactly when a tier finished.
     */
    method ExportPrompts(format: string, configured: bool, browser: Browser) returns (outcome: ExportOutcome)
      modifies this`showExportModal
      ensures var plan := PlanExport(selection, prompts, format);
              && (outcome.ExportRejected? <==> plan.NothingSelected?)
              && (outcome.ExportIgnored? <==> plan.UnknownFormat?)
              && (outcome.ExportAttempted? ==> plan == Ready(outcome.selected, outcome.body, outcome.filename))
      ensures outcome.ExportAttempted? ==>
                && ChainReportFor(browser, outcome.filename, outcome.chain)
                && outcome.audit == if configured then Some(ExportLog(format, |outcome.selected|, outcome.body)) else None
      ensures showExportModal == if outcome.ExportAttempted? && outcome.chain.modalClosed then false else old(showExportModal)
    {
      var plan := PlanExport(selection, prompts, format);
      if plan.NothingSelected? {
        return ExportRejected;
      }
      if plan.UnknownFormat? {
        return ExportIgnored;
      }
      var chain := RunFallbackChain(browser, plan.filename);
      if chain.modalClosed {
        showExportModal := false;
      }
      var audit := if configured then Some(ExportLog(format, |plan.selected|, plan.body)) else None;
      outcome := ExportAttempted(plan.selected, plan.body, plan.filename, chain, audit);
    }
  }

  /**
    Changing the filters never changes the selection: a prompt filtered out
    of view stays selected, and after a reset every loaded prompt with the
    id is in view again.
   */
  method FilterChangeKeepsSelection(s: Session, category: string, searchText: string, id: Id)
    requires s.Valid() && !IsFalsy(id) && id !in s.selection
    modifies s
    ensures id in s.selection
    ensures forall p :: p in s.prompts && p.id == id ==> Some(p) in s.Visible()
  {
    s.TogglePromptSelection(id);
    ToggleSelectionSpec(old(s.selection), id);
    s.SetFilterCategory(category);
    s.SetSearchText(searchText);
    s.ResetFilters();
    forall p | p in s.prompts && p.id == id ensures Some(p) in s.Visible() {
      var i :| 0 <= i < |s.prompts| && s.prompts[i] == p;
      assert Lift(s.prompts)[i] == Some(p);
    }
  }
}
