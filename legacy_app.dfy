/**
  The older root-level copy of the application (app.jsx). It shares the
  records and the formats with the mounted version but differs in small
  ways: its templates read every entry (an unresolved id makes them
  throw), its search is not trimmed and looks at each text separately,
  its add-prompt form checks for a similar prompt but does not trim, its
  toggle has no falsy-id guard, and its export knows only the clipboard
  API and logs only after a successful copy.
 */
module LegacyApp {
  import opened Wrappers
  import opened Seqs
  import opened Text
  import opened OrderedSet
  import opened Records

  // ---------------------------------------------------------------------
  // Export templates. Every element must be a record.
  // ---------------------------------------------------------------------

  /** `FLUX_TEMPLATE`: every English text, joined by `", "`. */
  function FluxTemplate(ps: seq<Prompt>): string
  {
    Join(Map(EnglishText, ps), ", ")
  }

  /** `SDXL_TEMPLATE`, which repeats the Flux expression and appends the suffix. */
  function SdxlTemplate(ps: seq<Prompt>): string
  {
    Join(Map(EnglishText, ps), ", ") + SdxlSuffix
  }

  /** `CHINESE_TEMPLATE`: every prompt as `chinese（english）`, joined by `" + "`. */
  function ChineseTemplate(ps: seq<Prompt>): string
  {
    Join(Map(Bilingual, ps), " + ")
  }

  /**
    Nothing is dropped: exporting a concatenation of two non-empty lists is
    exporting each and putting one `", "` between them, even when an
    English text is empty.
   */
  lemma FluxConcat(a: seq<Prompt>, b: seq<Prompt>)
    requires a != [] && b != []
    ensures FluxTemplate(a + b) == FluxTemplate(a) + ", " + FluxTemplate(b)
  {
    MapConcat(EnglishText, a, b);
    JoinAppend(Map(EnglishText, a), Map(EnglishText, b), ", ");
  }

  /** n prompts give their English texts and exactly n - 1 separators. */
  lemma FluxLength(ps: seq<Prompt>)
    requires ps != []
    ensures |FluxTemplate(ps)| == TotalLength(Map(EnglishText, ps)) + 2 * (|ps| - 1)
  {
    JoinLength(Map(EnglishText, ps), ", ");
  }

  /** The English text of a single prompt is exported unchanged, and no prompts give `""`. */
  lemma FluxSmallCases(p: Prompt)
    ensures FluxTemplate([]) == ""
    ensures FluxTemplate([p]) == p.englishText
  {
  }

  /** The SDXL text is the Flux text followed by the fixed suffix. */
  lemma SdxlIsFluxPlusSuffix(ps: seq<Prompt>)
    ensures SdxlTemplate(ps) == FluxTemplate(ps) + " | High quality, detailed, 8k"
  {
  }

  /**
    Every prompt is rendered, so n prompts give n pieces and n - 1
    separators `" + "`; the text is empty only for no prompts.
   */
  lemma ChineseShape(ps: seq<Prompt>)
    ensures ChineseTemplate(ps) == "" <==> ps == []
    ensures ps != [] ==> |ChineseTemplate(ps)| == BilingualLength(ps) + 3 * (|ps| - 1)
  {
    var pieces := Map(Bilingual, ps);
    JoinEmptyIff(pieces, " + ");
    if ps != [] {
      JoinLength(pieces, " + ");
      TotalBilingualLength(ps);
    }
  }

  // ---------------------------------------------------------------------
  // Filter engine (`filteredPrompts`).
  // ---------------------------------------------------------------------

  /**
    The filter callback: the category and sub-category filters as in the
    mounted version, and a search that is not trimmed, matches the
    lower-cased English text or, case-sensitively, the Chinese text.
   */
  predicate Matches(p: Prompt, category: string, subCategory: string, searchText: string)
  {
    && (category == "" || p.category == category)
    && (subCategory == "" || p.subCategory == subCategory)
    && (searchText == ""
        || Contains(Lower(p.englishText), Lower(searchText))
        || Contains(p.chineseText, searchText))
  }

  function Keeps(category: string, subCategory: string, searchText: string): Prompt -> bool
  {
    (p: Prompt) => Matches(p, category, subCategory, searchText)
  }

  /** `filteredPrompts` */
  function FilteredPrompts(prompts: seq<Prompt>, category: string, subCategory: string, searchText: string): seq<Prompt>
  {
    Filter(Keeps(category, subCategory, searchText), prompts)
  }

  /**
    The filtered list is an order-preserving subsequence; a prompt is kept,
    as often as it occurs, exactly when it matches, and dropped otherwise.
   */
  lemma FilteredPromptsSpec(prompts: seq<Prompt>, category: string, subCategory: string, searchText: string)
    ensures IsSubsequence(FilteredPrompts(prompts, category, subCategory, searchText), prompts)
    ensures forall p :: p in FilteredPrompts(prompts, category, subCategory, searchText) <==>
                        p in prompts && Matches(p, category, subCategory, searchText)
    ensures forall p :: multiset(FilteredPrompts(prompts, category, subCategory, searchText))[p] ==
                        if Matches(p, category, subCategory, searchText) then multiset(prompts)[p] else 0
  {
    var keep := Keeps(category, subCategory, searchText);
    FilterIsSubsequence(keep, prompts);
    forall p ensures multiset(Filter(keep, prompts))[p] ==
                     if Matches(p, category, subCategory, searchText) then multiset(prompts)[p] else 0 {
      FilterCount(keep, prompts, p);
    }
    forall p ensures p in Filter(keep, prompts) <==> p in prompts && Matches(p, category, subCategory, searchText) {
      FilterMembership(keep, prompts, p);
    }
  }

  /** The search matches exactly when the text occurs in one of the two fields; it never spans both. */
  lemma SearchMatchIff(p: Prompt, searchText: string)
    ensures Matches(p, "", "", searchText) <==>
            (searchText == ""
             || (exists i :: OccursAt(Lower(p.englishText), Lower(searchText), i))
             || (exists i :: OccursAt(p.chineseText, searchText, i)))
  {
    ContainsIff(Lower(p.englishText), Lower(searchText));
    ContainsIff(p.chineseText, searchText);
    assert Matches(p, "", "", searchText) <==>
           searchText == "" || Contains(Lower(p.englishText), Lower(searchText)) || Contains(p.chineseText, searchText);
  }

  /** Empty filters keep the list unchanged. */
  lemma EmptyFiltersKeepAll(prompts: seq<Prompt>)
    ensures FilteredPrompts(prompts, "", "", "") == prompts
  {
    FilterAllKept(Keeps("", "", ""), prompts);
  }

  // ---------------------------------------------------------------------
  // The add-prompt form.
  // ---------------------------------------------------------------------

  /** The validation: the three required fields must not be `""`; nothing is trimmed. */
  predicate DraftComplete(d: Draft)
  {
    d.englishText != "" && d.chineseText != "" && d.category != ""
  }

  /** A loaded prompt counts as similar when its English text equals the draft's ignoring case, or its Chinese text equals exactly. */
  predicate Similar(p: Prompt, d: Draft)
  {
    Lower(p.englishText) == Lower(d.englishText) || p.chineseText == d.chineseText
  }

  function SimilarTo(d: Draft): Prompt -> bool
  {
    (p: Prompt) => Similar(p, d)
  }

  /** `prompts.find(...)` in `handleAddPrompt` */
  function FindDuplicate(prompts: seq<Prompt>, d: Draft): Option<Prompt>
  {
    Find(SimilarTo(d), prompts)
  }

  /**
    A duplicate is reported exactly when some loaded prompt is similar,
    and the one reported is the first similar prompt in list order.
   */
  lemma FindDuplicateSpec(prompts: seq<Prompt>, d: Draft)
    ensures FindDuplicate(prompts, d).Some? <==> exists i :: 0 <= i < |prompts| && Similar(prompts[i], d)
    ensures FindDuplicate(prompts, d).Some? ==>
              exists i :: 0 <= i < |prompts| && prompts[i] == FindDuplicate(prompts, d).value && Similar(prompts[i], d) &&
                          forall j :: 0 <= j < i ==> !Similar(prompts[j], d)
  {
    var r := FindDuplicate(prompts, d);
    if r.Some? {
      var i :| 0 <= i < |prompts| && prompts[i] == r.value && SimilarTo(d)(prompts[i]) &&
               forall j :: 0 <= j < i ==> !SimilarTo(d)(prompts[j]);
      assert Similar(prompts[i], d);
    }
  }

  /**
    Differing only in ASCII case of the English text is enough to be
    similar: a draft like that of any loaded prompt is reported.
   */
  lemma CaseOnlyDifferenceIsSimilar(prompts: seq<Prompt>, i: nat, d: Draft)
    requires i < |prompts| && Lower(prompts[i].englishText) == Lower(d.englishText)
    ensures FindDuplicate(prompts, d).Some?
  {
    FindDuplicateSpec(prompts, d);
    assert Similar(prompts[i], d);
  }

  // ---------------------------------------------------------------------
  // Selection and export resolution.
  // ---------------------------------------------------------------------

  /** `togglePromptSelection`: `has ? delete : add`, with no guard on the id. */
  function ToggleSelection(selection: seq<Id>, id: Id): seq<Id>
  {
    Toggle(selection, id)
  }

  /**
    The id's membership flips and all other ids keep their membership and
    order. Toggling an absent id twice gives the selection back exactly;
    toggling a present one twice restores membership but moves it last.
   */
  lemma ToggleSelectionSpec(selection: seq<Id>, id: Id)
    ensures id in ToggleSelection(selection, id) <==> id !in selection
    ensures forall other :: other != id ==> (other in ToggleSelection(selection, id) <==> other in selection)
    ensures Delete(ToggleSelection(selection, id), id) == Delete(selection, id)
    ensures id !in selection ==> ToggleSelection(ToggleSelection(selection, id), id) == selection
    ensures forall other :: other in ToggleSelection(ToggleSelection(selection, id), id) <==> other in selection
  {
    ToggleMembership(selection, id, id);
    forall other | other != id
      ensures other in ToggleSelection(selection, id) <==> other in selection {
      ToggleMembership(selection, id, other);
    }
    ToggleKeepsOthers(selection, id);
    if id !in selection {
      ToggleTwiceAbsent(selection, id);
    }
    forall other ensures other in ToggleSelection(ToggleSelection(selection, id), id) <==> other in selection {
      ToggleTwiceMembership(selection, id, other);
    }
  }

  /**
    `Array.from(selectedPrompts).map(id => prompts.find(p => p.id === id))`:
    one entry per selected id, absent where the id names no loaded prompt.
   */
  function Resolve(selection: seq<Id>, prompts: seq<Prompt>): (selected: seq<Option<Prompt>>)
    ensures |selected| == |selection|
    ensures forall i :: 0 <= i < |selection| ==>
              (selected[i].Some? <==> exists j :: 0 <= j < |prompts| && prompts[j].id == selection[i])
    ensures forall i :: 0 <= i < |selection| && selected[i].Some? ==>
              selected[i].value in prompts && selected[i].value.id == selection[i]
    ensures forall i :: 0 <= i < |selection| && selected[i].Some? ==>
              exists j :: 0 <= j < |prompts| && prompts[j] == selected[i].value &&
                          forall k :: 0 <= k < j ==> prompts[k].id != selection[i]
  {
    var selected := Map(LookupIn(prompts), selection);
    assert forall i :: 0 <= i < |selection| ==> selected[i] == Find(HasId(selection[i]), prompts);
    selected
  }

  // ---------------------------------------------------------------------
  // Export.
  // ---------------------------------------------------------------------

  /**
    The text each format produces, or `None` where the template touches an
    absent entry and throws: the three text templates read a field of every
    entry, while `JSON.stringify` writes an absent one as `null`.
   */
  function Render(f: Format, selected: seq<Option<Prompt>>): (body: Option<ExportBody>)
    ensures body.None? <==> f != Json && exists i :: 0 <= i < |selected| && selected[i].None?
    ensures f == Json ==> body == Some(JsonDocument(selected))
  {
    if f == Json then Some(JsonDocument(selected))
    else if forall i :: 0 <= i < |selected| ==> selected[i].Some? then
      SomesLift(Somes(selected));
      assert Lift(Somes(selected)) == selected by {
        AllPresentIsLift(selected);
      }
      var ps := Somes(selected);
      match f
      case Flux => Some(Plain(FluxTemplate(ps)))
      case Sdxl => Some(Plain(SdxlTemplate(ps)))
      case Chinese => Some(Plain(ChineseTemplate(ps)))
    else None
  }

  /** Entries that are all present are the lifted list of their values. */
  lemma {:induction false} AllPresentIsLift<T>(xs: seq<Option<T>>)
    requires forall i :: 0 <= i < |xs| ==> xs[i].Some?
    ensures Lift(Somes(xs)) == xs
  {
    if xs != [] {
      AllPresentIsLift(xs[1..]);
    }
  }

  datatype ExportOutcome =
    | ExportRejected
    | ExportIgnored
    | TemplateThrew
    | NoClipboardApi
    | CopyRejected(selected: seq<Option<Prompt>>, body: ExportBody, filename: string)
    | Copied(selected: seq<Option<Prompt>>, body: ExportBody, filename: string, audit: ExportLog)

  // ---------------------------------------------------------------------
  // Session state.
  // ---------------------------------------------------------------------

  datatype AddOutcome = MissingFields | DuplicateDeclined(duplicate: Prompt) | AddFailed(sent: Draft) | Added(sent: Draft)

  datatype DeleteOutcome = DeleteDeclined | DeleteFailed | Deleted

  /** The state the component keeps between renders. */
  class Session {
    var prompts: seq<Prompt>
    var selection: seq<Id>
    var filterCategory: string
    var filterSubCategory: string
    var searchText: string
    var loading: bool
    var showAddForm: bool
    var showExportModal: bool
    var draft: Draft

    /** The selection is a set: no id twice. */
    ghost predicate Valid()
      reads this
    {
      NoDuplicates(selection)
    }

    /** The list the user sees. */
    function Visible(): seq<Prompt>
      reads this
    {
      FilteredPrompts(prompts, filterCategory, filterSubCategory, searchText)
    }

    /** The initial `useState` values. */
    constructor ()
      ensures Valid()
      ensures prompts == [] && selection == []
      ensures filterCategory == "" && filterSubCategory == "" && searchText == ""
      ensures loading && !showAddForm && !showExportModal
      ensures draft == EmptyDraft
    {
      prompts, selection := [], [];
      filterCategory, filterSubCategory, searchText := "", "", "";
      loading, showAddForm, showExportModal := true, false, false;
      draft := EmptyDraft;
    }

    /** `loadPrompts`: replace the list on success (null data is the empty list); loading ends in every case. */
    method LoadPrompts(success: bool, rows: seq<Prompt>)
      modifies this`prompts, this`loading
      ensures !loading
      ensures prompts == if success then rows else old(prompts)
    {
      loading := true;
      if success {
        prompts := rows;
      }
      loading := false;
    }

    method SetSearchText(text: string)
      modifies this`searchText
      ensures searchText == text
    {
      searchText := text;
    }

    /** Choosing a category filter clears the sub-category filter. */
    method SetFilterCategory(category: string)
      modifies this`filterCategory, this`filterSubCategory
      ensures filterCategory == category && filterSubCategory == ""
    {
      filterCategory := category;
      filterSubCategory := "";
    }

    method SetFilterSubCategory(subCategory: string)
      modifies this`filterSubCategory
      ensures filterSubCategory == subCategory
    {
      filterSubCategory := subCategory;
    }

    /** "Reset filters" clears all three; the list then shows every loaded prompt. */
    method ResetFilters()
      modifies this`filterCategory, this`filterSubCategory, this`searchText
      ensures filterCategory == "" && filterSubCategory == "" && searchText == ""
      ensures Visible() == prompts
    {
      filterCategory, filterSubCategory, searchText := "", "", "";
      EmptyFiltersKeepAll(prompts);
    }

    method TogglePromptSelection(id: Id)
      requires Valid()
      modifies this`selection
      ensures Valid()
      ensures selection == ToggleSelection(old(selection), id)
    {
      TogglePreservesNoDuplicates(selection, id);
      selection := Toggle(selection, id);
    }

    /** Typing into the add-prompt form. */
    method EditDraft(d: Draft)
      modifies this`draft
      ensures draft == d
    {
      draft := d;
    }

    /** Choosing the draft's category clears its sub-category. */
    method ChooseDraftCategory(category: string)
      modifies this`draft
      ensures draft == old(draft).(category := category, subCategory := "")
    {
      draft := draft.(category := category, subCategory := "");
    }

    /**
      `handleAddPrompt`: validation, then the similarity check (a declined
      confirmation stops there), then the insert of the draft as typed; on
      success the row the backend returns goes first and the form resets.
      Every other outcome leaves the state as it was.
     */
    method AddPrompt(confirmed: bool, success: bool, created: Prompt) returns (outcome: AddOutcome)
      modifies this`prompts, this`draft, this`showAddForm
      ensures outcome.MissingFields? <==> !DraftComplete(old(draft))
      ensures outcome.DuplicateDeclined? <==>
                DraftComplete(old(draft)) && FindDuplicate(old(prompts), old(draft)).Some? && !confirmed
      ensures outcome.DuplicateDeclined? ==> Some(outcome.duplicate) == FindDuplicate(old(prompts), old(draft))
      ensures outcome.Added? <==>
                DraftComplete(old(draft)) && (FindDuplicate(old(prompts), old(draft)).None? || confirmed) && success
      ensures outcome.AddFailed? || outcome.Added? ==> outcome.sent == old(draft)
      ensures outcome.Added? ==> prompts == [created] + old(prompts) && draft == EmptyDraft && !showAddForm
      ensures !outcome.Added? ==> prompts == old(prompts) && draft == old(draft) && showAddForm == old(showAddForm)
    {
      if !DraftComplete(draft) {
        return MissingFields;
      }
      var duplicate := FindDuplicate(prompts, draft);
      if duplicate.Some? && !confirmed {
        return DuplicateDeclined(duplicate.value);
      }
      var sent := draft;
      if !success {
        return AddFailed(sent);
      }
      prompts := [created] + prompts;
      draft := EmptyDraft;
      showAddForm := false;
      outcome := Added(sent);
    }

    /**
      `handleDeletePrompt`: a declined confirmation does nothing; after a
      successful soft delete every prompt with the id leaves the list and
      the id leaves the selection. Any id is accepted, the empty one too.
     */
    method DeletePrompt(id: Id, confirmed: bool, success: bool) returns (outcome: DeleteOutcome)
      requires Valid()
      modifies this`prompts, this`selection
      ensures Valid()
      ensures outcome == if !confirmed then DeleteDeclined else if !success then DeleteFailed else Deleted
      ensures outcome == Deleted ==> prompts == RemoveById(old(prompts), id) && selection == Delete(old(selection), id)
      ensures outcome != Deleted ==> prompts == old(prompts) && selection == old(selection)
      ensures outcome == Deleted ==> id !in selection && forall p :: p in prompts ==> p in old(prompts) && p.id != id
    {
      if !confirmed {
        return DeleteDeclined;
      }
      if !success {
        return DeleteFailed;
      }
      RemoveByIdSpec(prompts, id);
      DeletePreservesOrder(selection, id);
      DeleteMembership(selection, id, id);
      prompts := RemoveById(prompts, id);
      selection := Delete(selection, id);
      outcome := Deleted;
    }

    /**
      `exportPrompts`: an empty selection is rejected and an unknown format
      ignored; a template that reads an absent entry throws; without
      `navigator.clipboard` the call throws; a rejected write is dropped
      silently; only a successful write closes the modal and writes the
      audit row.
     */
    method ExportPrompts(format: string, hasClipboardApi: bool, clipboardWriteOk: bool) returns (outcome: ExportOutcome)
      modifies this`showExportModal
      ensures var selected := Resolve(selection, prompts);
              && (outcome.ExportRejected? <==> selection == [])
              && (outcome.ExportIgnored? <==> selection != [] && ParseFormat(format).None?)
              && (outcome.TemplateThrew? <==>
                    selection != [] && ParseFormat(format).Some? && Render(ParseFormat(format).value, selected).None?)
              && (outcome.CopyRejected? || outcome.Copied? ==>
                    && outcome.selected == selected
                    && Some(outcome.body) == Render(ParseFormat(format).value, selected)
                    && outcome.filename == FileName(ParseFormat(format).value))
      ensures outcome.NoClipboardApi? || outcome.CopyRejected? || outcome.Copied? ==>
                && selection != [] && ParseFormat(format).Some?
                && Render(ParseFormat(format).value, Resolve(selection, prompts)).Some?
                && (outcome.NoClipboardApi? <==> !hasClipboardApi)
                && (outcome.Copied? <==> hasClipboardApi && clipboardWriteOk)
      ensures outcome.Copied? ==> outcome.audit == ExportLog(format, |outcome.selected|, outcome.body)
      ensures showExportModal == if outcome.Copied? then false else old(showExportModal)
    {
      var selected := Resolve(selection, prompts);
      if |selected| == 0 {
        return ExportRejected;
      }
      var f := ParseFormat(format);
      if f.None? {
        return ExportIgnored;
      }
      var body := Render(f.value, selected);
      if body.None? {
        return TemplateThrew;
      }
      var filename := FileName(f.value);
      if !hasClipboardApi {
        return NoClipboardApi;
      }
      if !clipboardWriteOk {
        return CopyRejected(selected, body.value, filename);
      }
      showExportModal := false;
      outcome := Copied(selected, body.value, filename, ExportLog(format, |selected|, body.value));
    }
  }
}
