/**
  Where the two versions of the application agree and where they part:
  the templates agree on prompts with English text, the Chinese template
  always, the resolution while every selected id is loaded; the search,
  the validation, the toggle and the export rejection differ on inputs
  shown here.
 */
module Variants {
  import opened Wrappers
  import opened Seqs
  import opened Text
  import opened OrderedSet
  import opened Records
  import LiveApp
  import LegacyApp

  predicate AllHaveEnglish(ps: seq<Prompt>)
  {
    forall i :: 0 <= i < |ps| ==> ps[i].englishText != ""
  }

  /** On loaded prompts that all have English text the two Flux templates agree. */
  lemma FluxAgrees(ps: seq<Prompt>)
    requires AllHaveEnglish(ps)
    ensures LiveApp.FluxTemplate(Lift(ps)) == LegacyApp.FluxTemplate(ps)
  {
    LiveApp.EnglishPartsAre(Lift(ps));
    SomesLift(ps);
    FilterAllKept(LiveApp.HasEnglishText, ps);
  }

  /**
    A prompt with empty English text splits them: the mounted version skips
    it, the older one keeps an empty part and so a leading separator.
   */
  lemma FluxDiffersOnEmptyEnglish(a: Prompt, b: Prompt)
    requires a.englishText == "" && b.englishText != ""
    ensures LiveApp.FluxTemplate(Lift([a, b])) == b.englishText
    ensures LegacyApp.FluxTemplate([a, b]) == ", " + b.englishText
  {
    LiveApp.EnglishPartsAre(Lift([a, b]));
    SomesLift([a, b]);
    assert [a, b][1..] == [b];
    assert Filter(LiveApp.HasEnglishText, [a, b]) == [b];
    assert Map(EnglishText, [a, b]) == [a.englishText, b.englishText];
  }

  /** The Chinese templates agree on every list of loaded prompts. */
  lemma ChineseAgrees(ps: seq<Prompt>)
    ensures LiveApp.ChineseTemplate(Lift(ps)) == LegacyApp.ChineseTemplate(ps)
  {
    LiveApp.ChineseShape(Lift(ps));
    SomesLift(ps);
  }

  /** Every format renders the same body in both versions when all selected prompts have English text. */
  lemma RenderAgrees(f: Format, ps: seq<Prompt>)
    requires AllHaveEnglish(ps)
    ensures LegacyApp.Render(f, Lift(ps)) == Some(LiveApp.Render(f, ps))
  {
    SomesLift(ps);
    FluxAgrees(ps);
    ChineseAgrees(ps);
    LiveApp.SdxlIsFluxPlusSuffix(Lift(ps));
    LegacyApp.SdxlIsFluxPlusSuffix(ps);
  }

  /** While every selected id names a loaded prompt, the older resolution is the newer one, wrapped. */
  lemma {:induction false} ResolveAgrees(selection: seq<Id>, prompts: seq<Prompt>)
    requires forall i :: 0 <= i < |selection| ==> Lookup(prompts, selection[i]).Some?
    ensures LegacyApp.Resolve(selection, prompts) == Lift(LiveApp.Resolve(selection, prompts))
  {
    if selection != [] {
      ResolveAgrees(selection[1..], prompts);
      assert Map(LookupIn(prompts), selection)[1..] == Map(LookupIn(prompts), selection[1..]);
      assert LiveApp.Resolve(selection, prompts) ==
             [Lookup(prompts, selection[0]).value] + LiveApp.Resolve(selection[1..], prompts);
    }
  }

  /**
    A selection none of whose ids is loaded any more: the mounted version
    rejects the export, the older one goes on, and its text templates throw.
   */
  lemma UnresolvedSelection(selection: seq<Id>, prompts: seq<Prompt>, f: Format)
    requires selection != []
    requires forall i :: 0 <= i < |selection| ==> Lookup(prompts, selection[i]).None?
    ensures LiveApp.PlanExport(selection, prompts, "flux").NothingSelected?
    ensures |LegacyApp.Resolve(selection, prompts)| == |selection| > 0
    ensures f != Json ==> LegacyApp.Render(f, LegacyApp.Resolve(selection, prompts)).None?
  {
    var selected := LegacyApp.Resolve(selection, prompts);
    assert selected[0] == Lookup(prompts, selection[0]);
  }

  /** A text with no white space anywhere. */
  predicate Spaceless(s: string)
  {
    forall k :: 0 <= k < |s| ==> !IsSpace(s[k])
  }

  /**
    A query of only white space: the mounted version trims it away and
    keeps every prompt, the older one searches for the white space itself
    and drops a prompt whose texts have none.
   */
  lemma BlankSearchDiffers(p: Prompt, searchText: string)
    requires searchText != "" && forall k :: 0 <= k < |searchText| ==> IsSpace(searchText[k])
    requires Spaceless(p.englishText) && Spaceless(p.chineseText)
    ensures LiveApp.Matches(p, "", "", searchText)
    ensures !LegacyApp.Matches(p, "", "", searchText)
  {
    TrimEmptyIff(searchText);
    var c := searchText[0];
    assert Lower(searchText)[0] == c;
    ContainsHasChars(Lower(p.englishText), Lower(searchText), c);
    ContainsHasChars(p.chineseText, searchText, c);
  }

  /**
    A query typed as both texts with a space between: the mounted version
    searches both texts at once and finds it, the older one searches each
    text on its own and does not.
   */
  lemma JoinedSearchDiffers(p: Prompt)
    requires p.englishText != "" && p.chineseText != ""
    requires Spaceless(p.englishText) && Spaceless(p.chineseText)
    ensures LiveApp.Matches(p, "", "", p.englishText + " " + p.chineseText)
    ensures !LegacyApp.Matches(p, "", "", p.englishText + " " + p.chineseText)
  {
    var s := p.englishText + " " + p.chineseText;
    TrimKeepsTrimmed(s);
    var h := LiveApp.Haystack(p);
    assert OccursAt(h, h, 0);
    ContainsIff(h, h);
    assert Lower(s)[|p.englishText|] == ' ';
    ContainsHasChars(Lower(p.englishText), Lower(s), ' ');
    assert s[|p.englishText|] == ' ';
    ContainsHasChars(p.chineseText, s, ' ');
  }

  /** A white-space-only English text passes the older validation and fails the newer one. */
  lemma BlankTextValidation(d: Draft)
    requires d.englishText != "" && forall k :: 0 <= k < |d.englishText| ==> IsSpace(d.englishText[k])
    requires d.chineseText != "" && d.category != ""
    ensures LegacyApp.DraftComplete(d)
    ensures !LiveApp.DraftComplete(d)
  {
    LiveApp.BlankTextRejected(d);
  }

  /** The empty id: the mounted version ignores it, the older one selects it. */
  lemma FalsyIdToggle(selection: seq<Id>)
    requires "" !in selection
    ensures LiveApp.ToggleSelection(selection, "") == selection
    ensures LegacyApp.ToggleSelection(selection, "") == selection + [""]
  {
  }
}
