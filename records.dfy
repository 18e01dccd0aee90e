/**
  The records the prompt manager exchanges with its backend, and the
  export formats, shared by both versions of the application.
 */
module Records {
  import opened Wrappers
  import opened Seqs
  import opened Text

  /** A prompt's identifier as the backend assigns it; the empty string is the falsy one. */
  type Id = string

  predicate IsFalsy(id: Id)
  {
    id == ""
  }

  /**
    A loaded prompt: an English/Chinese pair with its category metadata.
    An absent `sub_category` or `image_url` is the empty string.
   */
  datatype Prompt = Prompt(
    id: Id,
    englishText: string,
    chineseText: string,
    category: string,
    subCategory: string,
    imageUrl: string)

  /** The add-prompt form (`newPrompt`). */
  datatype Draft = Draft(
    englishText: string,
    chineseText: string,
    category: string,
    subCategory: string,
    imageUrl: string)

  const EmptyDraft := Draft("", "", "", "", "")

  function IdOf(p: Prompt): Id
  {
    p.id
  }

  function EnglishText(p: Prompt): string
  {
    p.englishText
  }

  /** One prompt in the Chinese format: the Chinese text with the English in full-width brackets. */
  function Bilingual(p: Prompt): string
  {
    p.chineseText + "（" + p.englishText + "）"
  }

  /** The summed length of the rendered pieces: both texts plus the two brackets. */
  function BilingualLength(ps: seq<Prompt>): nat
  {
    if ps == [] then 0 else |ps[0].chineseText| + |ps[0].englishText| + 2 + BilingualLength(ps[1..])
  }

  lemma {:induction false} TotalBilingualLength(ps: seq<Prompt>)
    ensures TotalLength(Map(Bilingual, ps)) == BilingualLength(ps)
  {
    if ps != [] {
      TotalBilingualLength(ps[1..]);
      assert Map(Bilingual, ps)[1..] == Map(Bilingual, ps[1..]);
    }
  }

  function HasId(id: Id): Prompt -> bool
  {
    (p: Prompt) => p.id == id
  }

  function LacksId(id: Id): Prompt -> bool
  {
    (p: Prompt) => p.id != id
  }

  /** `prompts.find(p => p.id === id)` */
  function Lookup(prompts: seq<Prompt>, id: Id): Option<Prompt>
  {
    Find(HasId(id), prompts)
  }

  function LookupIn(prompts: seq<Prompt>): Id -> Option<Prompt>
  {
    id => Lookup(prompts, id)
  }

  function IsLoadedIn(prompts: seq<Prompt>): Id -> bool
  {
    id => Lookup(prompts, id).Some?
  }

  /** `prompts.filter(p => p.id !== id)`: every prompt with that id is gone, the rest keep their order. */
  function RemoveById(prompts: seq<Prompt>, id: Id): seq<Prompt>
  {
    Filter(LacksId(id), prompts)
  }

  lemma RemoveByIdSpec(prompts: seq<Prompt>, id: Id)
    ensures IsSubsequence(RemoveById(prompts, id), prompts)
    ensures forall p :: p in RemoveById(prompts, id) <==> p in prompts && p.id != id
    ensures forall p :: multiset(RemoveById(prompts, id))[p] == if p.id != id then multiset(prompts)[p] else 0
  {
    FilterIsSubsequence(LacksId(id), prompts);
    forall p ensures multiset(RemoveById(prompts, id))[p] == if p.id != id then multiset(prompts)[p] else 0 {
      FilterCount(LacksId(id), prompts, p);
    }
    forall p ensures p in RemoveById(prompts, id) <==> p in prompts && p.id != id {
      FilterMembership(LacksId(id), prompts, p);
    }
  }

  /** The export formats the switch recognises. */
  datatype Format = Flux | Sdxl | Chinese | Json

  /** The `case` labels of the export switch. */
  function ParseFormat(format: string): (r: Option<Format>)
    ensures r.Some? <==> format in {"flux", "sdxl", "chinese", "json"}
  {
    if format == "flux" then Some(Flux)
    else if format == "sdxl" then Some(Sdxl)
    else if format == "chinese" then Some(Chinese)
    else if format == "json" then Some(Json)
    else None
  }

  /** The file name each arm of the switch assigns. */
  function FileName(f: Format): string
  {
    match f
    case Flux => "flux_prompt.txt"
    case Sdxl => "sdxl_prompt.txt"
    case Chinese => "chinese_prompt.txt"
    case Json => "prompts.json"
  }

  /** The four formats get four different file names, and only `json` gets a `.json` one. */
  lemma FileNamesDistinct(f: Format, g: Format)
    ensures FileName(f) == FileName(g) ==> f == g
    ensures (FileName(f)[|FileName(f)| - 5..] == ".json") <==> f == Json
  {
  }

  /** The fixed suffix of the SDXL template. */
  const SdxlSuffix := " | High quality, detailed, 8k"

  /**
    What an export produces: rendered text, or (for `json`) the records that
    `JSON.stringify(selected, null, 2)` serialises, kept symbolic; an absent
    entry is the `undefined` that serialises as `null`.
   */
  datatype ExportBody = Plain(text: string) | JsonDocument(entries: seq<Option<Prompt>>)

  /** A row of the `export_logs` audit table. */
  datatype ExportLog = ExportLog(exportFormat: string, selectedPrompts: nat, exportedText: ExportBody)
}
