/**
 * The `Gender` enumeration of the discovery settings: its raw values (the
 * case names) and the titles shown in the settings picker.
 */
module DiscoverySettings {
  import opened StringExt

  /** `enum Gender: String, CaseIterable`, in declaration order. */
  datatype Gender = Male | Female | Lesbian | Gay

  /** `allCases`. */
  const AllCases: seq<Gender> := [Male, Female, Lesbian, Gay]

  /** The raw value: the case name itself. */
  function RawValue(g: Gender): string
  {
    match g
    case Male => "male"
    case Female => "female"
    case Lesbian => "lesbian"
    case Gay => "gay"
  }

  /** `title`: `rawValue.capitalized`. */
  function Title(g: Gender): string
  {
    Capitalized(RawValue(g))
  }

  /** `allTitles`: one title per case, in declaration order. */
  function AllTitles(): (ts: seq<string>)
    ensures |ts| == |AllCases|
    ensures forall k :: 0 <= k < |AllCases| ==> ts[k] == Title(AllCases[k])
  {
    seq(|AllCases|, k requires 0 <= k < |AllCases| => Title(AllCases[k]))
  }

  /** Every case appears in `allCases` exactly once. */
  lemma AllCasesListsEachCaseOnce(g: Gender)
    ensures g in AllCases
    ensures forall k, m :: 0 <= k < m < |AllCases| ==> AllCases[k] != AllCases[m]
  {
  }

  /** A raw value is a single non-empty lower-case word. */
  lemma RawValueIsLowercaseWord(g: Gender)
    ensures |RawValue(g)| > 0
    ensures forall i :: 0 <= i < |RawValue(g)| ==> 'a' <= RawValue(g)[i] <= 'z'
  {
  }

  /** No two cases share a raw value, so `Gender(rawValue:)` is well defined. */
  lemma RawValuesDistinct(g: Gender, h: Gender)
    ensures RawValue(g) == RawValue(h) <==> g == h
  {
  }

  /**
   * The title is the raw value with its first letter upper-cased, so the
   * titles are "Male", "Female", "Lesbian" and "Gay".
   */
  lemma TitleCapitalizesRawValue(g: Gender)
    ensures Title(g) == CapitalizingFirstLetter(RawValue(g))
    ensures Title(g) == match g
      case Male => "Male"
      case Female => "Female"
      case Lesbian => "Lesbian"
      case Gay => "Gay"
  {
    RawValueIsLowercaseWord(g);
    CapitalizedOfLowercaseWord(RawValue(g));
  }

  /** The titles are pairwise distinct, so a title identifies its case. */
  lemma TitlesDistinct(g: Gender, h: Gender)
    ensures Title(g) == Title(h) <==> g == h
  {
    TitleCapitalizesRawValue(g);
    TitleCapitalizesRawValue(h);
  }

  /** `allTitles` is exactly ["Male", "Female", "Lesbian", "Gay"]. */
  lemma AllTitlesValue()
    ensures AllTitles() == ["Male", "Female", "Lesbian", "Gay"]
  {
    TitleCapitalizesRawValue(Male);
    TitleCapitalizesRawValue(Female);
    TitleCapitalizesRawValue(Lesbian);
    TitleCapitalizesRawValue(Gay);
  }
}
