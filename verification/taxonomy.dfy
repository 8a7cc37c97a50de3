/** The two static label tables of the tool: long classifier labels mapped to the
    short categories humans assigned (for comparison), and to the final
    database-friendly tags (for overrides). The decision code takes the tables as
    a `Tables` value; the tool always passes `Standard`. */
module Taxonomy {
  import opened Wrappers

  /** The sentinel candidate label meaning "no category fits". */
  const NoneTag: string := "None of the above"

  const LegalLong: string := "Legal Services and Immigration Consultants"
  const FinanceLong: string := "Chartered Accountants and Tax Consultants"
  const RelocationLong: string := "Relocation Services and Lifestyle Management"
  const RealEstateLong: string := "Real Estate Agency and Property Rentals"

  /** `TAG_MAP`: long label -> short category used for comparison. */
  const TagMap: map<string, string> := map[
    LegalLong := "Legal & Immigration",
    FinanceLong := "Finance & Tax",
    RelocationLong := "Relocation & Lifestyle",
    RealEstateLong := "Real Estate",
    NoneTag := "None"
  ]

  /** `SHORT_TAG_MAP`: long label -> final database tag. */
  const ShortTagMap: map<string, string> := map[
    LegalLong := "Legal",
    FinanceLong := "Finance",
    RelocationLong := "Lifestyle",
    RealEstateLong := "Real Estate",
    NoneTag := "None"
  ]

  /** A comparison table and a final-tag table. */
  datatype Tables = Tables(comparison: map<string, string>, final: map<string, string>)

  /** The tables the tool uses. */
  const Standard: Tables := Tables(TagMap, ShortTagMap)

  /** `TAG_MAP.get(tag, tag)`: the comparison form, falling back to the raw label. */
  function ToComparisonForm(t: Tables, tag: string): (r: string)
    ensures tag in t.comparison ==> r == t.comparison[tag]
    ensures tag !in t.comparison ==> r == tag
  {
    if tag in t.comparison then t.comparison[tag] else tag
  }

  /** `SHORT_TAG_MAP.get(tag)`: the final tag, or nothing for an unmapped label. */
  function ToFinalForm(t: Tables, tag: string): (r: Option<string>)
    ensures r.Some? <==> tag in t.final
    ensures r.Some? ==> r.value == t.final[tag] && r.value in t.final.Values
  {
    if tag in t.final then Some(t.final[tag]) else None
  }

  /** What the decision policy relies on in the tables: both cover the same labels,
      the sentinel is among them and compares and finalises as the token "None",
      and the token "None" (or an empty tag) is the final tag of the sentinel only. */
  predicate WellFormed(t: Tables) {
    && t.comparison.Keys == t.final.Keys
    && NoneTag in t.final && t.final[NoneTag] == "None" && t.comparison[NoneTag] == "None"
    && forall tag :: tag in t.final && tag != NoneTag ==> t.final[tag] != "None" && t.final[tag] != ""
  }

  /** The tool's tables are well formed and cover exactly the four candidate categories
      and the sentinel. */
  lemma StandardWellFormed()
    ensures WellFormed(Standard)
    ensures Standard.final.Keys == {LegalLong, FinanceLong, RelocationLong, RealEstateLong, NoneTag}
  {
  }
}
