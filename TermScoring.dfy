/** Keyword match counts per audience category, and their dictionary form
    handed to the LLM. */
module TermScoring {

  datatype Category = InvestorBeginner | InvestorQualified | IssuerBeginner | IssuerAdvanced | Professional

  /** The dictionary file stem and dict key of each category. */
  function CategoryName(c: Category): string {
    match c
    case InvestorBeginner => "investor_beginner"
    case InvestorQualified => "investor_qualified"
    case IssuerBeginner => "issuer_beginner"
    case IssuerAdvanced => "issuer_advanced"
    case Professional => "professional"
  }

  const Categories: seq<Category> := [InvestorBeginner, InvestorQualified, IssuerBeginner, IssuerAdvanced, Professional]

  const CategoryNames: set<string> :=
    {"investor_beginner", "investor_qualified", "issuer_beginner", "issuer_advanced", "professional"}

  /** Every count is `ge=0`, hence `nat`; all default to 0. */
  datatype TermScores = TermScores(
    investorBeginner: nat,
    investorQualified: nat,
    issuerBeginner: nat,
    issuerAdvanced: nat,
    professional: nat)

  const ZeroScores := TermScores(0, 0, 0, 0, 0)

  function Score(t: TermScores, c: Category): nat {
    match c
    case InvestorBeginner => t.investorBeginner
    case InvestorQualified => t.investorQualified
    case IssuerBeginner => t.issuerBeginner
    case IssuerAdvanced => t.issuerAdvanced
    case Professional => t.professional
  }

  /** `to_dict_for_llm`: one entry per category, holding that category's count. */
  function ToDictForLlm(t: TermScores): (d: map<string, int>)
    ensures d.Keys == CategoryNames
    ensures forall c :: CategoryName(c) in d && d[CategoryName(c)] == Score(t, c)
  {
    map["investor_beginner" := t.investorBeginner as int,
        "investor_qualified" := t.investorQualified as int,
        "issuer_beginner" := t.issuerBeginner as int,
        "issuer_advanced" := t.issuerAdvanced as int,
        "professional" := t.professional as int]
  }

  /** The dictionary holds every count: the scores can be read back from it. */
  lemma DictDeterminesScores(t: TermScores, u: TermScores)
    requires ToDictForLlm(t) == ToDictForLlm(u)
    ensures t == u
  {
    forall c ensures Score(t, c) == Score(u, c) {
      assert ToDictForLlm(t)[CategoryName(c)] == ToDictForLlm(u)[CategoryName(c)];
    }
    assert Score(t, InvestorBeginner) == Score(u, InvestorBeginner);
    assert Score(t, InvestorQualified) == Score(u, InvestorQualified);
    assert Score(t, IssuerBeginner) == Score(u, IssuerBeginner);
    assert Score(t, IssuerAdvanced) == Score(u, IssuerAdvanced);
    assert Score(t, Professional) == Score(u, Professional);
  }

  lemma ZeroScoresDefault()
    ensures forall c :: Score(ZeroScores, c) == 0
    ensures forall v :: v in ToDictForLlm(ZeroScores).Values ==> v == 0
  {
  }
}
