/** Request Handler: `compute_credit_score` composed from the components, and the
    failure fallback of `generate_explanation_gpt` (app.py, lines 38-108).

    The library calls the service makes are parameters: `predict` is the regression
    model's `predict`, `explain` the SHAP explainer's attribution vector, `fmt` the
    `:.2f` formatting, `round2` Python's `round(x, 2)`, and the narrator the OpenAI call,
    seen only through its success or failure. */
module Service {
  import opened Wrappers
  import opened Features
  import opened Scoring
  import opened Ranking
  import opened Explanation

  const ApprovedMessage: string := "Your credit score is good, and the loan is approved."
  const ErrorPrefix: string := "AI Explanation Error: "

  /** The opaque library functions the service calls. */
  datatype Collaborators = Collaborators(
    predict: seq<real> -> real,
    explain: seq<real> -> seq<real>,
    fmt: real -> string,
    round2: real -> real)

  /** The `financial_metrics` object: ratios rounded to two places, flags as they are. */
  datatype Metrics = Metrics(
    dti: real, sti: real, cur: real, totalSpending: real, gamblingPercentage: real,
    isHighDebt: int, isLowSavings: int)

  /** The response object of one request. */
  datatype Response = Response(
    creditScore: real, loanStatus: string, explanation: string,
    detailedExplanation: string, financialMetrics: Metrics)

  /** `generate_explanation_gpt`: the narrator's text, or on any failure the labelled
      error message, so that the request itself never fails here. */
  function NarrationOf(outcome: Result<string>): (r: string)
    ensures outcome.Ok? ==> r == outcome.value
    ensures outcome.Err? ==> |ErrorPrefix| <= |r| && r[..|ErrorPrefix|] == ErrorPrefix
    ensures outcome.Err? ==> r[|ErrorPrefix|..] == outcome.error
  {
    match outcome
    case Ok(text) => text
    case Err(e) => ErrorPrefix + e
  }

  /** The attribution pairs of one applicant, ranked: the (name, impact) pairs in feature
      order, reordered by non-increasing absolute impact with ties kept in order. */
  function RankedAttributions(data: Applicant, c: Collaborators): (r: seq<Attribution>)
    ensures var pairs := Zip(FeatureNames, c.explain(FeatureVector(Derive(data))));
            multiset(r) == multiset(pairs) && SortedByImpact(r) && StableReordering(pairs, r)
  {
    var pairs := Zip(FeatureNames, c.explain(FeatureVector(Derive(data))));
    InsertionSortPermutes(pairs);
    InsertionSortSorted(pairs);
    InsertionSortStable(pairs);
    InsertionSort(pairs)
  }

  /** The reasons handed to the narrator. */
  function ReasonsFor(data: Applicant, c: Collaborators): (r: seq<string>)
  {
    Reasons(TopOf(RankedAttributions(data, c)), c.fmt)
  }

  /** The `financial_metrics` of one applicant: the five ratios and totals rounded to two
      places, the two flags unrounded and still read off the unrounded ratios. */
  function MetricsOf(data: Applicant, round2: real -> real): (r: Metrics)
    ensures r.dti == round2(DebtToIncome(data)) && r.sti == round2(SavingsToIncome(data))
    ensures r.cur == round2(CreditUtilization(data))
    ensures r.totalSpending == round2(
      data.groceries + data.clothing + data.housing + data.education + data.health + data.travel +
      data.entertainment + data.gambling + data.utilities + data.tax + data.fines)
    ensures r.gamblingPercentage == round2(GamblingShare(data))
    ensures r.isHighDebt in {0, 1} && (r.isHighDebt == 1 <==> DebtToIncome(data) > HighDebtCutoff)
    ensures r.isLowSavings in {0, 1} && (r.isLowSavings == 1 <==> SavingsToIncome(data) < LowSavingsCutoff)
  {
    var d := Derive(data);
    Metrics(round2(d.dti), round2(d.sti), round2(d.cur), round2(d.totalSpending),
            round2(d.gamblingPercentage), d.isHighDebt, d.isLowSavings)
  }

  /** The response `compute_credit_score` returns for one applicant: the rounded score, its
      status, the top-three explanation and the metrics; the detailed explanation is the
      narration of the top reasons for a rejection and the canned message otherwise. */
  function Respond(data: Applicant, c: Collaborators, narrator: seq<string> -> Result<string>): (r: Response)
    ensures r.creditScore == c.round2(ScoreOf(data, c.predict))
    ensures r.loanStatus == "APPROVED" <==> ScoreOf(data, c.predict) >= ApprovalThreshold
    ensures r.loanStatus == "REJECTED" <==> ScoreOf(data, c.predict) < ApprovalThreshold
    ensures r.explanation == ExplanationText(TopOf(RankedAttributions(data, c)), c.fmt)
    ensures r.loanStatus == "REJECTED" ==> r.detailedExplanation == NarrationOf(narrator(ReasonsFor(data, c)))
    ensures r.loanStatus == "APPROVED" ==> r.detailedExplanation == ApprovedMessage
    ensures r.financialMetrics == MetricsOf(data, c.round2)
  {
    var d := Derive(data);
    var score := c.predict(FeatureVector(d));
    var status := StatusText(Decide(score));
    var top := TopOf(RankedAttributions(data, c));
    var detailed :=
      if status == "REJECTED" then NarrationOf(narrator(Reasons(top, c.fmt))) else ApprovedMessage;
    Response(c.round2(score), status, ExplanationText(top, c.fmt), detailed, MetricsOf(data, c.round2))
  }

  /** `compute_credit_score`: derive, score, decide, attribute, rank in place, explain the
      top three and, for a rejection only, ask the narrator. */
  method ComputeCreditScore(data: Applicant, c: Collaborators, narrator: seq<string> -> Result<string>)
    returns (response: Response)
    ensures response == Respond(data, c, narrator)
  {
    var d := Derive(data);
    var features := FeatureVector(d);
    var score := c.predict(features);
    var status := StatusText(Decide(score));
    var pairs := Zip(FeatureNames, c.explain(features));
    var importance := new Attribution[|pairs|](i requires 0 <= i < |pairs| => pairs[i]);
    assert importance[..] == pairs;
    SortByImpact(importance);
    var text, reasons := BuildExplanation(importance, c.fmt);
    var detailed;
    if status == "REJECTED" {
      detailed := NarrationOf(narrator(reasons));
    } else {
      detailed := ApprovedMessage;
    }
    response := Response(c.round2(score), status, text, detailed, MetricsOf(data, c.round2));
  }

  /** Everything but the narrated explanation is decided before the narrator is asked. */
  lemma DecisionIgnoresNarrator(data: Applicant, c: Collaborators,
                                n1: seq<string> -> Result<string>, n2: seq<string> -> Result<string>)
    ensures Respond(data, c, n1).creditScore == Respond(data, c, n2).creditScore
    ensures Respond(data, c, n1).loanStatus == Respond(data, c, n2).loanStatus
    ensures Respond(data, c, n1).explanation == Respond(data, c, n2).explanation
    ensures Respond(data, c, n1).financialMetrics == Respond(data, c, n2).financialMetrics
  {
  }

  /** An approved applicant gets the canned message and the narrator is never consulted:
      any two narrators give the same response. */
  lemma ApprovalNeverNarrates(data: Applicant, c: Collaborators,
                              n1: seq<string> -> Result<string>, n2: seq<string> -> Result<string>)
    requires ScoreOf(data, c.predict) >= ApprovalThreshold
    ensures Respond(data, c, n1).detailedExplanation == ApprovedMessage
    ensures Respond(data, c, n1) == Respond(data, c, n2)
  {
  }

  /** A rejected applicant's narrator receives the top reasons; when it fails, the
      response still arrives, carrying the labelled error instead of a narration. */
  lemma NarratorFailureIsRecovered(data: Applicant, c: Collaborators, narrator: seq<string> -> Result<string>)
    requires ScoreOf(data, c.predict) < ApprovalThreshold
    requires narrator(ReasonsFor(data, c)).Err?
    ensures Respond(data, c, narrator).loanStatus == "REJECTED"
    ensures Respond(data, c, narrator).detailedExplanation ==
            ErrorPrefix + narrator(ReasonsFor(data, c)).error
  {
  }

  /** The ranked list is the seven (name, impact) pairs, reordered by non-increasing absolute
      impact, with ties in feature order. */
  lemma RankingIsStableSort(data: Applicant, c: Collaborators)
    requires |c.explain(FeatureVector(Derive(data)))| >= |FeatureNames|
    ensures var pairs := Zip(FeatureNames, c.explain(FeatureVector(Derive(data))));
            |pairs| == 7 &&
            (forall i :: 0 <= i < 7 ==> pairs[i].feature == NameOf(FeatureOrder[i]) &&
                                        pairs[i].impact == c.explain(FeatureVector(Derive(data)))[i]) &&
            multiset(RankedAttributions(data, c)) == multiset(pairs) &&
            SortedByImpact(RankedAttributions(data, c)) &&
            StableReordering(pairs, RankedAttributions(data, c))
  {
    FeatureNamesFollowOrder();
  }

  /** Pairs that tie on absolute impact keep their feature order: the earlier of the two
      in the ranking is the pair of the earlier name in the feature list. */
  lemma TiesKeepFeatureOrder(data: Applicant, c: Collaborators, i: nat, j: nat)
    requires i < j < |RankedAttributions(data, c)|
    requires Key(RankedAttributions(data, c)[i]) == Key(RankedAttributions(data, c)[j])
    ensures var pairs := Zip(FeatureNames, c.explain(FeatureVector(Derive(data))));
            exists i', j' :: 0 <= i' < j' < |pairs| &&
              RankedAttributions(data, c)[i] == pairs[i'] &&
              RankedAttributions(data, c)[j] == pairs[j'] &&
              RankedAttributions(data, c)[i].feature == FeatureNames[i'] &&
              RankedAttributions(data, c)[j].feature == FeatureNames[j']
  {
    var pairs := Zip(FeatureNames, c.explain(FeatureVector(Derive(data))));
    var ranked := RankedAttributions(data, c);
    StableKeepsTieOrder(pairs, ranked, i, j);
  }

  /** No feature name contains a line break. */
  lemma NamesHaveNoBreaks()
    ensures forall i :: 0 <= i < |FeatureNames| ==> '\n' !in FeatureNames[i]
  {
  }

  /** With one attribution per feature, the explanation is the header and exactly three
      lines, the reasons are three, and both describe the three entries of largest absolute
      impact in ranked order. */
  lemma ExplanationReportsTopThree(data: Applicant, c: Collaborators, narrator: seq<string> -> Result<string>)
    requires |c.explain(FeatureVector(Derive(data)))| >= |FeatureNames|
    requires forall x :: '\n' !in c.fmt(x)
    ensures var ranked := RankedAttributions(data, c);
            |ranked| == 7 &&
            Count(Respond(data, c, narrator).explanation, '\n') == 4 &&
            Respond(data, c, narrator).explanation == ExplanationText(ranked[..3], c.fmt) &&
            |ReasonsFor(data, c)| == 3 &&
            (forall i :: 0 <= i < 3 ==> ReasonsFor(data, c)[i] == Reason(ranked[i], c.fmt)) &&
            (forall i, j :: 0 <= i < 3 <= j < 7 ==> Key(ranked[i]) >= Key(ranked[j]))
  {
    var pairs := Zip(FeatureNames, c.explain(FeatureVector(Derive(data))));
    var ranked := RankedAttributions(data, c);
    RankingIsStableSort(data, c);
    assert |ranked| == 7 by {
      assert |multiset(ranked)| == |multiset(pairs)|;
    }
    var top := TopOf(ranked);
    NamesHaveNoBreaks();
    forall j | 0 <= j < |top| ensures '\n' !in top[j].feature {
      assert top[j] in multiset(pairs);
      var k :| 0 <= k < |pairs| && pairs[k] == top[j];
    }
    ExplanationBreakCount(top, c.fmt);
  }
}
