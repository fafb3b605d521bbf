# Credit-score prediction service: a Dafny model of its scoring core

The service scores a loan applicant. From fourteen raw fields (income, savings, debt and
eleven twelve-month spending totals) it derives seven features:

- debt-to-income (DTI), savings-to-income (STI) and credit-utilisation (CUR) ratios;
- total spending and the gambling share of it;
- the IS_HIGH_DEBT and IS_LOW_SAVINGS flags.

It feeds the features, in a fixed order, to a pre-trained regression model. A score of at
least 700 approves the loan. The service then asks a SHAP explainer for each feature's
signed contribution. It ranks the (feature, contribution) pairs by absolute contribution,
using Python's stable sort, and writes the top three into an explanation and a list of
reasons. A rejected applicant's reasons go to a text-generation service for a narrated
explanation. A failure there is replaced by a labelled error string.

The model has one module per component:

- `Features` (`features.dfy`): the feature deriver. All arithmetic is on exact `real`s.
  The zero-denominator fallbacks and flag cutoffs are named constants.
- `Scoring` (`scoring.dfy`): the threshold decision and the `loan_status` strings.
- `Ranking` (`ranking.dfy`): `zip` and the sort. The sort is an in-place stable insertion
  sort on an array. It is proved equal to a functional insertion sort. That function is
  proved to return a permutation, sorted by non-increasing absolute impact and stable.
  It is also proved to be the only sequence with those three properties, so any stable
  sort, Python's `list.sort` included, returns the same list.
- `Explanation` (`explanation.dfy`): the loop that builds the explanation text and the
  reasons list from the first three ranked pairs.
- `Service` (`service.dfy`): `compute_credit_score` as a method, proved equal to a
  response function, with lemmas about the response. It also holds the failure fallback of
  `generate_explanation_gpt`.
- `Wrappers` (`wrappers.dfy`): the success/failure `Result` of the narrator call.

The libraries the service calls are function parameters that the model leaves
uninterpreted:

- the regression model's `predict` (`seq<real> -> real`);
- the SHAP explainer (`seq<real> -> seq<real>`);
- `:.2f` formatting (`real -> string`);
- `round(x, 2)` (`real -> real`);
- the OpenAI call (`seq<string> -> Result<string>`).

Two details follow the code closely:

- The ratio fallbacks apply whenever INCOME is not positive, so a negative income is
  covered too, not only INCOME = 0.
- The request schema puts no sign constraint on the spending totals. The gambling share
  is guaranteed to lie in [0, 1] when every category is non-negative
  (`Features.GamblingShareInUnitInterval`); a negative category can push it outside, even
  with a positive total (`Features.GamblingShareUnboundedForNegativeSpending` shows a
  share of 2).

## Model

| member | source | states |
|---|---|---|
| `Features.DebtToIncome` | app.py:59 | DTI times INCOME is DEBT when INCOME > 0; DTI is 1 otherwise; it is non-negative for non-negative debt |
| `Features.SavingsToIncome` | app.py:60 | STI times INCOME is SAVINGS when INCOME > 0; STI is 0 otherwise; it is non-negative for non-negative savings |
| `Features.CreditUtilization` | app.py:61 | CUR times (DEBT + SAVINGS + INCOME) is DEBT when that sum is positive; CUR is 1 otherwise; CUR lies in [0, 1] for non-negative inputs |
| `Features.SumBoundsElements` | app.py:62-64 | the sum of non-negative totals is non-negative and at least each single total |
| `Features.TotalSpendingIsCategorySum` | app.py:62-64 | TOTAL_SPENDING is the sum of the eleven category totals |
| `Features.GamblingShare` | app.py:65 | GAMBLING_PERCENTAGE times TOTAL_SPENDING is the gambling total when the total is positive; it is 0 otherwise |
| `Features.GamblingShareInUnitInterval` | app.py:65 | with non-negative categories GAMBLING_PERCENTAGE lies in [0, 1] |
| `Features.GamblingShareUnboundedForNegativeSpending` | app.py:62-65 | a negative category (allowed by the schema) gives a share of 2 |
| `Features.HighDebtFlag` | app.py:66 | IS_HIGH_DEBT is 0 or 1, and 1 exactly when DTI > 0.5 |
| `Features.LowSavingsFlag` | app.py:67 | IS_LOW_SAVINGS is 0 or 1, and 1 exactly when STI < 0.2 |
| `Features.FlagsFollowRatios` | app.py:66-67 | both flags follow their ratios in both directions (1 when past the cutoff, 0 when not) |
| `Features.Derive` | app.py:59-67 | the derived record: DTI and STI times INCOME give DEBT and SAVINGS when INCOME > 0, else the fallbacks 1 and 0; CUR is the utilisation ratio; TOTAL_SPENDING is the sum of the eleven categories; the gambling share times the total is the gambling total when the total is positive, else 0; each flag is 0 or 1 and is 1 exactly when its ratio is past the cutoff |
| `Features.NoIncomeRaisesBothFlags` | app.py:59-67 | a non-positive INCOME gives DTI = 1, STI = 0 and raises both flags |
| `Features.ExampleBoundarySavings` | app.py:59-67 | INCOME 5000, SAVINGS 1000, DEBT 4000, no spending: DTI 0.8, STI 0.2, CUR 0.4, IS_HIGH_DEBT 1, IS_LOW_SAVINGS 0 |
| `Features.ExampleAllZero` | app.py:59-67 | an all-zero request takes every fallback: DTI 1, STI 0, CUR 1, both flags 1 |
| `Features.FeatureNamesDistinct` | app.py:80 | the seven feature names are pairwise distinct, so a name identifies its position in the feature order |
| `Features.FeatureVector` | app.py:70 | the model input has seven entries, entry i being the value of the i-th feature of the fixed order |
| `Features.FeatureNamesFollowOrder` | app.py:80 | the names zipped with the attributions follow the same fixed feature order |
| `Scoring.Decide` | app.py:76 | APPROVED exactly when the score is at least 700, REJECTED exactly when below |
| `Scoring.StatusText` | app.py:76 | the status strings: the text is "REJECTED" exactly for a rejection and "APPROVED" exactly for an approval, so the test `loan_status == "REJECTED"` of app.py:93 recognises the rejected status |
| `Scoring.ScoreOf` | app.py:70-73 | the score is `predict` applied to the seven derived feature values in the fixed order DTI, STI, CUR, TOTAL_SPENDING, GAMBLING_PERCENTAGE, IS_HIGH_DEBT, IS_LOW_SAVINGS |
| `Scoring.ThresholdIsApproved` | app.py:76 | a score of exactly 700 is approved, 699.99 is rejected |
| `Scoring.DecideMonotone` | app.py:76 | raising the score never turns an approval into a rejection |
| `Ranking.Zip` | app.py:80 | pair i holds name i and impact i; there are as many pairs as the shorter list has entries |
| `Ranking.InsertAt` | app.py:83 | one insertion step: the sorted prefix with the next entry inserted stably; the rest of the array is unchanged |
| `Ranking.SortByImpact` | app.py:83 | the array afterwards is the stable insertion sort of its old contents |
| `Ranking.InsertionSortPermutes` | app.py:83 | the sorted list is a permutation of the input pairs |
| `Ranking.InsertionSortSorted` | app.py:83 | the sorted list is ordered by non-increasing absolute impact |
| `Ranking.InsertionSortStable` | app.py:83 | for every absolute impact, the pairs with that impact keep their input order |
| `Ranking.StableKeepsTieOrder` | app.py:83 | in a stable reordering, two tied entries come from input positions in the same order |
| `Ranking.StableSortIsUnique` | app.py:83 | two sorted, stable reorderings of one list are equal, so every stable sort gives the insertion sort's result |
| `Explanation.TopOf` | app.py:88 | the slice `[:3]` is the first min(3, n) entries |
| `Explanation.LineReadsBack` | app.py:89 | an explanation line is "- ", the feature name, " impacted the score by ", the formatted impact and a line break: name and impact sit at fixed positions and can be read back |
| `Explanation.ReasonReadsBack` | app.py:90 | a reason is the feature name, " affected the score by " and the formatted impact: the name is its prefix and the impact its suffix |
| `Explanation.ExplanationBreakCount` | app.py:86-89 | the explanation holds exactly one line break more than it has entries |
| `Explanation.ExplanationLineAt` | app.py:86-89 | the explanation is the header, the lines of the entries before i, the line of entry i and the rest; the part before entry i's line holds exactly i + 1 line breaks and ends with one, so the line after the first i + 1 line breaks is entry i's |
| `Explanation.BuildExplanation` | app.py:85-90 | the loop returns the header followed by the lines of the first three entries, and the reasons of the same entries |
| `Service.NarrationOf` | app.py:38-52 | a narrator success is returned as is; a failure gives "AI Explanation Error: " followed by the error text |
| `Service.RankedAttributions` | app.py:79-83 | the ranked pairs are a permutation of the (name, impact) pairs zipped in feature order, sorted by non-increasing absolute impact, with every group of tied pairs in its original order |
| `Service.MetricsOf` | app.py:100-108 | `financial_metrics`: DTI, STI, CUR, TOTAL_SPENDING (the category sum) and the gambling share are each rounded; the two flags are unrounded, 0 or 1, and read off the unrounded ratios |
| `Service.Respond` | app.py:54-109 | the response: credit_score is the rounded score; loan_status is "APPROVED" exactly when the unrounded score is at least 700 and "REJECTED" exactly when below; the explanation is the text of the top three ranked pairs; the detailed explanation is the narration of their reasons (or the labelled error) for a rejection and the canned message for an approval; the metrics are those of the applicant |
| `Service.ComputeCreditScore` | app.py:54-109 | the method (array sort, explanation loop, conditional narrator call) returns the response the response function describes |
| `Service.DecisionIgnoresNarrator` | app.py:93-108 | the score, the status, the explanation and the metrics are the same whatever the narrator does |
| `Service.ApprovalNeverNarrates` | app.py:93 | an approval carries the canned message, and any two narrators give the same response |
| `Service.NarratorFailureIsRecovered` | app.py:93 | a rejection whose narrator fails still gets a response, with the labelled error as its detailed explanation |
| `Service.RankingIsStableSort` | app.py:80-83 | the ranked list is the seven (name, impact) pairs in feature order, permuted into a sorted, stable order |
| `Service.TiesKeepFeatureOrder` | app.py:80-83 | for any number of explainer impacts, two ranked pairs that tie on absolute impact are the zipped pairs of two feature-list positions in the same order, and carry those positions' names |
| `Service.ExplanationReportsTopThree` | app.py:85-90 | with seven impacts the explanation is the header and three lines, and there are three reasons; both describe the first three ranked pairs, whose absolute impacts are at least those of the other four |

## Left out

- Model loading and explainer construction (app.py:12-16): the regression model and the
  SHAP explainer are opaque parameters, `predict` and `explain`. What they compute is not
  modelled.
- The OpenAI request (app.py:43-50): its prompt wording and the network call are not
  modelled. Only the outcome, a success carrying text or a failure carrying an error
  message, reaches `Service.NarrationOf`. Also not modelled: narrator text that differs
  between runs, and the open question of a timeout.
- `round(x, 2)` and `{impact:.2f}` are parameters. Floating point (rounding error,
  infinities, NaN in the sort key) is not modelled: all arithmetic is on exact reals.
- The human-readable key texts of `financial_metrics` (app.py:101-103) are not kept.
  The `Service.Metrics` fields stand for the seven keyed entries.
- The FastAPI app, the request schema's type validation and the handler that turns any
  exception into an HTTP 500 (app.py:18-36, app.py:111-117) are HTTP plumbing and are not
  modelled.
- The API key constant (app.py:10) is configuration and is not modelled.
- appp.py (dashboard, charts, HTTP client) and sample.py (offline training script) are
  not part of this model.
- Python's `list.sort` (Timsort) is modelled as an insertion sort. The result is the same
  list: `Ranking.StableSortIsUnique`. Sort speed is not modelled.
- Service.ExplanationReportsTopThree: assumes the explainer returns at least seven
  impacts and that formatting never produces a line break. With fewer impacts, `zip`
  truncates; `Explanation.TopOf` and `Explanation.BuildExplanation` cover that case
  generally.
