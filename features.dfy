/** Feature Deriver: the seven model inputs computed from the raw applicant fields
    (app.py, lines 59-70). Python floats are modelled as exact reals. */
module Features {

  /** The fourteen fields of one scoring request. */
  datatype Applicant = Applicant(
    income: real, savings: real, debt: real,
    groceries: real, clothing: real, housing: real, education: real, health: real,
    travel: real, entertainment: real, gambling: real, utilities: real, tax: real, fines: real)

  /** The derived features; the two flags are Python ints that are always 0 or 1. */
  datatype Derived = Derived(
    dti: real, sti: real, cur: real, totalSpending: real, gamblingPercentage: real,
    isHighDebt: int, isLowSavings: int)

  /** The seven features, one constructor each. */
  datatype Feature = Dti | Sti | Cur | TotalSpending | GamblingPercentage | IsHighDebt | IsLowSavings

  // Zero-denominator fallbacks and flag cutoffs.
  const DtiFallback: real := 1.0
  const StiFallback: real := 0.0
  const CurFallback: real := 1.0
  const GamblingFallback: real := 0.0
  const HighDebtCutoff: real := 0.5
  const LowSavingsCutoff: real := 0.2

  /** Debt-to-income ratio; an income that is not positive counts as maximal debt burden. */
  function DebtToIncome(a: Applicant): (r: real)
    ensures a.income > 0.0 ==> r * a.income == a.debt
    ensures a.income <= 0.0 ==> r == DtiFallback
    ensures a.income > 0.0 && a.debt >= 0.0 ==> r >= 0.0
  {
    if a.income > 0.0 then a.debt / a.income else DtiFallback
  }

  /** Savings-to-income ratio; an income that is not positive gives 0. */
  function SavingsToIncome(a: Applicant): (r: real)
    ensures a.income > 0.0 ==> r * a.income == a.savings
    ensures a.income <= 0.0 ==> r == StiFallback
    ensures a.income > 0.0 && a.savings >= 0.0 ==> r >= 0.0
  {
    if a.income > 0.0 then a.savings / a.income else StiFallback
  }

  /** DEBT + SAVINGS + INCOME, the denominator of the credit-utilisation ratio. */
  function Resources(a: Applicant): (r: real)
  {
    a.debt + a.savings + a.income
  }

  /** Credit-utilisation ratio: debt's share of debt, savings and income together. */
  function CreditUtilization(a: Applicant): (r: real)
    ensures Resources(a) > 0.0 ==> r * Resources(a) == a.debt
    ensures Resources(a) <= 0.0 ==> r == CurFallback
    ensures a.income >= 0.0 && a.savings >= 0.0 && a.debt >= 0.0 ==> 0.0 <= r <= 1.0
  {
    if Resources(a) > 0.0 then
      assert a.income >= 0.0 && a.savings >= 0.0 && a.debt >= 0.0 ==> a.debt <= Resources(a);
      a.debt / Resources(a)
    else
      CurFallback
  }

  /** The eleven twelve-month spending totals, in the order they are summed. */
  function Categories(a: Applicant): (s: seq<real>)
    ensures |s| == 11 && s[GamblingIndex] == a.gambling
  {
    [a.groceries, a.clothing, a.housing, a.education, a.health, a.travel,
     a.entertainment, a.gambling, a.utilities, a.tax, a.fines]
  }

  const GamblingIndex: nat := 7

  /** Python's `sum`: a left fold with `+` starting from 0. */
  function Sum(s: seq<real>): (r: real)
  {
    if s == [] then 0.0 else Sum(s[..|s| - 1]) + s[|s| - 1]
  }

  /** Every element of a sequence of non-negative reals lies between 0 and its sum. */
  lemma {:induction false} SumBoundsElements(s: seq<real>)
    requires forall i :: 0 <= i < |s| ==> s[i] >= 0.0
    ensures Sum(s) >= 0.0
    ensures forall i :: 0 <= i < |s| ==> s[i] <= Sum(s)
  {
    if s != [] {
      var init := s[..|s| - 1];
      assert forall i :: 0 <= i < |init| ==> init[i] == s[i];
      SumBoundsElements(init);
    }
  }

  function TotalSpendingOf(a: Applicant): (r: real)
  {
    Sum(Categories(a))
  }

  /** TOTAL_SPENDING is the plain sum of the eleven categories. */
  lemma TotalSpendingIsCategorySum(a: Applicant)
    ensures TotalSpendingOf(a) ==
      a.groceries + a.clothing + a.housing + a.education + a.health + a.travel +
      a.entertainment + a.gambling + a.utilities + a.tax + a.fines
  {
    var s := Categories(a);
    forall k | 0 <= k < |s| ensures Sum(s[..k + 1]) == Sum(s[..k]) + s[k] {
      assert s[..k + 1][..k] == s[..k];
    }
    assert s[..0] == [] && s[..11] == s;
    assert Sum(s[..3]) == s[0] + s[1] + s[2];
    assert Sum(s[..6]) == s[0] + s[1] + s[2] + s[3] + s[4] + s[5];
    assert Sum(s[..9]) == s[0] + s[1] + s[2] + s[3] + s[4] + s[5] + s[6] + s[7] + s[8];
  }

  /** Gambling share of total spending; no spending (or a non-positive total) gives 0. */
  function GamblingShare(a: Applicant): (r: real)
    ensures TotalSpendingOf(a) > 0.0 ==> r * TotalSpendingOf(a) == a.gambling
    ensures TotalSpendingOf(a) <= 0.0 ==> r == GamblingFallback
  {
    var total := TotalSpendingOf(a);
    if total > 0.0 then a.gambling / total else GamblingFallback
  }

  /** With non-negative spending categories the gambling share is a fraction in [0, 1]. */
  lemma GamblingShareInUnitInterval(a: Applicant)
    requires forall i :: 0 <= i < 11 ==> Categories(a)[i] >= 0.0
    ensures 0.0 <= GamblingShare(a) <= 1.0
  {
    SumBoundsElements(Categories(a));
  }

  /** Without a sign check on the inputs the share can exceed 1 (a negative category). */
  lemma GamblingShareUnboundedForNegativeSpending()
    ensures var a := Applicant(1.0, 0.0, 0.0, -5.0, 0.0, 0.0, 0.0, 0.0, 0.0, 0.0, 10.0, 0.0, 0.0, 0.0);
            TotalSpendingOf(a) == 5.0 && GamblingShare(a) == 2.0
  {
    var a := Applicant(1.0, 0.0, 0.0, -5.0, 0.0, 0.0, 0.0, 0.0, 0.0, 0.0, 10.0, 0.0, 0.0, 0.0);
    TotalSpendingIsCategorySum(a);
  }

  /** IS_HIGH_DEBT: 1 exactly when the debt-to-income ratio is above the cutoff. */
  function HighDebtFlag(dti: real): (f: int)
    ensures f == 0 || f == 1
    ensures f == 1 <==> dti > HighDebtCutoff
  {
    if dti > HighDebtCutoff then 1 else 0
  }

  /** IS_LOW_SAVINGS: 1 exactly when the savings-to-income ratio is below the cutoff. */
  function LowSavingsFlag(sti: real): (f: int)
    ensures f == 0 || f == 1
    ensures f == 1 <==> sti < LowSavingsCutoff
  {
    if sti < LowSavingsCutoff then 1 else 0
  }

  /** All seven derived features of one applicant: the two income ratios, the utilisation
      ratio, the spending total and share, and the two flags read off the ratios. */
  function Derive(a: Applicant): (r: Derived)
    ensures a.income > 0.0 ==> r.dti * a.income == a.debt && r.sti * a.income == a.savings
    ensures a.income <= 0.0 ==> r.dti == DtiFallback && r.sti == StiFallback
    ensures r.cur == CreditUtilization(a)
    ensures r.totalSpending ==
      a.groceries + a.clothing + a.housing + a.education + a.health + a.travel +
      a.entertainment + a.gambling + a.utilities + a.tax + a.fines
    ensures r.totalSpending > 0.0 ==> r.gamblingPercentage * r.totalSpending == a.gambling
    ensures r.totalSpending <= 0.0 ==> r.gamblingPercentage == GamblingFallback
    ensures r.isHighDebt in {0, 1} && (r.isHighDebt == 1 <==> r.dti > HighDebtCutoff)
    ensures r.isLowSavings in {0, 1} && (r.isLowSavings == 1 <==> r.sti < LowSavingsCutoff)
  {
    TotalSpendingIsCategorySum(a);
    var dti := DebtToIncome(a);
    var sti := SavingsToIncome(a);
    Derived(dti, sti, CreditUtilization(a), TotalSpendingOf(a), GamblingShare(a),
            HighDebtFlag(dti), LowSavingsFlag(sti))
  }

  /** The value of one named feature. */
  function ValueOf(d: Derived, f: Feature): real
  {
    match f
    case Dti => d.dti
    case Sti => d.sti
    case Cur => d.cur
    case TotalSpending => d.totalSpending
    case GamblingPercentage => d.gamblingPercentage
    case IsHighDebt => d.isHighDebt as real
    case IsLowSavings => d.isLowSavings as real
  }

  /** The fixed order in which the model and the explainer receive the features. */
  const FeatureOrder: seq<Feature> :=
    [Dti, Sti, Cur, TotalSpending, GamblingPercentage, IsHighDebt, IsLowSavings]

  /** The feature names the explanation uses. */
  function NameOf(f: Feature): string
  {
    match f
    case Dti => "DTI"
    case Sti => "STI"
    case Cur => "CUR"
    case TotalSpending => "TOTAL_SPENDING"
    case GamblingPercentage => "GAMBLING_PERCENTAGE"
    case IsHighDebt => "IS_HIGH_DEBT"
    case IsLowSavings => "IS_LOW_SAVINGS"
  }

  /** The list of names zipped with the attributions, in feature order. */
  const FeatureNames: seq<string> :=
    ["DTI", "STI", "CUR", "TOTAL_SPENDING", "GAMBLING_PERCENTAGE", "IS_HIGH_DEBT", "IS_LOW_SAVINGS"]

  /** The name list and the feature order agree position by position. */
  lemma FeatureNamesFollowOrder()
    ensures |FeatureNames| == |FeatureOrder| == 7
    ensures forall i :: 0 <= i < 7 ==> FeatureNames[i] == NameOf(FeatureOrder[i])
  {
  }

  /** The seven feature names are pairwise distinct, so a name identifies its position. */
  lemma FeatureNamesDistinct()
    ensures forall i, j :: 0 <= i < j < |FeatureNames| ==> FeatureNames[i] != FeatureNames[j]
  {
  }

  /** The model input: the derived features, one per position of the fixed order. */
  function FeatureVector(d: Derived): (v: seq<real>)
    ensures |v| == |FeatureOrder|
    ensures forall i :: 0 <= i < |v| ==> v[i] == ValueOf(d, FeatureOrder[i])
  {
    [d.dti, d.sti, d.cur, d.totalSpending, d.gamblingPercentage,
     d.isHighDebt as real, d.isLowSavings as real]
  }

  /** The two flags follow their ratios, in both directions. */
  lemma FlagsFollowRatios(a: Applicant)
    ensures Derive(a).isHighDebt == 1 <==> DebtToIncome(a) > HighDebtCutoff
    ensures Derive(a).isHighDebt == 0 <==> DebtToIncome(a) <= HighDebtCutoff
    ensures Derive(a).isLowSavings == 1 <==> SavingsToIncome(a) < LowSavingsCutoff
    ensures Derive(a).isLowSavings == 0 <==> SavingsToIncome(a) >= LowSavingsCutoff
  {
  }

  /** An applicant without positive income is flagged as both high-debt and low-savings. */
  lemma NoIncomeRaisesBothFlags(a: Applicant)
    requires a.income <= 0.0
    ensures Derive(a).dti == 1.0 && Derive(a).sti == 0.0
    ensures Derive(a).isHighDebt == 1 && Derive(a).isLowSavings == 1
  {
  }

  /** INCOME=5000, SAVINGS=1000, DEBT=4000, no spending: STI = 0.2 is not below the cutoff. */
  lemma ExampleBoundarySavings()
    ensures var d := Derive(Applicant(5000.0, 1000.0, 4000.0, 0.0, 0.0, 0.0, 0.0, 0.0, 0.0, 0.0, 0.0, 0.0, 0.0, 0.0));
            d == Derived(0.8, 0.2, 0.4, 0.0, 0.0, 1, 0)
  {
    var a := Applicant(5000.0, 1000.0, 4000.0, 0.0, 0.0, 0.0, 0.0, 0.0, 0.0, 0.0, 0.0, 0.0, 0.0, 0.0);
    TotalSpendingIsCategorySum(a);
  }

  /** An all-zero request takes every fallback. */
  lemma ExampleAllZero()
    ensures var d := Derive(Applicant(0.0, 0.0, 0.0, 0.0, 0.0, 0.0, 0.0, 0.0, 0.0, 0.0, 0.0, 0.0, 0.0, 0.0));
            d == Derived(1.0, 0.0, 1.0, 0.0, 0.0, 1, 1)
  {
    var a := Applicant(0.0, 0.0, 0.0, 0.0, 0.0, 0.0, 0.0, 0.0, 0.0, 0.0, 0.0, 0.0, 0.0, 0.0);
    TotalSpendingIsCategorySum(a);
  }
}
