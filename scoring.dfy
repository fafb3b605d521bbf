/** Scorer: the opaque regression model applied to the feature vector, and the loan
    decision taken from its score (app.py, lines 70-76). */
module Scoring {
  import opened Features

  /** A score at or above this value approves the loan. */
  const ApprovalThreshold: real := 700.0

  datatype LoanStatus = Approved | Rejected

  /** The decision rule: APPROVED exactly when the score reaches the threshold. */
  function Decide(score: real): (s: LoanStatus)
    ensures s == Approved <==> score >= ApprovalThreshold
    ensures s == Rejected <==> score < ApprovalThreshold
  {
    if score >= ApprovalThreshold then Approved else Rejected
  }

  /** The `loan_status` string of the response. The string test `loan_status == "REJECTED"`
      recognises exactly the rejected status, and the two status strings are distinct. */
  function StatusText(s: LoanStatus): (r: string)
    ensures r == "REJECTED" <==> s == Rejected
    ensures r == "APPROVED" <==> s == Approved
  {
    assert "APPROVED"[0] != "REJECTED"[0];
    match s
    case Approved => "APPROVED"
    case Rejected => "REJECTED"
  }

  /** A higher score never turns an approval into a rejection. */
  lemma DecideMonotone(lo: real, hi: real)
    requires lo <= hi
    ensures Decide(lo) == Approved ==> Decide(hi) == Approved
    ensures Decide(hi) == Rejected ==> Decide(lo) == Rejected
  {
  }

  /** The threshold itself is an approval. */
  lemma ThresholdIsApproved()
    ensures Decide(700.0) == Approved
    ensures Decide(699.99) == Rejected
  {
  }

  /** The model's score for one applicant: `predict` stands for the loaded regression
      model, applied to the seven features in their fixed order. */
  function ScoreOf(a: Applicant, predict: seq<real> -> real): (r: real)
    ensures r == predict(seq(|FeatureOrder|, i requires 0 <= i < |FeatureOrder| => ValueOf(Derive(a), FeatureOrder[i])))
  {
    var v := FeatureVector(Derive(a));
    assert v == seq(|FeatureOrder|, i requires 0 <= i < |FeatureOrder| => ValueOf(Derive(a), FeatureOrder[i]));
    predict(v)
  }
}
