/**
 * The eleven-check classifier of backend/utils/fraud_checker.py. Five
 * checks label a claim fraudulent, then six label it suspicious; the first
 * check that fires decides, and a claim none of them flags is clean.
 * The upload route does not call this classifier; it is a separate rule set.
 */
module FraudChecker {
  import opened Wrappers
  import opened Text
  import opened Claims
  import opened Placeholder

  /** Why the classifier decided as it did, one constructor per `return`. */
  datatype Reason =
    | MissingCritical
    | TemplateText
    | HospitalNotInDataset
    | DiseaseNotInDataset
    | TreatmentMismatch
    | HighAmount
    | EmergencyTreatment
    | ExpensiveForCommon
    | IrregularClaimId
    | RoundAmount
    | GenericPatientName
    | AllChecksPassed

  /** The reason as the classifier words it. */
  function ReasonText(r: Reason): string
  {
    match r
    case MissingCritical => "Missing critical claim information"
    case TemplateText => "Document contains template/placeholder text"
    case HospitalNotInDataset => "Hospital not in dataset"
    case DiseaseNotInDataset => "Disease not in dataset"
    case TreatmentMismatch => "Treatment mismatch for disease"
    case HighAmount => "High claim amount requires additional verification"
    case EmergencyTreatment => "Emergency treatment requires additional review"
    case ExpensiveForCommon => "Expensive treatment for common condition requires review"
    case IrregularClaimId => "Claim ID format appears irregular"
    case RoundAmount => "Suspicious round-number claim amount"
    case GenericPatientName => "Patient name appears to be placeholder or generic"
    case AllChecksPassed => "All checks passed - claim appears legitimate"
  }

  /** Only the last `return` gives the all-passed text: every other reason text has another length. */
  lemma OnlyCleanReadsAllPassed(r: Reason)
    ensures ReasonText(r) == ReasonText(AllChecksPassed) <==> r == AllChecksPassed
  {
    assert |ReasonText(AllChecksPassed)| == 44;
    assert r != AllChecksPassed ==> |ReasonText(r)| != 44;
  }

  const HighAmountLimit := 100000
  const EmergencyKeywords := ["emergency", "urgent", "critical", "immediate", "trauma"]
  const ExpensiveTreatments := ["surgery", "operation", "transplant", "bypass", "angioplasty"]
  const CommonDiseases := ["fever", "cold", "headache", "cough"]
  const CommonFakeNames := ["john doe", "jane doe", "test user", "sample patient", "demo patient"]

  /** `any(word in text for word in words)`. */
  predicate MentionsAny(text: string, words: seq<string>)
  {
    exists i :: 0 <= i < |words| && Contains(text, words[i])
  }

  // Check 1.
  predicate MissingCriticalInfo(claim: ClaimData)
  {
    Strip(claim.hospital) == "" || Strip(claim.disease) == "" || Strip(claim.treatment) == "" || Strip(claim.patientName) == ""
  }

  /** The lowered text the template patterns are searched in. */
  function CombinedText(claim: ClaimData): string
  {
    Lower(Strip(claim.hospital) + " " + Strip(claim.disease) + " " + Strip(claim.treatment) + " " + Strip(claim.patientName))
  }

  // Check 2.
  predicate HasTemplateText(claim: ClaimData)
  {
    ContainsPlaceholder(CombinedText(claim))
  }

  // Check 3: exact, case-sensitive comparison with the HospitalName column.
  predicate HospitalKnown(claim: ClaimData, hospitals: seq<HospitalRow>)
  {
    exists k :: 0 <= k < |hospitals| && hospitals[k].hospitalName == Strip(claim.hospital)
  }

  // Check 4: the first disease row whose name equals the claim's, ignoring case.
  function FindDisease(claim: ClaimData, diseases: seq<DiseaseRow>): (r: Option<nat>)
    ensures r.Some? ==> r.value < |diseases|
    ensures r.Some? ==> Lower(diseases[r.value].disease) == Lower(Strip(claim.disease))
    ensures r.Some? ==> forall j :: 0 <= j < r.value ==> Lower(diseases[j].disease) != Lower(Strip(claim.disease))
    ensures r.None? <==> forall j :: 0 <= j < |diseases| ==> Lower(diseases[j].disease) != Lower(Strip(claim.disease))
  {
    var disease := Strip(claim.disease);
    FirstIndex(diseases, (row: DiseaseRow) => Lower(row.disease) == Lower(disease))
  }

  // Check 5.
  predicate TreatmentValid(claim: ClaimData, row: DiseaseRow)
  {
    Lower(Strip(claim.treatment)) in ValidTreatments(row.treatment)
  }

  /** None of the five fraudulent checks fires. */
  predicate PassesFraudChecks(claim: ClaimData, hospitals: seq<HospitalRow>, diseases: seq<DiseaseRow>)
  {
    && !MissingCriticalInfo(claim)
    && !HasTemplateText(claim)
    && HospitalKnown(claim, hospitals)
    && FindDisease(claim, diseases).Some?
    && TreatmentValid(claim, diseases[FindDisease(claim, diseases).value])
  }

  // Checks 6 to 11.
  predicate AmountHigh(claim: ClaimData)
  {
    claim.amount > HighAmountLimit
  }

  predicate EmergencyTreatmentNamed(claim: ClaimData)
  {
    MentionsAny(Lower(Strip(claim.treatment)), EmergencyKeywords)
  }

  predicate ExpensiveForCommonDisease(claim: ClaimData)
  {
    MentionsAny(Lower(Strip(claim.treatment)), ExpensiveTreatments) && MentionsAny(Lower(Strip(claim.disease)), CommonDiseases)
  }

  predicate ShortClaimId(claim: ClaimData)
  {
    |Strip(claim.claimId)| < 5
  }

  predicate RoundNumberAmount(claim: ClaimData)
  {
    claim.amount > 0 && claim.amount % 10000 == 0 && claim.amount > 50000
  }

  predicate GenericName(claim: ClaimData)
  {
    Lower(Strip(claim.patientName)) in CommonFakeNames
  }

  /** The reasons the five fraudulent checks give. */
  predicate IsFraudReason(r: Reason)
  {
    r.MissingCritical? || r.TemplateText? || r.HospitalNotInDataset? || r.DiseaseNotInDataset? || r.TreatmentMismatch?
  }

  /** Checks 1 to 5 in order: the reason of the first that fires, if any. */
  function FraudulentCheck(claim: ClaimData, hospitals: seq<HospitalRow>, diseases: seq<DiseaseRow>): (r: Option<Reason>)
    ensures r.None? <==> PassesFraudChecks(claim, hospitals, diseases)
    ensures r.Some? ==> IsFraudReason(r.value)
  {
    if MissingCriticalInfo(claim) then Some(MissingCritical)
    else if HasTemplateText(claim) then Some(TemplateText)
    else if !HospitalKnown(claim, hospitals) then Some(HospitalNotInDataset)
    else
      match FindDisease(claim, diseases)
      case None => Some(DiseaseNotInDataset)
      case Some(d) =>
        if !TreatmentValid(claim, diseases[d]) then Some(TreatmentMismatch)
        else None
  }

  /**
   * `check_fraud` of backend/utils/fraud_checker.py: the fraudulent checks
   * first, then the suspicion checks; it only reads the claim.
   */
  function CheckFraud(claim: ClaimData, hospitals: seq<HospitalRow>, diseases: seq<DiseaseRow>): (v: Verdict<Reason>)
    ensures v.status == Fraudulent <==> !PassesFraudChecks(claim, hospitals, diseases)
    ensures v.status == Fraudulent <==> IsFraudReason(v.reason)
  {
    match FraudulentCheck(claim, hospitals, diseases)
    case Some(r) => Verdict(Fraudulent, r)
    case None => SuspicionChecks(claim)
  }

  /**
   * The `(fraud_status, fraud_reason)` pair `check_fraud` returns: the
   * verdict's label and its reason text. The label is "fraudulent" exactly
   * when a fraudulent check fires, and "clean" exactly when the reason is
   * the all-passed text.
   */
  function CheckFraudTexts(claim: ClaimData, hospitals: seq<HospitalRow>, diseases: seq<DiseaseRow>): (r: (string, string))
    ensures r.0 in {"clean", "suspicious", "fraudulent"}
    ensures r.0 == "fraudulent" <==> !PassesFraudChecks(claim, hospitals, diseases)
    ensures r.0 == "clean" <==> r.1 == ReasonText(AllChecksPassed)
  {
    var v := CheckFraud(claim, hospitals, diseases);
    OnlyCleanReadsAllPassed(v.reason);
    (StatusName(v.status), ReasonText(v.reason))
  }

  /** Checks 6 to 11, run on a claim that passed the five fraudulent checks. */
  function SuspicionChecks(claim: ClaimData): (v: Verdict<Reason>)
    ensures v.status != Fraudulent
    ensures v.reason.HighAmount? || v.reason.EmergencyTreatment? || v.reason.ExpensiveForCommon? || v.reason.IrregularClaimId?
      || v.reason.RoundAmount? || v.reason.GenericPatientName? || v.reason.AllChecksPassed?
    ensures v.status == Clean <==> v.reason == AllChecksPassed
  {
    if AmountHigh(claim) then Verdict(Suspicious, HighAmount)
    else if EmergencyTreatmentNamed(claim) then Verdict(Suspicious, EmergencyTreatment)
    else if ExpensiveForCommonDisease(claim) then Verdict(Suspicious, ExpensiveForCommon)
    else if ShortClaimId(claim) then Verdict(Suspicious, IrregularClaimId)
    else if RoundNumberAmount(claim) then Verdict(Suspicious, RoundAmount)
    else if GenericName(claim) then Verdict(Suspicious, GenericPatientName)
    else Verdict(Clean, AllChecksPassed)
  }

  /** A blank hospital, disease, treatment or patient name is reported before anything else. */
  lemma MissingInformationFirst(claim: ClaimData, hospitals: seq<HospitalRow>, diseases: seq<DiseaseRow>)
    requires MissingCriticalInfo(claim)
    ensures CheckFraud(claim, hospitals, diseases) == Verdict(Fraudulent, MissingCritical)
  {
  }

  /** A suspicious claim has passed all five fraudulent checks. */
  lemma SuspiciousPassedFraudChecks(claim: ClaimData, hospitals: seq<HospitalRow>, diseases: seq<DiseaseRow>)
    requires CheckFraud(claim, hospitals, diseases).status == Suspicious
    ensures !MissingCriticalInfo(claim) && !HasTemplateText(claim) && HospitalKnown(claim, hospitals)
    ensures FindDisease(claim, diseases).Some? && TreatmentValid(claim, diseases[FindDisease(claim, diseases).value])
  {
  }

  /**
   * Hospital membership is exact: a sheet holding only a row named with a capital
   * letter accepts a claim spelling it the same way and rejects the claim
   * that spells it in lower case.
   */
  lemma HospitalLookupIsCaseSensitive(claim: ClaimData, row: HospitalRow)
    requires row.hospitalName != [] && !IsSpace(row.hospitalName[0]) && !IsSpace(row.hospitalName[|row.hospitalName| - 1])
    requires Lower(row.hospitalName) != row.hospitalName
    ensures HospitalKnown(claim.(hospital := row.hospitalName), [row])
    ensures !HospitalKnown(claim.(hospital := Lower(row.hospitalName)), [row])
  {
    ExactNameKnown(claim, row);
    LowerUntrimmed(row.hospitalName);
    OtherNameUnknown(claim.(hospital := Lower(row.hospitalName)), row);
  }

  lemma ExactNameKnown(claim: ClaimData, row: HospitalRow)
    requires row.hospitalName != [] && !IsSpace(row.hospitalName[0]) && !IsSpace(row.hospitalName[|row.hospitalName| - 1])
    ensures HospitalKnown(claim.(hospital := row.hospitalName), [row])
  {
    StripUntrimmed(row.hospitalName);
    assert [row][0].hospitalName == Strip(claim.(hospital := row.hospitalName).hospital);
  }

  lemma OtherNameUnknown(claim: ClaimData, row: HospitalRow)
    requires Strip(claim.hospital) != row.hospitalName
    ensures !HospitalKnown(claim, [row])
  {
  }

  /**
   * The disease lookup ignores case: two claims whose diseases differ only
   * in the case of their letters (or in surrounding whitespace) get the
   * same verdict.
   */
  lemma DiseaseLookupIgnoresCase(claim: ClaimData, disease: string, hospitals: seq<HospitalRow>, diseases: seq<DiseaseRow>)
    requires Lower(Strip(disease)) == Lower(Strip(claim.disease))
    ensures CheckFraud(claim.(disease := disease), hospitals, diseases) == CheckFraud(claim, hospitals, diseases)
  {
    var other := claim.(disease := disease);
    assert |Lower(Strip(disease))| == |Strip(disease)|;
    assert MissingCriticalInfo(other) == MissingCriticalInfo(claim);
    SameDiseaseKeySameText(claim, disease);
    SameDiseaseKeySameRow(claim, disease, diseases);
    FraudulentCheckCongruent(other, claim, hospitals, diseases);
    SuspicionChecksCongruent(other, claim);
  }

  lemma SameDiseaseKeySameText(claim: ClaimData, disease: string)
    requires Lower(Strip(disease)) == Lower(Strip(claim.disease))
    ensures CombinedText(claim.(disease := disease)) == CombinedText(claim)
  {
    var hospital, treatment, name := Strip(claim.hospital), Strip(claim.treatment), Strip(claim.patientName);
    SpliceLower(hospital + " ", Strip(disease), Strip(claim.disease), " " + treatment + " " + name);
    Regroup(hospital, Strip(disease), treatment, name);
    Regroup(hospital, Strip(claim.disease), treatment, name);
  }

  /** The combined text of four fields, grouped around the second one. */
  lemma Regroup(a: string, x: string, b: string, c: string)
    ensures a + " " + x + " " + b + " " + c == (a + " ") + x + (" " + b + " " + c)
  {
  }

  /** Replacing a middle piece by one with the same lowering leaves the lowering of the whole unchanged. */
  lemma SpliceLower(head: string, x: string, y: string, tail: string)
    requires Lower(x) == Lower(y)
    ensures Lower(head + x + tail) == Lower(head + y + tail)
  {
    LowerAppend(head + x, tail);
    LowerAppend(head + y, tail);
    LowerAppend(head, x);
    LowerAppend(head, y);
  }

  lemma SameDiseaseKeySameRow(claim: ClaimData, disease: string, diseases: seq<DiseaseRow>)
    requires Lower(Strip(disease)) == Lower(Strip(claim.disease))
    ensures FindDisease(claim.(disease := disease), diseases) == FindDisease(claim, diseases)
  {
    var a := Strip(disease);
    var b := Strip(claim.disease);
    assert ((row: DiseaseRow) => Lower(row.disease) == Lower(a)) == ((row: DiseaseRow) => Lower(row.disease) == Lower(b));
  }

  /** The five fraudulent checks see a claim only through these values. */
  lemma FraudulentCheckCongruent(c1: ClaimData, c2: ClaimData, hospitals: seq<HospitalRow>, diseases: seq<DiseaseRow>)
    requires MissingCriticalInfo(c1) == MissingCriticalInfo(c2)
    requires CombinedText(c1) == CombinedText(c2)
    requires Strip(c1.hospital) == Strip(c2.hospital)
    requires FindDisease(c1, diseases) == FindDisease(c2, diseases)
    requires Lower(Strip(c1.treatment)) == Lower(Strip(c2.treatment))
    ensures FraudulentCheck(c1, hospitals, diseases) == FraudulentCheck(c2, hospitals, diseases)
  {
  }

  /** The six suspicion checks see a claim only through these values. */
  lemma SuspicionChecksCongruent(c1: ClaimData, c2: ClaimData)
    requires c1.amount == c2.amount
    requires Lower(Strip(c1.treatment)) == Lower(Strip(c2.treatment))
    requires Lower(Strip(c1.disease)) == Lower(Strip(c2.disease))
    requires |Strip(c1.claimId)| == |Strip(c2.claimId)|
    requires Lower(Strip(c1.patientName)) == Lower(Strip(c2.patientName))
    ensures SuspicionChecks(c1) == SuspicionChecks(c2)
  {
  }

  /** Past the first four checks, a treatment missing from the disease's list is a treatment mismatch. */
  lemma TreatmentCheck(claim: ClaimData, hospitals: seq<HospitalRow>, diseases: seq<DiseaseRow>)
    requires !MissingCriticalInfo(claim) && !HasTemplateText(claim) && HospitalKnown(claim, hospitals)
    requires FindDisease(claim, diseases).Some?
    ensures CheckFraud(claim, hospitals, diseases) == Verdict(Fraudulent, TreatmentMismatch) <==>
      forall k :: 0 <= k < |Split(diseases[FindDisease(claim, diseases).value].treatment, ',')| ==>
        Lower(Strip(Split(diseases[FindDisease(claim, diseases).value].treatment, ',')[k])) != Lower(Strip(claim.treatment))
  {
    ValidTreatmentsMembership(diseases[FindDisease(claim, diseases).value].treatment, Lower(Strip(claim.treatment)));
  }

  /** A claim over 100000 that passes the fraudulent checks is suspicious for its amount, whatever else it says. */
  lemma HighAmountDecides(claim: ClaimData, hospitals: seq<HospitalRow>, diseases: seq<DiseaseRow>)
    requires PassesFraudChecks(claim, hospitals, diseases) && claim.amount > HighAmountLimit
    ensures CheckFraud(claim, hospitals, diseases) == Verdict(Suspicious, HighAmount)
  {
  }

  /** The round-number flag fires only for multiples of 10000 from 60000 to 100000. */
  lemma RoundAmountRange(claim: ClaimData, hospitals: seq<HospitalRow>, diseases: seq<DiseaseRow>)
    requires CheckFraud(claim, hospitals, diseases).reason == RoundAmount
    ensures claim.amount % 10000 == 0 && 60000 <= claim.amount <= 100000
  {
    var v := CheckFraud(claim, hospitals, diseases);
    assert !IsFraudReason(v.reason);
    NotFraudulentMeansSuspicionChecks(claim, hospitals, diseases);
    RoundAmountFlag(claim);
    RoundMultipleRange(claim.amount);
  }

  /** Past the fraudulent checks, the verdict is that of the suspicion checks. */
  lemma NotFraudulentMeansSuspicionChecks(claim: ClaimData, hospitals: seq<HospitalRow>, diseases: seq<DiseaseRow>)
    requires CheckFraud(claim, hospitals, diseases).status != Fraudulent
    ensures CheckFraud(claim, hospitals, diseases) == SuspicionChecks(claim)
  {
  }

  lemma RoundAmountFlag(claim: ClaimData)
    requires SuspicionChecks(claim).reason == RoundAmount
    ensures RoundNumberAmount(claim) && !AmountHigh(claim)
  {
  }

  lemma RoundMultipleRange(n: int)
    requires n % 10000 == 0 && 50000 < n <= HighAmountLimit
    ensures 60000 <= n
  {
    var q := n / 10000;
    assert n == 10000 * q;
  }

  /** The claim id never makes a claim fraudulent: changing it leaves every fraudulent verdict as it was. */
  lemma ClaimIdNeverFraudulent(claim: ClaimData, claimId: string, hospitals: seq<HospitalRow>, diseases: seq<DiseaseRow>)
    ensures var other := claim.(claimId := claimId);
      PassesFraudChecks(other, hospitals, diseases) == PassesFraudChecks(claim, hospitals, diseases)
    ensures CheckFraud(claim, hospitals, diseases).status == Fraudulent ==>
      CheckFraud(claim.(claimId := claimId), hospitals, diseases) == CheckFraud(claim, hospitals, diseases)
  {
    var other := claim.(claimId := claimId);
    assert CombinedText(other) == CombinedText(claim);
    assert FindDisease(other, diseases) == FindDisease(claim, diseases);
    FraudulentCheckCongruent(other, claim, hospitals, diseases);
  }

  /** A short claim id is reported only when every earlier check passed, and only as suspicious. */
  lemma IrregularClaimIdOnlyLast(claim: ClaimData, hospitals: seq<HospitalRow>, diseases: seq<DiseaseRow>)
    requires CheckFraud(claim, hospitals, diseases).reason == IrregularClaimId
    ensures CheckFraud(claim, hospitals, diseases).status == Suspicious
    ensures ShortClaimId(claim) && PassesFraudChecks(claim, hospitals, diseases)
    ensures !AmountHigh(claim) && !EmergencyTreatmentNamed(claim) && !ExpensiveForCommonDisease(claim)
  {
    var v := CheckFraud(claim, hospitals, diseases);
    assert !IsFraudReason(v.reason);
    NotFraudulentMeansSuspicionChecks(claim, hospitals, diseases);
    IrregularClaimIdFlag(claim);
  }

  lemma IrregularClaimIdFlag(claim: ClaimData)
    requires SuspicionChecks(claim).reason == IrregularClaimId
    ensures SuspicionChecks(claim).status == Suspicious
    ensures ShortClaimId(claim) && !AmountHigh(claim) && !EmergencyTreatmentNamed(claim) && !ExpensiveForCommonDisease(claim)
  {
  }

  /** Clean, with the fixed reason, exactly when none of the eleven checks fires. */
  lemma CleanIffNoCheckFires(claim: ClaimData, hospitals: seq<HospitalRow>, diseases: seq<DiseaseRow>)
    ensures CheckFraud(claim, hospitals, diseases).status == Clean <==>
      && PassesFraudChecks(claim, hospitals, diseases)
      && !AmountHigh(claim) && !EmergencyTreatmentNamed(claim) && !ExpensiveForCommonDisease(claim)
      && !ShortClaimId(claim) && !RoundNumberAmount(claim) && !GenericName(claim)
    ensures CheckFraud(claim, hospitals, diseases).status == Clean ==>
      CheckFraud(claim, hospitals, diseases).reason == AllChecksPassed
  {
  }
}
