/**
 * The fraud check the upload route of the backend runs (`check_fraud` in
 * backend/main.py) and the record the route answers with.
 *
 * The check is an early-return cascade: hospital, then disease and
 * treatment, then the claimed amount against the hospital's average cost.
 */
module BackendMain {
  import opened Wrappers
  import opened Text
  import opened Payload
  import opened Claims

  /** Why `check_fraud` decided as it did, one constructor per `return`. */
  datatype Reason =
    | HospitalFieldsMissing
    | HospitalNotFound
    | DiseaseFieldsMissing
    | DiseaseNotFound(disease: string)
    | TreatmentMismatch(treatment: string, disease: string)
    | HighAmount(amount: int, average: int)
    | AllVerified

  /**
   * The reason as the backend words it. The two hospital reasons are kept
   * word for word: the one for blank fields speaks of a mismatch and the one
   * for no matching row speaks of missing information.
   */
  function ReasonText(r: Reason): (t: string)
    ensures r.DiseaseNotFound? ==> Contains(t, r.disease)
    ensures r.TreatmentMismatch? ==> Contains(t, r.treatment) && Contains(t, r.disease)
    ensures r.HighAmount? ==> Contains(t, IntToString(r.amount)) && Contains(t, IntToString(r.average))
  {
    match r
    case HospitalFieldsMissing => "Hospital does not match given region or pincode"
    case HospitalNotFound => "Missing hospital, region, or pincode information"
    case DiseaseFieldsMissing => "Missing disease or treatment information"
    case DiseaseNotFound(disease) =>
      ContainsMiddle(DiseaseHead, disease, DiseaseTail);
      DiseaseHead + disease + DiseaseTail
    case TreatmentMismatch(treatment, disease) =>
      TextNamesBoth(TreatmentHead, treatment, TreatmentMiddle, disease, "'");
      TreatmentHead + treatment + TreatmentMiddle + disease + "'"
    case HighAmount(amount, average) =>
      var digits := IntToString(amount);
      TextNamesBoth(AmountHead, digits, AmountMiddle, IntToString(average), "");
      assert AmountHead + digits + AmountMiddle + IntToString(average) + "" == AmountHead + digits + AmountMiddle + IntToString(average);
      AmountHead + digits + AmountMiddle + IntToString(average)
    case AllVerified => "All details verified successfully"
  }

  const DiseaseHead := "Disease '"
  const DiseaseTail := "' not found in dataset"
  const TreatmentHead := "Treatment '"
  const TreatmentMiddle := "' does not match disease '"
  const AmountHead := "Claim amount ₹"
  const AmountMiddle := " unusually high compared to average ₹"

  lemma TextNamesBoth(head: string, x: string, middle: string, y: string, tail: string)
    ensures Contains(head + x + middle + y + tail, x) && Contains(head + x + middle + y + tail, y)
  {
    ContainsMiddle(head, x, middle + y + tail);
    ContainsMiddle(head + x + middle, y, tail);
    assert head + x + (middle + y + tail) == head + x + middle + y + tail;
  }

  /** The first and ninth characters of each reason text, which tell the reasons apart. */
  function Signature(r: Reason): (char, char)
  {
    match r
    case HospitalFieldsMissing => ('H', ' ')
    case HospitalNotFound => ('M', 'h')
    case DiseaseFieldsMissing => ('M', 'd')
    case DiseaseNotFound(_) => ('D', '\'')
    case TreatmentMismatch(_, _) => ('T', 't')
    case HighAmount(_, _) => ('C', 'o')
    case AllVerified => ('A', 'i')
  }

  lemma ReasonTextSignature(r: Reason)
    ensures |ReasonText(r)| > 8 && (ReasonText(r)[0], ReasonText(r)[8]) == Signature(r)
  {
    if r.DiseaseNotFound? || r.TreatmentMismatch? || r.HighAmount? {
      NamingTextSignature(r);
    } else {
      FixedTextSignature(r);
    }
  }

  lemma NamingTextSignature(r: Reason)
    requires r.DiseaseNotFound? || r.TreatmentMismatch? || r.HighAmount?
    ensures |ReasonText(r)| > 8 && (ReasonText(r)[0], ReasonText(r)[8]) == Signature(r)
  {
    if r.DiseaseNotFound? {
      DiseaseTextSignature(r);
    } else if r.TreatmentMismatch? {
      TreatmentTextSignature(r);
    } else {
      AmountTextSignature(r);
    }
  }

  lemma DiseaseTextSignature(r: Reason)
    requires r.DiseaseNotFound?
    ensures |ReasonText(r)| > 8 && (ReasonText(r)[0], ReasonText(r)[8]) == Signature(r)
  {
    HeadSignature(r, DiseaseHead, r.disease + DiseaseTail);
  }

  lemma TreatmentTextSignature(r: Reason)
    requires r.TreatmentMismatch?
    ensures |ReasonText(r)| > 8 && (ReasonText(r)[0], ReasonText(r)[8]) == Signature(r)
  {
    HeadSignature(r, TreatmentHead, r.treatment + TreatmentMiddle + r.disease + "'");
  }

  lemma AmountTextSignature(r: Reason)
    requires r.HighAmount?
    ensures |ReasonText(r)| > 8 && (ReasonText(r)[0], ReasonText(r)[8]) == Signature(r)
  {
    var t := ReasonText(r);
    var x, y := IntToString(r.amount), IntToString(r.average);
    assert t == AmountHead + x + AmountMiddle + y;
    assert t[0] == AmountHead[0] && t[8] == AmountHead[8];
  }

  /** A reason text that starts with `head` has the signature of `head`. */
  lemma HeadSignature(r: Reason, head: string, rest: string)
    requires |head| > 8 && ReasonText(r) == head + rest && (head[0], head[8]) == Signature(r)
    ensures |ReasonText(r)| > 8 && (ReasonText(r)[0], ReasonText(r)[8]) == Signature(r)
  {
  }

  lemma FixedTextSignature(r: Reason)
    requires r.HospitalFieldsMissing? || r.HospitalNotFound? || r.DiseaseFieldsMissing? || r.AllVerified?
    ensures |ReasonText(r)| > 8 && (ReasonText(r)[0], ReasonText(r)[8]) == Signature(r)
  {
    if r.HospitalFieldsMissing? || r.HospitalNotFound? {
      HospitalTextSignature(r);
    } else {
      match r
      case DiseaseFieldsMissing => HeadChars("Missing d", "isease or treatment information");
      case AllVerified => HeadChars("All detai", "ls verified successfully");
    }
  }

  lemma HospitalTextSignature(r: Reason)
    requires r.HospitalFieldsMissing? || r.HospitalNotFound?
    ensures |ReasonText(r)| > 8 && (ReasonText(r)[0], ReasonText(r)[8]) == Signature(r)
  {
    match r
    case HospitalFieldsMissing => HeadChars("Hospital ", "does not match given region or pincode");
    case HospitalNotFound => HeadChars("Missing h", "ospital, region, or pincode information");
  }

  lemma HeadChars(head: string, rest: string)
    requires |head| > 8
    ensures |head + rest| > 8 && (head + rest)[0] == head[0] && (head + rest)[8] == head[8]
  {
  }

  /**
   * The reason text tells which `return` of `check_fraud` was taken: two
   * reasons with the same text are of the same kind, and for a missing
   * disease the text also gives the disease back.
   */
  lemma ReasonTextIdentifiesReason(a: Reason, b: Reason)
    requires ReasonText(a) == ReasonText(b)
    ensures Signature(a) == Signature(b)
    ensures a.HospitalFieldsMissing? == b.HospitalFieldsMissing? && a.HospitalNotFound? == b.HospitalNotFound?
    ensures a.DiseaseFieldsMissing? == b.DiseaseFieldsMissing? && a.DiseaseNotFound? == b.DiseaseNotFound?
    ensures a.TreatmentMismatch? == b.TreatmentMismatch? && a.HighAmount? == b.HighAmount? && a.AllVerified? == b.AllVerified?
    ensures a.DiseaseNotFound? ==> a == b
  {
    ReasonTextSignature(a);
    ReasonTextSignature(b);
    if a.DiseaseNotFound? && b.DiseaseNotFound? {
      var n := |ReasonText(a)| - |DiseaseTail|;
      assert ReasonText(a)[9..n] == a.disease;
      assert ReasonText(b)[9..n] == b.disease;
    }
  }

  /** Name and region compared case-insensitively, pincode as exact text. */
  predicate HospitalMatches(row: HospitalRow, name: string, region: string, pincode: string)
  {
    Lower(row.hospitalName) == Lower(name) && Lower(row.region) == Lower(region) && row.pincode == pincode
  }

  predicate DiseaseMatches(row: DiseaseRow, disease: string)
  {
    Lower(row.disease) == Lower(disease)
  }

  predicate HospitalFieldsPresent(claim: ClaimData)
  {
    Strip(claim.hospital) != "" && Strip(claim.region) != "" && Strip(claim.pincode) != ""
  }

  predicate DiseaseFieldsPresent(claim: ClaimData)
  {
    Strip(claim.disease) != "" && Strip(claim.treatment) != ""
  }

  /** The first hospital row matching the claim's stripped name, region and pincode. */
  function FindHospital(claim: ClaimData, hospitals: seq<HospitalRow>): (r: Option<nat>)
    ensures r.Some? ==> r.value < |hospitals|
    ensures r.Some? ==>
      HospitalMatches(hospitals[r.value], Strip(claim.hospital), Strip(claim.region), Strip(claim.pincode))
    ensures r.Some? ==> forall j :: 0 <= j < r.value ==>
      !HospitalMatches(hospitals[j], Strip(claim.hospital), Strip(claim.region), Strip(claim.pincode))
    ensures r.None? <==> forall j :: 0 <= j < |hospitals| ==>
      !HospitalMatches(hospitals[j], Strip(claim.hospital), Strip(claim.region), Strip(claim.pincode))
  {
    var name, region, pincode := Strip(claim.hospital), Strip(claim.region), Strip(claim.pincode);
    FirstIndex(hospitals, row => HospitalMatches(row, name, region, pincode))
  }

  /** The first disease row whose name equals the claim's stripped disease, ignoring case. */
  function FindDisease(claim: ClaimData, diseases: seq<DiseaseRow>): (r: Option<nat>)
    ensures r.Some? ==> r.value < |diseases|
    ensures r.Some? ==> DiseaseMatches(diseases[r.value], Strip(claim.disease))
    ensures r.Some? ==> forall j :: 0 <= j < r.value ==> !DiseaseMatches(diseases[j], Strip(claim.disease))
    ensures r.None? <==> forall j :: 0 <= j < |diseases| ==> !DiseaseMatches(diseases[j], Strip(claim.disease))
  {
    var disease := Strip(claim.disease);
    FirstIndex(diseases, row => DiseaseMatches(row, disease))
  }

  /** The claim's treatment equals, ignoring case, a trimmed entry of the row's treatment list. */
  predicate TreatmentListed(claim: ClaimData, row: DiseaseRow)
  {
    Lower(Strip(claim.treatment)) in ValidTreatments(row.treatment)
  }

  /** More than 1.5 times the average, stated exactly over the integers. */
  predicate AboveOneAndHalfTimes(amount: int, average: int)
  {
    2 * amount > 3 * average
  }

  /** The hospital, disease and treatment checks all pass. */
  predicate RecordChecksPass(claim: ClaimData, hospitals: seq<HospitalRow>, diseases: seq<DiseaseRow>)
  {
    && HospitalFieldsPresent(claim)
    && FindHospital(claim, hospitals).Some?
    && DiseaseFieldsPresent(claim)
    && FindDisease(claim, diseases).Some?
    && TreatmentListed(claim, diseases[FindDisease(claim, diseases).value])
  }

  /** A positive amount above 1.5 times the average cost of the first matching hospital row. */
  predicate AmountTooHigh(claim: ClaimData, hospitals: seq<HospitalRow>)
  {
    match FindHospital(claim, hospitals)
    case None => false
    case Some(h) => claim.amount > 0 && AboveOneAndHalfTimes(claim.amount, hospitals[h].avgTreatmentCost)
  }

  /** `check_fraud`. */
  function CheckFraud(claim: ClaimData, hospitals: seq<HospitalRow>, diseases: seq<DiseaseRow>): (v: Verdict<Reason>)
    ensures v.status != Fraudulent ==> HospitalFieldsPresent(claim) && DiseaseFieldsPresent(claim)
    ensures v.status == Suspicious ==> claim.amount > 0
  {
    if !HospitalFieldsPresent(claim) then
      Verdict(Fraudulent, HospitalFieldsMissing)
    else
      match FindHospital(claim, hospitals)
      case None => Verdict(Fraudulent, HospitalNotFound)
      case Some(h) => CheckAfterHospital(claim, hospitals[h], diseases)
  }

  /** The disease, treatment and amount checks, once `hospital` is the matching row. */
  function CheckAfterHospital(claim: ClaimData, hospital: HospitalRow, diseases: seq<DiseaseRow>): (v: Verdict<Reason>)
    ensures !v.reason.HospitalFieldsMissing? && !v.reason.HospitalNotFound?
    ensures v.status != Fraudulent ==> DiseaseFieldsPresent(claim)
    ensures v.status == Suspicious ==> claim.amount > 0
  {
    var disease, treatment := Strip(claim.disease), Strip(claim.treatment);
    if !DiseaseFieldsPresent(claim) then
      Verdict(Fraudulent, DiseaseFieldsMissing)
    else
      match FindDisease(claim, diseases)
      case None => Verdict(Fraudulent, DiseaseNotFound(disease))
      case Some(d) =>
        if !TreatmentListed(claim, diseases[d]) then
          Verdict(Fraudulent, TreatmentMismatch(treatment, disease))
        else if claim.amount > 0 && AboveOneAndHalfTimes(claim.amount, hospital.avgTreatmentCost) then
          Verdict(Suspicious, HighAmount(claim.amount, hospital.avgTreatmentCost))
        else
          Verdict(Clean, AllVerified)
  }

  /** A blank hospital, region or pincode is fraudulent whatever the rest of the claim says. */
  lemma MissingHospitalFieldIsFraudulent(claim: ClaimData, hospitals: seq<HospitalRow>, diseases: seq<DiseaseRow>)
    requires Strip(claim.hospital) == "" || Strip(claim.region) == "" || Strip(claim.pincode) == ""
    ensures CheckFraud(claim, hospitals, diseases) == Verdict(Fraudulent, HospitalFieldsMissing)
  {
  }

  /**
   * With the three hospital fields present, the hospital check passes
   * exactly when some row matches them; when none does the claim is
   * fraudulent.
   */
  lemma HospitalCheck(claim: ClaimData, hospitals: seq<HospitalRow>, diseases: seq<DiseaseRow>)
    requires HospitalFieldsPresent(claim)
    ensures var v := CheckFraud(claim, hospitals, diseases);
      (v == Verdict(Fraudulent, HospitalNotFound)) <==>
      forall k :: 0 <= k < |hospitals| ==>
        !HospitalMatches(hospitals[k], Strip(claim.hospital), Strip(claim.region), Strip(claim.pincode))
  {
  }

  /** A claim that fails the hospital check gets a hospital reason, whatever the disease sheet holds. */
  lemma HospitalCheckedFirst(claim: ClaimData, hospitals: seq<HospitalRow>, diseases: seq<DiseaseRow>, otherDiseases: seq<DiseaseRow>)
    requires !HospitalFieldsPresent(claim) || FindHospital(claim, hospitals).None?
    ensures CheckFraud(claim, hospitals, diseases) == CheckFraud(claim, hospitals, otherDiseases)
    ensures CheckFraud(claim, hospitals, diseases).status == Fraudulent
    ensures CheckFraud(claim, hospitals, diseases).reason in {HospitalFieldsMissing, HospitalNotFound}
  {
  }

  /**
   * Past the hospital check, a blank disease or treatment, or a disease no
   * row names, is fraudulent; the second reason names the disease.
   */
  lemma DiseaseCheck(claim: ClaimData, hospitals: seq<HospitalRow>, diseases: seq<DiseaseRow>)
    requires HospitalFieldsPresent(claim) && FindHospital(claim, hospitals).Some?
    ensures !DiseaseFieldsPresent(claim) ==>
      CheckFraud(claim, hospitals, diseases) == Verdict(Fraudulent, DiseaseFieldsMissing)
    ensures DiseaseFieldsPresent(claim) && (forall k :: 0 <= k < |diseases| ==> !DiseaseMatches(diseases[k], Strip(claim.disease))) ==>
      CheckFraud(claim, hospitals, diseases) == Verdict(Fraudulent, DiseaseNotFound(Strip(claim.disease)))
  {
  }

  /**
   * Any claim that is not fraudulent names a treatment that equals, ignoring
   * case, a trimmed entry of the first matching disease row's list.
   */
  lemma TreatmentMustBeListed(claim: ClaimData, hospitals: seq<HospitalRow>, diseases: seq<DiseaseRow>)
    requires CheckFraud(claim, hospitals, diseases).status != Fraudulent
    ensures FindDisease(claim, diseases).Some?
    ensures var pieces := Split(diseases[FindDisease(claim, diseases).value].treatment, ',');
      exists k :: 0 <= k < |pieces| && Lower(Strip(pieces[k])) == Lower(Strip(claim.treatment))
  {
    CleanIff(claim, hospitals, diseases);
    var d := FindDisease(claim, diseases).value;
    ValidTreatmentsMembership(diseases[d].treatment, Lower(Strip(claim.treatment)));
  }

  /**
   * Suspicious exactly when every record check passes and the amount is
   * positive and above 1.5 times the first matching hospital's average
   * cost; a claim for zero or less is never suspicious.
   */
  lemma SuspiciousIff(claim: ClaimData, hospitals: seq<HospitalRow>, diseases: seq<DiseaseRow>)
    ensures CheckFraud(claim, hospitals, diseases).status == Suspicious <==>
      RecordChecksPass(claim, hospitals, diseases) && AmountTooHigh(claim, hospitals)
    ensures claim.amount <= 0 ==> CheckFraud(claim, hospitals, diseases).status != Suspicious
  {
  }

  /** The label `CheckAfterHospital` gives, in terms of the checks it makes. */
  lemma AfterHospitalStatus(claim: ClaimData, hospital: HospitalRow, diseases: seq<DiseaseRow>)
    ensures var v := CheckAfterHospital(claim, hospital, diseases);
      var passes := DiseaseFieldsPresent(claim) && FindDisease(claim, diseases).Some?
        && TreatmentListed(claim, diseases[FindDisease(claim, diseases).value]);
      var high := claim.amount > 0 && AboveOneAndHalfTimes(claim.amount, hospital.avgTreatmentCost);
      && (v.status == Fraudulent <==> !passes)
      && (v.status == Suspicious <==> passes && high)
      && (v.status == Clean <==> passes && !high)
      && (v.status == Clean ==> v.reason == AllVerified)
  {
  }

  /** Clean, with the fixed reason, exactly when every check passes; fraudulent exactly when one fails. */
  lemma CleanIff(claim: ClaimData, hospitals: seq<HospitalRow>, diseases: seq<DiseaseRow>)
    ensures CheckFraud(claim, hospitals, diseases).status == Clean <==>
      RecordChecksPass(claim, hospitals, diseases) && !AmountTooHigh(claim, hospitals)
    ensures CheckFraud(claim, hospitals, diseases).status == Clean ==>
      CheckFraud(claim, hospitals, diseases).reason == AllVerified
    ensures CheckFraud(claim, hospitals, diseases).status == Fraudulent <==>
      !RecordChecksPass(claim, hospitals, diseases)
  {
    if HospitalFieldsPresent(claim) && FindHospital(claim, hospitals).Some? {
      AfterHospitalStatus(claim, hospitals[FindHospital(claim, hospitals).value], diseases);
    }
  }

  /** The `claim_data` dictionary `upload_claim` builds from the extracted fields. */
  function ExtractedRecord(claim: ClaimData): (r: Object)
    ensures "fraudStatus" !in r && "fraudReason" !in r
    ensures forall key :: key in r ==> (r[key].Int? <==> key == "amount")
  {
    map[
      "hospital" := Str(claim.hospital),
      "region" := Str(claim.region),
      "pincode" := Str(claim.pincode),
      "disease" := Str(claim.disease),
      "treatment" := Str(claim.treatment),
      "amount" := Int(claim.amount),
      "patientName" := Str(claim.patientName),
      "claimId" := Str(claim.claimId)]
  }

  /**
   * `claim_data["fraudStatus"] = ...; claim_data["fraudReason"] = ...`: the
   * record gains the verdict's label and reason and keeps every other field.
   */
  function AddVerdict(record: Object, v: Verdict<Reason>): (r: Object)
    ensures r.Keys == record.Keys + {"fraudStatus", "fraudReason"}
    ensures forall key :: key in record && key !in {"fraudStatus", "fraudReason"} ==> r[key] == record[key]
    ensures r["fraudStatus"] == Str(StatusName(v.status)) && r["fraudReason"] == Str(ReasonText(v.reason))
  {
    record["fraudStatus" := Str(StatusName(v.status))]["fraudReason" := Str(ReasonText(v.reason))]
  }

  /** The JSON body of a successful upload: `{"status": ..., "extractedData": ...}`. */
  datatype UploadReply = UploadReply(status: string, extractedData: Object)

  /**
   * The answer of the upload route once the fields are extracted: the
   * extracted record with the verdict's label and reason added and every
   * extracted field left as it was.
   */
  function UploadClaim(claim: ClaimData, hospitals: seq<HospitalRow>, diseases: seq<DiseaseRow>): (reply: UploadReply)
    ensures reply.status == "success"
    ensures reply.extractedData.Keys == ExtractedRecord(claim).Keys + {"fraudStatus", "fraudReason"}
    ensures forall key :: key in ExtractedRecord(claim) ==> reply.extractedData[key] == ExtractedRecord(claim)[key]
    ensures var v := CheckFraud(claim, hospitals, diseases);
      reply.extractedData["fraudStatus"] == Str(StatusName(v.status)) && reply.extractedData["fraudReason"] == Str(ReasonText(v.reason))
  {
    var record := ExtractedRecord(claim);
    assert "fraudStatus" !in record && "fraudReason" !in record;
    UploadReply("success", AddVerdict(record, CheckFraud(claim, hospitals, diseases)))
  }
}
