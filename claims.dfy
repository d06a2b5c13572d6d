/**
 * What both fraud checks of the backend work on: the extracted claim, the
 * rows of the hospital and disease sheets, and the verdict they return.
 */
module Claims {
  import opened Wrappers
  import opened Text

  /** The fields `upload_claim` extracts from a document; absent fields are "" (and 0 for the amount). */
  datatype ClaimData = ClaimData(
    hospital: string,
    region: string,
    pincode: string,
    disease: string,
    treatment: string,
    amount: int,
    patientName: string,
    claimId: string)

  /** A row of the hospital sheet; `pincode` is the cell as `astype(str)` renders it. */
  datatype HospitalRow = HospitalRow(hospitalName: string, region: string, pincode: string, avgTreatmentCost: int)

  /** A row of the disease sheet; `treatment` is a comma-separated list of treatments. */
  datatype DiseaseRow = DiseaseRow(disease: string, treatment: string)

  datatype FraudStatus = Clean | Suspicious | Fraudulent

  /**
   * The `(fraud_status, fraud_reason)` pair a check returns; each check
   * names its reasons by a datatype and renders them as text.
   */
  datatype Verdict<R> = Verdict(status: FraudStatus, reason: R)

  /** The label as the backend spells it in its JSON. */
  function StatusName(s: FraudStatus): (r: string)
    ensures r in {"clean", "suspicious", "fraudulent"}
  {
    match s
    case Clean => "clean"
    case Suspicious => "suspicious"
    case Fraudulent => "fraudulent"
  }

  /** Distinct labels have distinct spellings, so the JSON label identifies the verdict. */
  lemma StatusNameInjective(a: FraudStatus, b: FraudStatus)
    requires StatusName(a) == StatusName(b)
    ensures a == b
  {
  }

  /**
   * The position of the first row satisfying `p`, the row `df[mask].iloc[0]`
   * selects; `None` when the filtered frame is empty.
   */
  function FirstIndex<T>(rows: seq<T>, p: T -> bool): (r: Option<nat>)
    ensures r.Some? ==> r.value < |rows| && p(rows[r.value])
    ensures r.Some? ==> forall j :: 0 <= j < r.value ==> !p(rows[j])
    ensures r.None? <==> forall j :: 0 <= j < |rows| ==> !p(rows[j])
  {
    if rows == [] then None
    else if p(rows[0]) then Some(0)
    else
      match FirstIndex(rows[1..], p)
      case None => None
      case Some(i) => Some(i + 1)
  }

  /** `[t.strip().lower() for t in treatments.split(',')]`. */
  function ValidTreatments(treatments: string): (r: seq<string>)
    ensures |r| == |Split(treatments, ',')|
    ensures forall k :: 0 <= k < |r| ==> r[k] == Lower(Strip(Split(treatments, ',')[k]))
  {
    var pieces := Split(treatments, ',');
    seq(|pieces|, k requires 0 <= k < |pieces| => Lower(Strip(pieces[k])))
  }

  /** A treatment is valid exactly when some entry of the list, trimmed and lowered, equals it. */
  lemma ValidTreatmentsMembership(treatments: string, t: string)
    ensures t in ValidTreatments(treatments) <==>
      exists k :: 0 <= k < |Split(treatments, ',')| && Lower(Strip(Split(treatments, ',')[k])) == t
  {
    var valid := ValidTreatments(treatments);
    if t in valid {
      var k :| 0 <= k < |valid| && valid[k] == t;
    }
  }

  /**
   * A treatment written as one entry of the list, whatever the spacing
   * around it and the case of its letters, is among the valid treatments.
   */
  lemma ListedTreatmentIsValid(entries: seq<string>, k: nat, treatment: string)
    requires |entries| >= 1 && k < |entries|
    requires forall j :: 0 <= j < |entries| ==> ',' !in entries[j]
    requires Lower(Strip(entries[k])) == Lower(treatment)
    ensures Lower(treatment) in ValidTreatments(Join(entries, ','))
  {
    var list := Join(entries, ',');
    SplitJoin(entries, ',');
    var valid := ValidTreatments(list);
    assert valid[k] == Lower(Strip(entries[k]));
  }
}
