/**
 * The upload panel of the dashboard (ClaimUploader.tsx). A drop of files
 * appends one `processing` entry per file. The files are then sent one at
 * a time, and each entry is moved, by its id, to `completed` or `failed`
 * according to what the upload route answered. A progress value follows
 * the loop. The network is not modelled: each file's upload comes in as a
 * `FetchOutcome`, and the random ids come in as a sequence.
 */
module ClaimUploader {
  import opened Wrappers
  import opened Text
  import opened Payload
  import opened Claims
  import BackendMain

  datatype FileStatus = Processing | Completed | Failed

  /** A file as the dropzone hands it over; `size` is in bytes. */
  datatype DroppedFile = DroppedFile(name: string, size: nat)

  /**
   * An entry of the panel's list. `fraudStatus` is whatever the server sent
   * as `extractedData.fraudStatus` (`None` for `undefined`).
   */
  datatype UploadedFile = UploadedFile(
    id: string,
    name: string,
    size: nat,
    status: FileStatus,
    fraudStatus: Option<Value>,
    extractedData: Option<Object>,
    error: Option<Failure>)

  /**
   * What uploading one file produced. `Rejected` covers a promise that
   * rejects with an `Error` (`fetch` failing, a body that is not JSON).
   * `Responded` is an HTTP answer: its `ok` flag, its status code and the
   * two fields of its JSON body the panel reads (`None` when absent).
   */
  datatype FetchOutcome =
    | Rejected(message: string)
    | Responded(ok: bool, statusCode: int, bodyStatus: Option<Value>, extractedData: Option<Object>)

  /** Why an upload failed: the error the iteration threw, kept as the entry's `error`. */
  datatype Failure =
    | Thrown(message: string)
    | HttpError(statusCode: int)
    | ProcessingFailed
    | MissingRecord

  /** The thrown error's `message`, the text the entry's `error` holds. */
  function FailureMessage(f: Failure): (r: string)
    ensures f.Thrown? ==> r == f.message
    ensures f.HttpError? ==> |r| > 20 && r[..20] == "HTTP error! status: "
    ensures f.HttpError? && f.statusCode >= 0 ==> (forall k :: 20 <= k < |r| ==> IsDigit(r[k])) && DigitsValue(r[20..]) == f.statusCode
  {
    match f
    case Thrown(message) => message
    case HttpError(code) => "HTTP error! status: " + IntToString(code)
    case ProcessingFailed => "Processing failed"
    // V8's message for reading `.fraudStatus` from `undefined`.
    case MissingRecord => "Cannot read properties of undefined (reading 'fraudStatus')"
  }

  /** How one entry ends up: completed with the server's record, or failed. */
  datatype Resolution =
    | Done(fraudStatus: Option<Value>, data: Object)
    | Error(failure: Failure)

  /** `obj.key` on a plain object: `undefined` when the key is absent. */
  function Field(obj: Object, key: string): (r: Option<Value>)
    ensures r.Some? <==> key in obj
    ensures r.Some? ==> r.value == obj[key]
  {
    if key in obj then Some(obj[key]) else None
  }

  /**
   * The `try`/`catch` of one loop iteration: a response that is not ok
   * throws "HTTP error! status: <code>"; a body whose status is not
   * "success" throws "Processing failed"; a success body without
   * `extractedData` throws when its `fraudStatus` is read. Whatever is
   * thrown becomes the entry's error message.
   */
  function Resolve(o: FetchOutcome): (r: Resolution)
    ensures r.Done? <==> o.Responded? && o.ok && o.bodyStatus == Some(Str("success")) && o.extractedData.Some?
    ensures r.Done? ==> r.data == o.extractedData.value && r.fraudStatus == Field(r.data, "fraudStatus")
    ensures o.Rejected? ==> r == Error(Thrown(o.message))
    ensures o.Responded? && !o.ok ==> r == Error(HttpError(o.statusCode))
    ensures o.Responded? && o.ok && o.bodyStatus != Some(Str("success")) ==> r == Error(ProcessingFailed)
  {
    match o
    case Rejected(message) => Error(Thrown(message))
    case Responded(ok, code, bodyStatus, extractedData) =>
      if !ok then Error(HttpError(code))
      else if bodyStatus != Some(Str("success")) then Error(ProcessingFailed)
      else
        match extractedData
        case None => Error(MissingRecord)
        case Some(data) => Done(Field(data, "fraudStatus"), data)
  }

  /** The entry a dropped file starts as. */
  function NewEntry(file: DroppedFile, id: string): UploadedFile
  {
    UploadedFile(id, file.name, file.size, Processing, None, None, None)
  }

  /** `acceptedFiles.map(...)`: one processing entry per dropped file, in drop order. */
  function NewEntries(dropped: seq<DroppedFile>, ids: seq<string>): (r: seq<UploadedFile>)
    requires |ids| == |dropped|
    ensures |r| == |dropped|
    ensures forall i :: 0 <= i < |r| ==> r[i].id == ids[i] && r[i].name == dropped[i].name && r[i].size == dropped[i].size
    ensures forall i :: 0 <= i < |r| ==> r[i].status == Processing && r[i].fraudStatus.None? && r[i].extractedData.None? && r[i].error.None?
  {
    seq(|dropped|, i requires 0 <= i < |dropped| => NewEntry(dropped[i], ids[i]))
  }

  /**
   * The object spread `{...f, status, ...}`: a completed entry takes the
   * record and its `fraudStatus`, a failed one takes the message; every
   * other field is kept.
   */
  function Settle(f: UploadedFile, r: Resolution): (g: UploadedFile)
    ensures g.id == f.id && g.name == f.name && g.size == f.size
    ensures g.status == Completed <==> r.Done?
    ensures g.status == Failed <==> r.Error?
    ensures r.Done? ==> g.fraudStatus == r.fraudStatus && g.extractedData == Some(r.data) && g.error == f.error
    ensures r.Error? ==> g.error == Some(r.failure) && g.fraudStatus == f.fraudStatus && g.extractedData == f.extractedData
  {
    match r
    case Done(fraudStatus, data) => f.(status := Completed, fraudStatus := fraudStatus, extractedData := Some(data))
    case Error(failure) => f.(status := Failed, error := Some(failure))
  }

  /** `prev.map(f => f.id === fileId ? ... : f)`: every entry carrying the id is settled, no other entry changes. */
  function UpdateById(files: seq<UploadedFile>, id: string, r: Resolution): (result: seq<UploadedFile>)
    ensures |result| == |files|
    ensures forall k :: 0 <= k < |files| && files[k].id != id ==> result[k] == files[k]
    ensures forall k :: 0 <= k < |files| && files[k].id == id ==> result[k] == Settle(files[k], r)
  {
    seq(|files|, k requires 0 <= k < |files| => if files[k].id == id then Settle(files[k], r) else files[k])
  }

  /**
   * The list after the loop has settled, in order, the entries carrying
   * each id by that file's resolution.
   * Ids, names and sizes never change, and a settled entry never goes
   * back to processing.
   */
  function Processed(files: seq<UploadedFile>, ids: seq<string>, results: seq<Resolution>): (r: seq<UploadedFile>)
    requires |results| == |ids|
    ensures |r| == |files|
    ensures forall k :: 0 <= k < |files| ==> r[k].id == files[k].id && r[k].name == files[k].name && r[k].size == files[k].size
    ensures forall k :: 0 <= k < |files| && files[k].status != Processing ==> r[k].status != Processing
    decreases |ids|
  {
    if ids == [] then files
    else
      var n := |ids| - 1;
      UpdateById(Processed(files, ids[..n], results[..n]), ids[n], results[n])
  }

  /** The resolution of every upload of a batch, in order. */
  function Resolutions(outcomes: seq<FetchOutcome>): (r: seq<Resolution>)
    ensures |r| == |outcomes|
    ensures forall i :: 0 <= i < |r| ==> r[i] == Resolve(outcomes[i])
  {
    seq(|outcomes|, i requires 0 <= i < |outcomes| => Resolve(outcomes[i]))
  }

  /** The progress shown after the file at position `i` of a batch of `n`: `((i + 1) / n) * 100`. */
  function ProgressAfter(i: nat, n: nat): real
    requires i < n
  {
    ((i + 1) as real / n as real) * 100.0
  }

  /** The progress values one batch of `n` files goes through after the reset, in order. */
  function ProgressSteps(n: nat): (r: seq<real>)
    ensures |r| == n
    ensures forall i :: 0 <= i < n ==> r[i] == ProgressAfter(i, n)
  {
    seq(n, i requires 0 <= i < n => ProgressAfter(i, n))
  }

  class Uploader {
    /** The `files` state of the component. */
    var files: seq<UploadedFile>
    /** The `uploadProgress` state of the component. */
    var uploadProgress: real
    /** Every value `uploadProgress` has been set to, oldest first. */
    ghost var progressLog: seq<real>

    constructor()
      ensures files == [] && uploadProgress == 0.0 && progressLog == []
    {
      files := [];
      uploadProgress := 0.0;
      progressLog := [];
    }

    /**
     * `onDrop`: append the new entries, reset the progress, then upload the
     * files one by one, settling each entry by its id and advancing the
     * progress after every file, whether it succeeded or failed.
     */
    method OnDrop(dropped: seq<DroppedFile>, ids: seq<string>, outcomes: seq<FetchOutcome>)
      requires |ids| == |dropped| && |outcomes| == |dropped|
      modifies this
      ensures files == Processed(old(files) + NewEntries(dropped, ids), ids, Resolutions(outcomes))
      ensures progressLog == old(progressLog) + [0.0] + ProgressSteps(|dropped|)
      ensures uploadProgress == if |dropped| == 0 then 0.0 else 100.0
    {
      files := files + NewEntries(dropped, ids);
      uploadProgress := 0.0;
      progressLog := progressLog + [0.0];
      ghost var start := files;
      ghost var results := Resolutions(outcomes);
      ghost var reset := progressLog;
      var i := 0;
      while i < |dropped|
        invariant 0 <= i <= |dropped|
        invariant files == Processed(start, ids[..i], results[..i])
        invariant progressLog == reset + ProgressSteps(|dropped|)[..i]
        invariant uploadProgress == if i == 0 then 0.0 else ProgressAfter(i - 1, |dropped|)
      {
        assert ids[..i + 1][..i] == ids[..i];
        assert results[..i + 1][..i] == results[..i];
        files := UpdateById(files, ids[i], Resolve(outcomes[i]));
        uploadProgress := ((i + 1) as real / |dropped| as real) * 100.0;
        progressLog := progressLog + [uploadProgress];
        assert ProgressSteps(|dropped|)[..i + 1] == ProgressSteps(|dropped|)[..i] + [uploadProgress];
        i := i + 1;
      }
      assert ids[..i] == ids && results[..i] == results;
      assert ProgressSteps(|dropped|)[..i] == ProgressSteps(|dropped|);
      if i > 0 {
        LastProgressIsComplete(|dropped|);
      }
    }
  }

  /** The last file of a batch brings the progress to exactly 100. */
  lemma LastProgressIsComplete(n: nat)
    requires n > 0
    ensures ProgressAfter(n - 1, n) == 100.0
  {
    assert (n as real) / (n as real) == 1.0;
  }

  /** Progress rises strictly from file to file and stays within (0, 100]. */
  lemma ProgressIncreases(i: nat, j: nat, n: nat)
    requires i < j < n
    ensures 0.0 < ProgressAfter(i, n) < ProgressAfter(j, n) <= 100.0
  {
    DivideByCount((i + 1) as real, (j + 1) as real, n as real);
    DivideByCount((j + 1) as real, n as real, n as real);
  }

  /** Dividing by a positive count keeps the order. */
  lemma DivideByCount(a: real, b: real, d: real)
    requires 0.0 < a <= b && d > 0.0
    ensures 0.0 < a / d <= b / d
    ensures a < b ==> a / d < b / d
  {
  }

  /** The entries a batch ends with when every file's id is its own: each settled by its own outcome. */
  function Settled(dropped: seq<DroppedFile>, ids: seq<string>, results: seq<Resolution>): (r: seq<UploadedFile>)
    requires |ids| == |dropped| && |results| == |dropped|
    ensures |r| == |dropped|
  {
    seq(|dropped|, i requires 0 <= i < |dropped| => Settle(NewEntry(dropped[i], ids[i]), results[i]))
  }

  /** No two files of the batch share an id, and no id is already in the list. */
  predicate FreshIds(current: seq<UploadedFile>, ids: seq<string>)
  {
    && (forall a, b :: 0 <= a < b < |ids| ==> ids[a] != ids[b])
    && (forall k, a :: 0 <= k < |current| && 0 <= a < |ids| ==> current[k].id != ids[a])
  }

  /**
   * With fresh, distinct ids, the loop leaves the old entries as they were
   * and settles the i-th new entry by the i-th outcome and nothing else.
   */
  lemma ProcessedSettlesEach(current: seq<UploadedFile>, dropped: seq<DroppedFile>, ids: seq<string>, results: seq<Resolution>)
    requires |ids| == |dropped| && |results| == |dropped|
    requires FreshIds(current, ids)
    ensures Processed(current + NewEntries(dropped, ids), ids, results) == current + Settled(dropped, ids, results)
  {
    ProcessedPrefix(current, dropped, ids, results, |ids|);
    assert ids[..|ids|] == ids && results[..|ids|] == results;
    var p := Partly(dropped, ids, results, |ids|);
    assert p == Settled(dropped, ids, results);
  }

  /**
   * The shape a settled entry should have: a record exactly when completed,
   * an error exactly when failed, and a server label only when completed.
   */
  predicate WellFormed(f: UploadedFile)
  {
    && (f.extractedData.Some? <==> f.status == Completed)
    && (f.error.Some? <==> f.status == Failed)
    && (f.fraudStatus.Some? ==> f.status == Completed)
  }

  /**
   * With fresh, distinct ids, every entry a drop adds ends the loop well
   * formed: completed with the server's record and no error, or failed
   * with its error and neither record nor label.
   */
  lemma NewEntriesWellFormed(current: seq<UploadedFile>, dropped: seq<DroppedFile>, ids: seq<string>, results: seq<Resolution>)
    requires |ids| == |dropped| && |results| == |dropped|
    requires FreshIds(current, ids)
    ensures forall k :: |current| <= k < |current| + |dropped| ==>
      WellFormed(Processed(current + NewEntries(dropped, ids), ids, results)[k])
  {
    ProcessedSettlesEach(current, dropped, ids, results);
  }

  /**
   * Without fresh ids the rule breaks: when a new file reuses the id of a
   * completed entry and its upload fails, the spread `{...f, status:
   * 'failed', error}` settles the old entry too, which becomes failed but
   * keeps its record and its label.
   */
  lemma ReusedIdKeepsRecord(f: UploadedFile, dropped: DroppedFile, failure: Failure)
    requires f.status == Completed && f.extractedData.Some?
    ensures Processed([f] + NewEntries([dropped], [f.id]), [f.id], [Error(failure)])[0].status == Failed
    ensures Processed([f] + NewEntries([dropped], [f.id]), [f.id], [Error(failure)])[0].extractedData == f.extractedData
    ensures Processed([f] + NewEntries([dropped], [f.id]), [f.id], [Error(failure)])[0].fraudStatus == f.fraudStatus
    ensures !WellFormed(Processed([f] + NewEntries([dropped], [f.id]), [f.id], [Error(failure)])[0])
  {
    var start := [f] + NewEntries([dropped], [f.id]);
    assert [f.id][..0] == [] && [Error(failure)][..0] == [];
    assert Processed(start, [f.id], [Error(failure)]) == UpdateById(start, f.id, Error(failure));
  }

  /** The new entries after `m` files: the first `m` settled, the rest still as dropped. */
  function Partly(dropped: seq<DroppedFile>, ids: seq<string>, results: seq<Resolution>, m: nat): seq<UploadedFile>
    requires |ids| == |dropped| && |results| == |dropped|
  {
    seq(|dropped|, i requires 0 <= i < |dropped| =>
      if i < m then Settle(NewEntry(dropped[i], ids[i]), results[i]) else NewEntry(dropped[i], ids[i]))
  }

  lemma {:induction false} ProcessedPrefix(current: seq<UploadedFile>, dropped: seq<DroppedFile>, ids: seq<string>, results: seq<Resolution>, m: nat)
    requires |ids| == |dropped| && |results| == |dropped| && m <= |ids|
    requires FreshIds(current, ids)
    ensures Processed(current + NewEntries(dropped, ids), ids[..m], results[..m]) == current + Partly(dropped, ids, results, m)
  {
    var start := current + NewEntries(dropped, ids);
    if m == 0 {
      assert Partly(dropped, ids, results, 0) == NewEntries(dropped, ids);
    } else {
      var n := m - 1;
      ProcessedPrefix(current, dropped, ids, results, n);
      assert ids[..m][..n] == ids[..n];
      assert results[..m][..n] == results[..n];
      var before := current + Partly(dropped, ids, results, n);
      var after := UpdateById(before, ids[n], results[n]);
      assert Processed(start, ids[..m], results[..m]) == after;
      forall k | 0 <= k < |after|
        ensures after[k] == (current + Partly(dropped, ids, results, m))[k]
      {
        if k >= |current| {
          var i := k - |current|;
          assert before[k].id == ids[i];
        }
      }
    }
  }

  /**
   * Whatever the ids, once the loop ends no entry of the batch is still
   * processing (that no settled entry goes back is part of `Processed`).
   */
  lemma ProcessedTerminal(current: seq<UploadedFile>, dropped: seq<DroppedFile>, ids: seq<string>, results: seq<Resolution>)
    requires |ids| == |dropped| && |results| == |dropped|
    ensures forall k :: |current| <= k < |current| + |dropped| ==>
      Processed(current + NewEntries(dropped, ids), ids, results)[k].status != Processing
  {
    var start := current + NewEntries(dropped, ids);
    forall k | |current| <= k < |current| + |ids|
      ensures start[k].id == ids[k - |current|]
    {
      assert start[k] == NewEntries(dropped, ids)[k - |current|];
    }
    TerminalPrefix(start, ids, results, |current|, |ids|);
    assert ids[..|ids|] == ids;
    assert results[..|ids|] == results;
  }

  lemma {:induction false} TerminalPrefix(start: seq<UploadedFile>, ids: seq<string>, results: seq<Resolution>, base: nat, m: nat)
    requires |results| == |ids| && m <= |ids| && base + |ids| <= |start|
    requires forall k :: base <= k < base + |ids| ==> start[k].id == ids[k - base]
    ensures forall k :: base <= k < base + m ==> Processed(start, ids[..m], results[..m])[k].status != Processing
  {
    if m > 0 {
      var n := m - 1;
      TerminalPrefix(start, ids, results, base, n);
      assert ids[..m][..n] == ids[..n];
      assert results[..m][..n] == results[..n];
      var before := Processed(start, ids[..n], results[..n]);
      var r := UpdateById(before, ids[n], results[n]);
      assert Processed(start, ids[..m], results[..m]) == r;
      assert start[base + n].id == ids[n];
      assert before[base + n].id == ids[n];
      assert r[base + n] == Settle(before[base + n], results[n]);
      forall k | base <= k < base + m
        ensures r[k].status != Processing
      {
        if k < base + n {
          assert before[k].status != Processing;
        }
      }
    }
  }

  /** The list is unchanged by an empty drop. */
  lemma EmptyDropChangesNothing(current: seq<UploadedFile>)
    ensures Processed(current + NewEntries([], []), [], []) == current
  {
    assert current + NewEntries([], []) == current;
  }

  /** What a status badge or icon stands for, in the order the two cascades test it. */
  datatype Shown = ShowProcessing | ShowFailed | ShowFraudulent | ShowSuspicious | ShowClean

  /**
   * The cascade both `getStatusBadge` and `getStatusIcon` follow: processing
   * and failed first, whatever the server said; then the server's label;
   * anything else is shown as clean.
   */
  function ShownFor(status: FileStatus, fraudStatus: Option<Value>): (r: Shown)
    ensures status == Processing <==> r == ShowProcessing
    ensures status == Failed <==> r == ShowFailed
    ensures r == ShowFraudulent <==> status == Completed && fraudStatus == Some(Str("fraudulent"))
    ensures r == ShowSuspicious <==> status == Completed && fraudStatus == Some(Str("suspicious"))
    ensures r == ShowClean <==>
      status == Completed && fraudStatus != Some(Str("fraudulent")) && fraudStatus != Some(Str("suspicious"))
  {
    assert "fraudulent"[0] != "suspicious"[0];
    match status
    case Processing => ShowProcessing
    case Failed => ShowFailed
    case Completed =>
      if fraudStatus == Some(Str("fraudulent")) then ShowFraudulent
      else if fraudStatus == Some(Str("suspicious")) then ShowSuspicious
      else ShowClean
  }

  /** A badge: its variant, its extra classes and its text. */
  datatype Badge = Badge(variant: string, className: string, text: string)

  /**
   * `getStatusBadge`: the secondary variant only while processing, red for
   * a failed upload or a fraudulent verdict, amber for a suspicious one.
   */
  function StatusBadge(status: FileStatus, fraudStatus: Option<Value>): (r: Badge)
    ensures r.variant == "secondary" <==> status == Processing
    ensures r.className == "bg-danger text-danger-foreground" <==>
      status == Failed || (status == Completed && fraudStatus == Some(Str("fraudulent")))
    ensures r.className == "bg-warning text-warning-foreground" <==> status == Completed && fraudStatus == Some(Str("suspicious"))
  {
    match ShownFor(status, fraudStatus)
    case ShowProcessing => Badge("secondary", "", "Processing")
    case ShowFailed => Badge("default", "bg-danger text-danger-foreground", "Failed")
    case ShowFraudulent => Badge("default", "bg-danger text-danger-foreground", "Fraudulent")
    case ShowSuspicious => Badge("default", "bg-warning text-warning-foreground", "Suspicious")
    case ShowClean => Badge("default", "bg-success text-success-foreground", "Clean")
  }

  datatype Glyph = Spinner | Alert | Check

  datatype Icon = Icon(glyph: Glyph, className: string)

  /**
   * `getStatusIcon`: a spinner while processing, an alert for a failed
   * upload or a flagged verdict, a check mark otherwise.
   */
  function StatusIcon(status: FileStatus, fraudStatus: Option<Value>): (r: Icon)
    ensures r.glyph == Spinner <==> status == Processing
    ensures r.glyph == Alert <==>
      status == Failed || (status == Completed && fraudStatus in {Some(Str("fraudulent")), Some(Str("suspicious"))})
    ensures r.glyph == Check <==>
      status == Completed && fraudStatus != Some(Str("fraudulent")) && fraudStatus != Some(Str("suspicious"))
  {
    match ShownFor(status, fraudStatus)
    case ShowProcessing => Icon(Spinner, "h-4 w-4 animate-spin")
    case ShowFailed => Icon(Alert, "h-4 w-4 text-danger")
    case ShowFraudulent => Icon(Alert, "h-4 w-4 text-danger")
    case ShowSuspicious => Icon(Alert, "h-4 w-4 text-warning")
    case ShowClean => Icon(Check, "h-4 w-4 text-success")
  }

  /**
   * The badge and the icon agree on colour: red (danger) for Failed and
   * Fraudulent, amber (warning) for Suspicious, green (success) for Clean;
   * only a processing entry spins.
   */
  lemma IconMatchesBadge(status: FileStatus, fraudStatus: Option<Value>)
    ensures var b, i := StatusBadge(status, fraudStatus), StatusIcon(status, fraudStatus);
      && (i.glyph == Spinner <==> status == Processing)
      && (b.className == "bg-danger text-danger-foreground" <==> i == Icon(Alert, "h-4 w-4 text-danger"))
      && (b.className == "bg-warning text-warning-foreground" <==> i == Icon(Alert, "h-4 w-4 text-warning"))
      && (b.className == "bg-success text-success-foreground" <==> i == Icon(Check, "h-4 w-4 text-success"))
  {
    var shown := ShownFor(status, fraudStatus);
    assert "bg-danger text-danger-foreground"[3] != "bg-warning text-warning-foreground"[3];
    assert "bg-danger text-danger-foreground"[3] != "bg-success text-success-foreground"[3];
    assert "bg-warning text-warning-foreground"[3] != "bg-success text-success-foreground"[3];
    assert "h-4 w-4 text-danger"[13] != "h-4 w-4 text-warning"[13];
  }

  /** How each verdict of the upload route is shown. */
  function ShownVerdict(s: FraudStatus): Shown
  {
    match s
    case Clean => ShowClean
    case Suspicious => ShowSuspicious
    case Fraudulent => ShowFraudulent
  }

  /**
   * End to end with the upload route: a file whose upload the route
   * answered is completed, carries the route's label and is shown as the
   * verdict the route's `check_fraud` gave.
   */
  lemma UploadShowsVerdict(files: seq<UploadedFile>, id: string, claim: ClaimData, hospitals: seq<HospitalRow>, diseases: seq<DiseaseRow>, k: nat)
    requires k < |files| && files[k].id == id
    ensures var reply := BackendMain.UploadClaim(claim, hospitals, diseases);
      var status := BackendMain.CheckFraud(claim, hospitals, diseases).status;
      var outcome := Responded(true, 200, Some(Str(reply.status)), Some(reply.extractedData));
      var entry := UpdateById(files, id, Resolve(outcome))[k];
      && entry.status == Completed
      && entry.fraudStatus == Some(Str(StatusName(status)))
      && ShownFor(entry.status, entry.fraudStatus) == ShownVerdict(status)
  {
    var reply := BackendMain.UploadClaim(claim, hospitals, diseases);
    var status := BackendMain.CheckFraud(claim, hospitals, diseases).status;
    LabelledRecordShowsVerdict(files, id, k, reply.extractedData, status);
  }

  /** A successful reply whose record carries a verdict's label shows that verdict. */
  lemma LabelledRecordShowsVerdict(files: seq<UploadedFile>, id: string, k: nat, data: Object, status: FraudStatus)
    requires k < |files| && files[k].id == id
    requires "fraudStatus" in data && data["fraudStatus"] == Str(StatusName(status))
    ensures var entry := UpdateById(files, id, Resolve(Responded(true, 200, Some(Str("success")), Some(data))))[k];
      && entry.status == Completed
      && entry.fraudStatus == Some(Str(StatusName(status)))
      && ShownFor(entry.status, entry.fraudStatus) == ShownVerdict(status)
  {
    assert StatusName(status) == "clean" || StatusName(status) == "suspicious" || StatusName(status) == "fraudulent";
    assert "clean" != "fraudulent" && "clean" != "suspicious";
    assert "suspicious"[0] != "fraudulent"[0];
  }
}
