# Policy Vigil claim checking, modelled in Dafny

Policy Vigil screens health-insurance claims for fraud. A user drops claim
documents on the dashboard. The uploader posts each one in turn to the
backend's upload route. The route extracts the claim's fields, runs
`check_fraud` and answers with the extracted record plus a verdict
(`clean`, `suspicious` or `fraudulent`) and a reason. The dashboard keeps a
list of uploaded files with their state and a batch progress bar. A claims
table lists claims, with a search box and two drop-down filters.

This project models that core:

- `backend/main.py`: the route's `check_fraud` (hospital, then disease and
  treatment, then amount against the hospital's average cost) and the
  record the route answers with (`backend_main.dfy`, module `BackendMain`).
- `backend/utils/fraud_checker.py`: the second `check_fraud`, an
  eleven-step cascade of five fraudulent checks followed by six suspicion
  checks (`fraud_checker.dfy`, module `FraudChecker`). Its template-text
  check uses six regular expressions. These are decided by a greedy matcher
  written for their fixed shapes and proved equal to backtracking regex
  semantics (`placeholder.dfy`, module `Placeholder`).
- `ClaimUploader.tsx`: `onDrop` as a class `Uploader` whose `files` and
  `uploadProgress` fields are updated by a looping method, and the status
  badge and icon (`claim_uploader.dfy`, module `ClaimUploader`).
- `ClaimsTable.tsx`: the claim filter, Clear Filters, the status badge and
  the amount colour (`claims_table.dfy`, module `ClaimsTable`).

Shared pieces:

- Python and JavaScript string operations (`strip`, `lower`, `split`,
  substring tests, integer formatting) are in `text.dfy`.
- Claim records, dataset rows and verdict labels are in `claims.dfy`.
- The JSON values of the extracted record are in `payload.dfy`.
- `Option` is in `wrappers.dfy`.

The hospital and disease spreadsheets are parameters, given as sequences of
rows. The upload id of each dropped file, and what each `fetch` ended in,
are also inputs to `OnDrop`.

The two reason texts for a failed hospital check in `backend/main.py` read
swapped against their conditions: blank fields are reported as "Hospital
does not match given region or pincode", and a missing dataset row as
"Missing hospital, region, or pincode information". The model keeps both
texts word for word (`BackendMain.ReasonText`).

## Model

| member | source | states |
|---|---|---|
| Text.Strip | backend/main.py:55-59 | `str.strip()`: the result is no longer than the input, begins and ends with a non-space character, and is empty exactly when the input is all whitespace |
| Text.StripIsSlice | backend/main.py:55-59 | the stripped text is a contiguous slice of the input with only whitespace cut off either end |
| Text.StripIdempotent | backend/main.py:55-59 | stripping twice is stripping once |
| Text.Lower | backend/main.py:69-70 | `lower()` keeps the length and lowers each character on its own |
| Text.LowerIdempotent | backend/main.py:69-70 | lowering twice is lowering once |
| Text.Split | backend/main.py:87 | `split(',')` yields at least one piece and no piece holds the separator |
| Text.JoinSplit | backend/main.py:87 | joining the pieces of a split with the separator gives the text back |
| Text.SplitJoin | backend/main.py:87 | splitting a join of separator-free pieces gives the pieces back |
| Text.NatToString | backend/main.py:100 | `str(n)` for a natural number is non-empty, all digits, and starts with `0` only for zero |
| Text.NatToStringValue | backend/main.py:100 | the decimal rendering of a natural number reads back as that number |
| Text.IntToString | backend/main.py:100 | `str(n)` starts with `-` exactly for a negative number, and the digits after it read back as the number's magnitude |
| Claims.StatusName | backend/main.py:67-103 | every verdict is spelled as one of the three labels `clean`, `suspicious`, `fraudulent` |
| Claims.StatusNameInjective | backend/main.py:67-103 | distinct verdicts have distinct labels |
| Claims.FirstIndex | backend/main.py:96-97 | `iloc[0]` of a filtered frame: the first matching row, with no match before it, and none exactly when no row matches |
| Claims.ValidTreatments | backend/main.py:87 | the valid-treatment list holds one stripped, lowered entry per comma-separated piece |
| Claims.ValidTreatmentsMembership | backend/main.py:87-90 | a treatment is valid exactly when some comma-separated piece, stripped and lowered, equals it |
| Claims.ListedTreatmentIsValid | backend/main.py:87-90 | any piece of a comma-joined list that matches the treatment ignoring case makes the treatment valid |
| BackendMain.FindHospital | backend/main.py:68-72 | `iloc[0]` of the hospital match: the row chosen matches name and region ignoring case and the pincode exactly, no earlier row matches, and there is none exactly when no row matches |
| BackendMain.FindDisease | backend/main.py:81 | the row chosen names the claim's stripped disease ignoring case, no earlier row does, and there is none exactly when no row does |
| BackendMain.CheckFraud | backend/main.py:47-103 | a claim that is not fraudulent has all five fields present, and a suspicious claim has a positive amount |
| BackendMain.CheckAfterHospital | backend/main.py:78-103 | the checks after the hospital never give a hospital reason, and only a claim with disease and treatment present passes them |
| BackendMain.MissingHospitalFieldIsFraudulent | backend/main.py:55-76 | a blank hospital, region or pincode after trimming is fraudulent, with the blank-field reason, whatever else the claim says |
| BackendMain.HospitalCheck | backend/main.py:67-76 | with the three fields present, the no-row reason is given exactly when no row matches name and region ignoring case and the pincode exactly |
| BackendMain.HospitalCheckedFirst | backend/main.py:67-93 | a claim failing the hospital check is fraudulent with a hospital reason, and the disease sheet cannot change that |
| BackendMain.DiseaseCheck | backend/main.py:79-93 | past the hospital check, a blank disease or treatment, or a disease no row names ignoring case, is fraudulent with a reason naming the disease |
| BackendMain.TreatmentMustBeListed | backend/main.py:86-91 | a claim that is not fraudulent names a treatment that equals, ignoring case, a trimmed piece of the first matching disease row's list |
| BackendMain.SuspiciousIff | backend/main.py:96-100 | suspicious exactly when all record checks pass and the amount is positive and above 1.5 times the first matching hospital's average; never suspicious for an amount of zero or less |
| BackendMain.AfterHospitalStatus | backend/main.py:78-103 | the three labels of the later checks, each as an if-and-only-if over what those checks test |
| BackendMain.CleanIff | backend/main.py:67-103 | clean, with the all-verified reason, exactly when every check passes and the amount is not too high; fraudulent exactly when a record check fails |
| BackendMain.ReasonText | backend/main.py:73-103 | the missing-disease reason names the disease, the treatment reason names the treatment and the disease, and the high-amount reason names the amount and the average as `str` spells them |
| BackendMain.ReasonTextIdentifiesReason | backend/main.py:73-103 | two reasons with the same text come from the same `return`, and the missing-disease text gives back the very disease it names |
| BackendMain.AddVerdict | backend/main.py:205-207 | the record gains exactly `fraudStatus` and `fraudReason`, holding the verdict's label and reason text, and every other field is unchanged |
| BackendMain.ExtractedRecord | backend/main.py:190-199 | the extracted record holds no verdict fields yet, and `amount` is its only integer field |
| BackendMain.UploadClaim | backend/main.py:190-209 | the reply has status `success` and carries the extracted record, unchanged, plus the verdict of `check_fraud` |
| Placeholder.ClassesDisjoint | backend/utils/fraud_checker.py:36-38 | no character is both `\s` and `\w` |
| Placeholder.RunLength | backend/utils/fraud_checker.py:36-38 | the longest run of a class at the start of a text: every character in it is in the class, and the next one is not |
| Placeholder.MatchHereIffAccepts | backend/utils/fraud_checker.py:36-47 | for patterns whose runs are followed by a token they cannot swallow, greedy matching accepts exactly what backtracking accepts |
| Placeholder.Search | backend/utils/fraud_checker.py:41-43 | `re.search` succeeds exactly when the pattern matches at some position of the text |
| Placeholder.SearchIsRegexSearch | backend/utils/fraud_checker.py:41-43 | the greedy search is the regular-expression search for such patterns |
| Placeholder.PlaceholderPatternsSeparated | backend/utils/fraud_checker.py:36-39 | all six template patterns have that shape, so the greedy search decides them exactly |
| Placeholder.ContainsPlaceholderIsRegexSearch | backend/utils/fraud_checker.py:36-47 | the template test holds exactly when one of the six patterns, with regular-expression semantics, matches at some position of the lowered text |
| FraudChecker.FindDisease | backend/utils/fraud_checker.py:57 | the row chosen names the claim's stripped disease ignoring case, no earlier row does, and there is none exactly when no row does |
| FraudChecker.FraudulentCheck | backend/utils/fraud_checker.py:28-72 | checks 1 to 5 fire exactly when the claim fails one of them, and only give fraudulent reasons |
| FraudChecker.CheckFraud | backend/utils/fraud_checker.py:3-126 | fraudulent exactly when one of the five fraudulent checks fails, and exactly when the reason is a fraudulent one |
| FraudChecker.SuspicionChecks | backend/utils/fraud_checker.py:74-126 | checks 6 to 11 never give fraudulent, give only suspicion reasons or the all-passed one, and give clean exactly with the all-passed reason |
| FraudChecker.MissingInformationFirst | backend/utils/fraud_checker.py:29-33 | a blank hospital, disease, treatment or patient name is fraudulent for missing information, before any other check |
| FraudChecker.SuspiciousPassedFraudChecks | backend/utils/fraud_checker.py:28-122 | a suspicious claim has fields present, no template text, a known hospital, a known disease and a listed treatment |
| FraudChecker.HospitalLookupIsCaseSensitive | backend/utils/fraud_checker.py:50-54 | unlike the disease lookup, the hospital lookup is exact: in a sheet holding only that row, the row's own name is known, and its lowered spelling, when different, is not |
| FraudChecker.DiseaseLookupIgnoresCase | backend/utils/fraud_checker.py:56-62 | two disease spellings that agree after stripping and lowering give the same verdict |
| FraudChecker.FraudulentCheckCongruent | backend/utils/fraud_checker.py:28-72 | the five fraudulent checks depend only on the presence of fields, the combined lowered text, the stripped hospital, the disease row and the lowered treatment |
| FraudChecker.SuspicionChecksCongruent | backend/utils/fraud_checker.py:76-122 | the six suspicion checks depend only on the amount, the lowered treatment, disease and patient name, and the length of the claim id |
| FraudChecker.TreatmentCheck | backend/utils/fraud_checker.py:64-72 | past the first four checks, the treatment-mismatch verdict is given exactly when the lowered treatment is not in the disease row's list |
| FraudChecker.HighAmountDecides | backend/utils/fraud_checker.py:76-81 | a claim over 100000 that passes the fraudulent checks is suspicious for its amount, whatever else it says |
| FraudChecker.NotFraudulentMeansSuspicionChecks | backend/utils/fraud_checker.py:74-126 | past the fraudulent checks the verdict is that of checks 6 to 11 |
| FraudChecker.RoundAmountRange | backend/utils/fraud_checker.py:109-114 | the round-number flag fires only for multiples of 10000 from 60000 to 100000, since larger amounts were already flagged as high |
| FraudChecker.ClaimIdNeverFraudulent | backend/utils/fraud_checker.py:102-107 | changing the claim id never changes whether a claim is fraudulent, nor the fraudulent verdict itself |
| FraudChecker.IrregularClaimIdOnlyLast | backend/utils/fraud_checker.py:102-107 | a short-id verdict is suspicious, comes only after every fraudulent check passed and checks 6 to 8 did not fire, and needs an id shorter than 5 |
| FraudChecker.CleanIffNoCheckFires | backend/utils/fraud_checker.py:124-126 | clean, with the all-passed reason, exactly when none of the eleven checks fires |
| FraudChecker.OnlyCleanReadsAllPassed | backend/utils/fraud_checker.py:31-126 | of the twelve reason texts, only the last `return` gives "All checks passed - claim appears legitimate" |
| FraudChecker.CheckFraudTexts | backend/utils/fraud_checker.py:3-126 | the returned pair's label is one of the three, it is `fraudulent` exactly when a fraudulent check fires, and it is `clean` exactly when the reason is the all-passed text |
| ClaimUploader.Field | policy-vigil-main/src/components/ClaimUploader.tsx:67 | reading a field of the record gives its value when present and `undefined` exactly when absent |
| ClaimUploader.FailureMessage | policy-vigil-main/src/components/ClaimUploader.tsx:56-88 | a thrown error keeps its own message; an HTTP failure reads "HTTP error! status: " followed by the status code's decimal digits |
| ClaimUploader.Resolve | policy-vigil-main/src/components/ClaimUploader.tsx:46-98 | an upload completes exactly when the response is ok, its status is `success` and it carries a record; a rejected fetch, an HTTP error and any other status each fail with their own error |
| ClaimUploader.NewEntries | policy-vigil-main/src/components/ClaimUploader.tsx:26-31 | one entry per dropped file, in drop order, with its id, name and size, processing and with no verdict, record or error |
| ClaimUploader.Settle | policy-vigil-main/src/components/ClaimUploader.tsx:62-91 | settling keeps id, name and size; it completes exactly on success, with the server's label and record, and fails exactly on error, with the error and nothing else changed |
| ClaimUploader.UpdateById | policy-vigil-main/src/components/ClaimUploader.tsx:62-91 | every entry with the file's id is settled and every other entry is left as it was |
| ClaimUploader.Processed | policy-vigil-main/src/components/ClaimUploader.tsx:42-102 | after the loop the list has the same length, ids, names and sizes, and no settled entry goes back to processing |
| ClaimUploader.Resolutions | policy-vigil-main/src/components/ClaimUploader.tsx:42-98 | one resolution per fetch outcome, in order |
| ClaimUploader.ProgressSteps | policy-vigil-main/src/components/ClaimUploader.tsx:101 | after the i-th file the progress is `(i + 1) / n * 100` |
| ClaimUploader.Uploader.constructor | policy-vigil-main/src/components/ClaimUploader.tsx:21-22 | the component starts with no files and progress 0 |
| ClaimUploader.Uploader.OnDrop | policy-vigil-main/src/components/ClaimUploader.tsx:25-103 | the list becomes the old list plus the new entries, each settled in order by its own upload; progress is reset to 0 and then takes each step value in turn, ending at 100, or 0 for an empty drop |
| ClaimUploader.LastProgressIsComplete | policy-vigil-main/src/components/ClaimUploader.tsx:101 | the last file of a batch brings progress to exactly 100 |
| ClaimUploader.ProgressIncreases | policy-vigil-main/src/components/ClaimUploader.tsx:101 | progress rises strictly from file to file and stays above 0 and at most 100 |
| ClaimUploader.ProcessedSettlesEach | policy-vigil-main/src/components/ClaimUploader.tsx:33-91 | with fresh, distinct ids, the old entries are untouched and the i-th new entry is settled by the i-th upload and by nothing else |
| ClaimUploader.ProcessedTerminal | policy-vigil-main/src/components/ClaimUploader.tsx:42-98 | whatever the ids, no entry of the batch is still processing when the loop ends |
| ClaimUploader.EmptyDropChangesNothing | policy-vigil-main/src/components/ClaimUploader.tsx:26-42 | an empty drop leaves the list as it was |
| ClaimUploader.NewEntriesWellFormed | policy-vigil-main/src/components/ClaimUploader.tsx:26-91 | with fresh, distinct ids, every entry a drop adds ends with a record exactly when completed, an error exactly when failed, and a server label only when completed |
| ClaimUploader.ReusedIdKeepsRecord | policy-vigil-main/src/components/ClaimUploader.tsx:83-90 | when a new file reuses the id of a completed entry and its upload fails, the old entry becomes failed yet keeps its record and label, so the rule above needs fresh ids |
| ClaimUploader.ShownFor | policy-vigil-main/src/components/ClaimUploader.tsx:114-128 | processing and failed are shown as such whatever the label; a completed entry is shown fraudulent or suspicious for those labels, and clean for any other label or none |
| ClaimUploader.StatusBadge | policy-vigil-main/src/components/ClaimUploader.tsx:122-128 | the secondary variant exactly while processing, the danger class exactly for a failed upload or a fraudulent label, the warning class exactly for a suspicious label |
| ClaimUploader.StatusIcon | policy-vigil-main/src/components/ClaimUploader.tsx:114-120 | a spinner exactly while processing, an alert exactly for a failed upload or a fraudulent or suspicious label, a check mark otherwise |
| ClaimUploader.IconMatchesBadge | policy-vigil-main/src/components/ClaimUploader.tsx:114-128 | badge and icon agree on colour (danger, warning, success), and only a processing entry spins |
| ClaimUploader.UploadShowsVerdict | policy-vigil-main/src/components/ClaimUploader.tsx:59-71 | a file whose upload the route answered is completed, carries the route's label and is shown as the verdict of the route's `check_fraud` |
| ClaimsTable.Filtered | policy-vigil-main/src/components/ClaimsTable.tsx:84-94 | a claim is listed exactly when it is in the list and passes the search, the status filter and the location filter; the list shown is no longer than the full list |
| ClaimsTable.FilteredIsSubsequence | policy-vigil-main/src/components/ClaimsTable.tsx:84 | the listed claims are a subsequence of the full list, in its order |
| ClaimsTable.FilteredCounts | policy-vigil-main/src/components/ClaimsTable.tsx:84-94 | a kept claim is listed as many times as it occurs, and a dropped one not at all |
| ClaimsTable.FilteredAllKept | policy-vigil-main/src/components/ClaimsTable.tsx:84-94 | when every claim passes, the full list is shown unchanged |
| ClaimsTable.FilteredIdempotent | policy-vigil-main/src/components/ClaimsTable.tsx:84-94 | filtering the listed claims again with the same criteria changes nothing |
| ClaimsTable.ClearFilters | policy-vigil-main/src/components/ClaimsTable.tsx:170-174 | the cleared criteria let every claim through |
| ClaimsTable.EmptySearchMatches | policy-vigil-main/src/components/ClaimsTable.tsx:85-88 | an empty search term matches every claim |
| ClaimsTable.ClearedShowsAll | policy-vigil-main/src/components/ClaimsTable.tsx:170-174 | after Clear Filters the table lists every claim, in order |
| ClaimsTable.SearchIgnoresCase | policy-vigil-main/src/components/ClaimsTable.tsx:85-88 | the search gives the same list for a term and its lowered spelling |
| ClaimsTable.StatusFilterIsExact | policy-vigil-main/src/components/ClaimsTable.tsx:90 | a status filter other than `all` lists exactly the claims with that status that pass the other tests |
| ClaimsTable.LocationFilterIsExact | policy-vigil-main/src/components/ClaimsTable.tsx:91 | a location filter other than `all` lists exactly the claims at that location that pass the other tests |
| ClaimsTable.StatusNarrows | policy-vigil-main/src/components/ClaimsTable.tsx:90 | choosing a status only removes claims from the list shown for `all` |
| ClaimsTable.StatusBadge | policy-vigil-main/src/components/ClaimsTable.tsx:96-109 | the four known statuses get an icon; any other status gets a plain secondary badge showing its raw text |
| ClaimsTable.StatusBadgeInjective | policy-vigil-main/src/components/ClaimsTable.tsx:96-109 | different statuses never share a badge |
| ClaimsTable.AmountColor | policy-vigil-main/src/components/ClaimsTable.tsx:111-120 | the amount is highlighted exactly for `fraudulent` and `suspicious` |
| ClaimsTable.HighlightedIffWarningBadge | policy-vigil-main/src/components/ClaimsTable.tsx:96-120 | the amount is highlighted exactly when the status badge carries the warning triangle |
| ClaimsTable.AmountToneMatchesBadge | policy-vigil-main/src/components/ClaimsTable.tsx:96-120 | the amount class is in the danger tone exactly when the status badge is, and in the warning tone exactly when the badge is |

## Left out

- Reading the upload, writing and deleting the temporary file, PDF and OCR text extraction, loading the two spreadsheets (with the empty-frame fallback), logging, and the server and CORS setup. These are I/O or foreign libraries; the spreadsheets are parameters instead.
- The regular-expression field extraction of `upload_claim` and the `int(float(...))` amount parsing. They depend on Python `re` and floating point. The extracted fields are an input (`Claims.ClaimData`).
- BackendMain.CheckFraud, FraudChecker.CheckFraud: every spreadsheet cell is a string or an integer. A blank cell, which pandas reads as NaN, is not modelled. A blank Treatment cell in the first matching disease row makes `split` raise, and the route answers HTTP 500 (backend/main.py:213-215). The model reads that cell as empty text and gives a treatment mismatch instead. A blank AvgTreatmentCost makes the 1.5 times comparison false, so the claim is never suspicious on amount; an integer average has no such value.
- The average cost compared with the amount is an integer. The test "above 1.5 times" is stated exactly as `2 * amount > 3 * average`. A fractional average, and the float rounding of the product, are not modelled.
- `lower()` and `toLowerCase()` are modelled as ASCII lowercasing. `\w` is modelled on ASCII. Full Unicode case folding and word characters are not modelled.
- `fetch`, `FormData` and the JSON parsing of the response. Each upload's result is an input `FetchOutcome`: a rejected promise (network, JSON or thrown `TypeError`) or a response with its `ok` flag, status code, `status` field and `extractedData`.
- ClaimUploader.Resolve: a response with status `success` but no `extractedData` is treated as the `TypeError` that reading `result.extractedData.fraudStatus` throws. The model fixes that error's message text. This failed outcome rests on the synchronous-update reading of `OnDrop` below: with React's queued updaters, the completing updater would read `result.extractedData.fraudStatus` again when it runs and throw there instead.
- The file ids, which come from `Math.random`, are inputs. The model does not assume they are fresh; `ClaimUploader.ReusedIdKeepsRecord` shows what a collision does.
- The size text (`toFixed(2)` megabytes) is left out as float formatting. An entry keeps the byte count.
- The thrown error is kept as a `Failure` value rendered by `FailureMessage`; the `'Unknown error'` fallback for non-`Error` throws is not modelled.
- ClaimUploader.Uploader.OnDrop: progress is an exact rational. Float rounding of `((i + 1) / n) * 100` is not modelled.
- ClaimUploader.Uploader.OnDrop: React's deferred state updates, a second drop that starts while a batch is still running, toasts, the dropzone configuration and rendering are left out. The method applies each update at the point the loop issues it, one batch at a time.
- The sample claims the table is seeded with, the table markup and the claim details view are left out as presentation data.
- `AnalyticsDashboard.tsx` and `Index.tsx` are not part of this model; they hold sample data and layout only.
