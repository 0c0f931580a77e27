# Patient app: test submission and critical-flag synchronization

A Dafny model of the test-submission handler of the patient records backend
(`POST /tests` in `backend_patientapp/server.js`). A submission names a patient,
a test type, a date, a location and a numeric result. The handler looks the
patient up and answers 404 if it is absent. Otherwise it saves the test,
classifies the result, and saves the patient only when the critical flag has to
change. It then answers 201 with the new test and the resulting flag; any
exception after the lookup becomes a 400.

Files and modules:

- `records.dfy` (`Records`): the patient and test record shapes, the submission body, `Option`.
- `classifier.dfy` (`Classifier`): the vital-sign classifier `Classify`, the threshold table
  `RuleFor` it is proved against, and boundary lemmas.
- `synchronizer.dfy` (`Synchronizer`): the store as a pure value (`StoreState`), the writes
  that reach the store (`Write`), the handler as a pure function `Submit` returning its
  writes and response, and the class `PatientStore`. The class holds the patient map and the
  test log and updates them in place. `RecordTest` does the handler's steps in the handler's
  order and is proved equal to `Submit`.
- `history.dfy` (`History`): a run of many submissions (`Replay`), and the invariant the
  handler maintains. Each patient's flag is the verdict of its most recent test of a
  recognized type, or its starting flag if there is no such test, as long as the store never
  rejected a patient save sent for it; a flag left stale by a failed save recovers at its next recognized test whose saves the
  store accepts.
- `scenario.dfy` (`Scenario`): a client of `PatientStore` that runs an end-to-end sequence
  (heart rate 110, then 75, then 130, which makes the patient critical again, then an
  unrecognized "X-Ray" test on that critical patient, then an unknown patient). It uses only the contracts.

Store failures are parameters. `Faults(testSaveFails, patientSaveFails)` says which of the
two saves the store rejects. A schema validation error and a persistence error look the same.

The handler does not tell a failed patient save apart from a failed test save: one
`catch` answers 400 for both (`server.js:168-170`), so `Outcome` has a single `StoreError`.
The store states still differ: after a failed patient save the test is in the log
(`PatientSaveFailureLeavesFlagStale`).

## Model

| member | source | states |
|---|---|---|
| `Classifier.Classify` | backend_patientapp/server.js:151-159 | For Blood Pressure, Heart Rate and Respiratory Rate the verdict is critical exactly when the result lies strictly outside the table's normal range (90-140, 60-100, 12-20). For any other type it equals the patient's current flag. |
| `Classifier.Boundaries` | backend_patientapp/server.js:152-158 | Each threshold value (140, 90, 100, 60, 20, 12) is not critical, and a value just beyond it is critical, whatever the current flag. |
| `Classifier.RecognizedIgnoresCurrent` | backend_patientapp/server.js:151-159 | For a recognized type the verdict does not depend on the stored flag. |
| `Synchronizer.Submit` | backend_patientapp/server.js:141-167 | The response is not-found exactly when the patient is absent. No write happens when the patient is absent or the test save fails. The first write is always the new test built from the submission (`Records.NewTest`, the document of line 147), and there are at most two writes. A second write, the patient with `critical` set to the verdict, happens exactly when both saves succeed and the verdict differs from the stored flag. A 201 reports the new test and the verdict. |
| `Synchronizer.SubmitChangesOnlyCritical` | backend_patientapp/server.js:141-165 | For an unknown patient the store is unchanged. Otherwise the log gains exactly the new test unless its save failed. The patient keys, every other patient, and every field of the patient except `critical` stay the same. On 201 the stored flag equals the reported one. |
| `Synchronizer.PatientWrittenOnlyOnChange` | backend_patientapp/server.js:147-165 | A patient write happens only for an existing patient whose stored flag differs from the verdict. It is always the second write, after the test save. |
| `Synchronizer.PatientStore.FindPatientById` | backend_patientapp/server.js:141-144 | Returns the stored patient when the id is present, and nothing otherwise. |
| `Synchronizer.PatientStore.SaveTest` | backend_patientapp/server.js:147-148 | When it succeeds, the test is appended to the log and journalled. When it fails, nothing changes. Patients are never touched. |
| `Synchronizer.PatientStore.SavePatient` | backend_patientapp/server.js:163-164 | Overwrites the patient only when the store accepts the write and the patient still exists. The log is never touched. |
| `Synchronizer.PatientStore.RecordTest` | backend_patientapp/server.js:136-171 | The response, the new patient map and log, and the writes journalled are exactly those of `Submit`. Not-found leaves everything unchanged. A 201 appends exactly the reported test, and the stored flag afterwards equals the reported `isCritical`. |
| `History.LatestRecognized` | backend_patientapp/server.js:151-159 | Gives the position of a log entry for the patient with a recognized type, with no such entry after it, or reports that there is none. |
| `History.Replay` | backend_patientapp/server.js:141-165 | Over any sequence of submissions the log is append-only (the starting log is a prefix of the final one), the set of patients is fixed, and every patient differs from its starting record in `critical` at most. |
| `History.GrowsFrom` | backend_patientapp/server.js:141-165 | One more submission keeps the store an extension of the starting store in that sense. |
| `History.ReplayKeepsFlagsInSync` | backend_patientapp/server.js:141-165 | Over any sequence of submissions, each patient for which the store never rejected a patient save that the handler actually sent carries the verdict of its latest recognized-type test recorded in the run, or its starting flag if there is none. A fault on a submission that sends no patient save, or on another patient's submission, does not matter. |
| `History.FlagStep` | backend_patientapp/server.js:151-165 | One submission keeps a patient's flag equal to the flag expected from the log, unless it is a submission for that patient whose verdict differs from the stored flag and whose patient save the store rejects. |
| `History.FlagRecovers` | backend_patientapp/server.js:147-165 | A stale flag lasts only until the patient's next recognized-type test: when that test is saved and, if the verdict differs from the stored flag, the patient save is not rejected, the flag equals that test's verdict, whatever the flag was before. |
| `History.HarmlessPatientSaveFault` | backend_patientapp/server.js:162-165 | A patient-save fault on a submission that needs no patient save (heart rate 75 for a non-critical patient) leaves the patient in sync, and the run satisfies the premise of `ReplayKeepsFlagsInSync`. |
| `History.PatientSaveFailureLeavesFlagStale` | backend_patientapp/server.js:162-170 | If the verdict would change the flag but the patient save fails, the response is the 400 error. The test is still in the log, and the stored flag disagrees with the patient's latest recognized test. |

## Left out

- Express setup, middleware, the root route and `app.listen` (`server.js:1-11`, `66-69`, `173-175`): framework wiring.
- The connect-with-retry loop (`server.js:17-35`): network I/O with delays and process exit.
- The patient CRUD endpoints (`server.js:72-132`): pass-throughs to the store with no logic of their own. Patients enter the model only through the `PatientStore` constructor.
- Schema validation and casting (`server.js:38-60`). Required fields are present by construction, and a document the store rejects is the `testSaveFails` fault.
- A lookup that throws (a malformed object id makes the lookup fail with a 400 rather than a 404). Ids are opaque strings, so absence is the only lookup failure.
- The generated `_id` of a new test and the JSON response bodies and status codes. A test's identity is its position in the log, and the response is the `Outcome` datatype.
- JavaScript number semantics (NaN, infinities, floating-point rounding) and the coercion of a string `result` in comparisons. `result` is an exact `real`.
- Concurrent submissions for the same patient, and their last-write-wins race: the model handles one submission at a time.
- Idempotence of the classifier is not stated as a lemma: `Classify` is a pure function, so equal inputs give equal verdicts by definition.
