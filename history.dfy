/** A run of test submissions against one store, and the invariant that the
    handler keeps as long as the store accepts every patient save the handler
    sends for that patient: each patient's flag is the verdict of its most
    recent test of a recognized type, or its flag at the start when it has none. */
module History {
  import opened Records
  import opened Classifier
  import opened Synchronizer

  /** One submission together with how the store treats its two writes. */
  datatype Request = Request(sub: Submission, faults: Faults)

  /** The store after handling the requests in order. The log only grows, no
      patient appears or disappears, and only `critical` changes. */
  function Replay(s0: StoreState, reqs: seq<Request>): (s: StoreState)
    ensures Extends(s0, s)
    decreases |reqs|
  {
    if reqs == [] then s0
    else
      var last := reqs[|reqs| - 1];
      var prev := Replay(s0, reqs[..|reqs| - 1]);
      GrowsFrom(s0, prev, last.sub, last.faults);
      After(prev, last.sub, last.faults)
  }

  /** `s` has the log of `s0` as a prefix, the same patients, and differs from
      them only in `critical`. */
  predicate Extends(s0: StoreState, s: StoreState) {
    && |s0.tests| <= |s.tests| && s.tests[..|s0.tests|] == s0.tests
    && s.patients.Keys == s0.patients.Keys
    && forall id :: id in s0.patients ==>
         s.patients[id] == s0.patients[id].(critical := s.patients[id].critical)
  }

  lemma GrowsFrom(s0: StoreState, prev: StoreState, sub: Submission, f: Faults)
    requires Extends(s0, prev)
    ensures Extends(s0, After(prev, sub, f))
  {
    SubmitChangesOnlyCritical(prev, sub, f);
    var next := After(prev, sub, f);
    assert next.tests[..|prev.tests|] == prev.tests;
    assert next.tests[..|s0.tests|] == prev.tests[..|s0.tests|];
  }

  /** A test that can move `id`'s flag. */
  predicate Affects(t: Test, id: PatientId) {
    t.patientId == id && IsRecognized(t.testType)
  }

  /** The position of the most recent test in `tests` that can move `id`'s flag. */
  function LatestRecognized(tests: seq<Test>, id: PatientId): (r: Option<nat>)
    ensures r.Some? ==> r.value < |tests| && Affects(tests[r.value], id)
    ensures r.Some? ==> forall j :: r.value < j < |tests| ==> !Affects(tests[j], id)
    ensures r.None? ==> forall j :: 0 <= j < |tests| ==> !Affects(tests[j], id)
    decreases |tests|
  {
    if tests == [] then None
    else if Affects(tests[|tests| - 1], id) then Some(|tests| - 1)
    else LatestRecognized(tests[..|tests| - 1], id)
  }

  /** The flag `id` should carry after the tests `log` were recorded, starting
      from `initial`. */
  function ExpectedFlag(initial: bool, log: seq<Test>, id: PatientId): bool {
    match LatestRecognized(log, id)
    case None => initial
    case Some(i) => Classify(log[i].testType, log[i].result, initial)
  }

  /** No submission for `id` in the run from `s0` had a patient save rejected
      by the store: a fault on a submission that sends no patient save is harmless. */
  predicate NoPatientSaveRejectedFor(s0: StoreState, reqs: seq<Request>, id: PatientId) {
    forall i :: 0 <= i < |reqs| && reqs[i].sub.patientId == id ==>
      !PatientSaveRejected(Replay(s0, reqs[..i]), reqs[i].sub, reqs[i].faults)
  }

  /** Over any run, a patient whose patient save the store never rejected
      carries the verdict of its latest recognized test since the start. */
  lemma {:induction false} ReplayKeepsFlagsInSync(s0: StoreState, reqs: seq<Request>, id: PatientId)
    requires id in s0.patients
    requires NoPatientSaveRejectedFor(s0, reqs, id)
    ensures Replay(s0, reqs).patients[id].critical
              == ExpectedFlag(s0.patients[id].critical, Replay(s0, reqs).tests[|s0.tests|..], id)
    decreases |reqs|
  {
    if reqs != [] {
      var init := reqs[..|reqs| - 1];
      var last := reqs[|reqs| - 1];
      NoPatientSaveRejectedForPrefix(s0, reqs, id);
      ReplayKeepsFlagsInSync(s0, init, id);
      FlagStep(s0.patients[id].critical, Replay(s0, init), last.sub, last.faults,
               Replay(s0, reqs), |s0.tests|, id);
    }
  }

  lemma NoPatientSaveRejectedForPrefix(s0: StoreState, reqs: seq<Request>, id: PatientId)
    requires reqs != [] && NoPatientSaveRejectedFor(s0, reqs, id)
    ensures NoPatientSaveRejectedFor(s0, reqs[..|reqs| - 1], id)
    ensures var k := |reqs| - 1;
            reqs[k].sub.patientId == id ==>
              !PatientSaveRejected(Replay(s0, reqs[..k]), reqs[k].sub, reqs[k].faults)
  {
    var init := reqs[..|reqs| - 1];
    forall i | 0 <= i < |init| && init[i].sub.patientId == id
      ensures !PatientSaveRejected(Replay(s0, init[..i]), init[i].sub, init[i].faults)
    {
      assert init[i] == reqs[i];
      assert init[..i] == reqs[..i];
    }
  }

  /** One submission keeps one patient's flag equal to its expected flag,
      unless it is a submission for that patient whose patient save the store
      rejects. */
  lemma FlagStep(initial: bool, prev: StoreState, sub: Submission, f: Faults, next: StoreState,
                 n: nat, id: PatientId)
    requires sub.patientId == id ==> !PatientSaveRejected(prev, sub, f)
    requires next == After(prev, sub, f)
    requires n <= |prev.tests|
    requires id in prev.patients
    requires prev.patients[id].critical == ExpectedFlag(initial, prev.tests[n..], id)
    ensures id in next.patients && n <= |next.tests|
    ensures next.patients[id].critical == ExpectedFlag(initial, next.tests[n..], id)
  {
    SubmitChangesOnlyCritical(prev, sub, f);
    var old_log := prev.tests[n..];
    if sub.patientId in prev.patients && !f.testSaveFails {
      var t := NewTest(sub);
      assert next.tests[n..] == old_log + [t];
      assert (old_log + [t])[..|old_log|] == old_log;
      if id == sub.patientId {
        var e := Submit(prev, sub, f);
        assert e.outcome.Created?;
        if IsRecognized(t.testType) {
          RecognizedIgnoresCurrent(t.testType, t.result);
        }
      } else {
        assert LatestRecognized(old_log + [t], id) == LatestRecognized(old_log, id);
      }
    } else {
      assert next.tests == prev.tests;
    }
  }

  /** When the patient save fails the test stays in the log but the flag keeps
      its old value, so it disagrees with the patient's latest recognized test
      until a later one is recorded. */
  lemma PatientSaveFailureLeavesFlagStale(s: StoreState, sub: Submission)
    requires sub.patientId in s.patients
    requires Classify(sub.testType, sub.result, s.patients[sub.patientId].critical)
               != s.patients[sub.patientId].critical
    ensures Submit(s, sub, Faults(false, true)).outcome == StoreError
    ensures After(s, sub, Faults(false, true)).tests == s.tests + [NewTest(sub)]
    ensures sub.patientId in After(s, sub, Faults(false, true)).patients
    ensures After(s, sub, Faults(false, true)).patients[sub.patientId].critical
              != ExpectedFlag(s.patients[sub.patientId].critical,
                              After(s, sub, Faults(false, true)).tests, sub.patientId)
  {
    var f := Faults(false, true);
    assert Submit(s, sub, f).writes == [TestWrite(NewTest(sub))];
    ApplyAllOne(s, TestWrite(NewTest(sub)));
    var log := After(s, sub, f).tests;
    assert LatestRecognized(log, sub.patientId) == Some(|log| - 1);
    RecognizedIgnoresCurrent(sub.testType, sub.result);
  }

  /** A stale flag lasts only until the patient's next recognized test: once
      that test is saved and the store does not reject a patient save it needs
      (a fault on a save that is not sent does not matter), the flag is the
      verdict of that test, whatever the flag was before and whatever part of
      the log is considered. */
  lemma FlagRecovers(s: StoreState, sub: Submission, f: Faults, initial: bool, n: nat)
    requires sub.patientId in s.patients
    requires IsRecognized(sub.testType)
    requires !f.testSaveFails && !PatientSaveRejected(s, sub, f)
    requires n <= |s.tests|
    ensures sub.patientId in After(s, sub, f).patients && n <= |After(s, sub, f).tests|
    ensures After(s, sub, f).patients[sub.patientId].critical
              == ExpectedFlag(initial, After(s, sub, f).tests[n..], sub.patientId)
  {
    SubmitChangesOnlyCritical(s, sub, f);
    var log := After(s, sub, f).tests[n..];
    assert log == s.tests[n..] + [NewTest(sub)];
    assert LatestRecognized(log, sub.patientId) == Some(|log| - 1);
    RecognizedIgnoresCurrent(sub.testType, sub.result);
  }

  /** A patient-save fault on a submission that needs no patient save leaves
      the patient in sync: a heart rate of 75 for a non-critical patient. */
  lemma HarmlessPatientSaveFault(p: Patient)
    requires !p.critical
    ensures var s0 := StoreState(map["p1" := p], []);
            var reqs := [Request(Submission("p1", HEART_RATE, "d", "l", 75.0), Faults(false, true))];
            && NoPatientSaveRejectedFor(s0, reqs, "p1")
            && "p1" in Replay(s0, reqs).patients
            && Replay(s0, reqs).patients["p1"].critical
                 == ExpectedFlag(p.critical, Replay(s0, reqs).tests, "p1")
  {
    var s0 := StoreState(map["p1" := p], []);
    var sub := Submission("p1", HEART_RATE, "d", "l", 75.0);
    var reqs := [Request(sub, Faults(false, true))];
    assert reqs[..0] == [] && reqs[..|reqs| - 1] == [];
    ReplayKeepsFlagsInSync(s0, reqs, "p1");
  }
}
