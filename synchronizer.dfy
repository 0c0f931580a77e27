/** The test-submission handler: look the patient up, save the test, classify
    the result and save the patient only when its flag has to change. */
module Synchronizer {
  import opened Records
  import opened Classifier

  /** What the store holds: the patient collection and the append-only test log. */
  datatype StoreState = StoreState(patients: map<PatientId, Patient>, tests: seq<Test>)

  /** A write that reached the store. */
  datatype Write = TestWrite(test: Test) | PatientWrite(id: PatientId, patient: Patient)

  /** Which of the two store writes of a submission fails (a rejected document
      or a persistence error); the store decides, so the model takes it as input. */
  datatype Faults = Faults(testSaveFails: bool, patientSaveFails: bool)

  /** The response: 404, 400 (any exception after the lookup), or 201 with the
      new test and the resulting flag. */
  datatype Outcome = NotFound | StoreError | Created(test: Test, isCritical: bool)

  /** The store writes a submission performed, in order, and its response. */
  datatype Effect = Effect(writes: seq<Write>, outcome: Outcome)

  function Apply(s: StoreState, w: Write): StoreState {
    match w
    case TestWrite(t) => s.(tests := s.tests + [t])
    case PatientWrite(id, p) => s.(patients := s.patients[id := p])
  }

  function ApplyAll(s: StoreState, ws: seq<Write>): StoreState
    decreases |ws|
  {
    if ws == [] then s else ApplyAll(Apply(s, ws[0]), ws[1..])
  }

  /** The handler's steps on a store in state `s`. */
  function Submit(s: StoreState, sub: Submission, f: Faults): (e: Effect)
    ensures e.outcome == NotFound <==> sub.patientId !in s.patients
    ensures e.writes == [] <==> sub.patientId !in s.patients || f.testSaveFails
    ensures e.writes != [] ==> e.writes[0] == TestWrite(NewTest(sub))
    ensures |e.writes| <= 2
    ensures sub.patientId in s.patients ==>
              var p := s.patients[sub.patientId];
              var verdict := Classify(sub.testType, sub.result, p.critical);
              && (|e.writes| == 2 <==> !f.testSaveFails && !f.patientSaveFails && verdict != p.critical)
              && (|e.writes| == 2 ==> e.writes[1] == PatientWrite(sub.patientId, p.(critical := verdict)))
              && (e.outcome.Created? <==> !f.testSaveFails && (verdict == p.critical || !f.patientSaveFails))
              && (e.outcome.Created? ==> e.outcome == Created(NewTest(sub), verdict))
  {
    if sub.patientId !in s.patients then Effect([], NotFound)
    else
      var patient := s.patients[sub.patientId];
      var newTest := NewTest(sub);
      if f.testSaveFails then Effect([], StoreError)
      else
        var isCritical := Classify(sub.testType, sub.result, patient.critical);
        if patient.critical == isCritical then Effect([TestWrite(newTest)], Created(newTest, isCritical))
        else if f.patientSaveFails then Effect([TestWrite(newTest)], StoreError)
        else Effect([TestWrite(newTest), PatientWrite(sub.patientId, patient.(critical := isCritical))],
                    Created(newTest, isCritical))
  }

  /** The submission reaches the patient save (the test was saved and the
      verdict differs from the stored flag) and the store rejects it. */
  predicate PatientSaveRejected(s: StoreState, sub: Submission, f: Faults) {
    && sub.patientId in s.patients
    && !f.testSaveFails
    && f.patientSaveFails
    && Classify(sub.testType, sub.result, s.patients[sub.patientId].critical)
         != s.patients[sub.patientId].critical
  }

  /** The store after a submission. */
  function After(s: StoreState, sub: Submission, f: Faults): StoreState {
    ApplyAll(s, Submit(s, sub, f).writes)
  }

  /** A submission for an unknown patient changes nothing. Otherwise the log
      grows by exactly the new test unless the test save failed, no patient is
      added or removed, no other patient changes, the submitting patient changes
      in `critical` at most, and a 201 response reports the stored flag. */
  lemma SubmitChangesOnlyCritical(s: StoreState, sub: Submission, f: Faults)
    ensures sub.patientId !in s.patients ==> After(s, sub, f) == s
    ensures After(s, sub, f).tests ==
              if sub.patientId !in s.patients || f.testSaveFails then s.tests
              else s.tests + [NewTest(sub)]
    ensures After(s, sub, f).patients.Keys == s.patients.Keys
    ensures forall id :: id in s.patients && id != sub.patientId ==>
              After(s, sub, f).patients[id] == s.patients[id]
    ensures sub.patientId in s.patients ==>
              var p := After(s, sub, f).patients[sub.patientId];
              p == s.patients[sub.patientId].(critical := p.critical)
    ensures Submit(s, sub, f).outcome.Created? ==>
              After(s, sub, f).patients[sub.patientId].critical == Submit(s, sub, f).outcome.isCritical
  {
    var e := Submit(s, sub, f);
    if |e.writes| == 1 {
      ApplyAllOne(s, e.writes[0]);
    } else if |e.writes| == 2 {
      ApplyAllTwo(s, e.writes[0], e.writes[1]);
    }
  }

  lemma ApplyAllOne(s: StoreState, w: Write)
    ensures ApplyAll(s, [w]) == Apply(s, w)
  {
    assert [w][1..] == [];
  }

  lemma ApplyAllTwo(s: StoreState, w0: Write, w1: Write)
    ensures ApplyAll(s, [w0, w1]) == Apply(Apply(s, w0), w1)
  {
    assert [w0, w1][1..] == [w1];
    ApplyAllOne(Apply(s, w0), w1);
  }

  /** A patient is written only when its stored flag differs from the verdict,
      and never before the test has been saved. */
  lemma PatientWrittenOnlyOnChange(s: StoreState, sub: Submission, f: Faults, i: nat)
    requires i < |Submit(s, sub, f).writes|
    requires Submit(s, sub, f).writes[i].PatientWrite?
    ensures sub.patientId in s.patients
    ensures Classify(sub.testType, sub.result, s.patients[sub.patientId].critical)
              != s.patients[sub.patientId].critical
    ensures i == 1 && Submit(s, sub, f).writes[0] == TestWrite(NewTest(sub))
  {
  }

  /** The store as the handler sees it: a patient map and a test log that the
      store operations update in place. `journal` records every write that
      reached the store. */
  class PatientStore {
    var patients: map<PatientId, Patient>
    var tests: seq<Test>
    ghost var journal: seq<Write>

    function State(): StoreState
      reads this
    {
      StoreState(patients, tests)
    }

    constructor (patients: map<PatientId, Patient>, tests: seq<Test>)
      ensures this.patients == patients && this.tests == tests && journal == []
    {
      this.patients := patients;
      this.tests := tests;
      journal := [];
    }

    /** Looks a patient up by id. */
    method FindPatientById(id: PatientId) returns (p: Option<Patient>)
      ensures p.Some? <==> id in patients
      ensures p.Some? ==> p.value == patients[id]
    {
      if id in patients {
        p := Some(patients[id]);
      } else {
        p := None;
      }
    }

    /** Appends a test to the log unless the store rejects it. */
    method SaveTest(t: Test, fails: bool) returns (ok: bool)
      modifies this
      ensures ok == !fails
      ensures patients == old(patients)
      ensures tests == if ok then old(tests) + [t] else old(tests)
      ensures journal == if ok then old(journal) + [TestWrite(t)] else old(journal)
    {
      ok := !fails;
      if ok {
        tests := tests + [t];
        journal := journal + [TestWrite(t)];
      }
    }

    /** Overwrites an existing patient; saving a patient that is no longer
        stored fails as well. */
    method SavePatient(id: PatientId, p: Patient, fails: bool) returns (ok: bool)
      modifies this
      ensures ok == (!fails && id in old(patients))
      ensures tests == old(tests)
      ensures patients == if ok then old(patients)[id := p] else old(patients)
      ensures journal == if ok then old(journal) + [PatientWrite(id, p)] else old(journal)
    {
      ok := !fails && id in patients;
      if ok {
        patients := patients[id := p];
        journal := journal + [PatientWrite(id, p)];
      }
    }

    /** The handler of a test submission. */
    method RecordTest(sub: Submission, faults: Faults) returns (out: Outcome)
      modifies this
      ensures out == Submit(old(State()), sub, faults).outcome
      ensures State() == After(old(State()), sub, faults)
      ensures journal == old(journal) + Submit(old(State()), sub, faults).writes
      ensures patients.Keys == old(patients).Keys
      ensures out == NotFound ==> patients == old(patients) && tests == old(tests)
      ensures out.Created? ==> tests == old(tests) + [out.test]
      ensures out.Created? ==> patients[sub.patientId].critical == out.isCritical
    {
      ghost var s := State();
      SubmitChangesOnlyCritical(s, sub, faults);
      var found := FindPatientById(sub.patientId);
      if found.None? {
        return NotFound;
      }
      var patient := found.value;
      var newTest := NewTest(sub);
      var ok := SaveTest(newTest, faults.testSaveFails);
      if !ok {
        return StoreError;
      }
      var isCritical := Classify(sub.testType, sub.result, patient.critical);
      if patient.critical != isCritical {
        ok := SavePatient(sub.patientId, patient.(critical := isCritical), faults.patientSaveFails);
        if !ok {
          assert Submit(s, sub, faults).writes == [TestWrite(newTest)];
          ApplyAllOne(s, TestWrite(newTest));
          return StoreError;
        }
      }
      out := Created(newTest, isCritical);
    }
  }
}
