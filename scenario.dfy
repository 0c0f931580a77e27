/** A client of the store: an end-to-end run (heart rate 110, then 75, then
    130, then an unrecognized "X-Ray" test, then an unknown patient), using
    only the contract of RecordTest. */
module Scenario {
  import opened Records
  import opened Classifier
  import opened Synchronizer

  method HeartRateThenXRay() {
    var ada := Patient("Ada", 54.0, "555-0100", false, "none", "F", "1 Main St", "none",
                       72.0, "120/80", 16.0, 36.6);
    var store := new PatientStore(map["p1" := ada], []);
    var ok := Faults(false, false);

    var out := store.RecordTest(Submission("p1", HEART_RATE, "2024-01-01", "ward", 110.0), ok);
    assert out == Created(Test("p1", HEART_RATE, "2024-01-01", "ward", 110.0), true);
    assert store.patients["p1"].critical;

    out := store.RecordTest(Submission("p1", HEART_RATE, "2024-01-02", "ward", 75.0), ok);
    assert out.Created? && !out.isCritical;
    assert !store.patients["p1"].critical;

    out := store.RecordTest(Submission("p1", HEART_RATE, "2024-01-03", "ward", 130.0), ok);
    assert store.patients["p1"].critical;
    out := store.RecordTest(Submission("p1", "X-Ray", "2024-01-04", "ward", 1.0), ok);
    assert out.Created? && out.isCritical;
    assert store.patients["p1"].critical && |store.tests| == 4;

    out := store.RecordTest(Submission("p2", HEART_RATE, "2024-01-05", "ward", 75.0), ok);
    assert out == NotFound && |store.tests| == 4;
  }
}
