/** The record shapes of the patient and test collections. Every field that the
    schemas mark as required is a plain (always present) field here. */
module Records {

  datatype Option<T> = None | Some(value: T)

  /** Identifier of a stored patient (a database object id, opaque here). */
  type PatientId = string

  /** A patient document. `critical` is the only field the test handler changes;
      numeric fields are exact reals rather than floating-point numbers. */
  datatype Patient = Patient(
    name: string,
    age: real,
    phone: string,
    critical: bool,
    diagnosis: string,
    gender: string,
    address: string,
    medicalHistory: string,
    heartRate: real,
    bloodPressure: string,
    respiratoryRate: real,
    temperature: real)

  /** A test document, bound to its patient by `patientId`. */
  datatype Test = Test(
    patientId: PatientId,
    testType: string,
    date: string,
    location: string,
    result: real)

  /** The body of a test submission. */
  datatype Submission = Submission(
    patientId: PatientId,
    testType: string,
    date: string,
    location: string,
    result: real)

  /** The test document built from a submission. */
  function NewTest(sub: Submission): Test {
    Test(sub.patientId, sub.testType, sub.date, sub.location, sub.result)
  }
}
