/** The patient record as the two hospital-side screens read and write it.
    Only the fields the handlers touch are modelled; a medical report is
    identified by its id and otherwise carried along unchanged. */
module Records {

  datatype Option<+T> = None | Some(value: T)

  /** A JavaScript number as it can end up in a patient's `age` field:
      an integer, or NaN when `parseInt` found no digits. */
  datatype Age = Num(years: int) | NaN

  /** A medical report; everything but the id is opaque to the handlers. */
  datatype MedicalReport = MedicalReport(id: string, title: string)

  datatype Patient = Patient(
    id: string,
    name: string,
    age: Age,
    gender: string,
    bloodGroup: string,
    contactNumber: string,
    email: string,
    address: string,
    medicalHistory: seq<string>,
    medicalReports: seq<MedicalReport>,
    lastVisit: string)

  /** The set of ids carried by a patient list. */
  function Ids(ps: seq<Patient>): (r: set<string>)
    ensures forall i :: 0 <= i < |ps| ==> ps[i].id in r
    ensures forall id :: id in r ==> exists i :: 0 <= i < |ps| && ps[i].id == id
  {
    set p | p in ps :: p.id
  }

  /** No two entries of the list share an id. */
  predicate UniqueIds(ps: seq<Patient>)
  {
    forall i, j :: 0 <= i < j < |ps| ==> ps[i].id != ps[j].id
  }
}
