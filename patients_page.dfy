/** The record handling of the hospital's patients page: a patient list, the
    visible (searched) list, and one form draft shared by the add and edit
    modals. The component's state cells are the fields of `Page`; the values
    its handlers compute are the functions of this module. */
module PatientsPage {
  import opened Records
  import opened Seqs
  import opened PatientSearch
  import opened PatientList

  /** The form draft: every profile field of a patient, and nothing else. */
  datatype PatientFormData = PatientFormData(
    name: string,
    age: Age,
    gender: string,
    bloodGroup: string,
    contactNumber: string,
    email: string,
    address: string,
    medicalHistory: seq<string>)

  /** The draft the add modal opens with and every close resets to. */
  const InitialFormData := PatientFormData("", Num(0), "", "", "", "", "", [""])

  /** The text inputs of the form, named as their `name` attributes. */
  datatype TextField = Name | Gender | BloodGroup | ContactNumber | Email | Address

  /** `{...prev, [name]: value}` for a text input: the input's field takes the
      value and every other field, age and history included, is kept. */
  function WithField(f: PatientFormData, field: TextField, value: string): (r: PatientFormData)
    ensures FieldValue(r, field) == value
    ensures forall other :: other != field ==> FieldValue(r, other) == FieldValue(f, other)
    ensures r.age == f.age && r.medicalHistory == f.medicalHistory
  {
    match field
    case Name => f.(name := value)
    case Gender => f.(gender := value)
    case BloodGroup => f.(bloodGroup := value)
    case ContactNumber => f.(contactNumber := value)
    case Email => f.(email := value)
    case Address => f.(address := value)
  }

  /** The field a text input shows. */
  function FieldValue(f: PatientFormData, field: TextField): string
  {
    match field
    case Name => f.name
    case Gender => f.gender
    case BloodGroup => f.bloodGroup
    case ContactNumber => f.contactNumber
    case Email => f.email
    case Address => f.address
  }

  /** The draft the edit modal is prefilled with: overlaid on the record it
      came from, it gives that record back. */
  function FormOf(p: Patient): (r: PatientFormData)
    ensures Overlay(p, r) == p
  {
    PatientFormData(p.name, p.age, p.gender, p.bloodGroup, p.contactNumber,
                    p.email, p.address, p.medicalHistory)
  }

  /** `{...selectedPatient, ...formData}`: the form's fields over the record,
      which keeps its id, its reports and its last visit. */
  function Overlay(p: Patient, f: PatientFormData): (r: Patient)
    ensures r.id == p.id && r.medicalReports == p.medicalReports && r.lastVisit == p.lastVisit
    ensures r.name == f.name && r.age == f.age && r.gender == f.gender
    ensures r.bloodGroup == f.bloodGroup && r.contactNumber == f.contactNumber
    ensures r.email == f.email && r.address == f.address && r.medicalHistory == f.medicalHistory
  {
    p.(name := f.name, age := f.age, gender := f.gender, bloodGroup := f.bloodGroup,
       contactNumber := f.contactNumber, email := f.email, address := f.address,
       medicalHistory := f.medicalHistory)
  }

  /** `{id, ...formData, medicalReports: [], lastVisit}`: the given id, no
      reports, today as the last visit, and exactly the form as the profile. */
  function NewPatient(id: string, f: PatientFormData, today: string): (r: Patient)
    ensures r.id == id && r.medicalReports == [] && r.lastVisit == today
    ensures FormOf(r) == f
  {
    Patient(id, f.name, f.age, f.gender, f.bloodGroup, f.contactNumber,
            f.email, f.address, f.medicalHistory, [], today)
  }

  /** The edit form round-trips: the draft read back from an overlaid record
      is the draft that was overlaid. */
  lemma OverlaySpec(p: Patient, f: PatientFormData)
    ensures FormOf(Overlay(p, f)) == f
  {
  }

  /** Submitting the edit form unchanged, opened on a record of a list whose
      ids are distinct, leaves the list equal to what it was. */
  lemma EditUnchangedIsIdentity(list: seq<Patient>, p: Patient)
    requires UniqueIds(list) && p in list
    ensures ReplaceById(list, p.id, Overlay(p, FormOf(p))) == list
  {
    var k :| 0 <= k < |list| && list[k] == p;
    forall i | 0 <= i < |list| && list[i].id == p.id ensures list[i] == p {
      assert i == k;
    }
    ReplaceByIdSameValue(list, p.id, p);
  }

  /** The remove control is offered only while the history has more than one
      entry, so removing never empties it. */
  lemma RemoveHistoryKeepsOneEntry(history: seq<string>, index: int)
    requires |history| > 1
    ensures |DropIndex(history, index)| >= 1
  {
  }

  class Page {
    /** The sample records every search starts from. */
    const mockPatients: seq<Patient>

    var searchQuery: string
    var patients: seq<Patient>
    var filteredPatients: seq<Patient>
    var isAddModalOpen: bool
    var isViewModalOpen: bool
    var isEditModalOpen: bool
    var selectedPatient: Option<Patient>
    var formData: PatientFormData

    /** Ids stay distinct in the patient list. */
    ghost predicate Valid()
      reads this`patients
    {
      UniqueIds(patients)
    }

    constructor (mockPatients: seq<Patient>)
      requires UniqueIds(mockPatients)
      ensures Valid()
      ensures this.mockPatients == mockPatients
      ensures patients == mockPatients && filteredPatients == mockPatients
      ensures searchQuery == "" && formData == InitialFormData && selectedPatient == None
      ensures !isAddModalOpen && !isViewModalOpen && !isEditModalOpen
    {
      this.mockPatients := mockPatients;
      searchQuery := "";
      patients := mockPatients;
      filteredPatients := mockPatients;
      isAddModalOpen := false;
      isViewModalOpen := false;
      isEditModalOpen := false;
      selectedPatient := None;
      formData := InitialFormData;
    }

    /** The visible list becomes the matching seed patients, whatever
        `patients` holds now. */
    method HandleSearch(query: string)
      modifies this`searchQuery, this`filteredPatients
      ensures searchQuery == query
      ensures filteredPatients == Search(mockPatients, query)
      ensures query == "" ==> filteredPatients == mockPatients
    {
      searchQuery := query;
      filteredPatients := Search(mockPatients, query);
      SearchEmptyQuery(mockPatients);
    }

    /** `handleInputChange` for a text input. */
    method HandleInputChange(field: TextField, value: string)
      modifies this`formData
      ensures formData == WithField(old(formData), field, value)
    {
      formData := WithField(formData, field, value);
    }

    /** Copies the history, writes one position of the copy, and stores it. */
    method HandleMedicalHistoryChange(index: nat, value: string)
      requires index < |formData.medicalHistory|
      modifies this`formData
      ensures |formData.medicalHistory| == |old(formData.medicalHistory)|
      ensures formData.medicalHistory[index] == value
      ensures forall k :: 0 <= k < |formData.medicalHistory| && k != index ==>
        formData.medicalHistory[k] == old(formData.medicalHistory)[k]
      ensures formData.(medicalHistory := old(formData.medicalHistory)) == old(formData)
    {
      var prev := formData.medicalHistory;
      var newHistory := new string[|prev|](k requires 0 <= k < |prev| => prev[k]);
      newHistory[index] := value;
      formData := formData.(medicalHistory := newHistory[..]);
    }

    /** Appends one empty history entry. */
    method AddMedicalHistoryField()
      modifies this`formData
      ensures formData.medicalHistory == old(formData.medicalHistory) + [""]
      ensures formData.(medicalHistory := old(formData.medicalHistory)) == old(formData)
    {
      formData := formData.(medicalHistory := formData.medicalHistory + [""]);
    }

    /** Drops the history entry at `index`; an index outside the list drops nothing. */
    method RemoveMedicalHistoryField(index: int)
      modifies this`formData
      ensures formData.medicalHistory == DropIndex(old(formData.medicalHistory), index)
      ensures formData.(medicalHistory := old(formData.medicalHistory)) == old(formData)
    {
      formData := formData.(medicalHistory := DropIndex(formData.medicalHistory, index));
    }

    method OpenAddModal()
      modifies this`formData, this`isAddModalOpen
      ensures formData == InitialFormData && isAddModalOpen
    {
      formData := InitialFormData;
      isAddModalOpen := true;
    }

    method OpenViewModal(patient: Patient)
      modifies this`selectedPatient, this`isViewModalOpen
      ensures selectedPatient == Some(patient) && isViewModalOpen
    {
      selectedPatient := Some(patient);
      isViewModalOpen := true;
    }

    /** Selects the patient and prefills the form with its profile. */
    method OpenEditModal(patient: Patient)
      modifies this`selectedPatient, this`formData, this`isEditModalOpen
      ensures selectedPatient == Some(patient) && formData == FormOf(patient) && isEditModalOpen
    {
      selectedPatient := Some(patient);
      formData := FormOf(patient);
      isEditModalOpen := true;
    }

    method CloseModals()
      modifies this`isAddModalOpen, this`isViewModalOpen, this`isEditModalOpen,
               this`selectedPatient, this`formData
      ensures !isAddModalOpen && !isViewModalOpen && !isEditModalOpen
      ensures selectedPatient == None && formData == InitialFormData
    {
      isAddModalOpen := false;
      isViewModalOpen := false;
      isEditModalOpen := false;
      selectedPatient := None;
      formData := InitialFormData;
    }

    /** Puts the record built from the form in front of both lists, then
        closes the modals. The id comes from the caller and must not be in use. */
    method HandleAddSubmit(freshId: string, today: string)
      requires Valid() && freshId !in Ids(patients)
      modifies this`patients, this`filteredPatients, this`isAddModalOpen, this`isViewModalOpen,
               this`isEditModalOpen, this`selectedPatient, this`formData
      ensures Valid()
      ensures patients == [NewPatient(freshId, old(formData), today)] + old(patients)
      ensures filteredPatients == [NewPatient(freshId, old(formData), today)] + old(filteredPatients)
      ensures !isAddModalOpen && !isViewModalOpen && !isEditModalOpen
      ensures selectedPatient == None && formData == InitialFormData
    {
      var newPatient := NewPatient(freshId, formData, today);
      PrependFreshKeepsUniqueIds(patients, newPatient);
      patients := [newPatient] + patients;
      filteredPatients := [newPatient] + filteredPatients;
      CloseModals();
    }

    /** With a selected patient: overlays the form on it, writes the result
        over every entry of `patients` with its id, shows the whole updated
        list, and closes the modals. Without one, nothing happens. */
    method HandleEditSubmit()
      requires Valid()
      modifies this`patients, this`filteredPatients, this`isAddModalOpen, this`isViewModalOpen,
               this`isEditModalOpen, this`selectedPatient, this`formData
      ensures Valid()
      ensures old(selectedPatient).None? ==>
        unchanged(this`patients, this`filteredPatients, this`isAddModalOpen, this`isViewModalOpen,
                  this`isEditModalOpen, this`selectedPatient, this`formData)
      ensures old(selectedPatient).Some? ==>
        var updated := Overlay(old(selectedPatient).value, old(formData));
        && patients == ReplaceById(old(patients), updated.id, updated)
        && filteredPatients == patients
        && !isAddModalOpen && !isViewModalOpen && !isEditModalOpen
        && selectedPatient == None && formData == InitialFormData
    {
      if selectedPatient.None? {
        return;
      }
      var updatedPatient := Overlay(selectedPatient.value, formData);
      var updatedPatients := ReplaceById(patients, selectedPatient.value.id, updatedPatient);
      ReplaceByIdKeepsIds(patients, selectedPatient.value.id, updatedPatient);
      patients := updatedPatients;
      filteredPatients := updatedPatients;
      CloseModals();
    }
  }

  /** Opening the edit form on a stored record and submitting it untouched
      leaves the patient list equal to what it was. */
  method EditWithoutChanges(page: Page, patient: Patient)
    requires page.Valid() && patient in page.patients
    modifies page
    ensures page.patients == old(page.patients)
  {
    page.OpenEditModal(patient);
    page.HandleEditSubmit();
    EditUnchangedIsIdentity(old(page.patients), patient);
  }
}
