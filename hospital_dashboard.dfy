/** The record handling of the hospital dashboard: a visible patient list that
    the search box, the two-step delete dialogs and the add-patient form
    rewrite, one event handler at a time. The component's state cells are the
    fields of `Dashboard`; the values a handler computes are the functions of
    this module. */
module HospitalDashboard {
  import opened Records
  import opened Seqs
  import opened PatientSearch
  import opened PatientList
  import opened JsParseInt

  /** The add-patient form. Age is kept as the text typed into the field. */
  datatype NewPatientData = NewPatientData(
    name: string,
    age: string,
    gender: string,
    bloodGroup: string,
    contactNumber: string,
    email: string,
    address: string,
    medicalHistory: seq<string>)

  /** The form as it starts and as it is reset after an add. */
  const BlankNewPatientData := NewPatientData("", "", "", "", "", "", "", [""])

  /** The selected patient without the reports that carry `reportId`. */
  function WithoutReport(p: Patient, reportId: string): (r: Patient)
    ensures r.(medicalReports := p.medicalReports) == p
    ensures |r.medicalReports| <= |p.medicalReports|
    ensures forall x :: x in r.medicalReports <==> x in p.medicalReports && x.id != reportId
  {
    p.(medicalReports := Filter(p.medicalReports, (r: MedicalReport) => r.id != reportId))
  }

  /** Deleting a report keeps the other reports in order, and leaves a patient
      without such a report as it was. */
  lemma WithoutReportSpec(p: Patient, reportId: string)
    ensures IsSubsequence(WithoutReport(p, reportId).medicalReports, p.medicalReports)
    ensures (forall i :: 0 <= i < |p.medicalReports| ==> p.medicalReports[i].id != reportId) ==>
      WithoutReport(p, reportId) == p
  {
    var keep := (r: MedicalReport) => r.id != reportId;
    FilterIsSubsequence(p.medicalReports, keep);
    if forall i :: 0 <= i < |p.medicalReports| ==> p.medicalReports[i].id != reportId {
      FilterKeepsAll(p.medicalReports, keep);
    }
  }

  /** The record built from the form: a new id, the age read by `parseInt`,
      no reports, today as the last visit, every other field from the form. */
  function NewPatient(id: string, d: NewPatientData, today: string): (r: Patient)
    ensures r.id == id && r.medicalReports == [] && r.lastVisit == today
    ensures r.name == d.name && r.gender == d.gender && r.bloodGroup == d.bloodGroup
    ensures r.contactNumber == d.contactNumber && r.email == d.email && r.address == d.address
    ensures r.medicalHistory == d.medicalHistory
    ensures r.age.Num? ==> exists i :: 0 <= i < |d.age| && '0' <= d.age[i] <= '9'
  {
    Patient(id, d.name, ParseInt(d.age), d.gender, d.bloodGroup, d.contactNumber,
            d.email, d.address, d.medicalHistory, [], today)
  }

  /** Submitting the add form without validation: with the age left blank the
      new record's age is NaN; with a number typed in, it is that number. */
  lemma NewPatientAge(id: string, d: NewPatientData, today: string, n: nat)
    ensures d.age == "" ==> NewPatient(id, d, today).age == NaN
    ensures d.age == DecimalString(n) ==> NewPatient(id, d, today).age == Num(n)
  {
    if d.age == DecimalString(n) {
      ParseIntDecimal(n, []);
      assert DecimalString(n) + [] == DecimalString(n);
    }
  }

  class Dashboard {
    /** The sample records every search starts from. */
    const mockPatients: seq<Patient>

    var searchQuery: string
    var filteredPatients: seq<Patient>
    var selectedPatient: Option<Patient>
    var selectedReport: Option<MedicalReport>
    var isReportsListOpen: bool
    var reportToDelete: Option<MedicalReport>
    var patientToDelete: Option<Patient>
    var newPatientData: NewPatientData
    var showDeleteConfirm: bool
    var showDeletePatientConfirm: bool
    var showAddPatientModal: bool
    var isReportsModalOpen: bool

    /** Ids stay distinct in the seed list and in the visible list. */
    ghost predicate Valid()
      reads this`filteredPatients
    {
      UniqueIds(mockPatients) && UniqueIds(filteredPatients)
    }

    constructor (mockPatients: seq<Patient>)
      requires UniqueIds(mockPatients)
      ensures Valid()
      ensures this.mockPatients == mockPatients && filteredPatients == mockPatients
      ensures searchQuery == "" && newPatientData == BlankNewPatientData
      ensures selectedPatient == None && reportToDelete == None && patientToDelete == None
      ensures selectedReport == None && !isReportsListOpen
      ensures !showDeleteConfirm && !showDeletePatientConfirm
      ensures !showAddPatientModal && !isReportsModalOpen
    {
      this.mockPatients := mockPatients;
      searchQuery := "";
      filteredPatients := mockPatients;
      selectedPatient := None;
      selectedReport := None;
      isReportsListOpen := false;
      reportToDelete := None;
      patientToDelete := None;
      newPatientData := BlankNewPatientData;
      showDeleteConfirm := false;
      showDeletePatientConfirm := false;
      showAddPatientModal := false;
      isReportsModalOpen := false;
    }

    /** The visible list becomes the matching seed patients; whatever was
        added or deleted before is forgotten. */
    method HandleSearch(query: string)
      requires Valid()
      modifies this`searchQuery, this`filteredPatients
      ensures Valid()
      ensures searchQuery == query
      ensures filteredPatients == Search(mockPatients, query)
      ensures query == "" ==> filteredPatients == mockPatients
    {
      searchQuery := query;
      if query != "" {
        filteredPatients := Search(mockPatients, query);
        SearchKeepsUniqueIds(mockPatients, query);
      } else {
        filteredPatients := mockPatients;
        SearchEmptyQuery(mockPatients);
      }
    }

    /** Opens the reports of a patient; the list is not touched. */
    method HandleViewReports(patient: Patient)
      modifies this`selectedPatient, this`isReportsModalOpen
      ensures selectedPatient == Some(patient) && isReportsModalOpen
    {
      selectedPatient := Some(patient);
      isReportsModalOpen := true;
    }

    /** "View Details" in the reports table selects the report and its patient. */
    method ViewReportDetails(patient: Patient, report: MedicalReport)
      modifies this`selectedPatient, this`selectedReport, this`isReportsListOpen
      ensures selectedPatient == Some(patient) && selectedReport == Some(report) && isReportsListOpen
    {
      selectedPatient := Some(patient);
      selectedReport := Some(report);
      isReportsListOpen := true;
    }

    /** Stages a report for deletion and asks for confirmation. */
    method HandleDeleteReport(report: MedicalReport)
      modifies this`reportToDelete, this`showDeleteConfirm
      ensures reportToDelete == Some(report) && showDeleteConfirm
    {
      reportToDelete := Some(report);
      showDeleteConfirm := true;
    }

    /** With a staged report and a selected patient: removes the report from
        the selected patient and writes the updated record over every visible
        entry with that patient's id. Otherwise nothing happens. */
    method ConfirmDeleteReport()
      requires Valid()
      modifies this`selectedPatient, this`filteredPatients, this`showDeleteConfirm, this`reportToDelete
      ensures Valid()
      ensures old(reportToDelete).None? || old(selectedPatient).None? ==>
        unchanged(this`selectedPatient, this`filteredPatients, this`showDeleteConfirm, this`reportToDelete)
      ensures old(reportToDelete).Some? && old(selectedPatient).Some? ==>
        var updated := WithoutReport(old(selectedPatient).value, old(reportToDelete).value.id);
        && selectedPatient == Some(updated)
        && filteredPatients == ReplaceById(old(filteredPatients), updated.id, updated)
        && !showDeleteConfirm && reportToDelete == None
    {
      if reportToDelete.Some? && selectedPatient.Some? {
        var updatedPatient := WithoutReport(selectedPatient.value, reportToDelete.value.id);
        var updatedPatients := ReplaceById(filteredPatients, selectedPatient.value.id, updatedPatient);
        ReplaceByIdKeepsIds(filteredPatients, selectedPatient.value.id, updatedPatient);
        selectedPatient := Some(updatedPatient);
        filteredPatients := updatedPatients;
        showDeleteConfirm := false;
        reportToDelete := None;
      }
    }

    /** Stages a patient for deletion and asks for confirmation. */
    method HandleDeletePatient(patient: Patient)
      modifies this`patientToDelete, this`showDeletePatientConfirm
      ensures patientToDelete == Some(patient) && showDeletePatientConfirm
    {
      patientToDelete := Some(patient);
      showDeletePatientConfirm := true;
    }

    /** With a staged patient: drops every visible entry with its id and
        closes the dialog. Otherwise nothing happens. */
    method ConfirmDeletePatient()
      requires Valid()
      modifies this`filteredPatients, this`showDeletePatientConfirm, this`patientToDelete
      ensures Valid()
      ensures old(patientToDelete).None? ==>
        unchanged(this`filteredPatients, this`showDeletePatientConfirm, this`patientToDelete)
      ensures old(patientToDelete).Some? ==>
        && filteredPatients == RemoveById(old(filteredPatients), old(patientToDelete).value.id)
        && !showDeletePatientConfirm && patientToDelete == None
    {
      if patientToDelete.Some? {
        var updatedPatients := RemoveById(filteredPatients, patientToDelete.value.id);
        RemoveByIdKeepsUniqueIds(filteredPatients, patientToDelete.value.id);
        filteredPatients := updatedPatients;
        showDeletePatientConfirm := false;
        patientToDelete := None;
      }
    }

    /** The "Add Patient" buttons open the form. */
    method OpenAddPatientModal()
      modifies this`showAddPatientModal
      ensures showAddPatientModal
    {
      showAddPatientModal := true;
    }

    /** The form's inputs replace the draft with an edited copy of it. */
    method SetNewPatientData(data: NewPatientData)
      modifies this`newPatientData
      ensures newPatientData == data
    {
      newPatientData := data;
    }

    /** Appends the record built from the draft, closes the form and blanks it.
        The id comes from the caller and must not be in use already. */
    method HandleAddPatient(freshId: string, today: string)
      requires Valid() && freshId !in Ids(filteredPatients)
      modifies this`filteredPatients, this`showAddPatientModal, this`newPatientData
      ensures Valid()
      ensures filteredPatients == old(filteredPatients) + [NewPatient(freshId, old(newPatientData), today)]
      ensures !showAddPatientModal && newPatientData == BlankNewPatientData
    {
      var newPatient := NewPatient(freshId, newPatientData, today);
      var updatedPatients := filteredPatients + [newPatient];
      AppendFreshKeepsUniqueIds(filteredPatients, newPatient);
      filteredPatients := updatedPatients;
      showAddPatientModal := false;
      newPatientData := BlankNewPatientData;
    }
  }

  /** A patient deleted from the visible list comes back with the next empty
      search whenever it is one of the seed records. */
  method DeleteThenClearSearch(d: Dashboard, patient: Patient)
    requires d.Valid() && patient in d.mockPatients
    modifies d
    ensures d.filteredPatients == d.mockPatients && patient in d.filteredPatients
  {
    d.HandleDeletePatient(patient);
    d.ConfirmDeletePatient();
    d.HandleSearch("");
  }
}
