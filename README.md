# Patient-record handling of the MedSync hospital screens

MedSync is a browser healthcare portal over in-memory sample data. This project
models two hospital-side screens and what their event handlers do to the
patient records held in component state:

- the **hospital dashboard** (`src/components/hospital/HospitalDashboard.tsx`).
  It has a visible patient list, a search box, two-step delete dialogs for
  patients and reports, and an add-patient form;
- the **patients page** (`src/pages/hospital/PatientsPage.tsx`). It has a
  patient list, a visible list, and one form draft shared by the add and edit
  modals, including an editable medical-history list.

Each screen is a class (`HospitalDashboard.Dashboard`, `PatientsPage.Page`)
whose fields are the component's state cells. Every handler is a method that
names the cells it writes in its `modifies` clause, field by field, so every
other cell is unchanged. What a handler computes is a pure function:
`Filter` for search and delete, `ReplaceById` for `map`-by-id, append,
prepend, overlay, and removal by index. The lemmas state what those
functions mean.

Modules:

- `Records`: the patient and report values, and `UniqueIds`.
- `Seqs`: `Array.prototype.filter` and filtering by position.
- `Text`: ASCII `toLowerCase` and `includes`.
- `PatientSearch`: the three-field search both screens use.
- `PatientList`: delete-by-id, replace-by-id, and id uniqueness.
- `JsParseInt`: `parseInt`, which the dashboard applies to the typed age.
- `HospitalDashboard`, `PatientsPage`: the two screens.

Two behaviours of the code are kept as written:

- Both searches filter the sample list `mockPatients`, not the current list.
  A search therefore forgets every earlier add, delete and edit. An empty
  search shows all sample patients again, deleted ones included
  (`HospitalDashboard.DeleteThenClearSearch`).
- Neither submit handler validates its input. A blank age on the dashboard
  becomes NaN (`HospitalDashboard.NewPatientAge`).

Parameters stand in for the program's environment:

- the sample list is the constructor argument `mockPatients`;
- generated ids are a `freshId` argument, and the add handlers require it to
  be unused;
- the current date is a `today` argument.

## Model

| member | source | states |
|---|---|---|
| Text.Lower | src/components/hospital/HospitalDashboard.tsx:105-106 | `toLowerCase` keeps the length and lower-cases each character (ASCII: 'A'..'Z' to 'a'..'z', all else unchanged) |
| Text.Includes | src/components/hospital/HospitalDashboard.tsx:105-107 | `includes` holds for a query found at the start and for the empty query, and never for a query longer than the string |
| Text.IncludesIffOccurs | src/components/hospital/HospitalDashboard.tsx:105-107 | `includes(q)` holds exactly when `q` occurs at some position of the string |
| Text.IncludesEmpty | src/pages/hospital/PatientsPage.tsx:51-53 | every string includes the empty query |
| Text.IncludesNeedsFirstChar | src/components/hospital/HospitalDashboard.tsx:105-107 | a query whose first character is absent from the string is not included |
| PatientSearch.Matches | src/components/hospital/HospitalDashboard.tsx:104-108 | the match rule over name, email and contact number; a query longer than all three fields never matches |
| PatientSearch.MatchesIffOccurs | src/components/hospital/HospitalDashboard.tsx:104-108 | a patient matches iff the lower-cased query occurs in the lower-cased name or email, or the query occurs verbatim in the contact number |
| PatientSearch.MatchesEmptyQuery | src/pages/hospital/PatientsPage.tsx:50-54 | every patient matches the empty query |
| PatientSearch.Search | src/pages/hospital/PatientsPage.tsx:50-54 | a patient is in the result iff it is in the searched list and matches; the result is no longer than the list |
| PatientSearch.SearchIsSubsequence | src/components/hospital/HospitalDashboard.tsx:104-108 | the result is a subsequence of the searched list (list order is kept) |
| PatientSearch.SearchConcat | src/components/hospital/HospitalDashboard.tsx:104-108 | searching `a + b` gives search(a) + search(b): the decision is per patient, in order |
| PatientSearch.SearchSingle | src/components/hospital/HospitalDashboard.tsx:104-108 | a one-patient list is kept iff the patient matches; with SearchConcat this fixes the result exactly |
| PatientSearch.SearchEmptyQuery | src/pages/hospital/PatientsPage.tsx:50-55 | an empty query returns the whole list in order |
| PatientSearch.SearchKeepsUniqueIds | src/components/hospital/HospitalDashboard.tsx:104-109 | searching a list with distinct ids gives a list with distinct ids |
| PatientSearch.SearchExample | src/components/hospital/HospitalDashboard.tsx:104-108 | "John Doe", john@x.com, 555-1111: "john" and "555" find the patient, "zzz" finds nothing |
| Seqs.Filter | src/components/hospital/HospitalDashboard.tsx:150 | `filter` keeps exactly the elements the predicate accepts and never lengthens the list |
| Seqs.FilterConcat | src/components/hospital/HospitalDashboard.tsx:150 | filtering distributes over concatenation |
| Seqs.FilterSingle | src/components/hospital/HospitalDashboard.tsx:129 | a one-element list is kept iff the predicate accepts the element |
| Seqs.FilterKeepsAll | src/components/hospital/HospitalDashboard.tsx:150 | when every element is accepted, filtering returns the list itself |
| Seqs.FilterIsSubsequence | src/components/hospital/HospitalDashboard.tsx:129 | the filtered list is a subsequence of the original |
| Seqs.SubsequenceOfTail | src/components/hospital/HospitalDashboard.tsx:150 | a subsequence of the tail is a subsequence of the whole list |
| Seqs.DropIndex | src/pages/hospital/PatientsPage.tsx:85-90 | filtering out position `index` yields `s[..index] + s[index+1..]` when in range, and `s` unchanged otherwise |
| Seqs.DropIndexShifts | src/pages/hospital/PatientsPage.tsx:88 | dropping an in-range position shortens by one, keeps earlier entries, shifts later ones down |
| PatientList.RemoveById | src/components/hospital/HospitalDashboard.tsx:150 | an entry survives the delete iff it was in the list and its id differs |
| PatientList.RemoveByIdSpec | src/components/hospital/HospitalDashboard.tsx:150 | no entry with the id remains, the rest keep their order, and an absent id leaves the list unchanged |
| PatientList.FilterKeepsUniqueIds | src/components/hospital/HospitalDashboard.tsx:150 | any filter of a list with distinct ids has distinct ids |
| PatientList.RemoveByIdKeepsUniqueIds | src/components/hospital/HospitalDashboard.tsx:150 | delete-by-id keeps ids distinct |
| PatientList.ReplaceById | src/components/hospital/HospitalDashboard.tsx:132-134 | same length; each entry with the id becomes the new record; every other entry is unchanged |
| PatientList.ReplaceByIdKeepsIds | src/pages/hospital/PatientsPage.tsx:149-151 | a replacement carrying the same id keeps every position's id, and so keeps ids distinct |
| PatientList.ReplaceByIdSameValue | src/pages/hospital/PatientsPage.tsx:149-151 | replacing entries by the value they already have changes nothing |
| PatientList.AppendFreshKeepsUniqueIds | src/components/hospital/HospitalDashboard.tsx:166 | appending a record with an unused id keeps ids distinct |
| PatientList.PrependFreshKeepsUniqueIds | src/pages/hospital/PatientsPage.tsx:135 | prepending a record with an unused id keeps ids distinct |
| JsParseInt.DigitPrefix | src/components/hospital/HospitalDashboard.tsx:161 | `parseInt` reads the longest prefix made of digits of the base, stopping at the first non-digit |
| JsParseInt.TrimStart | src/components/hospital/HospitalDashboard.tsx:161 | leading white space is skipped: the result is a suffix of the string, everything dropped is white space, and the result does not start with white space |
| JsParseInt.ParseInt | src/components/hospital/HospitalDashboard.tsx:161 | `parseInt` yields a number only when the text holds a decimal digit; otherwise NaN |
| JsParseInt.DecimalStringValue | src/components/hospital/HospitalDashboard.tsx:161 | the decimal digits of n denote n |
| JsParseInt.DigitPrefixOfRun | src/components/hospital/HospitalDashboard.tsx:161 | digit reading stops exactly at the end of a run of digits |
| JsParseInt.ParseIntOfUnsigned | src/components/hospital/HospitalDashboard.tsx:161 | a string starting with a digit is read with no white space or sign step |
| JsParseInt.ParseIntDecimal | src/components/hospital/HospitalDashboard.tsx:161 | a typed decimal age n, possibly followed by non-digit text, is read as n |
| JsParseInt.ParseIntNegative | src/components/hospital/HospitalDashboard.tsx:161 | "-" followed by the digits of n is read as -n |
| JsParseInt.ParseIntNoDigits | src/components/hospital/HospitalDashboard.tsx:161 | text of only white space and signs (the blank age included) is read as NaN |
| HospitalDashboard.WithoutReport | src/components/hospital/HospitalDashboard.tsx:127-130 | deleting a report changes only the report list, never lengthens it, and keeps exactly the reports with another id |
| HospitalDashboard.WithoutReportSpec | src/components/hospital/HospitalDashboard.tsx:127-130 | the remaining reports keep their order, and an absent id changes nothing |
| HospitalDashboard.NewPatient | src/components/hospital/HospitalDashboard.tsx:158-164 | the new record has the given id, no reports, today as last visit, every text field and the history from the draft, and a numeric age only when the typed age holds a digit |
| HospitalDashboard.NewPatientAge | src/components/hospital/HospitalDashboard.tsx:158-164 | with no validation, a blank age gives NaN and typed digits give their number |
| HospitalDashboard.Dashboard.constructor | src/components/hospital/HospitalDashboard.tsx:66-99 | initial state: the sample list is visible, nothing is selected or staged, the draft is blank, all dialogs are closed |
| HospitalDashboard.Dashboard.HandleSearch | src/components/hospital/HospitalDashboard.tsx:101-113 | the visible list becomes the search of the sample list, and exactly the sample list for "" |
| HospitalDashboard.Dashboard.HandleViewReports | src/components/hospital/HospitalDashboard.tsx:115-118 | only selects the patient and opens the reports modal |
| HospitalDashboard.Dashboard.ViewReportDetails | src/components/hospital/HospitalDashboard.tsx:377-381 | only selects the patient and the report and opens the details view |
| HospitalDashboard.Dashboard.HandleDeleteReport | src/components/hospital/HospitalDashboard.tsx:120-123 | only stages the report and raises the confirm flag |
| HospitalDashboard.Dashboard.ConfirmDeleteReport | src/components/hospital/HospitalDashboard.tsx:125-141 | no-op unless a report is staged and a patient selected; otherwise the selected patient loses that report, the updated record replaces the entries with its id (length unchanged), the staged report is cleared and the dialog closed |
| HospitalDashboard.Dashboard.HandleDeletePatient | src/components/hospital/HospitalDashboard.tsx:143-146 | only stages the patient and raises the confirm flag |
| HospitalDashboard.Dashboard.ConfirmDeletePatient | src/components/hospital/HospitalDashboard.tsx:148-155 | no-op when nothing is staged; otherwise removes the entries with the staged id, clears the staged patient and closes the dialog |
| HospitalDashboard.Dashboard.OpenAddPatientModal | src/components/hospital/HospitalDashboard.tsx:257 | only opens the add form |
| HospitalDashboard.Dashboard.SetNewPatientData | src/components/hospital/HospitalDashboard.tsx:478-556 | the form inputs replace the draft and nothing else |
| HospitalDashboard.Dashboard.HandleAddPatient | src/components/hospital/HospitalDashboard.tsx:157-178 | appends exactly one record built from the draft (given id, parsed age, no reports, today), keeps ids distinct, blanks the draft with history [""], closes the form |
| HospitalDashboard.DeleteThenClearSearch | src/components/hospital/HospitalDashboard.tsx:101-155 | a deleted sample patient is visible again after an empty search |
| PatientsPage.WithField | src/pages/hospital/PatientsPage.tsx:61-64 | typing in one text input sets that field and leaves all others, age and history included |
| PatientsPage.FormOf | src/pages/hospital/PatientsPage.tsx:105-114 | the prefilled draft, overlaid on the record it came from, gives that record back |
| PatientsPage.Overlay | src/pages/hospital/PatientsPage.tsx:144-147 | the overlay keeps id, reports and last visit and takes every profile field from the form |
| PatientsPage.OverlaySpec | src/pages/hospital/PatientsPage.tsx:144-147 | the draft read back from an overlaid record is the draft that was overlaid |
| PatientsPage.NewPatient | src/pages/hospital/PatientsPage.tsx:129-134 | a new record has the given id, no reports, today as last visit, and exactly the form as its profile |
| PatientsPage.EditUnchangedIsIdentity | src/pages/hospital/PatientsPage.tsx:144-151 | with distinct ids, submitting a record's own prefilled form leaves the list value-equal |
| PatientsPage.RemoveHistoryKeepsOneEntry | src/pages/hospital/PatientsPage.tsx:277 | the remove control is shown only when the history has over one entry, so a removal never empties it |
| PatientsPage.Page.constructor | src/pages/hospital/PatientsPage.tsx:36-45 | initial state: both lists are the sample list, the draft is the initial form, all modals are closed |
| PatientsPage.Page.HandleSearch | src/pages/hospital/PatientsPage.tsx:48-56 | the visible list becomes the search of the sample list, whatever `patients` holds |
| PatientsPage.Page.HandleInputChange | src/pages/hospital/PatientsPage.tsx:59-65 | sets one text field of the draft |
| PatientsPage.Page.HandleMedicalHistoryChange | src/pages/hospital/PatientsPage.tsx:67-76 | replaces only history position `index`; length, other entries and other fields are unchanged |
| PatientsPage.Page.AddMedicalHistoryField | src/pages/hospital/PatientsPage.tsx:78-83 | appends exactly one empty entry; the rest of the draft is unchanged |
| PatientsPage.Page.RemoveMedicalHistoryField | src/pages/hospital/PatientsPage.tsx:85-90 | drops exactly position `index` (nothing when out of range); the rest of the draft is unchanged |
| PatientsPage.Page.OpenAddModal | src/pages/hospital/PatientsPage.tsx:93-96 | resets the draft and opens the add modal |
| PatientsPage.Page.OpenViewModal | src/pages/hospital/PatientsPage.tsx:98-101 | selects the patient and opens the view modal |
| PatientsPage.Page.OpenEditModal | src/pages/hospital/PatientsPage.tsx:103-116 | selects the patient, prefills the draft from its profile, opens the edit modal |
| PatientsPage.Page.CloseModals | src/pages/hospital/PatientsPage.tsx:118-124 | closes all three modals, clears the selection, resets the draft |
| PatientsPage.Page.HandleAddSubmit | src/pages/hospital/PatientsPage.tsx:127-138 | puts the new record at the front of both lists, keeps ids distinct, then closes and resets as CloseModals |
| PatientsPage.Page.HandleEditSubmit | src/pages/hospital/PatientsPage.tsx:140-156 | no-op without a selection; otherwise the overlaid record replaces the entries with the selected id, the visible list becomes the full updated list, ids stay distinct, and the modals close |
| PatientsPage.EditWithoutChanges | src/pages/hospital/PatientsPage.tsx:103-156 | opening the edit form on a stored record and submitting it unchanged leaves `patients` equal to before |

## Left out

- Rendering: the JSX tables, tabs, icons and modal markup, the dashboard cards and the report detail views.
- Inline markup setters that only close a dialog or switch a tab (for example `src/components/hospital/HospitalDashboard.tsx:564,590,608,619`): each sets one flag and touches no record.
- Logout (`window.location.href`), the upload form state and the upload modal: these are navigation, or state with no handler logic.
- `confirmDeleteReport` is modelled, but no control in the shown markup calls it, and no dialog renders `showDeleteConfirm`.
- Id generation (`crypto.randomUUID`, `Math.random`) is randomness. The id is a parameter, and its freshness is a precondition, not a proven fact.
- `new Date()` is clock access. The date is the `today` parameter, already formatted.
- Text.Lower: models `toLowerCase` for ASCII only. Full Unicode case mapping is not modelled.
- Text.Includes: works on Unicode scalar values, not UTF-16 code units. The two differ only for surrogate pairs.
- JsParseInt.ParseInt: computes exact integers. JavaScript rounds digit runs beyond 2^53 to a float. Negative zero is identified with zero.
- PatientsPage.Page.HandleInputChange: covers the six text inputs. The age input stores the raw input string in `age` at run time, despite its declared number type. The model keeps age as a number and does not model that input.
- PatientsPage.Page.HandleMedicalHistoryChange: requires an in-range index. JavaScript would grow the array past its end, but the only caller passes the index of an existing entry.
- HospitalDashboard.Dashboard.SetNewPatientData: takes any draft. The markup's inputs each change one field, and the history input always makes the history the one-entry list of its value (`src/components/hospital/HospitalDashboard.tsx:556`); the model does not restrict the drafts to those.
- Browser `required` attributes are not modelled: the handlers have no validation path.
- React schedules state updates asynchronously. Each handler is modelled as its updates applied in order, which gives the same final state for these handlers.
- The classes' `Valid` and constructors assume the sample list has distinct ids. Its contents live in `src/data/mockPatients`, which is not part of this model.
- Reports keep only an id and a title. Their other fields are never read by the handlers.
- `src/components/patient/PatientDashboard.tsx`, `src/components/patient/DirectPatientDashboard.tsx` and `src/components/doctor/PatientProfileAccess.tsx` are not modelled. They hold mock authentication, timers, alerts and a render toggle, with no record logic.
