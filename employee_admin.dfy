/** The employee management page (app/admin/employees/page.tsx): the form
    schema and the mapping of a submitted form to the stored fields, the
    search box, the active/inactive split of the table, the actions each row
    offers, and the handlers that create, update, deactivate, remove and
    toggle employees through the directory. The email-format check of the
    form library and the store's error text are parameters; confirmation
    dialogs are a boolean answer. */
module EmployeeAdmin {
  import opened Types
  import opened Text
  import opened Sequences
  import opened Employees

  /** What the form holds: the role as the selected string, the email as
      typed (absent or possibly empty). */
  datatype FormValues = FormValues(
    name: string,
    role: string,
    wage: real,
    phone: string,
    address: string,
    email: Option<string>)

  /** The schema's complaints, one per field. */
  datatype FormIssue = NameRequired | InvalidRole | WageNegative | PhoneRequired | AddressRequired | InvalidEmail

  /** The message the schema attaches to an issue; the role check uses the
      form library's own wording, which is not part of this model. */
  function IssueMessage(i: FormIssue): Option<string>
  {
    match i
    case NameRequired => Some("Name is required")
    case InvalidRole => None
    case WageNegative => Some("Wage must be 0 or greater")
    case PhoneRequired => Some("Phone is required")
    case AddressRequired => Some("Address is required")
    case InvalidEmail => Some("Invalid email")
  }

  /** The email field passes when it is absent, empty, or a valid address. */
  predicate EmailAccepted(email: Option<string>, isEmail: string -> bool)
  {
    email.None? || email.value == "" || isEmail(email.value)
  }

  /** The schema as a whole: every rule at once. */
  predicate FormValid(v: FormValues, isEmail: string -> bool)
  {
    && v.name != ""
    && ParseRole(v.role).Some?
    && v.wage >= 0.0
    && v.phone != ""
    && v.address != ""
    && EmailAccepted(v.email, isEmail)
  }

  const AllIssues: seq<FormIssue> :=
    [NameRequired, InvalidRole, WageNegative, PhoneRequired, AddressRequired, InvalidEmail]

  /** The rule behind each issue fails for `v`: a required text field is
      empty, the role is not one of the seven, the wage is negative, or a
      non-empty email is not an address. */
  predicate Fails(v: FormValues, isEmail: string -> bool, i: FormIssue)
  {
    match i
    case NameRequired => v.name == ""
    case InvalidRole => ParseRole(v.role).None?
    case WageNegative => v.wage < 0.0
    case PhoneRequired => v.phone == ""
    case AddressRequired => v.address == ""
    case InvalidEmail => !EmailAccepted(v.email, isEmail)
  }

  /** Every issue is among those the schema checks. */
  lemma AllIssuesListed(i: FormIssue)
    ensures i in AllIssues
  {
    match i
    case NameRequired => assert AllIssues[0] == i;
    case InvalidRole => assert AllIssues[1] == i;
    case WageNegative => assert AllIssues[2] == i;
    case PhoneRequired => assert AllIssues[3] == i;
    case AddressRequired => assert AllIssues[4] == i;
    case InvalidEmail => assert AllIssues[5] == i;
  }

  function FailsFor(v: FormValues, isEmail: string -> bool): FormIssue -> bool
  {
    (i: FormIssue) => Fails(v, isEmail, i)
  }

  /** `formSchema`'s checks, field by field, in schema order. */
  function FormIssues(v: FormValues, isEmail: string -> bool): (issues: seq<FormIssue>)
    ensures forall i :: i in issues <==> Fails(v, isEmail, i)
    ensures issues == [] <==> FormValid(v, isEmail)
  {
    var r := Filter(AllIssues, FailsFor(v, isEmail));
    assert forall i :: i in r <==> Fails(v, isEmail, i) by {
      forall i ensures i in r <==> Fails(v, isEmail, i) {
        AllIssuesListed(i);
        assert FailsFor(v, isEmail)(i) == Fails(v, isEmail, i);
      }
    }
    assert !FormValid(v, isEmail) ==> exists i :: Fails(v, isEmail, i) by {
      if !FormValid(v, isEmail) {
        if v.name == "" { assert Fails(v, isEmail, NameRequired); }
        else if ParseRole(v.role).None? { assert Fails(v, isEmail, InvalidRole); }
        else if v.wage < 0.0 { assert Fails(v, isEmail, WageNegative); }
        else if v.phone == "" { assert Fails(v, isEmail, PhoneRequired); }
        else if v.address == "" { assert Fails(v, isEmail, AddressRequired); }
        else { assert Fails(v, isEmail, InvalidEmail); }
      }
    }
    assert r != [] ==> Fails(v, isEmail, r[0]) by {
      if r != [] {
        assert r[0] in r;
      }
    }
    r
  }

  /** `values.email || undefined`: a missing or empty email is not sent. */
  function SubmittedEmail(email: Option<string>): (r: Option<string>)
    ensures r.None? <==> email.None? || email.value == ""
    ensures r.Some? ==> r == email
  {
    if email.Some? && email.value != "" then email else None
  }

  function ToFormData(v: FormValues): (f: EmployeeFormData)
    requires ParseRole(v.role).Some?
  {
    EmployeeFormData(v.name, ParseRole(v.role).value, v.wage, v.phone, v.address, SubmittedEmail(v.email))
  }

  /** Validation followed by `handleSubmit`'s mapping to the stored form:
      the schema's issues, or the form data with the role parsed and an
      empty email dropped. */
  function Validate(v: FormValues, isEmail: string -> bool): (r: Result<EmployeeFormData, seq<FormIssue>>)
    ensures r.Success? <==> FormValid(v, isEmail)
    ensures r.Failure? ==> r.error == FormIssues(v, isEmail) && r.error != []
    ensures r.Success? ==> && r.value.name == v.name && RoleName(r.value.role) == v.role
                           && r.value.wage == v.wage && r.value.phone == v.phone
                           && r.value.address == v.address && r.value.email == SubmittedEmail(v.email)
  {
    var issues := FormIssues(v, isEmail);
    if issues != [] then Failure(issues)
    else Success(ToFormData(v))
  }

  /** The values the form starts from when adding (and after a reset). */
  const DefaultValues: FormValues := FormValues("", RoleName(Server), 0.0, "", "", Some(""))

  /** A blank form is refused, for exactly its three empty text fields. */
  lemma DefaultValuesRefused(isEmail: string -> bool)
    ensures !FormValid(DefaultValues, isEmail)
    ensures forall i :: Fails(DefaultValues, isEmail, i) <==>
                          i == NameRequired || i == PhoneRequired || i == AddressRequired
  {
    RolesClosed(Server);
  }

  /** The values `handleEdit` loads into the form for an employee. */
  function EditValues(e: Employee): (v: FormValues)
    ensures v.email.Some?
    ensures e.email.Some? && e.email.value != "" ==> v.email == e.email
    ensures e.email.None? || e.email.value == "" ==> v.email == Some("")
  {
    FormValues(e.name, e.role, e.wage, e.phone, e.address, Some(OrElse(e.email, "")))
  }

  /** The write `updateEmployee` makes with a submitted form: every field,
      and the email only when one was sent. */
  function PatchOf(f: EmployeeFormData): (p: EmployeePatch)
    ensures p.name == Some(f.name) && p.role == Some(f.role) && p.wage == Some(f.wage)
    ensures p.phone == Some(f.phone) && p.address == Some(f.address) && p.email == f.email
  {
    EmployeePatch(Some(f.name), Some(f.role), Some(f.wage), Some(f.phone), Some(f.address), f.email)
  }

  /** Opening an employee for editing and saving without changes passes
      validation exactly when the employee's fields satisfy the schema, and
      then leaves the employee as the application sees it unchanged except
      for the update time. */
  lemma EditSaveUnchanged(d: EmployeeDoc, isEmail: string -> bool, now: Millis)
    ensures var e := ConvertEmployee(d);
      Validate(EditValues(e), isEmail).Success? <==>
        && e.name != "" && ParseRole(e.role).Some? && e.wage >= 0.0 && e.phone != "" && e.address != ""
        && EmailAccepted(e.email, isEmail)
    ensures var e := ConvertEmployee(d);
      var r := Validate(EditValues(e), isEmail);
      r.Success? ==>
        ConvertEmployee(EmployeeDoc(d.id, Patched(d.data, PatchOf(r.value), now))) == e.(updatedAt := Some(now))
  {
    var e := ConvertEmployee(d);
    var r := Validate(EditValues(e), isEmail);
    if r.Success? {
      var d' := EmployeeDoc(d.id, Patched(d.data, PatchOf(r.value), now));
      PatchFrame(d, PatchOf(r.value), now);
      assert ConvertEmployee(d').role == e.role;
      assert ConvertEmployee(d').phone == e.phone;
      assert ConvertEmployee(d').address == e.address;
      assert ConvertEmployee(d').email == e.email;
    }
  }

  /** The search box's test (`filteredEmployees`): the lower-cased term in
      the lower-cased name, the raw term in the phone, or the lower-cased
      term in a non-empty email. */
  predicate Matches(e: Employee, term: string)
  {
    || Contains(Lower(e.name), Lower(term))
    || Contains(e.phone, term)
    || (e.email.Some? && e.email.value != "" && Contains(Lower(e.email.value), Lower(term)))
  }

  function MatchesTerm(term: string): Employee -> bool
  {
    (e: Employee) => Matches(e, term)
  }

  /** The employees the search keeps, in table order. */
  function FilteredEmployees(employees: seq<Employee>, term: string): (r: seq<Employee>)
    ensures |r| <= |employees|
    ensures forall e :: e in r <==> e in employees && Matches(e, term)
  {
    Filter(employees, MatchesTerm(term))
  }

  /** The search in terms of positions: an employee matches exactly when
      the term occurs at some offset of its lower-cased name, its phone, or
      its lower-cased non-empty email. */
  lemma MatchesAt(e: Employee, term: string)
    ensures Matches(e, term) <==>
      || (exists k :: OccursAt(Lower(e.name), Lower(term), k))
      || (exists k :: OccursAt(e.phone, term, k))
      || (e.email.Some? && e.email.value != "" && exists k :: OccursAt(Lower(e.email.value), Lower(term), k))
  {
    NameAt(e, term);
    PhoneAt(e, term);
    if e.email.Some? && e.email.value != "" {
      EmailAt(e, term);
    }
  }

  // One `ContainsAt` instance per searched field, each kept apart so the
  // three equivalences do not compete for the same quantifier.
  lemma NameAt(e: Employee, term: string)
    ensures Contains(Lower(e.name), Lower(term)) <==> exists k :: OccursAt(Lower(e.name), Lower(term), k)
  {
    ContainsAt(Lower(e.name), Lower(term));
  }

  lemma PhoneAt(e: Employee, term: string)
    ensures Contains(e.phone, term) <==> exists k :: OccursAt(e.phone, term, k)
  {
    ContainsAt(e.phone, term);
  }

  lemma EmailAt(e: Employee, term: string)
    requires e.email.Some? && e.email.value != ""
    ensures Contains(Lower(e.email.value), Lower(term)) <==> exists k :: OccursAt(Lower(e.email.value), Lower(term), k)
  {
    ContainsAt(Lower(e.email.value), Lower(term));
  }

  /** An employee whose name holds some text is kept by any search term
      that differs from that text only in letter case. */
  lemma NameMatchIgnoresCase(e: Employee, text: string, term: string, k: nat)
    requires OccursAt(e.name, text, k)
    requires Lower(term) == Lower(text)
    ensures Matches(e, term)
  {
    var name := Lower(e.name);
    forall j | 0 <= j < |text|
      ensures name[k + j] == Lower(text)[j]
    {
      assert e.name[k + j] == e.name[k..k + |text|][j];
    }
    assert name[k..k + |text|] == Lower(term);
    assert OccursAt(name, Lower(term), k);
    ContainsAt(name, Lower(term));
  }

  /** An empty search keeps every employee. */
  lemma {:induction false} EmptySearchKeepsAll(employees: seq<Employee>)
    ensures FilteredEmployees(employees, "") == employees
  {
    forall i | 0 <= i < |employees|
      ensures MatchesTerm("")(employees[i])
    {
      assert Lower("") == "";
      ContainsEmpty(Lower(employees[i].name));
    }
    FilterAllKept(employees, MatchesTerm(""));
  }

  function IsActive(e: Employee): bool
  {
    e.isActive
  }

  function IsInactive(e: Employee): bool
  {
    !e.isActive
  }

  /** The two tables: active and inactive employees among those kept. */
  function ActiveEmployees(filtered: seq<Employee>): (r: seq<Employee>)
    ensures forall e :: e in r <==> e in filtered && e.isActive
  {
    Filter(filtered, IsActive)
  }

  function InactiveEmployees(filtered: seq<Employee>): (r: seq<Employee>)
    ensures forall e :: e in r <==> e in filtered && !e.isActive
  {
    Filter(filtered, IsInactive)
  }

  /** The active and inactive tables split the filtered list: no employee
      is in both, every employee is in one, and together they hold each
      employee as often as the list does. */
  lemma {:induction false} ActiveInactivePartition(filtered: seq<Employee>)
    ensures forall e :: !(e in ActiveEmployees(filtered) && e in InactiveEmployees(filtered))
    ensures forall e :: e in filtered <==> e in ActiveEmployees(filtered) || e in InactiveEmployees(filtered)
    ensures |ActiveEmployees(filtered)| + |InactiveEmployees(filtered)| == |filtered|
    ensures multiset(ActiveEmployees(filtered)) + multiset(InactiveEmployees(filtered)) == multiset(filtered)
  {
    FilterPartition(filtered, IsActive, IsInactive);
  }

  /** The buttons of one table row. */
  datatype RowAction = ViewQRCode | EditEmployee | PermanentlyRemove | Deactivate

  /** The actions a row offers: the QR code and edit always, permanent
      removal only for an inactive employee, deactivation only for an
      active one. */
  function RowActions(e: Employee): (r: seq<RowAction>)
    ensures ViewQRCode in r && EditEmployee in r
    ensures PermanentlyRemove in r <==> !e.isActive
    ensures Deactivate in r <==> e.isActive
    ensures |r| == 3
  {
    [ViewQRCode, EditEmployee] + (if !e.isActive then [PermanentlyRemove] else [Deactivate])
  }

  /** The directory a submit leaves: a new document when nothing is being
      edited, which always succeeds, or the patched document of the employee
      being edited, refused when it no longer exists. */
  function SaveResult(docs: seq<EmployeeDoc>, editing: Option<Employee>, form: EmployeeFormData,
                      newId: string, token: string, now: Millis): (r: Result<seq<EmployeeDoc>, DirectoryError>)
    ensures editing.None? ==> r == Success(docs + [EmployeeDoc(newId, CreatedData(form, token, now))])
    ensures editing.Some? ==> r == UpdateResult(docs, editing.value.id, PatchOf(form), now)
    ensures r.Failure? <==> editing.Some? && forall i :: 0 <= i < |docs| ==> docs[i].id != editing.value.id
  {
    if editing.Some? then UpdateResult(docs, editing.value.id, PatchOf(form), now)
    else Success(docs + [EmployeeDoc(newId, CreatedData(form, token, now))])
  }

  /** The save as the code stands: `values.email || undefined` hands the
      store `email: undefined` for a blank email, and `addDoc` and
      `updateDoc` refuse such a field, so the save fails and writes nothing.
      A save with an email is the one `SaveResult` describes. */
  function SaveResultAsWritten(docs: seq<EmployeeDoc>, editing: Option<Employee>, form: EmployeeFormData,
                               newId: string, token: string, now: Millis): (r: Result<seq<EmployeeDoc>, DirectoryError>)
    ensures form.email.None? ==> r == Failure(UndefinedField("email"))
    ensures form.email.Some? ==> r == SaveResult(docs, editing, form, newId, token, now)
  {
    if form.email.None? then Failure(UndefinedField("email"))
    else SaveResult(docs, editing, form, newId, token, now)
  }

  /** A complete form with the email left blank passes the schema, yet the
      save as written refuses to create the employee, where the intended
      save creates it. */
  lemma BlankEmailRefusedAsWritten(docs: seq<EmployeeDoc>, isEmail: string -> bool, newId: string, token: string,
                                   now: Millis)
    ensures var v := FormValues("Sam", "server", 11.5, "07700 900123", "1 High Street", Some(""));
      && FormValid(v, isEmail)
      && SaveResultAsWritten(docs, None, ToFormData(v), newId, token, now) == Failure(UndefinedField("email"))
      && SaveResult(docs, None, ToFormData(v), newId, token, now).Success?
  {
    var v := FormValues("Sam", "server", 11.5, "07700 900123", "1 High Street", Some(""));
    assert ParseRole(v.role) == Some(Server);
    assert ToFormData(v).email == None;
  }

  /** The intended save of a valid form whose email is blank or missing
      creates exactly one employee, who reads back with the form's fields,
      no email, the new token, and active. */
  lemma BlankEmailCreated(docs: seq<EmployeeDoc>, v: FormValues, isEmail: string -> bool, newId: string,
                          token: string, now: Millis)
    requires FormValid(v, isEmail)
    requires v.email.None? || v.email == Some("")
    ensures var r := SaveResult(docs, None, ToFormData(v), newId, token, now);
      && r.Success? && |r.value| == |docs| + 1 && r.value[..|docs|] == docs
      && ConvertEmployee(r.value[|docs|]) ==
           Employee(newId, v.name, v.role, v.wage, v.phone, v.address, token, None, Some(now), Some(now), true)
  {
    var form := ToFormData(v);
    CreatedReadsBack(form, newId, token, now);
    var r := SaveResult(docs, None, form, newId, token, now);
    assert r.value[..|docs|] == docs;
  }

  /** `err.message || fallback`: the store's message, or the handler's own
      text when the message is empty. */
  function ShownError(err: DirectoryError, message: DirectoryError -> string, fallback: string): (r: string)
    ensures fallback != "" ==> r != ""
    ensures message(err) != "" ==> r == message(err)
  {
    if message(err) != "" then message(err) else fallback
  }

  const SaveFailed: string := "Failed to save employee."
  const DeleteFailed: string := "Failed to delete employee."
  const ToggleFailed: string := "Failed to toggle employee status."

  /** The page's state over the directory it edits. */
  class EmployeesPage {
    const directory: EmployeeDirectory
    var employees: seq<Employee>
    var error: string
    var editing: Option<Employee>
    var dialogOpen: bool
    var values: FormValues

    constructor (directory: EmployeeDirectory)
      ensures this.directory == directory
      ensures employees == [] && error == "" && editing == None && !dialogOpen && values == DefaultValues
    {
      this.directory := directory;
      employees := [];
      error := "";
      editing := None;
      dialogOpen := false;
      values := DefaultValues;
    }

    /** `loadEmployees`: clears the error and shows the whole directory. */
    method LoadEmployees()
      modifies this
      ensures employees == AllEmployees(directory.docs) && error == ""
      ensures editing == old(editing) && dialogOpen == old(dialogOpen) && values == old(values)
    {
      error := "";
      employees := AllEmployees(directory.docs);
    }

    /** `handleAddNew`: a blank form for a new employee. */
    method HandleAddNew()
      modifies this
      ensures editing == None && values == DefaultValues && dialogOpen
      ensures employees == old(employees) && error == old(error)
    {
      editing := None;
      values := DefaultValues;
      dialogOpen := true;
    }

    /** `handleEdit`: the form filled from the employee being edited. */
    method HandleEdit(e: Employee)
      modifies this
      ensures editing == Some(e) && values == EditValues(e) && dialogOpen
      ensures employees == old(employees) && error == old(error)
    {
      editing := Some(e);
      values := EditValues(e);
      dialogOpen := true;
    }

    /** `handleSubmit`, which the form only calls with values that pass the
        schema: updates the employee being edited, or creates a new one.
        On success the form is reset, editing ends, the dialog closes and
        the list reloads; a refused update leaves everything but the error
        as it was. */
    method HandleSubmit(submitted: FormValues, isEmail: string -> bool, message: DirectoryError -> string,
                        newId: string, token: string, now: Millis)
      requires FormValid(submitted, isEmail)
      modifies this, directory
      ensures var spec := SaveResult(old(directory.docs), old(editing), ToFormData(submitted), newId, token, now);
        && (spec.Success? ==>
              && directory.docs == spec.value
              && editing == None && !dialogOpen && values == DefaultValues
              && employees == AllEmployees(directory.docs) && error == "")
        && (spec.Failure? ==>
              && directory.docs == old(directory.docs)
              && editing == old(editing) && dialogOpen == old(dialogOpen) && values == old(values)
              && employees == old(employees) && error == ShownError(spec.error, message, SaveFailed))
    {
      error := "";
      var form := ToFormData(submitted);
      var res := Save(form, newId, token, now);
      if res.Fail? {
        error := ShownError(res.error, message, SaveFailed);
        return;
      }
      values := DefaultValues;
      editing := None;
      dialogOpen := false;
      LoadEmployees();
    }

    /** The store write of `handleSubmit`. */
    method Save(form: EmployeeFormData, newId: string, token: string, now: Millis) returns (res: Outcome<DirectoryError>)
      modifies directory
      ensures var spec := SaveResult(old(directory.docs), editing, form, newId, token, now);
        && (spec.Success? ==> res == Pass && directory.docs == spec.value)
        && (spec.Failure? ==> res == Fail(spec.error) && directory.docs == old(directory.docs))
    {
      if editing.Some? {
        res := directory.Update(editing.value.id, PatchOf(form), now);
      } else {
        var id := directory.Create(form, newId, token, now);
        res := Pass;
      }
    }

    /** `handleDelete`: after confirmation, marks the employee inactive and
        reloads; a refused write only sets the error. */
    method HandleDelete(id: string, confirmed: bool, message: DirectoryError -> string, now: Millis)
      modifies this, directory
      ensures editing == old(editing) && dialogOpen == old(dialogOpen) && values == old(values)
      ensures !confirmed ==> directory.docs == old(directory.docs) && employees == old(employees) && error == old(error)
      ensures confirmed ==> var spec := SetActiveResult(old(directory.docs), id, false, now);
        && (spec.Success? ==> directory.docs == spec.value && employees == AllEmployees(directory.docs) && error == "")
        && (spec.Failure? ==> directory.docs == old(directory.docs) && employees == old(employees)
                              && error == ShownError(spec.error, message, DeleteFailed))
    {
      if !confirmed {
        return;
      }
      var res := directory.Delete(id, now);
      if res.Fail? {
        error := ShownError(res.error, message, DeleteFailed);
        return;
      }
      LoadEmployees();
    }

    /** `handlePermanentDelete`: after confirmation, removes the document
        whatever its active flag and reloads. */
    method HandlePermanentDelete(id: string, confirmed: bool)
      modifies this, directory
      ensures editing == old(editing) && dialogOpen == old(dialogOpen) && values == old(values)
      ensures !confirmed ==> directory.docs == old(directory.docs) && employees == old(employees) && error == old(error)
      ensures confirmed ==> directory.docs == PermanentlyDeleted(old(directory.docs), id)
                            && employees == AllEmployees(directory.docs) && error == ""
      ensures confirmed ==> forall e :: e in employees ==> e.id != id
    {
      if !confirmed {
        return;
      }
      directory.PermanentlyDelete(id);
      LoadEmployees();
      forall e | e in employees
        ensures e.id != id
      {
        var i :| 0 <= i < |employees| && employees[i] == e;
        assert directory.docs[i] in directory.docs;
      }
    }

    /** `handleToggleActive`: writes the opposite of the flag the row shows
        and reloads; a refused write only sets the error. */
    method HandleToggleActive(e: Employee, message: DirectoryError -> string, now: Millis)
      modifies this, directory
      ensures editing == old(editing) && dialogOpen == old(dialogOpen) && values == old(values)
      ensures var spec := SetActiveResult(old(directory.docs), e.id, !e.isActive, now);
        && (spec.Success? ==> directory.docs == spec.value && employees == AllEmployees(directory.docs) && error == "")
        && (spec.Failure? ==> directory.docs == old(directory.docs) && employees == old(employees)
                              && error == ShownError(spec.error, message, ToggleFailed))
    {
      var res := directory.SetActive(e.id, !e.isActive, now);
      if res.Fail? {
        error := ShownError(res.error, message, ToggleFailed);
        return;
      }
      LoadEmployees();
    }
  }
}
