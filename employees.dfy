/** The employee directory (lib/firebase/employees.ts): stored documents with
    possibly missing fields, their conversion to `Employee` with defaults,
    the lookups, and the writes that create, patch, (de)activate and remove
    documents. The store's fresh document id, the QR token generator and the
    clock are parameters. */
module Employees {
  import opened Types
  import opened Sequences

  /** A stored employee document's fields; any of them may be missing. */
  datatype EmployeeData = EmployeeData(
    name: Option<string>,
    role: Option<string>,
    wage: Option<real>,
    phone: Option<string>,
    address: Option<string>,
    qrCode: Option<string>,
    email: Option<string>,
    createdAt: Option<Millis>,
    updatedAt: Option<Millis>,
    isActive: Option<bool>)

  datatype EmployeeDoc = EmployeeDoc(id: string, data: EmployeeData)

  /** A partial form: only the fields present are written. */
  datatype EmployeePatch = EmployeePatch(
    name: Option<string>,
    role: Option<Role>,
    wage: Option<real>,
    phone: Option<string>,
    address: Option<string>,
    email: Option<string>)

  /** Why a write is refused: the document does not exist, or a field's
      value is `undefined`, which the store rejects because it is set up
      without `ignoreUndefinedProperties` (lib/firebase/config.ts). */
  datatype DirectoryError = NotFound(id: string) | UndefinedField(field: string)

  /** `x || fallback` on an optional string: missing and empty both fall back. */
  function OrElse(x: Option<string>, fallback: string): (r: string)
    ensures x.Some? && x.value != "" ==> r == x.value
    ensures x.None? || x.value == "" ==> r == fallback
  {
    if x.Some? && x.value != "" then x.value else fallback
  }

  /** `convertEmployee`: a stored document as the application sees it. */
  function ConvertEmployee(d: EmployeeDoc): (e: Employee)
    ensures e.id == d.id
    ensures e.role != ""
    ensures d.data.name.None? ==> e.name == ""
    ensures d.data.phone.None? ==> e.phone == ""
    ensures d.data.address.None? ==> e.address == ""
    ensures d.data.qrCode.None? ==> e.qrCode == ""
    ensures d.data.role.None? ==> e.role == "server"
    ensures d.data.wage.None? ==> e.wage == 0.0
    ensures d.data.isActive.None? ==> e.isActive
    ensures d.data.wage.Some? ==> e.wage == d.data.wage.value
    ensures d.data.isActive.Some? ==> e.isActive == d.data.isActive.value
    ensures e.email == d.data.email
  {
    Employee(
      d.id,
      OrElse(d.data.name, ""),
      OrElse(d.data.role, "server"),
      if d.data.wage.Some? then d.data.wage.value else 0.0,
      OrElse(d.data.phone, ""),
      OrElse(d.data.address, ""),
      OrElse(d.data.qrCode, ""),
      d.data.email,
      d.data.createdAt,
      d.data.updatedAt,
      if d.data.isActive.Some? then d.data.isActive.value else true)
  }

  /** The document an employee is stored as, every field written. */
  function Stored(e: Employee): EmployeeData
  {
    EmployeeData(Some(e.name), Some(e.role), Some(e.wage), Some(e.phone), Some(e.address),
                 Some(e.qrCode), e.email, e.createdAt, e.updatedAt, Some(e.isActive))
  }

  /** Conversion loses nothing of an employee stored with every field: the
      only exception is an empty role, which reads back as "server". */
  lemma ConvertStoredRoundTrip(e: Employee)
    ensures e.role != "" ==> ConvertEmployee(EmployeeDoc(e.id, Stored(e))) == e
    ensures e.role == "" ==> ConvertEmployee(EmployeeDoc(e.id, Stored(e))) == e.(role := "server")
  {
  }

  /** `getAllEmployees`: every document, converted, in store order. */
  function AllEmployees(docs: seq<EmployeeDoc>): (r: seq<Employee>)
    ensures |r| == |docs|
    ensures forall i :: 0 <= i < |docs| ==> r[i].id == docs[i].id && r[i] == ConvertEmployee(docs[i])
  {
    if docs == [] then [] else [ConvertEmployee(docs[0])] + AllEmployees(docs[1..])
  }

  /** Position of the first document with id `id`. */
  function IndexOfId(docs: seq<EmployeeDoc>, id: string): (r: Option<nat>)
    ensures r.None? <==> forall i :: 0 <= i < |docs| ==> docs[i].id != id
    ensures r.Some? ==> r.value < |docs| && docs[r.value].id == id
    ensures r.Some? ==> forall i :: 0 <= i < r.value ==> docs[i].id != id
  {
    if docs == [] then None
    else if docs[0].id == id then Some(0)
    else match IndexOfId(docs[1..], id)
      case None => None
      case Some(k) => Some(k + 1)
  }

  /** Position of the first document whose stored token is `token`. */
  function IndexOfToken(docs: seq<EmployeeDoc>, token: string): (r: Option<nat>)
    ensures r.None? <==> forall i :: 0 <= i < |docs| ==> docs[i].data.qrCode != Some(token)
    ensures r.Some? ==> r.value < |docs| && docs[r.value].data.qrCode == Some(token)
    ensures r.Some? ==> forall i :: 0 <= i < r.value ==> docs[i].data.qrCode != Some(token)
  {
    if docs == [] then None
    else if docs[0].data.qrCode == Some(token) then Some(0)
    else match IndexOfToken(docs[1..], token)
      case None => None
      case Some(k) => Some(k + 1)
  }

  /** `getEmployeeById`: null when no document has that id. */
  function EmployeeById(docs: seq<EmployeeDoc>, id: string): (r: Option<Employee>)
    ensures r.None? <==> forall i :: 0 <= i < |docs| ==> docs[i].id != id
    ensures r.Some? ==> r.value.id == id && exists i :: 0 <= i < |docs| && r.value == ConvertEmployee(docs[i])
  {
    match IndexOfId(docs, id)
    case None => None
    case Some(i) => Some(ConvertEmployee(docs[i]))
  }

  /** `getEmployeeByQRCode`: null when no document holds the token, otherwise
      the first document that does. */
  function EmployeeByQRCode(docs: seq<EmployeeDoc>, token: string): (r: Option<Employee>)
    ensures r.None? <==> forall i :: 0 <= i < |docs| ==> docs[i].data.qrCode != Some(token)
    ensures r.Some? ==> r.value.qrCode == token
    ensures r.Some? ==> exists i :: (0 <= i < |docs| && docs[i].data.qrCode == Some(token) &&
                                     r.value == ConvertEmployee(docs[i]) &&
                                     forall k :: 0 <= k < i ==> docs[k].data.qrCode != Some(token))
  {
    match IndexOfToken(docs, token)
    case None => None
    case Some(i) => Some(ConvertEmployee(docs[i]))
  }

  /** No two documents share an id. */
  ghost predicate IdsUnique(docs: seq<EmployeeDoc>)
  {
    forall i, j :: 0 <= i < j < |docs| ==> docs[i].id != docs[j].id
  }

  /** No two documents hold the same stored token: the uniqueness the
      `qrCode` field is documented to have. */
  ghost predicate TokensUnique(docs: seq<EmployeeDoc>)
  {
    forall i, j :: 0 <= i < j < |docs| && docs[i].data.qrCode.Some? ==> docs[i].data.qrCode != docs[j].data.qrCode
  }

  /** With unique tokens, the document a token finds is the only one holding it. */
  lemma TokenLookupUnique(docs: seq<EmployeeDoc>, token: string, i: nat)
    requires TokensUnique(docs)
    requires i < |docs| && docs[i].data.qrCode == Some(token)
    ensures EmployeeByQRCode(docs, token) == Some(ConvertEmployee(docs[i]))
  {
    var k := IndexOfToken(docs, token).value;
    assert docs[k].data.qrCode == docs[i].data.qrCode;
  }

  /** What `createEmployee` writes: the form fields, the fresh token, both
      timestamps and `isActive` true. */
  function CreatedData(form: EmployeeFormData, token: string, now: Millis): EmployeeData
  {
    EmployeeData(Some(form.name), Some(RoleName(form.role)), Some(form.wage), Some(form.phone),
                 Some(form.address), Some(token), form.email, Some(now), Some(now), Some(true))
  }

  /** The employee a created document reads back as: exactly the form, the
      token, the creation time and active. */
  lemma CreatedReadsBack(form: EmployeeFormData, id: string, token: string, now: Millis)
    ensures ConvertEmployee(EmployeeDoc(id, CreatedData(form, token, now))) ==
      Employee(id, form.name, RoleName(form.role), form.wage, form.phone, form.address,
               token, form.email, Some(now), Some(now), true)
  {
    assert RoleName(form.role) != "";
  }

  /** A patch overwrites the fields it carries and the update time; the
      token, the active flag and the creation time are never touched. */
  function Patched(data: EmployeeData, patch: EmployeePatch, now: Millis): EmployeeData
  {
    data.(
      name := if patch.name.Some? then patch.name else data.name,
      role := if patch.role.Some? then Some(RoleName(patch.role.value)) else data.role,
      wage := if patch.wage.Some? then patch.wage else data.wage,
      phone := if patch.phone.Some? then patch.phone else data.phone,
      address := if patch.address.Some? then patch.address else data.address,
      email := if patch.email.Some? then patch.email else data.email,
      updatedAt := Some(now))
  }

  /** As the application sees it, a patched employee keeps its id, token,
      active flag and creation time, takes every field the patch carries and
      keeps every field it does not. */
  lemma PatchFrame(d: EmployeeDoc, patch: EmployeePatch, now: Millis)
    ensures var e, e' := ConvertEmployee(d), ConvertEmployee(EmployeeDoc(d.id, Patched(d.data, patch, now)));
      && e'.id == e.id && e'.qrCode == e.qrCode && e'.isActive == e.isActive && e'.createdAt == e.createdAt
      && e'.updatedAt == Some(now)
      && (patch.name.None? ==> e'.name == e.name)
      && (patch.role.None? ==> e'.role == e.role)
      && (patch.wage.None? ==> e'.wage == e.wage)
      && (patch.phone.None? ==> e'.phone == e.phone)
      && (patch.address.None? ==> e'.address == e.address)
      && (patch.email.None? ==> e'.email == e.email)
      && (patch.role.Some? ==> e'.role == RoleName(patch.role.value))
      && (patch.wage.Some? ==> e'.wage == patch.wage.value)
      && (patch.email.Some? ==> e'.email == patch.email)
      && (patch.name.Some? ==> e'.name == patch.name.value)
      && (patch.phone.Some? ==> e'.phone == patch.phone.value)
      && (patch.address.Some? ==> e'.address == patch.address.value)
  {
  }

  /** The directory `updateEmployee` leaves behind, or the store's refusal
      to update a missing document. */
  function UpdateResult(docs: seq<EmployeeDoc>, id: string, patch: EmployeePatch, now: Millis)
    : (r: Result<seq<EmployeeDoc>, DirectoryError>)
    ensures r.Failure? <==> forall i :: 0 <= i < |docs| ==> docs[i].id != id
    ensures r.Success? ==> |r.value| == |docs|
    ensures r.Success? ==> forall i :: 0 <= i < |docs| ==>
                             r.value[i].id == docs[i].id && r.value[i].data.qrCode == docs[i].data.qrCode
    ensures r.Success? ==> exists i :: 0 <= i < |docs| && docs[i].id == id
                             && r.value[i] == EmployeeDoc(id, Patched(docs[i].data, patch, now))
    ensures r.Success? ==> forall i :: 0 <= i < |docs| && docs[i].id != id ==> r.value[i] == docs[i]
  {
    match IndexOfId(docs, id)
    case None => Failure(NotFound(id))
    case Some(i) => Success(docs[i := EmployeeDoc(id, Patched(docs[i].data, patch, now))])
  }

  /** With unique ids, `updateEmployee` patches exactly the document with
      that id, which then reads back as patched, and leaves every other
      document as it was; the active flag, the token and the creation time
      of the patched employee stay. */
  lemma UpdateEffect(docs: seq<EmployeeDoc>, id: string, patch: EmployeePatch, now: Millis)
    requires IdsUnique(docs)
    requires UpdateResult(docs, id, patch, now).Success?
    ensures var docs' := UpdateResult(docs, id, patch, now).value;
      && (forall k :: 0 <= k < |docs| ==>
            docs'[k] == if docs[k].id == id then EmployeeDoc(id, Patched(docs[k].data, patch, now)) else docs[k])
      && EmployeeById(docs', id).Some?
      && EmployeeById(docs', id).value.isActive == EmployeeById(docs, id).value.isActive
      && EmployeeById(docs', id).value.qrCode == EmployeeById(docs, id).value.qrCode
      && EmployeeById(docs', id).value.createdAt == EmployeeById(docs, id).value.createdAt
      && EmployeeById(docs', id).value.updatedAt == Some(now)
  {
    var i := IndexOfId(docs, id).value;
    var docs' := UpdateResult(docs, id, patch, now).value;
    assert IndexOfId(docs', id) == Some(i);
    PatchFrame(docs[i], patch, now);
  }

  /** The directory after `isActive` is written for `id`: `deleteEmployee`
      writes false, `toggleEmployeeActive` writes the given value. */
  function SetActiveResult(docs: seq<EmployeeDoc>, id: string, active: bool, now: Millis)
    : (r: Result<seq<EmployeeDoc>, DirectoryError>)
    ensures r.Failure? <==> forall i :: 0 <= i < |docs| ==> docs[i].id != id
    ensures r.Success? ==> |r.value| == |docs|
    ensures r.Success? ==> forall i :: 0 <= i < |docs| ==>
                             r.value[i].id == docs[i].id && r.value[i].data.qrCode == docs[i].data.qrCode
  {
    match IndexOfId(docs, id)
    case None => Failure(NotFound(id))
    case Some(i) => Success(docs[i := EmployeeDoc(id, docs[i].data.(isActive := Some(active), updatedAt := Some(now)))])
  }

  /** Writing the active flag reads back as exactly that flag, changes only
      the flag and the update time of that one document, and writing it
      again changes nothing. */
  lemma SetActiveEffect(docs: seq<EmployeeDoc>, id: string, active: bool, now: Millis)
    requires IdsUnique(docs)
    requires SetActiveResult(docs, id, active, now).Success?
    ensures var docs' := SetActiveResult(docs, id, active, now).value;
      && EmployeeById(docs', id).Some?
      && EmployeeById(docs', id).value == EmployeeById(docs, id).value.(isActive := active, updatedAt := Some(now))
      && (forall i :: 0 <= i < |docs| && docs[i].id != id ==> docs'[i] == docs[i])
      && SetActiveResult(docs', id, active, now) == Success(docs')
  {
    var i := IndexOfId(docs, id).value;
    var docs' := SetActiveResult(docs, id, active, now).value;
    assert IndexOfId(docs', id) == Some(i);
    assert docs'[i].data.(isActive := Some(active), updatedAt := Some(now)) == docs'[i].data;
    assert docs'[i := EmployeeDoc(id, docs'[i].data)] == docs';
  }

  /** The directory after `permanentlyDeleteEmployee`: every document with
      that id is gone, whatever its active flag; a missing id changes nothing. */
  function PermanentlyDeleted(docs: seq<EmployeeDoc>, id: string): (r: seq<EmployeeDoc>)
    ensures forall d :: d in r <==> d in docs && d.id != id
    ensures (forall i :: 0 <= i < |docs| ==> docs[i].id != id) ==> r == docs
  {
    var kept := Filter(docs, OtherThan(id));
    FilterAllKept(docs, OtherThan(id));
    kept
  }

  /** Keeps the documents whose id is not `id`. */
  function OtherThan(id: string): EmployeeDoc -> bool
  {
    (d: EmployeeDoc) => d.id != id
  }

  /** Removing documents keeps ids and tokens unique. */
  lemma DeleteKeepsUnique(docs: seq<EmployeeDoc>, id: string)
    requires IdsUnique(docs) && TokensUnique(docs)
    ensures IdsUnique(PermanentlyDeleted(docs, id)) && TokensUnique(PermanentlyDeleted(docs, id))
  {
    var distinct := (a: EmployeeDoc, b: EmployeeDoc) =>
      a.id != b.id && (a.data.qrCode.Some? ==> a.data.qrCode != b.data.qrCode);
    assert forall i, j :: 0 <= i < j < |docs| ==> distinct(docs[i], docs[j]);
    FilterPairwise(docs, OtherThan(id), distinct);
    var r := PermanentlyDeleted(docs, id);
    forall i, j | 0 <= i < j < |r|
      ensures r[i].id != r[j].id && (r[i].data.qrCode.Some? ==> r[i].data.qrCode != r[j].data.qrCode)
    {
      assert distinct(r[i], r[j]);
    }
  }

  /** A write that keeps every document's id and token in place keeps ids
      and tokens unique. */
  lemma SameKeysKeepUnique(docs: seq<EmployeeDoc>, docs': seq<EmployeeDoc>)
    requires IdsUnique(docs) && TokensUnique(docs)
    requires |docs'| == |docs|
    requires forall i :: 0 <= i < |docs| ==> docs'[i].id == docs[i].id && docs'[i].data.qrCode == docs[i].data.qrCode
    ensures IdsUnique(docs') && TokensUnique(docs')
  {
  }

  /** Appending a document under an unused id with an unused token keeps
      ids and tokens unique. */
  lemma CreateKeepsUnique(docs: seq<EmployeeDoc>, form: EmployeeFormData, newId: string, token: string, now: Millis)
    requires IdsUnique(docs) && TokensUnique(docs)
    requires forall d :: d in docs ==> d.id != newId && d.data.qrCode != Some(token)
    ensures var created := docs + [EmployeeDoc(newId, CreatedData(form, token, now))];
      IdsUnique(created) && TokensUnique(created)
  {
    var created := docs + [EmployeeDoc(newId, CreatedData(form, token, now))];
    forall i, j | 0 <= i < j < |created|
      ensures created[i].id != created[j].id
      ensures created[i].data.qrCode.Some? ==> created[i].data.qrCode != created[j].data.qrCode
    {
      if j == |docs| {
        assert created[i] in docs;
      }
    }
  }

  /** Creating with an unused id and token, patching, writing the active
      flag and removing all keep ids and tokens unique. */
  lemma WritesKeepUnique(docs: seq<EmployeeDoc>, form: EmployeeFormData, newId: string, token: string,
                         id: string, patch: EmployeePatch, active: bool, now: Millis)
    requires IdsUnique(docs) && TokensUnique(docs)
    ensures (forall d :: d in docs ==> d.id != newId && d.data.qrCode != Some(token)) ==>
      var created := docs + [EmployeeDoc(newId, CreatedData(form, token, now))];
      IdsUnique(created) && TokensUnique(created)
    ensures UpdateResult(docs, id, patch, now).Success? ==>
      IdsUnique(UpdateResult(docs, id, patch, now).value) && TokensUnique(UpdateResult(docs, id, patch, now).value)
    ensures SetActiveResult(docs, id, active, now).Success? ==>
      IdsUnique(SetActiveResult(docs, id, active, now).value) && TokensUnique(SetActiveResult(docs, id, active, now).value)
    ensures IdsUnique(PermanentlyDeleted(docs, id)) && TokensUnique(PermanentlyDeleted(docs, id))
  {
    DeleteKeepsUnique(docs, id);
    if forall d :: d in docs ==> d.id != newId && d.data.qrCode != Some(token) {
      CreateKeepsUnique(docs, form, newId, token, now);
    }
    var updated := UpdateResult(docs, id, patch, now);
    if updated.Success? {
      SameKeysKeepUnique(docs, updated.value);
    }
    var flagged := SetActiveResult(docs, id, active, now);
    if flagged.Success? {
      SameKeysKeepUnique(docs, flagged.value);
    }
  }

  /** The employees collection. */
  class EmployeeDirectory {
    var docs: seq<EmployeeDoc>

    constructor (initial: seq<EmployeeDoc>)
      ensures docs == initial
    {
      docs := initial;
    }

    /** `createEmployee`: appends one document under the store's new id,
        holding the form, the new token and `isActive` true. */
    method Create(form: EmployeeFormData, newId: string, token: string, now: Millis) returns (id: string)
      modifies this
      ensures id == newId
      ensures docs == old(docs) + [EmployeeDoc(newId, CreatedData(form, token, now))]
      ensures (IdsUnique(old(docs)) && TokensUnique(old(docs)) &&
               forall d :: d in old(docs) ==> d.id != newId && d.data.qrCode != Some(token))
              ==> IdsUnique(docs) && TokensUnique(docs)
    {
      if IdsUnique(docs) && TokensUnique(docs) {
        WritesKeepUnique(docs, form, newId, token, newId, EmployeePatch(None, None, None, None, None, None), true, now);
      }
      docs := docs + [EmployeeDoc(newId, CreatedData(form, token, now))];
      id := newId;
    }

    /** `updateEmployee`: patches the document with that id; a missing
        document is refused and nothing changes. */
    method Update(id: string, patch: EmployeePatch, now: Millis) returns (res: Outcome<DirectoryError>)
      modifies this
      ensures var spec := UpdateResult(old(docs), id, patch, now);
        && (spec.Success? ==> res == Pass && docs == spec.value)
        && (spec.Failure? ==> res == Fail(spec.error) && docs == old(docs))
    {
      var found := IndexOfId(docs, id);
      if found.None? {
        return Fail(NotFound(id));
      }
      var i := found.value;
      docs := docs[i := EmployeeDoc(id, Patched(docs[i].data, patch, now))];
      res := Pass;
    }

    /** `deleteEmployee`: a soft delete that only marks the document inactive. */
    method Delete(id: string, now: Millis) returns (res: Outcome<DirectoryError>)
      modifies this
      ensures var spec := SetActiveResult(old(docs), id, false, now);
        && (spec.Success? ==> res == Pass && docs == spec.value)
        && (spec.Failure? ==> res == Fail(spec.error) && docs == old(docs))
    {
      res := SetActive(id, false, now);
    }

    /** `toggleEmployeeActive`: writes exactly the given active flag. */
    method SetActive(id: string, active: bool, now: Millis) returns (res: Outcome<DirectoryError>)
      modifies this
      ensures var spec := SetActiveResult(old(docs), id, active, now);
        && (spec.Success? ==> res == Pass && docs == spec.value)
        && (spec.Failure? ==> res == Fail(spec.error) && docs == old(docs))
    {
      var found := IndexOfId(docs, id);
      if found.None? {
        return Fail(NotFound(id));
      }
      var i := found.value;
      docs := docs[i := EmployeeDoc(id, docs[i].data.(isActive := Some(active), updatedAt := Some(now)))];
      res := Pass;
    }

    /** `permanentlyDeleteEmployee`: removes the document whatever its
        active flag; deleting a missing document is not an error. */
    method PermanentlyDelete(id: string)
      modifies this
      ensures docs == PermanentlyDeleted(old(docs), id)
    {
      docs := PermanentlyDeleted(docs, id);
    }
  }
}
