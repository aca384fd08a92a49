/** The record shapes of the attendance tracker (types/employee.ts), plus the
    small Option/Result wrappers every other module uses for lookups that can
    miss and for operations that can fail. */
module Types {

  datatype Option<T> = None | Some(value: T)

  datatype Result<T, E> = Success(value: T) | Failure(error: E)

  datatype Outcome<E> = Pass | Fail(error: E)

  /** The closed set of roles an employee can hold. */
  datatype Role = Owner | Admin | Manager | Server | Chef | Cashier | Delivery

  /** The roles in the order types/employee.ts lists them. */
  const AllRoles: seq<Role> := [Owner, Admin, Manager, Server, Chef, Cashier, Delivery]

  /** The string a role is stored as. */
  function RoleName(r: Role): string
  {
    match r
    case Owner => "owner"
    case Admin => "admin"
    case Manager => "manager"
    case Server => "server"
    case Chef => "chef"
    case Cashier => "cashier"
    case Delivery => "delivery"
  }

  /** Reads a stored role string back; anything outside the seven names is no role. */
  function ParseRole(s: string): (r: Option<Role>)
    ensures r.Some? ==> RoleName(r.value) == s
  {
    if s == "owner" then Some(Owner)
    else if s == "admin" then Some(Admin)
    else if s == "manager" then Some(Manager)
    else if s == "server" then Some(Server)
    else if s == "chef" then Some(Chef)
    else if s == "cashier" then Some(Cashier)
    else if s == "delivery" then Some(Delivery)
    else None
  }

  /** Every role is listed exactly once, and its name parses back to it. */
  lemma RolesClosed(r: Role)
    ensures |AllRoles| == 7
    ensures r in AllRoles
    ensures forall i, j :: 0 <= i < j < |AllRoles| ==> AllRoles[i] != AllRoles[j]
    ensures ParseRole(RoleName(r)) == Some(r)
  {
  }

  /** Distinct roles are stored under distinct names. */
  lemma RoleNameInjective(a: Role, b: Role)
    ensures RoleName(a) == RoleName(b) ==> a == b
  {
  }

  /** Timestamps are milliseconds since the epoch; a day key is a YYYY-MM-DD string. */
  type Millis = int
  type DateKey = string

  /** An employee as the application sees it after conversion from the store.
      `role` stays a string because stored data may hold any role text;
      `qrCode` is the employee's scan token. */
  datatype Employee = Employee(
    id: string,
    name: string,
    role: string,
    wage: real,
    phone: string,
    address: string,
    qrCode: string,
    email: Option<string>,
    createdAt: Option<Millis>,
    updatedAt: Option<Millis>,
    isActive: bool)

  /** One check-in/check-out session. `checkOut` and `totalHours` are absent
      while the session is open. */
  datatype AttendanceRecord = AttendanceRecord(
    id: string,
    employeeId: string,
    employeeName: string,
    checkIn: Millis,
    checkOut: Option<Millis>,
    date: DateKey,
    totalHours: Option<real>)

  /** The fields an administrator's form may set: no id, no token, no active flag. */
  datatype EmployeeFormData = EmployeeFormData(
    name: string,
    role: Role,
    wage: real,
    phone: string,
    address: string,
    email: Option<string>)

  /** `employees.find(e => e.id === id)`: the first employee with that id. */
  function FindEmployee(es: seq<Employee>, id: string): (r: Option<Employee>)
    ensures r.None? <==> forall i :: 0 <= i < |es| ==> es[i].id != id
    ensures r.Some? ==> exists i :: (0 <= i < |es| && es[i] == r.value && r.value.id == id &&
                                     forall j :: 0 <= j < i ==> es[j].id != id)
  {
    if es == [] then None
    else if es[0].id == id then Some(es[0])
    else
      var r := FindEmployee(es[1..], id);
      assert r.Some? ==> exists i :: 0 <= i < |es[1..]| && es[1..][i] == r.value &&
                                     forall j :: 0 <= j < i ==> es[1..][j].id != id;
      assert forall i :: 0 < i < |es| ==> es[i] == es[1..][i - 1];
      r
  }

  /** JavaScript truthiness of an optional number: present and non-zero. */
  predicate Truthy(h: Option<real>)
  {
    h.Some? && h.value != 0.0
  }

  /** A session is open while it has no check-out. */
  predicate IsOpen(r: AttendanceRecord)
  {
    r.checkOut.None?
  }
}
