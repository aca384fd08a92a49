/** The statistics the admin dashboard computes when it loads
    (app/admin/page.tsx): head counts, today's open sessions, today's stored
    hours and earnings, the head count per role, and the hours shown for
    each of today's records. The employee list, today's records and the
    current time are parameters. */
module Dashboard {
  import opened Types
  import opened Rounding
  import opened Sequences
  import opened Grouping
  import opened Attendance
  import opened Analytics

  // ---------------------------------------------------------------------
  // Hours of one record

  /** `getCurrentSessionHours`: nothing for a closed session, the hours
      elapsed since check-in for an open one. */
  function CurrentSessionHours(r: AttendanceRecord, now: Millis): real
  {
    if r.checkOut.Some? then 0.0 else HoursBetween(r.checkIn, now)
  }

  /** A session's live hours are zero once it is closed; while it is open
      they are never negative after check-in and grow with the clock. */
  lemma CurrentSessionHoursGrow(r: AttendanceRecord, now: Millis, later: Millis)
    requires now <= later
    ensures !IsOpen(r) ==> CurrentSessionHours(r, now) == 0.0
    ensures IsOpen(r) && r.checkIn <= now ==> CurrentSessionHours(r, now) >= 0.0
    ensures IsOpen(r) ==> CurrentSessionHours(r, now) <= CurrentSessionHours(r, later)
    ensures IsOpen(r) ==> CurrentSessionHours(r, now) * (MsPerHour as real) == (now - r.checkIn) as real
  {
    if IsOpen(r) {
      var a, b := HoursBetween(r.checkIn, now), HoursBetween(r.checkIn, later);
      assert (b - a) * (MsPerHour as real) == (later - now) as real;
    }
  }

  /** The hours shown next to one of today's records: the live hours while
      it is open, otherwise its stored hours, 0 when they are missing. */
  function DisplayedHours(r: AttendanceRecord, now: Millis): real
  {
    if IsOpen(r) then CurrentSessionHours(r, now)
    else if Truthy(r.totalHours) then r.totalHours.value
    else 0.0
  }

  /** On a record that stores no hours while it is open, the dashboard shows
      exactly the hours the analytics page counts for it. */
  lemma DisplayedMatchesAnalytics(r: AttendanceRecord, now: Millis)
    requires IsOpen(r) ==> r.totalHours.None?
    ensures DisplayedHours(r, now) == RecordHours(r, now)
    ensures !IsOpen(r) ==> DisplayedHours(r, now) == StoredHours(r)
  {
  }

  // ---------------------------------------------------------------------
  // Today's hours and earnings

  predicate Completed(r: AttendanceRecord)
  {
    Truthy(r.totalHours)
  }

  /** `completedToday.reduce((sum, record) => sum + (record.totalHours || 0), 0)`. */
  function TotalHoursToday(todayData: seq<AttendanceRecord>): real
  {
    SumOf(Filter(todayData, Completed), StoredHours)
  }

  /** Summing only over elements that pass `p` changes nothing when the
      others contribute zero. */
  lemma {:induction false} SumOfFilter<T(!new)>(s: seq<T>, p: T -> bool, f: T -> real)
    requires forall x :: !p(x) ==> f(x) == 0.0
    ensures SumOf(Filter(s, p), f) == SumOf(s, f)
    decreases |s|
  {
    if s != [] {
      var init, x := s[..|s| - 1], s[|s| - 1];
      SumOfFilter(init, p, f);
      var kept := Filter(init, p);
      assert SumOf(s, f) == SumOf(init, f) + f(x);
      if p(x) {
        assert Filter(s, p) == kept + [x];
        SumOfSnoc(kept, x, f);
      } else {
        assert Filter(s, p) == kept;
        assert f(x) == 0.0;
      }
    }
  }

  /** Open sessions and closed ones storing zero hours add nothing: the
      total is the stored hours summed over all of today's records. */
  lemma TotalHoursAllRecords(todayData: seq<AttendanceRecord>)
    ensures TotalHoursToday(todayData) == SumOf(todayData, StoredHours)
  {
    SumOfFilter(todayData, Completed, StoredHours);
  }

  /** A further open session leaves today's total hours as they are. */
  lemma OpenSessionAddsNoHours(todayData: seq<AttendanceRecord>, r: AttendanceRecord)
    requires IsOpen(r) && r.totalHours.None?
    ensures TotalHoursToday(todayData + [r]) == TotalHoursToday(todayData)
  {
    FilterSnoc(todayData, r, Completed);
    assert Filter(todayData + [r], Completed) == Filter(todayData, Completed);
  }

  /** What one completed record earns: its hours at the wage of the first
      employee with its id, active or not, and nothing when there is no such
      employee or the wage is zero. */
  function Pay(r: AttendanceRecord, employees: seq<Employee>): real
  {
    match FindEmployee(employees, r.employeeId)
    case None => 0.0
    case Some(e) => if e.wage != 0.0 then StoredHours(r) * e.wage else 0.0
  }

  /** `Pay` by the outcome of the lookup. */
  lemma PayOf(r: AttendanceRecord, employees: seq<Employee>, found: Option<Employee>)
    requires found == FindEmployee(employees, r.employeeId)
    ensures found.Some? && found.value.wage != 0.0 ==> Pay(r, employees) == StoredHours(r) * found.value.wage
    ensures !(found.Some? && found.value.wage != 0.0) ==> Pay(r, employees) == 0.0
  {
  }

  function PayIn(employees: seq<Employee>): AttendanceRecord -> real
  {
    r => Pay(r, employees)
  }

  /** The earnings of a prefix grow by one record's pay at a time. */
  lemma PaySumStep(s: seq<AttendanceRecord>, i: nat, employees: seq<Employee>)
    requires i < |s|
    ensures SumOf(s[..i + 1], PayIn(employees)) == SumOf(s[..i], PayIn(employees)) + Pay(s[i], employees)
  {
    assert s[..i + 1] == s[..i] + [s[i]];
    SumOfSnoc(s[..i], s[i], PayIn(employees));
    assert PayIn(employees)(s[i]) == Pay(s[i], employees);
  }

  /** The `for` loop over today's completed records summing their earnings,
      unrounded. */
  method TotalEarningsToday(todayData: seq<AttendanceRecord>, employees: seq<Employee>) returns (total: real)
    ensures total == SumOf(Filter(todayData, Completed), PayIn(employees))
  {
    var completed := Filter(todayData, Completed);
    total := 0.0;
    for i := 0 to |completed|
      invariant total == SumOf(completed[..i], PayIn(employees))
    {
      var record := completed[i];
      var employee := FindEmployee(employees, record.employeeId);
      PaySumStep(completed, i, employees);
      PayOf(record, employees, employee);
      if employee.Some? && employee.value.wage != 0.0 {
        total := total + StoredHours(record) * employee.value.wage;
      }
    }
    assert completed[..|completed|] == completed;
  }

  /** Non-negative hours paid at a wage no larger than `maxWage` earn
      between nothing and those hours at `maxWage`. */
  lemma ScaleBound(pay: real, ceiling: real, h: real, w: real, maxWage: real)
    requires h >= 0.0 && 0.0 <= w <= maxWage
    requires pay == h * w && ceiling == maxWage * h
    ensures 0.0 <= pay <= ceiling
  {
    assert maxWage * h - h * w == h * (maxWage - w);
  }

  /** The wage a record is paid at: the found employee's, or nothing. */
  function Rate(found: Option<Employee>): real
  {
    if found.Some? && found.value.wage != 0.0 then found.value.wage else 0.0
  }

  /** A record's pay is its stored hours at the found employee's rate. */
  lemma PayRate(r: AttendanceRecord, employees: seq<Employee>)
    ensures Pay(r, employees) == StoredHours(r) * Rate(FindEmployee(employees, r.employeeId))
  {
    var found := FindEmployee(employees, r.employeeId);
    PayOf(r, employees, found);
    if !(found.Some? && found.value.wage != 0.0) {
      assert StoredHours(r) * 0.0 == 0.0;
    }
  }

  /** The employee a lookup finds is one of those searched. */
  lemma FoundIsMember(employees: seq<Employee>, id: string)
    requires FindEmployee(employees, id).Some?
    ensures FindEmployee(employees, id).value in employees
  {
    var i :| 0 <= i < |employees| && employees[i] == FindEmployee(employees, id).value;
  }

  /** A record paid at a rate no larger than `maxWage` earns at most its
      hours at `maxWage`. */
  lemma PayAtRate(r: AttendanceRecord, employees: seq<Employee>, maxWage: real)
    requires StoredHours(r) >= 0.0 && 0.0 <= Rate(FindEmployee(employees, r.employeeId)) <= maxWage
    ensures 0.0 <= Pay(r, employees) <= Ceiling(r, maxWage)
  {
    PayRate(r, employees);
    ScaleBound(Pay(r, employees), Ceiling(r, maxWage), StoredHours(r), Rate(FindEmployee(employees, r.employeeId)), maxWage);
  }

  /** One record earns between nothing and its hours at `maxWage`. */
  lemma PayBound(r: AttendanceRecord, employees: seq<Employee>, maxWage: real)
    requires maxWage >= 0.0 && StoredHours(r) >= 0.0
    requires forall e :: e in employees ==> 0.0 <= e.wage <= maxWage
    ensures 0.0 <= Pay(r, employees) <= Ceiling(r, maxWage)
  {
    var found := FindEmployee(employees, r.employeeId);
    if found.Some? {
      FoundIsMember(employees, r.employeeId);
    }
    PayAtRate(r, employees, maxWage);
  }

  /** A record's hours paid at `maxWage`. */
  function Ceiling(r: AttendanceRecord, maxWage: real): real
  {
    maxWage * StoredHours(r)
  }

  function CeilingIn(maxWage: real): AttendanceRecord -> real
  {
    r => Ceiling(r, maxWage)
  }

  /** Record by record, earnings stay between nothing and pay at `maxWage`. */
  lemma {:induction false} EarningsBelowCeiling(rs: seq<AttendanceRecord>, employees: seq<Employee>, maxWage: real)
    requires maxWage >= 0.0
    requires forall r :: r in rs ==> StoredHours(r) >= 0.0
    requires forall e :: e in employees ==> 0.0 <= e.wage <= maxWage
    ensures 0.0 <= SumOf(rs, PayIn(employees)) <= SumOf(rs, CeilingIn(maxWage))
    decreases |rs|
  {
    if rs != [] {
      var init, r := rs[..|rs| - 1], rs[|rs| - 1];
      assert rs == init + [r];
      EarningsBelowCeiling(init, employees, maxWage);
      SumOfSnoc(init, r, PayIn(employees));
      SumOfSnoc(init, r, CeilingIn(maxWage));
      assert PayIn(employees)(r) == Pay(r, employees);
      assert CeilingIn(maxWage)(r) == Ceiling(r, maxWage);
      PayBound(r, employees, maxWage);
    }
  }

  /** Paying every record at `maxWage` pays the total hours at `maxWage`. */
  lemma {:induction false} CeilingTotal(rs: seq<AttendanceRecord>, maxWage: real)
    ensures SumOf(rs, CeilingIn(maxWage)) == maxWage * SumOf(rs, StoredHours)
    decreases |rs|
  {
    if rs != [] {
      var init, r := rs[..|rs| - 1], rs[|rs| - 1];
      assert rs == init + [r];
      CeilingTotal(init, maxWage);
      SumOfSnoc(init, r, CeilingIn(maxWage));
      SumOfSnoc(init, r, StoredHours);
      assert CeilingIn(maxWage)(r) == maxWage * StoredHours(r);
      var hours := SumOf(init, StoredHours);
      assert maxWage * hours + maxWage * StoredHours(r) == maxWage * (hours + StoredHours(r));
    } else {
      assert maxWage * 0.0 == 0.0;
    }
  }

  /** With non-negative stored hours and every wage between 0 and `maxWage`,
      the earnings of some records are between nothing and their hours at
      `maxWage`. */
  lemma EarningsBound(rs: seq<AttendanceRecord>, employees: seq<Employee>, maxWage: real)
    requires maxWage >= 0.0
    requires forall r :: r in rs ==> StoredHours(r) >= 0.0
    requires forall e :: e in employees ==> 0.0 <= e.wage <= maxWage
    ensures 0.0 <= SumOf(rs, PayIn(employees)) <= maxWage * SumOf(rs, StoredHours)
  {
    EarningsBelowCeiling(rs, employees, maxWage);
    CeilingTotal(rs, maxWage);
  }

  /** Today's earnings as the dashboard shows them, with every record's
      stored hours non-negative and every wage between 0 and `maxWage`:
      between nothing and today's hours at `maxWage`. */
  lemma TodayEarningsBound(todayData: seq<AttendanceRecord>, employees: seq<Employee>, maxWage: real)
    requires maxWage >= 0.0
    requires forall r :: r in todayData ==> StoredHours(r) >= 0.0
    requires forall e :: e in employees ==> 0.0 <= e.wage <= maxWage
    ensures 0.0 <= SumOf(Filter(todayData, Completed), PayIn(employees)) <= maxWage * TotalHoursToday(todayData)
  {
    var done := Filter(todayData, Completed);
    assert forall r :: r in done ==> r in todayData;
    EarningsBound(done, employees, maxWage);
    assert TotalHoursToday(todayData) == SumOf(done, StoredHours);
  }

  // ---------------------------------------------------------------------
  // Head count per role

  /** How many active employees hold `role`. */
  function RoleCount(employees: seq<Employee>, role: Role): nat
  {
    CountWhere(employees, Active, RoleOf, RoleName(role))
  }

  /** The `forEach` over the active employees incrementing the per-role
      count: every one of the seven roles is a key, and an employee whose
      role is empty or not one of the seven is not counted. */
  method EmployeesByRole(employees: seq<Employee>) returns (byRole: map<Role, nat>)
    ensures forall r: Role :: r in byRole && byRole[r] == RoleCount(employees, r)
  {
    byRole := map[Owner := 0, Admin := 0, Manager := 0, Server := 0, Chef := 0, Cashier := 0, Delivery := 0];
    forall r: Role
      ensures r in byRole && byRole[r] == RoleCount(employees[..0], r)
    {
      assert employees[..0] == [];
      match r
      case Owner =>
      case Admin =>
      case Manager =>
      case Server =>
      case Chef =>
      case Cashier =>
      case Delivery =>
    }
    for i := 0 to |employees|
      invariant forall r: Role :: r in byRole && byRole[r] == RoleCount(employees[..i], r)
    {
      var e := employees[i];
      assert employees[..i + 1] == employees[..i] + [e];
      assert employees[..i + 1][..i] == employees[..i];
      if e.isActive {
        var role := ParseRole(e.role);
        if role.Some? {
          forall r: Role | r != role.value
            ensures RoleName(r) != e.role
          {
            RoleNameInjective(r, role.value);
          }
          byRole := byRole[role.value := byRole[role.value] + 1];
        } else {
          forall r: Role
            ensures RoleName(r) != e.role
          {
            RolesClosed(r);
          }
        }
      }
    }
    assert employees[..|employees|] == employees;
  }

  /** The stored names of the seven roles, in declaration order. */
  function RoleNames(): (ns: seq<string>)
    ensures |ns| == |AllRoles|
    ensures forall i :: 0 <= i < |ns| ==> ns[i] == RoleName(AllRoles[i])
  {
    seq(|AllRoles|, i requires 0 <= i < |AllRoles| => RoleName(AllRoles[i]))
  }

  /** A string is one of the seven names exactly when it parses as a role. */
  lemma RoleNamesParse(s: string)
    ensures s in RoleNames() <==> ParseRole(s).Some?
  {
    var ns := RoleNames();
    if ParseRole(s).Some? {
      var r := ParseRole(s).value;
      RolesClosed(r);
      var i :| 0 <= i < |AllRoles| && AllRoles[i] == r;
      assert ns[i] == s;
    }
    if s in ns {
      var i :| 0 <= i < |ns| && ns[i] == s;
      RolesClosed(AllRoles[i]);
    }
  }

  /** The counts of `roles` in the map, added up. */
  function RoleSum(byRole: map<Role, nat>, roles: seq<Role>): nat
    requires forall r: Role :: r in byRole
  {
    if roles == [] then 0 else RoleSum(byRole, roles[..|roles| - 1]) + byRole[roles[|roles| - 1]]
  }

  /** The per-role counts of the map, added up over all seven roles. */
  function ByRoleTotal(byRole: map<Role, nat>): nat
    requires forall r: Role :: r in byRole
  {
    RoleSum(byRole, AllRoles)
  }

  /** Adding up the map's counts over the first `n` roles adds up the
      active employees' counts under the first `n` role names. */
  lemma {:induction false} RoleSumCounts(employees: seq<Employee>, byRole: map<Role, nat>, n: nat)
    requires forall r: Role :: r in byRole && byRole[r] == RoleCount(employees, r)
    requires n <= |AllRoles|
    ensures RoleSum(byRole, AllRoles[..n]) == SumCounts(RoleNames()[..n], employees, Active, RoleOf)
    decreases n
  {
    if n > 0 {
      RoleSumCounts(employees, byRole, n - 1);
      assert AllRoles[..n][..n - 1] == AllRoles[..n - 1];
      assert RoleNames()[..n][..n - 1] == RoleNames()[..n - 1];
    }
  }

  /** No active employee is counted twice: the per-role counts add up to at
      most the number of active employees, and to exactly that number when
      every active employee's role is one of the seven. */
  lemma EmployeesByRoleTotal(employees: seq<Employee>, byRole: map<Role, nat>)
    requires forall r: Role :: r in byRole && byRole[r] == RoleCount(employees, r)
    ensures ByRoleTotal(byRole) <= |Filter(employees, Active)|
    ensures ByRoleTotal(byRole) == |Filter(employees, Active)| <==>
            forall i :: 0 <= i < |employees| && employees[i].isActive ==> ParseRole(employees[i].role).Some?
  {
    var ns := RoleNames();
    forall i, j | 0 <= i < j < |ns|
      ensures ns[i] != ns[j]
    {
      RolesClosed(AllRoles[i]);
      RoleNameInjective(AllRoles[i], AllRoles[j]);
    }
    SumCountsBound(ns, employees, Active, RoleOf);
    RoleSumCounts(employees, byRole, |AllRoles|);
    assert AllRoles[..|AllRoles|] == AllRoles;
    assert ns[..|ns|] == ns;
    forall i | 0 <= i < |employees|
      ensures RoleOf(employees[i]) in ns <==> ParseRole(employees[i].role).Some?
    {
      RoleNamesParse(employees[i].role);
    }
  }

  // ---------------------------------------------------------------------
  // The whole load

  datatype DashboardStats = DashboardStats(
    totalEmployees: nat,
    activeEmployees: nat,
    checkedInToday: nat,
    totalHoursToday: real,
    totalEarningsToday: real,
    employeesByRole: map<Role, nat>)

  /** The statistics computed by `loadDashboard` from one employee list and
      the records `getTodayAttendance` returns for `today`. */
  method LoadDashboard(employees: seq<Employee>, records: seq<AttendanceRecord>, today: DateKey) returns (stats: DashboardStats)
    ensures stats.totalEmployees == |employees|
    ensures stats.activeEmployees == |Filter(employees, Active)| <= stats.totalEmployees
    ensures stats.checkedInToday ==
              |set i | 0 <= i < |TodayAttendance(records, today)| && IsOpen(TodayAttendance(records, today)[i])| <=
              |TodayAttendance(records, today)|
    ensures stats.checkedInToday == 0 <==>
              forall i :: 0 <= i < |TodayAttendance(records, today)| ==> !IsOpen(TodayAttendance(records, today)[i])
    ensures stats.totalHoursToday == SumOf(TodayAttendance(records, today), StoredHours)
    ensures stats.totalEarningsToday == SumOf(Filter(TodayAttendance(records, today), Completed), PayIn(employees))
    ensures forall r: Role :: r in stats.employeesByRole && stats.employeesByRole[r] == RoleCount(employees, r)
    ensures ByRoleTotal(stats.employeesByRole) <= stats.activeEmployees
  {
    var todayData := TodayAttendance(records, today);
    var activeEmployees := Filter(employees, Active);
    var checkedInToday := OpenSessions(todayData);
    var totalHoursToday := TotalHoursToday(todayData);
    TotalHoursAllRecords(todayData);
    var totalEarningsToday := TotalEarningsToday(todayData, employees);
    var employeesByRole := EmployeesByRole(employees);
    EmployeesByRoleTotal(employees, employeesByRole);
    stats := DashboardStats(|employees|, |activeEmployees|, checkedInToday, totalHoursToday, totalEarningsToday,
                            employeesByRole);
  }
}
