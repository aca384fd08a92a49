/** The figures the analytics page computes when it loads
    (app/admin/analytics/page.tsx): the role distribution of active
    employees, today's hours and earnings per employee and in total, the
    per-date buckets of the past week, and the hours-and-minutes display.
    The employee list, the records and the current time are parameters. */
module Analytics {
  import opened Types
  import opened Rounding
  import opened Text
  import opened Sequences
  import opened Grouping
  import opened Attendance

  predicate Active(e: Employee)
  {
    e.isActive
  }

  function RoleOf(e: Employee): string
  {
    e.role
  }

  function EmployeeIdOf(r: AttendanceRecord): string
  {
    r.employeeId
  }

  function DateOf(r: AttendanceRecord): string
  {
    r.date
  }

  // ---------------------------------------------------------------------
  // Role distribution

  /** One slice of the role chart: the capitalised role and its head count. */
  datatype RoleShare = RoleShare(role: string, count: nat)

  /** The role distribution: one entry per role held by an active employee,
      in order of first appearance. */
  function RoleDistribution(employees: seq<Employee>): (dist: seq<RoleShare>)
    ensures |dist| == |KeysWhere(employees, Active, RoleOf)|
  {
    var ks := KeysWhere(employees, Active, RoleOf);
    seq(|ks|, j requires 0 <= j < |ks| => RoleShare(Capitalize(ks[j]), CountWhere(employees, Active, RoleOf, ks[j])))
  }

  /** The `forEach` callback over the employees: an active employee adds
      one to its role's count, opening the count on first sight. */
  function AddRole(roles: seq<string>, counts: seq<nat>, e: Employee): (seq<string>, seq<nat>)
    requires |counts| == |roles|
  {
    if e.isActive then
      match IndexOf(roles, e.role)
      case Some(j) => (roles, counts[j := counts[j] + 1])
      case None => (roles + [e.role], counts + [1])
    else (roles, counts)
  }

  /** The role dictionary of a sequence of employees, keys first. */
  ghost predicate RoleTally(s: seq<Employee>, roles: seq<string>, counts: seq<nat>)
  {
    && roles == KeysWhere(s, Active, RoleOf)
    && |counts| == |roles|
    && forall j :: 0 <= j < |roles| ==> counts[j] == CountWhere(s, Active, RoleOf, roles[j])
  }

  /** The callback extends the dictionary of `s` to that of `s + [e]`. */
  lemma AddRoleStep(s: seq<Employee>, e: Employee, roles: seq<string>, counts: seq<nat>)
    requires RoleTally(s, roles, counts)
    ensures |counts| == |roles| && RoleTally(s + [e], AddRole(roles, counts, e).0, AddRole(roles, counts, e).1)
  {
    KeysWhereMeaning(s, Active, RoleOf);
    assert (s + [e])[..|s|] == s;
    if e.isActive && IndexOf(roles, e.role).None? {
      CountWhereListed(s, Active, RoleOf, e.role);
    }
    var (roles', counts') := AddRole(roles, counts, e);
    forall j | 0 <= j < |roles'|
      ensures counts'[j] == CountWhere(s + [e], Active, RoleOf, roles'[j])
    {
      CountWhereSnoc(s, e, Active, RoleOf, roles'[j]);
    }
  }

  /** The counting loop over the active employees and the mapping of its
      dictionary to chart entries. */
  method CountRoles(employees: seq<Employee>) returns (dist: seq<RoleShare>)
    ensures dist == RoleDistribution(employees)
  {
    var roles: seq<string> := [];
    var counts: seq<nat> := [];
    for i := 0 to |employees|
      invariant RoleTally(employees[..i], roles, counts)
    {
      AddRoleStep(employees[..i], employees[i], roles, counts);
      assert employees[..i + 1] == employees[..i] + [employees[i]];
      var next := AddRole(roles, counts, employees[i]);
      roles, counts := next.0, next.1;
    }
    assert employees[..|employees|] == employees;
    dist := seq(|roles|, j requires 0 <= j < |roles| => RoleShare(Capitalize(roles[j]), counts[j]));
  }

  /** The counts of a distribution, summed. */
  function TotalCount(dist: seq<RoleShare>): nat
  {
    if dist == [] then 0 else TotalCount(dist[..|dist| - 1]) + dist[|dist| - 1].count
  }

  /** Every listed role has at least one active employee, and the counts add
      up to the number of active employees. */
  lemma RoleDistributionTotal(employees: seq<Employee>)
    ensures forall j :: 0 <= j < |RoleDistribution(employees)| ==> RoleDistribution(employees)[j].count >= 1
    ensures TotalCount(RoleDistribution(employees)) == |Filter(employees, Active)|
  {
    var ks := KeysWhere(employees, Active, RoleOf);
    forall j | 0 <= j < |ks|
      ensures RoleDistribution(employees)[j].count >= 1
    {
      CountWhereListed(employees, Active, RoleOf, ks[j]);
    }
    PrefixTotal(employees, |ks|);
    assert RoleDistribution(employees)[..|ks|] == RoleDistribution(employees);
    assert ks[..|ks|] == ks;
    SumCountsTotal(employees, Active, RoleOf);
  }

  lemma {:induction false} PrefixTotal(employees: seq<Employee>, n: nat)
    requires n <= |KeysWhere(employees, Active, RoleOf)|
    ensures TotalCount(RoleDistribution(employees)[..n]) ==
            SumCounts(KeysWhere(employees, Active, RoleOf)[..n], employees, Active, RoleOf)
    decreases n
  {
    if n > 0 {
      PrefixTotal(employees, n - 1);
      var dist, ks := RoleDistribution(employees), KeysWhere(employees, Active, RoleOf);
      assert dist[..n][..n - 1] == dist[..n - 1];
      assert ks[..n][..n - 1] == ks[..n - 1];
    }
  }

  // ---------------------------------------------------------------------
  // Today's hours by employee

  /** The hours a record of today counts for: its stored hours when truthy,
      the hours elapsed so far while it is open, otherwise none. */
  function RecordHours(r: AttendanceRecord, now: Millis): real
  {
    if Truthy(r.totalHours) then r.totalHours.value
    else if IsOpen(r) then HoursBetween(r.checkIn, now)
    else 0.0
  }

  /** The wage of the first employee with that id, 0 when there is none. */
  function WageOf(es: seq<Employee>, id: string): real
  {
    match FindEmployee(es, id)
    case None => 0.0
    case Some(e) => e.wage
  }

  /** A record counts towards today's hours when its employee is active with
      a positive wage and it counts for a positive number of hours. */
  predicate Contributes(r: AttendanceRecord, active: seq<Employee>, now: Millis)
  {
    FindEmployee(active, r.employeeId).Some? && WageOf(active, r.employeeId) > 0.0 && RecordHours(r, now) > 0.0
  }

  function ContributesAt(active: seq<Employee>, now: Millis): AttendanceRecord -> bool
  {
    r => Contributes(r, active, now)
  }

  function HoursAt(now: Millis): AttendanceRecord -> real
  {
    r => RecordHours(r, now)
  }

  /** One entry of the dictionary keyed by employee id: the name on the
      employee's first counted record, the unrounded hours summed over their
      counted records, and the wage rounded to cents. */
  datatype HoursEntry = HoursEntry(employeeId: string, name: string, hours: real, wage: real)

  function EntryFor(rs: seq<AttendanceRecord>, active: seq<Employee>, now: Millis, id: string): HoursEntry
  {
    var p := ContributesAt(active, now);
    HoursEntry(
      id,
      match FirstWhere(rs, p, EmployeeIdOf, id) { case None => "" case Some(r) => r.employeeName },
      SumWhere(rs, p, EmployeeIdOf, id, HoursAt(now)),
      Round2(WageOf(active, id)))
  }

  /** The dictionary after the loop, in order of first appearance. */
  function TodayEntries(rs: seq<AttendanceRecord>, active: seq<Employee>, now: Millis): (es: seq<HoursEntry>)
    ensures |es| == |KeysWhere(rs, ContributesAt(active, now), EmployeeIdOf)|
  {
    var ks := KeysWhere(rs, ContributesAt(active, now), EmployeeIdOf);
    seq(|ks|, j requires 0 <= j < |ks| => EntryFor(rs, active, now, ks[j]))
  }

  /** The `forEach` callback over today's records: a record of an active
      employee with a positive wage that counts for positive hours adds its
      hours to its employee's entry, opening the entry on first sight. */
  function AddToday(ids: seq<string>, entries: seq<HoursEntry>, r: AttendanceRecord, active: seq<Employee>, now: Millis)
    : (seq<string>, seq<HoursEntry>)
    requires |entries| == |ids|
  {
    var employee := FindEmployee(active, r.employeeId);
    var hours := RecordHours(r, now);
    if employee.Some? && employee.value.wage > 0.0 && hours > 0.0 then
      match IndexOf(ids, r.employeeId)
      case Some(j) => (ids, entries[j := entries[j].(hours := entries[j].hours + hours)])
      case None => (ids + [r.employeeId], entries + [HoursEntry(r.employeeId, r.employeeName, hours, Round2(employee.value.wage))])
    else (ids, entries)
  }

  /** The dictionary of a sequence of records, keys first. */
  ghost predicate TodayTally(s: seq<AttendanceRecord>, active: seq<Employee>, now: Millis, ids: seq<string>, entries: seq<HoursEntry>)
  {
    && ids == KeysWhere(s, ContributesAt(active, now), EmployeeIdOf)
    && |entries| == |ids|
    && forall j :: 0 <= j < |ids| ==> entries[j] == EntryFor(s, active, now, ids[j])
  }

  /** The callback extends the dictionary of `s` to that of `s + [r]`. */
  lemma AddTodayStep(s: seq<AttendanceRecord>, r: AttendanceRecord, active: seq<Employee>, now: Millis,
                     ids: seq<string>, entries: seq<HoursEntry>)
    requires TodayTally(s, active, now, ids, entries)
    ensures |entries| == |ids| && TodayTally(s + [r], active, now, AddToday(ids, entries, r, active, now).0, AddToday(ids, entries, r, active, now).1)
  {
    var p := ContributesAt(active, now);
    assert p(r) == Contributes(r, active, now);
    KeysWhereMeaning(s, p, EmployeeIdOf);
    WhereSnoc(s, r, p, EmployeeIdOf, r.employeeId, HoursAt(now), EmployeeIdOf);
    var (ids', entries') := AddToday(ids, entries, r, active, now);
    forall j | 0 <= j < |ids'|
      ensures entries'[j] == EntryFor(s + [r], active, now, ids'[j])
    {
      EntryForSnoc(s, r, active, now, ids'[j]);
      if j < |ids| {
        assert ids'[j] == ids[j];
      }
    }
  }

  /** The loop over today's records building the per-employee dictionary. */
  method AccumulateTodayHours(rs: seq<AttendanceRecord>, active: seq<Employee>, now: Millis)
    returns (entries: seq<HoursEntry>)
    ensures entries == TodayEntries(rs, active, now)
  {
    var ids: seq<string> := [];
    entries := [];
    for i := 0 to |rs|
      invariant TodayTally(rs[..i], active, now, ids, entries)
    {
      AddTodayStep(rs[..i], rs[i], active, now, ids, entries);
      assert rs[..i + 1] == rs[..i] + [rs[i]];
      var next := AddToday(ids, entries, rs[i], active, now);
      ids, entries := next.0, next.1;
    }
    assert rs[..|rs|] == rs;
  }

  /** How one more record changes an employee's entry: only a counted
      record of that employee changes it, by adding its hours, and the first
      such record supplies the name. */
  lemma EntryForSnoc(s: seq<AttendanceRecord>, x: AttendanceRecord, active: seq<Employee>, now: Millis, k: string)
    ensures !(Contributes(x, active, now) && x.employeeId == k) ==>
      EntryFor(s + [x], active, now, k) == EntryFor(s, active, now, k)
    ensures Contributes(x, active, now) && x.employeeId == k && k in KeysWhere(s, ContributesAt(active, now), EmployeeIdOf) ==>
      EntryFor(s + [x], active, now, k) == EntryFor(s, active, now, k).(hours := EntryFor(s, active, now, k).hours + RecordHours(x, now))
    ensures Contributes(x, active, now) && x.employeeId == k && k !in KeysWhere(s, ContributesAt(active, now), EmployeeIdOf) ==>
      EntryFor(s + [x], active, now, k) == HoursEntry(k, x.employeeName, RecordHours(x, now), Round2(WageOf(active, k)))
  {
    var p := ContributesAt(active, now);
    assert p(x) == Contributes(x, active, now);
    assert HoursAt(now)(x) == RecordHours(x, now);
    WhereSnoc(s, x, p, EmployeeIdOf, k, HoursAt(now), EmployeeIdOf);
    if k !in KeysWhere(s, p, EmployeeIdOf) {
      UnlistedKey(s, p, EmployeeIdOf, k, HoursAt(now), EmployeeIdOf);
    }
  }

  /** Every entry belongs to a distinct employee who is active with a
      positive wage and has at least one counted record today, and its hours
      are positive. */
  lemma TodayEntriesMeaning(rs: seq<AttendanceRecord>, active: seq<Employee>, now: Millis)
    ensures var es := TodayEntries(rs, active, now);
      && (forall i, j :: 0 <= i < j < |es| ==> es[i].employeeId != es[j].employeeId)
      && (forall j :: 0 <= j < |es| ==> es[j].hours > 0.0)
      && (forall j :: 0 <= j < |es| ==> exists i :: 0 <= i < |rs| && rs[i].employeeId == es[j].employeeId &&
                                                    Contributes(rs[i], active, now))
  {
    var p := ContributesAt(active, now);
    var ks := KeysWhere(rs, p, EmployeeIdOf);
    var es := TodayEntries(rs, active, now);
    KeysWhereMeaning(rs, p, EmployeeIdOf);
    assert forall i :: 0 <= i < |rs| && p(rs[i]) ==> HoursAt(now)(rs[i]) > 0.0 by {
      forall i | 0 <= i < |rs| && p(rs[i])
        ensures HoursAt(now)(rs[i]) > 0.0
      {
        assert p(rs[i]) == Contributes(rs[i], active, now);
        assert HoursAt(now)(rs[i]) == RecordHours(rs[i], now);
      }
    }
    forall j | 0 <= j < |es|
      ensures es[j].employeeId == ks[j] && es[j].hours > 0.0
      ensures exists i :: 0 <= i < |rs| && rs[i].employeeId == es[j].employeeId && Contributes(rs[i], active, now)
    {
      assert es[j] == EntryFor(rs, active, now, ks[j]);
      SumWhereSign(rs, p, EmployeeIdOf, ks[j], HoursAt(now));
      assert ks[j] in ks;
      var i :| 0 <= i < |rs| && p(rs[i]) && EmployeeIdOf(rs[i]) == ks[j];
      assert p(rs[i]) == Contributes(rs[i], active, now);
    }
  }

  /** The row shown for an employee: hours and earnings each rounded to
      cents from the same unrounded hours. */
  datatype TodayHours = TodayHours(employeeId: string, employeeName: string, hours: real, earnings: real)

  function Rounded(e: HoursEntry): TodayHours
  {
    TodayHours(e.employeeId, e.name, Round2(e.hours), Round2(e.hours * e.wage))
  }

  predicate HasHours(t: TodayHours)
  {
    t.hours > 0.0
  }

  predicate MoreHours(a: TodayHours, b: TodayHours)
  {
    a.hours > b.hours
  }

  /** The list shown for today: rows with positive rounded hours, most hours first. */
  function TodayHoursList(entries: seq<HoursEntry>): (r: seq<TodayHours>)
    ensures forall t :: t in r <==> (exists j :: 0 <= j < |entries| && t == Rounded(entries[j])) && t.hours > 0.0
    ensures forall i :: 0 <= i < |r| ==> r[i].hours > 0.0
    ensures forall i, j :: 0 <= i < j < |r| ==> r[i].hours >= r[j].hours
    ensures multiset(r) == multiset(Filter(seq(|entries|, j requires 0 <= j < |entries| => Rounded(entries[j])), HasHours))
  {
    var rows := seq(|entries|, j requires 0 <= j < |entries| => Rounded(entries[j]));
    var kept := Filter(rows, HasHours);
    var sorted := SortBy(kept, MoreHours);
    assert StrictWeakOrder(MoreHours);
    SortBySorted(kept, MoreHours);
    forall t
      ensures t in sorted <==> (exists j :: 0 <= j < |entries| && t == Rounded(entries[j])) && t.hours > 0.0
    {
      SortByMembers(kept, MoreHours, t);
      if exists j :: 0 <= j < |entries| && t == Rounded(entries[j]) {
        var j :| 0 <= j < |entries| && t == Rounded(entries[j]);
        assert rows[j] == t;
      }
    }
    sorted
  }

  /** A positive entry is left off the list exactly when its hours round to
      zero, that is, when it is under half a hundredth of an hour. */
  lemma DroppedWhenUnderHalfHundredth(e: HoursEntry)
    requires e.hours > 0.0
    ensures HasHours(Rounded(e)) <==> e.hours >= 0.005
  {
    Round2Sign(e.hours);
  }

  /** Earnings are rounded from the unrounded hours, so they are within half
      a cent of hours times wage; rounding the hours first could be further off. */
  lemma EarningsFromRawHours(e: HoursEntry)
    ensures e.hours * e.wage - 0.005 < Rounded(e).earnings <= e.hours * e.wage + 0.005
    ensures Rounded(HoursEntry("", "", 0.55818, 11.0)).earnings == 6.14
    ensures Round2(Rounded(HoursEntry("", "", 0.55818, 11.0)).hours * 11.0) == 6.16
  {
    EarningsExample();
  }

  /** Today's totals: the row values summed and rounded again to cents. */
  function TodayTotals(rows: seq<TodayHours>): (totals: (real, real))
    ensures IsHundredths(totals.0) && IsHundredths(totals.1)
    ensures SumOf(rows, (t: TodayHours) => t.hours) - 0.005 < totals.0 <= SumOf(rows, (t: TodayHours) => t.hours) + 0.005
    ensures SumOf(rows, (t: TodayHours) => t.earnings) - 0.005 < totals.1 <= SumOf(rows, (t: TodayHours) => t.earnings) + 0.005
  {
    (Round2(SumOf(rows, (t: TodayHours) => t.hours)), Round2(SumOf(rows, (t: TodayHours) => t.earnings)))
  }

  /** The list's hours add up to a positive total whenever it is not empty. */
  lemma {:induction false} ListHoursPositive(rows: seq<TodayHours>)
    requires forall i :: 0 <= i < |rows| ==> rows[i].hours > 0.0
    ensures rows != [] ==> SumOf(rows, (t: TodayHours) => t.hours) > 0.0
    ensures SumOf(rows, (t: TodayHours) => t.hours) >= 0.0
    decreases |rows|
  {
    if rows != [] {
      ListHoursPositive(rows[..|rows| - 1]);
    }
  }

  // ---------------------------------------------------------------------
  // The past week by date

  /** A record counts towards the week when its stored hours are truthy and
      its employee is active. */
  predicate CompletedByActive(r: AttendanceRecord, active: seq<Employee>)
  {
    Truthy(r.totalHours) && FindEmployee(active, r.employeeId).Some?
  }

  function CompletedByActiveIn(active: seq<Employee>): AttendanceRecord -> bool
  {
    r => CompletedByActive(r, active)
  }

  /** `record.totalHours` where it is present. */
  function StoredHours(r: AttendanceRecord): real
  {
    if r.totalHours.Some? then r.totalHours.value else 0.0
  }

  function EarningsIn(active: seq<Employee>): AttendanceRecord -> real
  {
    r => StoredHours(r) * WageOf(active, r.employeeId)
  }

  /** One date's bucket: unrounded hours and earnings and the ids seen. */
  datatype WeekBucket = WeekBucket(date: DateKey, hours: real, earnings: real, employees: set<string>)

  function BucketFor(rs: seq<AttendanceRecord>, active: seq<Employee>, d: DateKey): WeekBucket
  {
    var p := CompletedByActiveIn(active);
    WeekBucket(d, SumWhere(rs, p, DateOf, d, StoredHours), SumWhere(rs, p, DateOf, d, EarningsIn(active)),
               IdsWhere(rs, p, DateOf, d, EmployeeIdOf))
  }

  /** The dictionary keyed by date after the loop, in order of first appearance. */
  function WeeklyBuckets(rs: seq<AttendanceRecord>, active: seq<Employee>): (bs: seq<WeekBucket>)
    ensures |bs| == |KeysWhere(rs, CompletedByActiveIn(active), DateOf)|
  {
    var ks := KeysWhere(rs, CompletedByActiveIn(active), DateOf);
    seq(|ks|, j requires 0 <= j < |ks| => BucketFor(rs, active, ks[j]))
  }

  /** The `forEach` callback over the week's records: a record with truthy
      stored hours of an active employee adds its hours, its earnings at the
      employee's wage and its employee to its date's bucket, opening the
      bucket on first sight. */
  function AddWeekly(dates: seq<string>, buckets: seq<WeekBucket>, r: AttendanceRecord, active: seq<Employee>)
    : (seq<string>, seq<WeekBucket>)
    requires |buckets| == |dates|
  {
    var employee := FindEmployee(active, r.employeeId);
    if Truthy(r.totalHours) && employee.Some? then
      var hours := r.totalHours.value;
      var earnings := hours * employee.value.wage;
      match IndexOf(dates, r.date)
      case Some(j) =>
        (dates, buckets[j := WeekBucket(r.date, buckets[j].hours + hours, buckets[j].earnings + earnings,
                                        buckets[j].employees + {r.employeeId})])
      case None => (dates + [r.date], buckets + [WeekBucket(r.date, hours, earnings, {r.employeeId})])
    else (dates, buckets)
  }

  /** The dictionary of a sequence of records, keys first. */
  ghost predicate WeeklyTally(s: seq<AttendanceRecord>, active: seq<Employee>, dates: seq<string>, buckets: seq<WeekBucket>)
  {
    && dates == KeysWhere(s, CompletedByActiveIn(active), DateOf)
    && |buckets| == |dates|
    && forall j :: 0 <= j < |dates| ==> buckets[j] == BucketFor(s, active, dates[j])
  }

  /** The callback extends the dictionary of `s` to that of `s + [r]`. */
  lemma AddWeeklyStep(s: seq<AttendanceRecord>, r: AttendanceRecord, active: seq<Employee>,
                      dates: seq<string>, buckets: seq<WeekBucket>)
    requires WeeklyTally(s, active, dates, buckets)
    ensures |buckets| == |dates| && WeeklyTally(s + [r], active, AddWeekly(dates, buckets, r, active).0, AddWeekly(dates, buckets, r, active).1)
  {
    AddWeeklyCases(dates, buckets, r, active);
    if !CompletedByActive(r, active) {
      AddWeeklySkip(s, r, active, dates, buckets);
    } else if r.date in dates {
      AddWeeklyExisting(s, r, active, dates, buckets);
    } else {
      AddWeeklyNew(s, r, active, dates, buckets);
    }
  }

  /** The callback's effect on the dictionary, case by case. */
  lemma AddWeeklyCases(dates: seq<string>, buckets: seq<WeekBucket>, r: AttendanceRecord, active: seq<Employee>)
    requires |buckets| == |dates|
    ensures !CompletedByActive(r, active) ==> AddWeekly(dates, buckets, r, active) == (dates, buckets)
    ensures CompletedByActive(r, active) && r.date in dates ==>
      var j := IndexOf(dates, r.date).value;
      AddWeekly(dates, buckets, r, active) ==
        (dates, buckets[j := WeekBucket(r.date, buckets[j].hours + StoredHours(r),
                                        buckets[j].earnings + StoredHours(r) * WageOf(active, r.employeeId),
                                        buckets[j].employees + {r.employeeId})])
    ensures CompletedByActive(r, active) && r.date !in dates ==>
      AddWeekly(dates, buckets, r, active) ==
        (dates + [r.date], buckets + [WeekBucket(r.date, StoredHours(r), StoredHours(r) * WageOf(active, r.employeeId),
                                                 {r.employeeId})])
  {
    var next := AddWeekly(dates, buckets, r, active);
    if CompletedByActive(r, active) {
      assert StoredHours(r) == r.totalHours.value;
      assert WageOf(active, r.employeeId) == FindEmployee(active, r.employeeId).value.wage;
      if r.date in dates {
        var j := IndexOf(dates, r.date).value;
        assert IndexOf(dates, r.date) == Some(j);
        assert next.1[j].hours == buckets[j].hours + StoredHours(r);
        assert next.1[j].earnings == buckets[j].earnings + StoredHours(r) * WageOf(active, r.employeeId);
      } else {
        assert IndexOf(dates, r.date) == None;
        assert next.1[..|buckets|] == buckets;
        assert next.1[|buckets|].hours == StoredHours(r);
        assert next.1[|buckets|].earnings == StoredHours(r) * WageOf(active, r.employeeId);
      }
    }
  }

  lemma AddWeeklySkip(s: seq<AttendanceRecord>, r: AttendanceRecord, active: seq<Employee>,
                      dates: seq<string>, buckets: seq<WeekBucket>)
    requires WeeklyTally(s, active, dates, buckets)
    requires !CompletedByActive(r, active)
    ensures WeeklyTally(s + [r], active, dates, buckets)
  {
    var p := CompletedByActiveIn(active);
    assert KeysWhere(s + [r], p, DateOf) == dates by {
      assert !p(r);
      WhereSnoc(s, r, p, DateOf, r.date, StoredHours, EmployeeIdOf);
    }
    forall j | 0 <= j < |dates|
      ensures buckets[j] == BucketFor(s + [r], active, dates[j])
    {
      BucketForSnoc(s, r, active, dates[j]);
    }
  }

  lemma AddWeeklyExisting(s: seq<AttendanceRecord>, r: AttendanceRecord, active: seq<Employee>,
                          dates: seq<string>, buckets: seq<WeekBucket>)
    requires WeeklyTally(s, active, dates, buckets)
    requires CompletedByActive(r, active) && r.date in dates
    ensures var j := IndexOf(dates, r.date).value;
      WeeklyTally(s + [r], active, dates,
                  buckets[j := WeekBucket(r.date, buckets[j].hours + StoredHours(r),
                                          buckets[j].earnings + StoredHours(r) * WageOf(active, r.employeeId),
                                          buckets[j].employees + {r.employeeId})])
  {
    var p := CompletedByActiveIn(active);
    assert KeysWhere(s + [r], p, DateOf) == dates by {
      assert p(r);
      WhereSnoc(s, r, p, DateOf, r.date, StoredHours, EmployeeIdOf);
    }
    var j := IndexOf(dates, r.date).value;
    var b := buckets[j];
    var b' := WeekBucket(r.date, b.hours + StoredHours(r), b.earnings + StoredHours(r) * WageOf(active, r.employeeId),
                         b.employees + {r.employeeId});
    assert b' == BucketFor(s + [r], active, r.date) by {
      BucketForSnoc(s, r, active, r.date);
    }
    var buckets' := buckets[j := b'];
    forall i | 0 <= i < |dates|
      ensures buckets'[i] == BucketFor(s + [r], active, dates[i])
    {
      if i != j {
        KeysWhereMeaning(s, p, DateOf);
        assert dates[i] != r.date;
        BucketForSnoc(s, r, active, dates[i]);
      }
    }
  }

  lemma AddWeeklyNew(s: seq<AttendanceRecord>, r: AttendanceRecord, active: seq<Employee>,
                     dates: seq<string>, buckets: seq<WeekBucket>)
    requires WeeklyTally(s, active, dates, buckets)
    requires CompletedByActive(r, active) && r.date !in dates
    ensures WeeklyTally(s + [r], active, dates + [r.date],
                        buckets + [WeekBucket(r.date, StoredHours(r), StoredHours(r) * WageOf(active, r.employeeId), {r.employeeId})])
  {
    var p := CompletedByActiveIn(active);
    assert p(r);
    WhereSnoc(s, r, p, DateOf, r.date, StoredHours, EmployeeIdOf);
    BucketForSnoc(s, r, active, r.date);
    UnlistedBucket(s, active, r.date);
    forall i | 0 <= i < |dates|
      ensures buckets[i] == BucketFor(s + [r], active, dates[i])
    {
      BucketForSnoc(s, r, active, dates[i]);
    }
  }

  /** The loop over the week's records building the per-date dictionary. */
  method AccumulateWeekly(rs: seq<AttendanceRecord>, active: seq<Employee>) returns (buckets: seq<WeekBucket>)
    ensures buckets == WeeklyBuckets(rs, active)
  {
    var dates: seq<string> := [];
    buckets := [];
    for i := 0 to |rs|
      invariant WeeklyTally(rs[..i], active, dates, buckets)
    {
      AddWeeklyStep(rs[..i], rs[i], active, dates, buckets);
      assert rs[..i + 1] == rs[..i] + [rs[i]];
      var next := AddWeekly(dates, buckets, rs[i], active);
      dates, buckets := next.0, next.1;
    }
    assert rs[..|rs|] == rs;
  }

  /** How one more record changes a date's bucket: only a counted record of
      that date changes it, adding its hours, its earnings and its employee. */
  lemma BucketForSnoc(s: seq<AttendanceRecord>, x: AttendanceRecord, active: seq<Employee>, d: DateKey)
    ensures BucketFor(s + [x], active, d) ==
      if CompletedByActive(x, active) && x.date == d then
        WeekBucket(d, BucketFor(s, active, d).hours + StoredHours(x),
                   BucketFor(s, active, d).earnings + StoredHours(x) * WageOf(active, x.employeeId),
                   BucketFor(s, active, d).employees + {x.employeeId})
      else BucketFor(s, active, d)
  {
    var p := CompletedByActiveIn(active);
    var counted := CompletedByActive(x, active) && x.date == d;
    assert p(x) == CompletedByActive(x, active);
    var b, b' := BucketFor(s, active, d), BucketFor(s + [x], active, d);
    assert b'.hours == b.hours + (if counted then StoredHours(x) else 0.0) by {
      WhereSnoc(s, x, p, DateOf, d, StoredHours, EmployeeIdOf);
    }
    assert b'.earnings == b.earnings + (if counted then StoredHours(x) * WageOf(active, x.employeeId) else 0.0) by {
      assert EarningsIn(active)(x) == StoredHours(x) * WageOf(active, x.employeeId);
      WhereSnoc(s, x, p, DateOf, d, EarningsIn(active), EmployeeIdOf);
    }
    assert b'.employees == b.employees + (if counted then {x.employeeId} else {}) by {
      WhereSnoc(s, x, p, DateOf, d, StoredHours, EmployeeIdOf);
    }
  }

  /** A date no counted record carries has an empty bucket. */
  lemma UnlistedBucket(s: seq<AttendanceRecord>, active: seq<Employee>, d: DateKey)
    requires d !in KeysWhere(s, CompletedByActiveIn(active), DateOf)
    ensures BucketFor(s, active, d) == WeekBucket(d, 0.0, 0.0, {})
  {
    var p := CompletedByActiveIn(active);
    UnlistedKey(s, p, DateOf, d, StoredHours, EmployeeIdOf);
    UnlistedKey(s, p, DateOf, d, EarningsIn(active), EmployeeIdOf);
  }

  /** One row of the weekly chart. */
  datatype WeeklyHours = WeeklyHours(date: DateKey, totalHours: real, totalEarnings: real, employeeCount: nat)

  function WeeklyRow(b: WeekBucket): WeeklyHours
  {
    WeeklyHours(b.date, Round2(b.hours), Round2(b.earnings), |b.employees|)
  }

  function WeeklyRows(bs: seq<WeekBucket>): (rows: seq<WeeklyHours>)
    ensures |rows| == |bs|
    ensures forall j :: 0 <= j < |bs| ==> rows[j] == WeeklyRow(bs[j])
  {
    seq(|bs|, j requires 0 <= j < |bs| => WeeklyRow(bs[j]))
  }

  /** Each date appears once; each row counts at least one and at most as
      many employees as the date has counted records, every one of them an
      active employee with a completed record that day; its values are on
      the hundredths grid. */
  lemma WeeklyRowsMeaning(rs: seq<AttendanceRecord>, active: seq<Employee>)
    ensures var rows := WeeklyRows(WeeklyBuckets(rs, active));
      && (forall i, j :: 0 <= i < j < |rows| ==> rows[i].date != rows[j].date)
      && (forall j :: 0 <= j < |rows| ==>
            && 1 <= rows[j].employeeCount <= CountWhere(rs, CompletedByActiveIn(active), DateOf, rows[j].date)
            && IsHundredths(rows[j].totalHours) && IsHundredths(rows[j].totalEarnings))
      && (forall j, d :: 0 <= j < |rows| && d in WeeklyBuckets(rs, active)[j].employees ==>
            exists i :: 0 <= i < |rs| && rs[i].employeeId == d && rs[i].date == rows[j].date &&
                        Truthy(rs[i].totalHours) && FindEmployee(active, d).Some?)
  {
    var p := CompletedByActiveIn(active);
    var ks := KeysWhere(rs, p, DateOf);
    KeysWhereMeaning(rs, p, DateOf);
    forall j | 0 <= j < |ks|
      ensures 1 <= |IdsWhere(rs, p, DateOf, ks[j], EmployeeIdOf)| <= CountWhere(rs, p, DateOf, ks[j])
    {
      IdsWhereBound(rs, p, DateOf, ks[j], EmployeeIdOf);
      assert ks[j] in ks;
      var i :| 0 <= i < |rs| && p(rs[i]) && DateOf(rs[i]) == ks[j];
      IdsWhereMembers(rs, p, DateOf, ks[j], EmployeeIdOf);
      assert rs[i].employeeId in IdsWhere(rs, p, DateOf, ks[j], EmployeeIdOf);
    }
    forall j | 0 <= j < |ks| {
      IdsWhereMembers(rs, p, DateOf, ks[j], EmployeeIdOf);
    }
  }

  /** The week's totals: the rounded row values summed and rounded again. */
  function WeeklyTotals(rows: seq<WeeklyHours>): (totals: (real, real))
    ensures IsHundredths(totals.0) && IsHundredths(totals.1)
    ensures SumOf(rows, (w: WeeklyHours) => w.totalHours) - 0.005 < totals.0 <= SumOf(rows, (w: WeeklyHours) => w.totalHours) + 0.005
    ensures SumOf(rows, (w: WeeklyHours) => w.totalEarnings) - 0.005 < totals.1 <= SumOf(rows, (w: WeeklyHours) => w.totalEarnings) + 0.005
  {
    (Round2(SumOf(rows, (w: WeeklyHours) => w.totalHours)), Round2(SumOf(rows, (w: WeeklyHours) => w.totalEarnings)))
  }

  // ---------------------------------------------------------------------
  // Hours and minutes

  function WholeHours(h: real): int
  {
    h.Floor
  }

  /** `Math.round((h - hours) * 60)`. */
  function Minutes(h: real): int
  {
    ((h - h.Floor as real) * 60.0 + 0.5).Floor
  }

  /** `formatHoursMinutes`. */
  function FormatHoursMinutes(h: real): string
  {
    if WholeHours(h) == 0 then IntToString(Minutes(h)) + "m"
    else if Minutes(h) == 0 then IntToString(WholeHours(h)) + "h"
    else IntToString(WholeHours(h)) + "h " + IntToString(Minutes(h)) + "m"
  }

  /** The display shows `h` rounded to the nearest minute, split into whole
      hours and minutes; for a non-negative value on the hundredths grid the
      minutes are between 0 and 59. */
  lemma FormatHoursMinutesSplit(h: real)
    ensures WholeHours(h) * 60 + Minutes(h) == (h * 60.0 + 0.5).Floor
    ensures h >= 0.0 && IsHundredths(h) ==> 0 <= Minutes(h) <= 59
    ensures h >= 0.0 && IsHundredths(h) && WholeHours(h) != 0 && Minutes(h) != 0 ==>
      FormatHoursMinutes(h) == NatToString(WholeHours(h)) + "h " + NatToString(Minutes(h)) + "m"
  {
    var n := h.Floor;
    var frac := h - n as real;
    assert 0.0 <= frac < 1.0;
    var m := (frac * 60.0 + 0.5).Floor;
    assert h * 60.0 + 0.5 == (n * 60) as real + (frac * 60.0 + 0.5);
    assert (h * 60.0 + 0.5).Floor == n * 60 + m;
    if h >= 0.0 && IsHundredths(h) {
      var c := (h * 100.0).Floor;
      assert c as real == h * 100.0;
      var k := c - n * 100;
      assert frac * 100.0 == k as real;
      assert 0 <= k <= 99;
      assert frac * 60.0 + 0.5 <= 59.9;
      assert m >= 0;
    }
  }

  // ---------------------------------------------------------------------
  // Only active employees count

  /** Some employee of the list with that id is active. */
  predicate ActiveIn(employees: seq<Employee>, id: string)
  {
    exists i :: 0 <= i < |employees| && employees[i].id == id && employees[i].isActive
  }

  /** An id finds an employee in the active list exactly when an employee of
      the full list with that id is active. */
  lemma {:induction false} FindActive(employees: seq<Employee>, id: string)
    ensures FindEmployee(Filter(employees, Active), id).Some? <==> ActiveIn(employees, id)
  {
    var active := Filter(employees, Active);
    if i :| 0 <= i < |employees| && employees[i].id == id && employees[i].isActive {
      assert employees[i] in active;
    }
    if FindEmployee(active, id).Some? {
      var e := FindEmployee(active, id).value;
      assert e in active && e.id == id;
      assert e in employees && Active(e);
    }
  }

  /** A record of an employee with no active entry in the list neither adds
      to today's dictionary nor to the week's buckets. */
  lemma {:induction false} InactiveRecordIgnored(employees: seq<Employee>, rs: seq<AttendanceRecord>,
                                                 r: AttendanceRecord, now: Millis)
    requires !ActiveIn(employees, r.employeeId)
    ensures TodayEntries(rs + [r], Filter(employees, Active), now) == TodayEntries(rs, Filter(employees, Active), now)
    ensures WeeklyBuckets(rs + [r], Filter(employees, Active)) == WeeklyBuckets(rs, Filter(employees, Active))
  {
    var active := Filter(employees, Active);
    FindActive(employees, r.employeeId);
    assert !Contributes(r, active, now) && !CompletedByActive(r, active);
    var p, q := ContributesAt(active, now), CompletedByActiveIn(active);
    assert !p(r) && !q(r);
    WhereSnoc(rs, r, p, EmployeeIdOf, "", HoursAt(now), EmployeeIdOf);
    WhereSnoc(rs, r, q, DateOf, "", StoredHours, EmployeeIdOf);
    var es, es' := TodayEntries(rs, active, now), TodayEntries(rs + [r], active, now);
    forall j | 0 <= j < |es|
      ensures es'[j] == es[j]
    {
      EntryForSnoc(rs, r, active, now, KeysWhere(rs, p, EmployeeIdOf)[j]);
    }
    var bs, bs' := WeeklyBuckets(rs, active), WeeklyBuckets(rs + [r], active);
    forall j | 0 <= j < |bs|
      ensures bs'[j] == bs[j]
    {
      BucketForSnoc(rs, r, active, KeysWhere(rs, q, DateOf)[j]);
    }
  }

  /** Every employee with an entry today is an active employee of the full
      list. */
  lemma {:induction false} TodayEntriesActive(employees: seq<Employee>, todayData: seq<AttendanceRecord>, now: Millis)
    ensures var es := TodayEntries(todayData, Filter(employees, Active), now);
      forall j :: 0 <= j < |es| ==> ActiveIn(employees, es[j].employeeId)
  {
    var active := Filter(employees, Active);
    var es := TodayEntries(todayData, active, now);
    TodayEntriesMeaning(todayData, active, now);
    forall j | 0 <= j < |es|
      ensures ActiveIn(employees, es[j].employeeId)
    {
      var k :| 0 <= k < |todayData| && todayData[k].employeeId == es[j].employeeId && Contributes(todayData[k], active, now);
      FindActive(employees, es[j].employeeId);
    }
  }

  /** Every employee a weekly bucket counts is an active employee of the
      full list. */
  lemma {:induction false} WeekBucketsActive(employees: seq<Employee>, weeklyRecords: seq<AttendanceRecord>)
    ensures var bs := WeeklyBuckets(weeklyRecords, Filter(employees, Active));
      forall j, d :: 0 <= j < |bs| && d in bs[j].employees ==> ActiveIn(employees, d)
  {
    var active := Filter(employees, Active);
    var bs := WeeklyBuckets(weeklyRecords, active);
    WeeklyRowsMeaning(weeklyRecords, active);
    forall j, d | 0 <= j < |bs| && d in bs[j].employees
      ensures ActiveIn(employees, d)
    {
      FindActive(employees, d);
    }
  }

  /** Every row of today's list belongs to an active employee of the full
      list. */
  lemma {:induction false} TodayRowsActive(employees: seq<Employee>, todayData: seq<AttendanceRecord>, now: Millis)
    ensures var rows := TodayHoursList(TodayEntries(todayData, Filter(employees, Active), now));
      forall j :: 0 <= j < |rows| ==> ActiveIn(employees, rows[j].employeeId)
  {
    var entries := TodayEntries(todayData, Filter(employees, Active), now);
    var rows := TodayHoursList(entries);
    TodayEntriesActive(employees, todayData, now);
    forall j | 0 <= j < |rows|
      ensures ActiveIn(employees, rows[j].employeeId)
    {
      assert rows[j] in rows;
      var k :| 0 <= k < |entries| && rows[j] == Rounded(entries[k]);
      assert rows[j].employeeId == entries[k].employeeId;
    }
  }

  // ---------------------------------------------------------------------
  // The page's load

  /** Everything `loadAnalytics` sets: the active employees, the role chart,
      the clocked-in count, today's rows and totals, the week's rows and
      totals. */
  datatype AnalyticsView = AnalyticsView(
    employees: seq<Employee>,
    roleDistribution: seq<RoleShare>,
    totalClockedIn: nat,
    todayHoursByEmployee: seq<TodayHours>,
    todayTotalHours: real,
    todayTotalEarnings: real,
    weeklyData: seq<WeeklyHours>,
    weeklyTotalHours: real,
    weeklyTotalEarnings: real)

  /** `loadAnalytics` over the store's employees and records: the employee
      list is filtered to the active ones, today's records are those dated
      `today`, and the week's records those from `weekAgo` to `today`. */
  method LoadAnalytics(employeesData: seq<Employee>, records: seq<AttendanceRecord>, now: Millis,
                       today: DateKey, weekAgo: DateKey) returns (view: AnalyticsView)
    ensures view.employees == Filter(employeesData, Active)
    ensures view.roleDistribution == RoleDistribution(employeesData)
    ensures TotalCount(view.roleDistribution) == |view.employees|
    ensures var todayData := TodayAttendance(records, today);
      view.totalClockedIn == |set i | 0 <= i < |todayData| && IsOpen(todayData[i])|
    ensures view.todayHoursByEmployee ==
      TodayHoursList(TodayEntries(TodayAttendance(records, today), Filter(employeesData, Active), now))
    ensures forall j :: 0 <= j < |view.todayHoursByEmployee| ==>
      ActiveIn(employeesData, view.todayHoursByEmployee[j].employeeId)
    ensures (view.todayTotalHours, view.todayTotalEarnings) == TodayTotals(view.todayHoursByEmployee)
    ensures view.weeklyData ==
      WeeklyRows(WeeklyBuckets(AttendanceRecords(records, weekAgo, today), Filter(employeesData, Active)))
    ensures (view.weeklyTotalHours, view.weeklyTotalEarnings) == WeeklyTotals(view.weeklyData)
  {
    var activeEmployees := Filter(employeesData, Active);
    var roleDist := CountRoles(employeesData);
    RoleDistributionTotal(employeesData);
    var todayData := TodayAttendance(records, today);
    var clockedIn := OpenSessions(todayData);
    var entries := AccumulateTodayHours(todayData, activeEmployees, now);
    var todayHoursList := TodayHoursList(entries);
    TodayRowsActive(employeesData, todayData, now);
    var weeklyRecords := AttendanceRecords(records, weekAgo, today);
    var todayTotals := TodayTotals(todayHoursList);
    var buckets := AccumulateWeekly(weeklyRecords, activeEmployees);
    var weeklyDataList := WeeklyRows(buckets);
    var weeklyTotals := WeeklyTotals(weeklyDataList);
    view := AnalyticsView(activeEmployees, roleDist, clockedIn, todayHoursList, todayTotals.0, todayTotals.1,
                          weeklyDataList, weeklyTotals.0, weeklyTotals.1);
  }
}
