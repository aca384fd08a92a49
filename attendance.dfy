/** The attendance ledger (lib/firebase/attendance.ts): the collection of
    sessions, the check-in and check-out writes that change it, and the
    read-only queries over it. "Today" and "now" are parameters. */
module Attendance {
  import opened Types
  import opened Rounding
  import opened Text
  import opened Sequences

  datatype AttendanceError = AlreadyCheckedIn | NoActiveCheckIn

  /** The message each failure is raised with. */
  function ErrorMessage(e: AttendanceError): string
  {
    match e
    case AlreadyCheckedIn => "Employee already checked in today"
    case NoActiveCheckIn => "No active check-in found for today"
  }

  /** `r` is an open session of `employeeId` dated `today`. */
  predicate OpenFor(r: AttendanceRecord, employeeId: string, today: DateKey)
  {
    r.employeeId == employeeId && r.date == today && IsOpen(r)
  }

  /** The position of the first open session of `employeeId` dated `today`:
      the document `find(doc => !doc.data().checkOut)` returns. */
  function FirstOpen(rs: seq<AttendanceRecord>, employeeId: string, today: DateKey): (r: Option<nat>)
    ensures r.None? <==> forall i :: 0 <= i < |rs| ==> !OpenFor(rs[i], employeeId, today)
    ensures r.Some? ==> r.value < |rs| && OpenFor(rs[r.value], employeeId, today)
    ensures r.Some? ==> forall i :: 0 <= i < r.value ==> !OpenFor(rs[i], employeeId, today)
  {
    if rs == [] then None
    else if OpenFor(rs[0], employeeId, today) then Some(0)
    else match FirstOpen(rs[1..], employeeId, today)
      case None => None
      case Some(k) => Some(k + 1)
  }

  /** `isEmployeeCheckedIn`: some session of the employee dated today is open. */
  predicate IsCheckedIn(rs: seq<AttendanceRecord>, employeeId: string, today: DateKey)
  {
    FirstOpen(rs, employeeId, today).Some?
  }

  /** The session `checkInEmployee` writes. */
  function OpenRecord(docId: string, employeeId: string, employeeName: string, now: Millis, today: DateKey): AttendanceRecord
  {
    AttendanceRecord(docId, employeeId, employeeName, now, None, today, None)
  }

  /** A session after `checkOutEmployee` has closed it at `now`. */
  function Closed(r: AttendanceRecord, now: Millis): AttendanceRecord
  {
    r.(checkOut := Some(now), totalHours := Some(Round2(HoursBetween(r.checkIn, now))))
  }

  /** For every employee and day, at most one session is open. */
  ghost predicate OneOpenPerDay(rs: seq<AttendanceRecord>)
  {
    forall i, j :: 0 <= i < j < |rs| && IsOpen(rs[i]) && IsOpen(rs[j]) ==>
      rs[i].employeeId != rs[j].employeeId || rs[i].date != rs[j].date
  }

  /** The ledger `checkInEmployee` leaves behind, or the error it throws. */
  function CheckInResult(rs: seq<AttendanceRecord>, employeeId: string, employeeName: string,
                         docId: string, now: Millis, today: DateKey): (r: Result<seq<AttendanceRecord>, AttendanceError>)
    ensures r.Failure? <==> exists i :: 0 <= i < |rs| && OpenFor(rs[i], employeeId, today)
    ensures r.Failure? ==> r.error == AlreadyCheckedIn
    ensures r.Success? ==> r.value == rs + [OpenRecord(docId, employeeId, employeeName, now, today)]
  {
    if IsCheckedIn(rs, employeeId, today) then Failure(AlreadyCheckedIn)
    else Success(rs + [OpenRecord(docId, employeeId, employeeName, now, today)])
  }

  /** The ledger `checkOutEmployee` leaves behind, or the error it throws:
      only the first open session of the employee dated today changes. */
  function CheckOutResult(rs: seq<AttendanceRecord>, employeeId: string, now: Millis, today: DateKey)
    : (r: Result<seq<AttendanceRecord>, AttendanceError>)
    ensures r.Failure? <==> forall i :: 0 <= i < |rs| ==> !OpenFor(rs[i], employeeId, today)
    ensures r.Failure? ==> r.error == NoActiveCheckIn
    ensures r.Success? ==> |r.value| == |rs|
    ensures r.Success? ==> exists i :: (0 <= i < |rs| && OpenFor(rs[i], employeeId, today) &&
                                        (forall k :: 0 <= k < i ==> !OpenFor(rs[k], employeeId, today)) &&
                                        r.value[i] == Closed(rs[i], now) &&
                                        (forall k :: 0 <= k < |rs| && k != i ==> r.value[k] == rs[k]))
  {
    match FirstOpen(rs, employeeId, today)
    case None => Failure(NoActiveCheckIn)
    case Some(i) => Success(rs[i := Closed(rs[i], now)])
  }

  /** A successful check-in keeps at most one open session per employee and day. */
  lemma CheckInKeepsOneOpen(rs: seq<AttendanceRecord>, employeeId: string, employeeName: string,
                            docId: string, now: Millis, today: DateKey)
    requires OneOpenPerDay(rs)
    requires CheckInResult(rs, employeeId, employeeName, docId, now, today).Success?
    ensures OneOpenPerDay(CheckInResult(rs, employeeId, employeeName, docId, now, today).value)
  {
    var rs' := CheckInResult(rs, employeeId, employeeName, docId, now, today).value;
    forall i, j | 0 <= i < j < |rs'| && IsOpen(rs'[i]) && IsOpen(rs'[j])
      ensures rs'[i].employeeId != rs'[j].employeeId || rs'[i].date != rs'[j].date
    {
      if j == |rs| {
        assert !OpenFor(rs[i], employeeId, today);
      }
    }
  }

  /** A successful check-out keeps at most one open session per employee and day. */
  lemma CheckOutKeepsOneOpen(rs: seq<AttendanceRecord>, employeeId: string, now: Millis, today: DateKey)
    requires OneOpenPerDay(rs)
    requires CheckOutResult(rs, employeeId, now, today).Success?
    ensures OneOpenPerDay(CheckOutResult(rs, employeeId, now, today).value)
  {
    var i := FirstOpen(rs, employeeId, today).value;
    var rs' := rs[i := Closed(rs[i], now)];
    assert CheckOutResult(rs, employeeId, now, today).value == rs';
    forall a, b | 0 <= a < b < |rs'| && IsOpen(rs'[a]) && IsOpen(rs'[b])
      ensures rs'[a].employeeId != rs'[b].employeeId || rs'[a].date != rs'[b].date
    {
      assert rs'[a] == rs[a] && rs'[b] == rs[b];
    }
  }

  /** After a successful check-in the employee counts as checked in. */
  lemma CheckInOpensSession(rs: seq<AttendanceRecord>, employeeId: string, employeeName: string,
                            docId: string, now: Millis, today: DateKey)
    requires CheckInResult(rs, employeeId, employeeName, docId, now, today).Success?
    ensures IsCheckedIn(CheckInResult(rs, employeeId, employeeName, docId, now, today).value, employeeId, today)
  {
    var rs' := CheckInResult(rs, employeeId, employeeName, docId, now, today).value;
    assert OpenFor(rs'[|rs|], employeeId, today);
  }

  /** With at most one open session per employee and day, a successful
      check-out leaves the employee checked out: scans really toggle. */
  lemma CheckOutClosesSession(rs: seq<AttendanceRecord>, employeeId: string, now: Millis, today: DateKey)
    requires OneOpenPerDay(rs)
    requires CheckOutResult(rs, employeeId, now, today).Success?
    ensures !IsCheckedIn(CheckOutResult(rs, employeeId, now, today).value, employeeId, today)
  {
    var i := FirstOpen(rs, employeeId, today).value;
    var rs' := rs[i := Closed(rs[i], now)];
    assert CheckOutResult(rs, employeeId, now, today).value == rs';
    forall k | 0 <= k < |rs'|
      ensures !OpenFor(rs'[k], employeeId, today)
    {
      if k > i {
        assert IsOpen(rs[i]) && rs[k] == rs'[k];
      }
    }
  }

  /** Checking in at `checkIn` and then out at `checkOut` on the same day
      closes exactly the new session, with its hours rounded to hundredths. */
  lemma CheckInThenOut(rs: seq<AttendanceRecord>, employeeId: string, employeeName: string,
                       docId: string, checkIn: Millis, checkOut: Millis, today: DateKey)
    requires !IsCheckedIn(rs, employeeId, today)
    ensures CheckInResult(rs, employeeId, employeeName, docId, checkIn, today).Success?
    ensures var rs1 := CheckInResult(rs, employeeId, employeeName, docId, checkIn, today).value;
      var rs2 := CheckOutResult(rs1, employeeId, checkOut, today);
      && rs2.Success?
      && rs2.value == rs + [AttendanceRecord(docId, employeeId, employeeName, checkIn, Some(checkOut), today,
                                             Some(Round2(HoursBetween(checkIn, checkOut))))]
  {
    var rs1 := CheckInResult(rs, employeeId, employeeName, docId, checkIn, today).value;
    assert rs1[..|rs|] == rs;
    FirstOpenAfterAppend(rs, OpenRecord(docId, employeeId, employeeName, checkIn, today), employeeId, today);
  }

  /** Appending to a ledger with no open session for the key leaves the
      appended session as the first open one, if it is open. */
  lemma FirstOpenAfterAppend(rs: seq<AttendanceRecord>, r: AttendanceRecord, employeeId: string, today: DateKey)
    requires !IsCheckedIn(rs, employeeId, today)
    requires OpenFor(r, employeeId, today)
    ensures FirstOpen(rs + [r], employeeId, today) == Some(|rs|)
  {
    var rs' := rs + [r];
    assert forall i :: 0 <= i < |rs| ==> rs'[i] == rs[i];
    assert OpenFor(rs'[|rs|], employeeId, today);
  }

  /** One write the state machine can issue. */
  datatype LedgerOp =
    | CheckInOp(employeeId: string, employeeName: string, docId: string, now: Millis, today: DateKey)
    | CheckOutOp(employeeId: string, now: Millis, today: DateKey)

  /** The ledger after one call; a call that throws writes nothing. */
  function Apply(rs: seq<AttendanceRecord>, op: LedgerOp): seq<AttendanceRecord>
  {
    match op
    case CheckInOp(e, n, d, now, today) =>
      (match CheckInResult(rs, e, n, d, now, today)
       case Success(rs') => rs'
       case Failure(_) => rs)
    case CheckOutOp(e, now, today) =>
      (match CheckOutResult(rs, e, now, today)
       case Success(rs') => rs'
       case Failure(_) => rs)
  }

  /** The ledger after a sequence of calls made one after another. */
  function Replay(rs: seq<AttendanceRecord>, ops: seq<LedgerOp>): seq<AttendanceRecord>
    decreases |ops|
  {
    if ops == [] then rs else Replay(Apply(rs, ops[0]), ops[1..])
  }

  /** Any sequential interleaving of check-ins and check-outs keeps at most
      one open session per employee and day. */
  lemma {:induction false} ReplayKeepsOneOpen(rs: seq<AttendanceRecord>, ops: seq<LedgerOp>)
    requires OneOpenPerDay(rs)
    ensures OneOpenPerDay(Replay(rs, ops))
    decreases |ops|
  {
    if ops != [] {
      match ops[0] {
        case CheckInOp(e, n, d, now, today) =>
          if CheckInResult(rs, e, n, d, now, today).Success? {
            CheckInKeepsOneOpen(rs, e, n, d, now, today);
          }
        case CheckOutOp(e, now, today) =>
          if CheckOutResult(rs, e, now, today).Success? {
            CheckOutKeepsOneOpen(rs, e, now, today);
          }
      }
      ReplayKeepsOneOpen(Apply(rs, ops[0]), ops[1..]);
    }
  }

  /** The attendance collection. */
  class AttendanceLedger {
    var records: seq<AttendanceRecord>

    constructor (initial: seq<AttendanceRecord>)
      ensures records == initial
    {
      records := initial;
    }

    /** `checkInEmployee`: refuses while a session of the employee dated
        today is open, otherwise appends one open session. */
    method CheckIn(employeeId: string, employeeName: string, docId: string, now: Millis, today: DateKey)
      returns (res: Result<string, AttendanceError>)
      modifies this
      ensures var spec := CheckInResult(old(records), employeeId, employeeName, docId, now, today);
        && (spec.Success? ==> res == Success(docId) && records == spec.value)
        && (spec.Failure? ==> res == Failure(spec.error) && records == old(records))
      ensures OneOpenPerDay(old(records)) ==> OneOpenPerDay(records)
    {
      var active := FirstOpen(records, employeeId, today);
      if active.Some? {
        return Failure(AlreadyCheckedIn);
      }
      if OneOpenPerDay(records) {
        CheckInKeepsOneOpen(records, employeeId, employeeName, docId, now, today);
      }
      records := records + [OpenRecord(docId, employeeId, employeeName, now, today)];
      res := Success(docId);
    }

    /** `checkOutEmployee`: fails when no session of the employee dated
        today is open, otherwise closes the first such session. */
    method CheckOut(employeeId: string, now: Millis, today: DateKey) returns (res: Outcome<AttendanceError>)
      modifies this
      ensures var spec := CheckOutResult(old(records), employeeId, now, today);
        && (spec.Success? ==> res == Pass && records == spec.value)
        && (spec.Failure? ==> res == Fail(spec.error) && records == old(records))
      ensures OneOpenPerDay(old(records)) ==> OneOpenPerDay(records)
    {
      var active := FirstOpen(records, employeeId, today);
      if active.None? {
        return Fail(NoActiveCheckIn);
      }
      var i := active.value;
      if OneOpenPerDay(records) {
        CheckOutKeepsOneOpen(records, employeeId, now, today);
      }
      records := records[i := Closed(records[i], now)];
      res := Pass;
    }
  }

  // ---------------------------------------------------------------------
  // Queries

  /** `getEmployeeAttendance`'s default page size. */
  const DefaultLimit: int := 30

  /** The end index of `slice(0, n)` on a sequence of length `len`. */
  function SliceEnd(len: nat, n: int): (k: nat)
    ensures k <= len
    ensures n >= 0 ==> k == if n < len then n else len
    ensures n < 0 ==> k == if len + n > 0 then len + n else 0
  {
    if n >= 0 then (if n < len then n else len)
    else if len + n > 0 then len + n else 0
  }

  /** Comparator of newest check-in first. */
  predicate NewestFirst(a: AttendanceRecord, b: AttendanceRecord)
  {
    a.checkIn > b.checkIn
  }

  /** Comparator of latest date first, then newest check-in first. */
  predicate LatestDateFirst(a: AttendanceRecord, b: AttendanceRecord)
  {
    Less(b.date, a.date) || (a.date == b.date && a.checkIn > b.checkIn)
  }

  lemma NewestFirstIsOrder()
    ensures StrictWeakOrder(NewestFirst)
  {
  }

  lemma LatestDateFirstIsOrder()
    ensures StrictWeakOrder(LatestDateFirst)
  {
    forall a: AttendanceRecord, b: AttendanceRecord | LatestDateFirst(a, b)
      ensures !LatestDateFirst(b, a)
    {
      LessAsymmetric(a.date, b.date);
      LessIrreflexive(a.date);
    }
    forall a: AttendanceRecord, b: AttendanceRecord, c: AttendanceRecord
      | !LatestDateFirst(a, b) && !LatestDateFirst(b, c)
      ensures !LatestDateFirst(a, c)
    {
      LessTotal(a.date, b.date);
      LessTotal(b.date, c.date);
      LessIrreflexive(a.date);
      if Less(a.date, b.date) && Less(b.date, c.date) {
        LessTransitive(a.date, b.date, c.date);
        LessAsymmetric(a.date, c.date);
      } else if Less(a.date, b.date) {
        LessAsymmetric(a.date, c.date);
      } else if Less(b.date, c.date) {
        LessAsymmetric(a.date, c.date);
      }
    }
  }

  /** The elements left out of a prefix of a sorted sequence sort no earlier
      than any element kept. */
  lemma PrefixIsTop<T(!new)>(s: seq<T>, before: (T, T) -> bool, n: nat, x: T, y: T)
    requires SortedBy(s, before)
    requires n <= |s|
    requires x in s && x !in s[..n] && y in s[..n]
    ensures !before(x, y)
  {
    var m :| 0 <= m < |s| && s[m] == x;
    var k :| 0 <= k < n && s[..n][k] == y;
  }

  /** The first `n` sessions newest first: drawn from the input, in order,
      and none left out is newer than one kept. */
  lemma NewestPrefix(mine: seq<AttendanceRecord>, n: nat)
    requires n <= |mine|
    ensures var top := SortBy(mine, NewestFirst)[..n];
      && (forall x :: x in top ==> x in mine)
      && multiset(top) <= multiset(mine)
      && (forall i, j :: 0 <= i < j < |top| ==> top[i].checkIn >= top[j].checkIn)
      && (forall x, y :: x in mine && x !in top && y in top ==> x.checkIn <= y.checkIn)
  {
    var sorted := SortBy(mine, NewestFirst);
    NewestFirstIsOrder();
    SortBySorted(mine, NewestFirst);
    PrefixSubMultiset(sorted, n);
    forall x | x in sorted[..n]
      ensures x in mine
    {
      SortByMembers(mine, NewestFirst, x);
    }
    forall x, y | x in mine && x !in sorted[..n] && y in sorted[..n]
      ensures x.checkIn <= y.checkIn
    {
      SortByMembers(mine, NewestFirst, x);
      PrefixIsTop(sorted, NewestFirst, n, x, y);
    }
  }

  /** `getEmployeeAttendance`: that employee's sessions, newest check-in
      first, at most `limitCount` of them. */
  function EmployeeAttendance(rs: seq<AttendanceRecord>, employeeId: string, limitCount: int)
    : (r: seq<AttendanceRecord>)
    ensures forall x :: x in r ==> x in rs && x.employeeId == employeeId
    ensures |r| == SliceEnd(|Filter(rs, (x: AttendanceRecord) => x.employeeId == employeeId)|, limitCount)
    ensures multiset(r) <= multiset(Filter(rs, (x: AttendanceRecord) => x.employeeId == employeeId))
    ensures limitCount >= 0 ==> |r| <= limitCount
    ensures forall i, j :: 0 <= i < j < |r| ==> r[i].checkIn >= r[j].checkIn
    ensures forall x, y :: x in rs && x.employeeId == employeeId && x !in r && y in r ==> x.checkIn <= y.checkIn
  {
    var mine := Filter(rs, (x: AttendanceRecord) => x.employeeId == employeeId);
    var n := SliceEnd(|mine|, limitCount);
    NewestPrefix(mine, n);
    SortBy(mine, NewestFirst)[..n]
  }

  /** `getAttendanceRecords`: exactly the sessions dated from `startDate`
      to `endDate` inclusive, latest date first, then newest check-in first. */
  function AttendanceRecords(rs: seq<AttendanceRecord>, startDate: DateKey, endDate: DateKey)
    : (r: seq<AttendanceRecord>)
    ensures forall x :: x in r <==> x in rs && AtMost(startDate, x.date) && AtMost(x.date, endDate)
    ensures |r| == |Filter(rs, (x: AttendanceRecord) => AtMost(startDate, x.date) && AtMost(x.date, endDate))|
    ensures multiset(r) == multiset(Filter(rs, (x: AttendanceRecord) => AtMost(startDate, x.date) && AtMost(x.date, endDate)))
    ensures forall i, j :: 0 <= i < j < |r| ==>
      AtMost(r[j].date, r[i].date) && (r[i].date == r[j].date ==> r[i].checkIn >= r[j].checkIn)
  {
    var inRange := Filter(rs, (x: AttendanceRecord) => AtMost(startDate, x.date) && AtMost(x.date, endDate));
    var sorted := SortBy(inRange, LatestDateFirst);
    LatestDateFirstIsOrder();
    SortBySorted(inRange, LatestDateFirst);
    assert forall x :: x in sorted <==> x in inRange by {
      forall x ensures x in sorted <==> x in inRange {
        SortByMembers(inRange, LatestDateFirst, x);
      }
    }
    assert forall i, j :: 0 <= i < j < |sorted| ==> AtMost(sorted[j].date, sorted[i].date) by {
      forall i, j | 0 <= i < j < |sorted| ensures AtMost(sorted[j].date, sorted[i].date) {
        assert !LatestDateFirst(sorted[j], sorted[i]);
        LessTotal(sorted[i].date, sorted[j].date);
      }
    }
    sorted
  }

  /** `getTodayAttendance`: exactly the sessions dated `today`, newest check-in first. */
  function TodayAttendance(rs: seq<AttendanceRecord>, today: DateKey): (r: seq<AttendanceRecord>)
    ensures forall x :: x in r <==> x in rs && x.date == today
    ensures |r| == |Filter(rs, (x: AttendanceRecord) => x.date == today)|
    ensures multiset(r) == multiset(Filter(rs, (x: AttendanceRecord) => x.date == today))
    ensures forall i, j :: 0 <= i < j < |r| ==> r[i].checkIn >= r[j].checkIn
  {
    var todays := Filter(rs, (x: AttendanceRecord) => x.date == today);
    NewestFirstIsOrder();
    SortBySorted(todays, NewestFirst);
    assert forall x :: x in SortBy(todays, NewestFirst) <==> x in todays by {
      forall x ensures x in SortBy(todays, NewestFirst) <==> x in todays {
        SortByMembers(todays, NewestFirst, x);
      }
    }
    SortBy(todays, NewestFirst)
  }

  /** Filtering the open sessions keeps one record per open position. */
  lemma OpenPositions(rs: seq<AttendanceRecord>)
    ensures |Filter(rs, IsOpen)| == |set i | 0 <= i < |rs| && IsOpen(rs[i])|
  {
    FilterCount(rs, IsOpen);
    assert Passing(rs, IsOpen) == set i | 0 <= i < |rs| && IsOpen(rs[i]);
  }

  /** The number of open sessions among `rs` (`filter(record => !record.checkOut).length`). */
  function OpenSessions(rs: seq<AttendanceRecord>): (n: nat)
    ensures n == |set i | 0 <= i < |rs| && IsOpen(rs[i])|
    ensures n <= |rs|
    ensures n == 0 <==> forall i :: 0 <= i < |rs| ==> !IsOpen(rs[i])
  {
    var open := Filter(rs, IsOpen);
    OpenPositions(rs);
    assert forall i :: 0 <= i < |rs| && IsOpen(rs[i]) ==> rs[i] in open;
    assert |open| > 0 ==> open[0] in open;
    |open|
  }
}
