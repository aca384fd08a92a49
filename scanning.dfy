/** The scan handlers of the scanner page (app/scanner/page.tsx) and of the
    home page (app/page.tsx): a re-entrancy guard, the token lookup and the
    check-in/check-out toggle with its status transitions. Both pages run
    the same state machine; they differ only in the not-found message and in
    whether the previous scan result is cleared when a scan starts, so one
    class with a `kind` covers both. Camera control, `localStorage` and the
    delayed redirect or rescan are not part of this model. */
module Scanning {
  import opened Types
  import opened Attendance
  import opened Employees

  datatype PageKind = ScannerPage | HomePage

  datatype ScanStatus = Idle | Scanning | Processing | Succeeded | Failed

  datatype ScanKind = CheckInScan | CheckOutScan

  datatype ScanResult = ScanResult(kind: ScanKind, employee: Employee, message: string)

  /** The message an unknown token is reported with on each page. */
  function NotFoundMessage(page: PageKind): string
  {
    match page
    case ScannerPage => "Employee not found. Please check your QR code."
    case HomePage => "Employee not found."
  }

  const InactiveMessage: string := "Employee account is inactive."

  /** The result shown after a successful scan. */
  function SuccessResult(wasCheckedIn: bool, e: Employee): (r: ScanResult)
    ensures r.kind == CheckOutScan <==> wasCheckedIn
    ensures r.employee == e
  {
    if wasCheckedIn then ScanResult(CheckOutScan, e, "Checked out successfully! Have a great day, " + e.name + "!")
    else ScanResult(CheckInScan, e, "Checked in successfully! Welcome, " + e.name + "!")
  }

  /** One scanning page, holding the directory and the ledger it works on. */
  class ScanPage {
    const page: PageKind
    const directory: EmployeeDirectory
    const ledger: AttendanceLedger
    var processing: bool
    var status: ScanStatus
    var scanResult: Option<ScanResult>
    var error: string
    var isCheckedIn: Option<bool>

    constructor (page: PageKind, directory: EmployeeDirectory, ledger: AttendanceLedger)
      ensures this.page == page && this.directory == directory && this.ledger == ledger
      ensures !processing && status == Idle && scanResult == None && error == "" && isCheckedIn == None
    {
      this.page := page;
      this.directory := directory;
      this.ledger := ledger;
      processing := false;
      status := Idle;
      scanResult := None;
      error := "";
      isCheckedIn := None;
    }

    /** The synchronous head of `onScanSuccess`: a scan that arrives while
        another is being processed is ignored; otherwise the page enters
        the processing state. */
    method Begin() returns (accepted: bool)
      modifies this
      ensures accepted <==> !old(processing)
      ensures !accepted ==> status == old(status) && scanResult == old(scanResult) && error == old(error)
                            && isCheckedIn == old(isCheckedIn) && processing
      ensures accepted ==> processing && status == Processing && error == "" && isCheckedIn == old(isCheckedIn)
      ensures accepted ==> scanResult == if page == ScannerPage then None else old(scanResult)
    {
      if processing {
        return false;
      }
      processing := true;
      status := Processing;
      error := "";
      if page == ScannerPage {
        scanResult := None;
      }
      accepted := true;
    }

    /** The rest of `onScanSuccess`, once the guard has let the scan in:
        the token is looked up, unknown and inactive employees are refused
        without any attendance write, and otherwise exactly one of
        check-out (when checked in today) and check-in is made. Both paths
        clear the processing flag. */
    method Complete(token: string, docId: string, now: Millis, today: DateKey)
      modifies this, ledger
      ensures !processing
      ensures var found := EmployeeByQRCode(directory.docs, token);
        && (found.None? ==>
              status == Failed && error == NotFoundMessage(page) && ledger.records == old(ledger.records)
              && scanResult == old(scanResult) && isCheckedIn == old(isCheckedIn))
        && (found.Some? && !found.value.isActive ==>
              status == Failed && error == InactiveMessage && ledger.records == old(ledger.records)
              && scanResult == old(scanResult) && isCheckedIn == old(isCheckedIn))
        && (found.Some? && found.value.isActive ==>
              var e := found.value;
              var wasIn := IsCheckedIn(old(ledger.records), e.id, today);
              && status == Succeeded && error == old(error)
              && scanResult == Some(SuccessResult(wasIn, e))
              && isCheckedIn == Some(!wasIn)
              && (wasIn ==> ledger.records == CheckOutResult(old(ledger.records), e.id, now, today).value)
              && (!wasIn ==> ledger.records == CheckInResult(old(ledger.records), e.id, e.name, docId, now, today).value)
              && (OneOpenPerDay(old(ledger.records)) ==>
                    OneOpenPerDay(ledger.records) && IsCheckedIn(ledger.records, e.id, today) == !wasIn))
    {
      var found := EmployeeByQRCode(directory.docs, token);
      if found.None? {
        error := NotFoundMessage(page);
        status := Failed;
        processing := false;
        return;
      }
      var e := found.value;
      if !e.isActive {
        error := InactiveMessage;
        status := Failed;
        processing := false;
        return;
      }
      Toggle(e, docId, now, today);
    }

    /** The toggle for an active employee found by the scan: check out when
        checked in today, otherwise check in, then report the result. */
    method Toggle(e: Employee, docId: string, now: Millis, today: DateKey)
      modifies this, ledger
      ensures var wasIn := IsCheckedIn(old(ledger.records), e.id, today);
        && status == Succeeded && error == old(error) && !processing
        && scanResult == Some(SuccessResult(wasIn, e))
        && isCheckedIn == Some(!wasIn)
        && (wasIn ==> ledger.records == CheckOutResult(old(ledger.records), e.id, now, today).value)
        && (!wasIn ==> ledger.records == CheckInResult(old(ledger.records), e.id, e.name, docId, now, today).value)
        && (OneOpenPerDay(old(ledger.records)) ==>
              OneOpenPerDay(ledger.records) && IsCheckedIn(ledger.records, e.id, today) == !wasIn)
    {
      var wasIn := IsCheckedIn(ledger.records, e.id, today);
      if wasIn {
        if OneOpenPerDay(ledger.records) {
          CheckOutClosesSession(ledger.records, e.id, now, today);
        }
        var outcome := ledger.CheckOut(e.id, now, today);
        assert outcome == Pass;
      } else {
        var outcome := ledger.CheckIn(e.id, e.name, docId, now, today);
        assert outcome == Success(docId);
        CheckInOpensSession(old(ledger.records), e.id, e.name, docId, now, today);
      }
      scanResult := Some(SuccessResult(wasIn, e));
      isCheckedIn := Some(!wasIn);
      status := Succeeded;
      processing := false;
    }

    /** `onScanSuccess` as a whole, when nothing else runs between its steps. */
    method OnScanSuccess(token: string, docId: string, now: Millis, today: DateKey)
      modifies this, ledger
      ensures old(processing) ==> status == old(status) && scanResult == old(scanResult) && error == old(error)
                                  && isCheckedIn == old(isCheckedIn) && processing
                                  && ledger.records == old(ledger.records)
      ensures !old(processing) ==> !processing
      ensures !old(processing) ==> var found := EmployeeByQRCode(directory.docs, token);
        && (found.None? ==> status == Failed && error == NotFoundMessage(page) && ledger.records == old(ledger.records))
        && (found.Some? && !found.value.isActive ==>
              status == Failed && error == InactiveMessage && ledger.records == old(ledger.records))
        && (found.Some? && found.value.isActive ==>
              var e := found.value;
              var wasIn := IsCheckedIn(old(ledger.records), e.id, today);
              && status == Succeeded && error == ""
              && scanResult == Some(SuccessResult(wasIn, e))
              && isCheckedIn == Some(!wasIn)
              && (wasIn ==> ledger.records == CheckOutResult(old(ledger.records), e.id, now, today).value)
              && (!wasIn ==> ledger.records == CheckInResult(old(ledger.records), e.id, e.name, docId, now, today).value)
              && (OneOpenPerDay(old(ledger.records)) ==>
                    OneOpenPerDay(ledger.records) && IsCheckedIn(ledger.records, e.id, today) == !wasIn))
      ensures !old(processing) && page == ScannerPage && status == Failed ==> scanResult == None
      ensures !old(processing) && status == Failed ==>
                isCheckedIn == old(isCheckedIn) && (page == HomePage ==> scanResult == old(scanResult))
    {
      var accepted := Begin();
      if accepted {
        Complete(token, docId, now, today);
      }
    }
  }
}
