# Employee time and attendance, modelled in Dafny

This project models the core of a restaurant's time-and-attendance web app.
Employees are kept in an `employees` document collection, and each holds a QR
token. A scan of the token on the scanner page (or on the home page) checks the
employee in or out. Each session is stored as a record in an `attendance`
collection. Admins manage employees on an employees page, and they read
statistics on a dashboard and an analytics page.

The model is split into one module per concern:

- `Types` holds the record shapes of `types/employee.ts` and the closed set of
  roles. It also holds small `Option`/`Result`/`Outcome` wrappers.
- `Employees` models the directory of `lib/firebase/employees.ts`. Documents
  are stored with optional fields and converted on read. The class
  `EmployeeDirectory` holds the collection and has create, update, soft-delete,
  toggle and hard-delete methods.
- `Attendance` models the ledger of `lib/firebase/attendance.ts`. The class
  `AttendanceLedger` holds the records and has check-in/check-out methods,
  specified by result functions. The queries are functions. The main invariant
  is "at most one open session per employee and day" (`OneOpenPerDay`).
- `Scanning` models the scan handlers of `app/scanner/page.tsx` and
  `app/page.tsx` as one class. A constant says which page it is.
- `Dashboard` models the statistics of `app/admin/page.tsx`.
- `Analytics` models the figures of `app/admin/analytics/page.tsx`.
- `EmployeeAdmin` models the employees page `app/admin/employees/page.tsx`: the
  form schema, the search, the active/inactive split, the row actions and the
  handlers.
- `Sequences`, `Grouping`, `Text` and `Rounding` hold what the pages share:
  `filter`/`sort`/`reduce`, dictionaries keyed in order of first appearance,
  string order, lower-casing, `includes`, and `Math.round(x * 100) / 100`.

The following are parameters rather than modelled parts of the system:

- The clock: `now` in milliseconds and `today` as a `YYYY-MM-DD` key.
- The store's fresh document ids.
- The random QR tokens.
- The email checker of the form library.
- The store's error messages.

Hours and money are Dafny `real`s.

Two behaviours of the code are worth stating outright:

- A check-out with several open sessions closes the first one `find` returns
  and does not fail (lib/firebase/attendance.ts:101).
- The day key is the UTC date that `toISOString().split('T')[0]` gives, not
  the local date (lib/firebase/attendance.ts:44, 60, 91, 155).

## Model

| member | source | states |
|---|---|---|
| Types.ParseRole | types/employee.ts:1 | a string parses to a role only when it is that role's stored name |
| Types.RolesClosed | types/employee.ts:1 | the seven roles are listed once each and every role name parses back to its role |
| Types.RoleNameInjective | types/employee.ts:1 | distinct roles are stored under distinct names |
| Types.FindEmployee | app/admin/page.tsx:76 | `find` by id: none exactly when no employee has the id, otherwise the first one that has it |
| Rounding.HoursBetween | lib/firebase/attendance.ts:110 | elapsed hours times 3 600 000 equal the elapsed milliseconds, non-negative when time moves forward |
| Rounding.Round2 | lib/firebase/attendance.ts:114 | `Math.round(x * 100) / 100` lands on a whole number of hundredths within half a hundredth of `x` |
| Rounding.Round2Fixed | lib/firebase/attendance.ts:114 | a value already on the hundredths grid is unchanged by rounding |
| Rounding.Round2Idempotent | app/admin/analytics/page.tsx:216-219 | rounding a rounded total again changes nothing |
| Rounding.Round2Monotone | app/admin/analytics/page.tsx:146-147 | rounding keeps the order of two values |
| Rounding.Round2Sign | app/admin/analytics/page.tsx:146-155 | non-negative stays non-negative; a value rounds to a positive one exactly when it is at least 0.005 |
| Rounding.EarningsExample | app/admin/analytics/page.tsx:143-147 | the worked example of the code comment: 0.55818 h at 11 earns 6.14 from raw hours and 6.16 from rounded hours |
| Text.LessIrreflexive | lib/firebase/attendance.ts:147 | no date key sorts before itself |
| Text.LessTransitive | lib/firebase/attendance.ts:147 | the order of date keys is transitive |
| Text.LessTotal | lib/firebase/attendance.ts:147 | any two distinct date keys are ordered one way or the other |
| Text.LessAsymmetric | lib/firebase/attendance.ts:147 | two date keys never sort before each other |
| Text.LowerChar | app/admin/employees/page.tsx:286 | each upper-case ASCII letter becomes its own lower-case letter (code plus 32); every other character is kept |
| Text.Lower | app/admin/employees/page.tsx:286 | `toLowerCase` keeps the length, lowers each character and leaves no upper-case letter |
| Text.ContainsAt | app/admin/employees/page.tsx:286-288 | `includes` holds exactly when the needle occurs at some offset |
| Text.ContainsEmpty | app/admin/employees/page.tsx:286 | the empty search term is contained in every string |
| Text.NatToString | app/admin/analytics/page.tsx:277-282 | a number is printed as a non-empty string of decimal digits |
| Text.DigitChar | app/admin/analytics/page.tsx:277-282 | each digit prints as a character `0` to `9` |
| Text.NatToStringValue | app/admin/analytics/page.tsx:277-282 | reading the printed digits back gives the number |
| Text.IntToString | app/admin/analytics/page.tsx:277-282 | a non-negative integer prints as decimal digits that read back as the number; a negative one prints as a minus followed by digits that read back as its magnitude |
| Text.Capitalize | app/admin/analytics/page.tsx:93 | a lower-case first letter becomes its own upper-case letter (code minus 32) and the rest is kept; a string that does not start with a lower-case letter is returned unchanged |
| Sequences.Filter | app/admin/page.tsx:66 | `filter` keeps exactly the elements that pass, and never more elements than the input |
| Sequences.FilterSnoc | app/admin/page.tsx:66 | filtering one more element appends it exactly when it passes |
| Sequences.FilterAllKept | app/admin/employees/page.tsx:285-289 | a filter every element passes returns the input unchanged |
| Sequences.PartitionStep | app/admin/employees/page.tsx:291-292 | sending one more element to one side keeps the two sides a split of the input |
| Sequences.FilterPartition | app/admin/employees/page.tsx:291-292 | filtering by a predicate and by its negation splits the input: lengths add up and the multisets add up |
| Sequences.FilterPairwise | app/admin/employees/page.tsx:291-292 | a relation that holds between every earlier and later element still holds after filtering |
| Sequences.FilterCount | app/admin/page.tsx:67 | the length of a filter is the number of positions whose element passes |
| Sequences.PassingSnoc | app/admin/page.tsx:67 | one more element adds one passing position exactly when it passes |
| Sequences.PrefixSubMultiset | lib/firebase/attendance.ts:131 | a prefix holds each element at most as often as the whole sequence |
| Sequences.SumOfSnoc | app/admin/page.tsx:71 | `reduce` over one more element adds that element's value |
| Sequences.InsertBy | lib/firebase/attendance.ts:129-131 | one insertion step of the sort adds exactly that element |
| Sequences.SortBy | lib/firebase/attendance.ts:129-131 | `sort` returns a permutation of its input |
| Sequences.InsertBySorted | lib/firebase/attendance.ts:129-131 | inserting into a sorted sequence keeps it sorted when the comparator is consistent |
| Sequences.SortBySorted | lib/firebase/attendance.ts:129-131 | with a consistent comparator the sorted result is in order |
| Sequences.SortByMembers | lib/firebase/attendance.ts:129-131 | sorting neither adds nor drops an element |
| Grouping.IndexOf | app/admin/analytics/page.tsx:126 | a key is missing exactly when it is not listed, otherwise its position is returned |
| Grouping.KeysWhereMeaning | app/admin/analytics/page.tsx:88-91 | the dictionary's keys are distinct and are exactly the keys of the passing elements |
| Grouping.CountWhereSnoc | app/admin/analytics/page.tsx:90 | one more element adds one to its own key's count when it passes |
| Grouping.IdsWhereMembers | app/admin/analytics/page.tsx:187-192 | a date's id set holds exactly the ids of the passing records of that date |
| Grouping.FirstWhereMeaning | app/admin/analytics/page.tsx:130-135 | the first passing element of a key is found, or none exists |
| Grouping.CountWhereListed | app/admin/analytics/page.tsx:88-91 | a listed key counts at least one element, an unlisted key none |
| Grouping.IdsWhereBound | app/admin/analytics/page.tsx:205 | a date's distinct employees are no more than its records |
| Grouping.SumCountsStep | app/admin/analytics/page.tsx:88-91 | the counts of distinct keys over one more element grow by one exactly when that element's key is listed |
| Grouping.SumCountsTotal | app/admin/analytics/page.tsx:88-91 | the counts of all keys add up to the number of passing elements |
| Grouping.SumCountsBound | app/admin/page.tsx:93-97 | the counts of distinct keys add up to at most the passing elements, exactly when every passing key is listed |
| Grouping.WhereSnoc | app/admin/analytics/page.tsx:126-136 | how one more element extends the keys, the sums, the id sets and the first entry of each key |
| Grouping.UnlistedKey | app/admin/analytics/page.tsx:126-136 | a key no passing element carries sums to zero, has no ids and no first entry |
| Grouping.SumWhereSign | app/admin/analytics/page.tsx:125 | with only positive contributions, a listed key's sum is positive and an unlisted key's sum is zero |
| Employees.OrElse | lib/firebase/employees.ts:36 | `x \|\| fallback`: a missing or empty value falls back, otherwise the value itself |
| Employees.ConvertEmployee | lib/firebase/employees.ts:32-47 | every missing field gets its default (`''`, `'server'`, 0, active) and the id, the wage, the flag and the email are taken as stored |
| Employees.ConvertStoredRoundTrip | lib/firebase/employees.ts:32-47 | an employee stored with every field reads back unchanged, except that an empty role reads back as `server` |
| Employees.AllEmployees | lib/firebase/employees.ts:50-53 | one converted employee per document, in the order the collection is given |
| Employees.IndexOfId | lib/firebase/employees.ts:56-65 | the first document with the id, or none exactly when no document has it |
| Employees.IndexOfToken | lib/firebase/employees.ts:68-80 | the first document holding the token, or none exactly when no document holds it |
| Employees.EmployeeById | lib/firebase/employees.ts:56-65 | null exactly when no document has the id, otherwise a converted document with that id |
| Employees.EmployeeByQRCode | lib/firebase/employees.ts:68-80 | null exactly when no document holds the token, otherwise a converted document holding it |
| Employees.TokenLookupUnique | lib/firebase/employees.ts:16-19 | with unique tokens, a token finds the one document that holds it |
| Employees.CreatedReadsBack | lib/firebase/employees.ts:83-96 | a created employee reads back as the form, the new token, both timestamps and active |
| Employees.PatchFrame | lib/firebase/employees.ts:99-105 | a patch sets every field it carries to the carried value (name, role, wage, phone, address, email), keeps every other field, sets the update time, and keeps the id, the token, the creation time and the flag |
| Employees.UpdateResult | lib/firebase/employees.ts:99-105 | the update fails exactly when no document has the id; otherwise one document with the id gets the patch and every document with another id is unchanged |
| Employees.UpdateEffect | lib/firebase/employees.ts:99-105 | with unique ids, exactly the document with the id is patched and all others are unchanged; it still reads back with that id, its flag, its token and its creation time, and the update time is now |
| Employees.SetActiveResult | lib/firebase/employees.ts:108-129 | writing the flag fails exactly when no document has the id; otherwise only that document's flag and time change |
| Employees.SetActiveEffect | lib/firebase/employees.ts:123-129 | after the write the employee reads back with exactly that flag, and every other employee is unchanged |
| Employees.PermanentlyDeleted | lib/firebase/employees.ts:117-120 | exactly the documents with other ids remain; deleting a missing id changes nothing |
| Employees.DeleteKeepsUnique | lib/firebase/employees.ts:117-120 | removing the documents of one id keeps ids and tokens unique |
| Employees.SameKeysKeepUnique | lib/firebase/employees.ts:99-129 | a write that keeps every document's id and token in place keeps them unique |
| Employees.CreateKeepsUnique | lib/firebase/employees.ts:83-96 | appending a document under an unused id with an unused token keeps ids and tokens unique |
| Employees.WritesKeepUnique | lib/firebase/employees.ts:83-129 | create with an unused id and token, update, flag writes and the hard delete all keep ids and tokens unique |
| Employees.EmployeeDirectory.constructor | lib/firebase/employees.ts:21 | the collection starts with the given documents |
| Employees.EmployeeDirectory.Create | lib/firebase/employees.ts:83-96 | appends one document under the new id and returns that id; uniqueness is kept |
| Employees.EmployeeDirectory.Update | lib/firebase/employees.ts:99-105 | the new collection is the result of `UpdateResult`, or is unchanged with a not-found error |
| Employees.EmployeeDirectory.Delete | lib/firebase/employees.ts:108-114 | a soft delete writes `isActive: false` as `SetActiveResult` says, so the document stays; a missing id fails and changes nothing |
| Employees.EmployeeDirectory.SetActive | lib/firebase/employees.ts:123-129 | writes exactly the given flag |
| Employees.EmployeeDirectory.PermanentlyDelete | lib/firebase/employees.ts:117-120 | removes the documents with that id, whatever their flag |
| Attendance.FirstOpen | lib/firebase/attendance.ts:53 | the first open session of the employee dated today, or none exactly when there is none |
| Attendance.CheckInResult | lib/firebase/attendance.ts:59-87 | the check-in fails with "already checked in" exactly when an open session exists today; otherwise one open record is appended |
| Attendance.CheckOutResult | lib/firebase/attendance.ts:90-116 | the check-out fails exactly when no open session exists today; otherwise that session is closed with its hours rounded to hundredths, and nothing else changes |
| Attendance.CheckInKeepsOneOpen | lib/firebase/attendance.ts:59-87 | a successful check-in keeps at most one open session per employee and day |
| Attendance.CheckOutKeepsOneOpen | lib/firebase/attendance.ts:90-116 | a successful check-out keeps at most one open session per employee and day |
| Attendance.CheckInOpensSession | lib/firebase/attendance.ts:43-87 | after a check-in the employee counts as checked in |
| Attendance.CheckOutClosesSession | lib/firebase/attendance.ts:43-116 | with one open session per day, after a check-out the employee no longer counts as checked in |
| Attendance.CheckInThenOut | lib/firebase/attendance.ts:59-116 | a check-in and then a check-out on the same day both succeed, and the new session stores the rounded elapsed hours |
| Attendance.FirstOpenAfterAppend | lib/firebase/attendance.ts:53 | the only open session of a key is the one just appended |
| Attendance.ReplayKeepsOneOpen | lib/firebase/attendance.ts:59-116 | any sequence of check-ins and check-outs made one after another keeps at most one open session per employee and day |
| Attendance.AttendanceLedger.constructor | lib/firebase/attendance.ts:18 | the collection starts with the given records |
| Attendance.AttendanceLedger.CheckIn | lib/firebase/attendance.ts:59-87 | the new ledger and the returned id follow `CheckInResult`, and the invariant is kept |
| Attendance.AttendanceLedger.CheckOut | lib/firebase/attendance.ts:90-116 | the new ledger and the outcome follow `CheckOutResult`, and the invariant is kept |
| Attendance.SliceEnd | lib/firebase/attendance.ts:131 | `slice(0, n)` ends at `n`, clamped to the length, and counts back from the end when `n` is negative |
| Attendance.NewestFirstIsOrder | lib/firebase/attendance.ts:130 | newest check-in first is a consistent comparator |
| Attendance.LatestDateFirstIsOrder | lib/firebase/attendance.ts:146-150 | latest date first, then newest check-in, is a consistent comparator |
| Attendance.PrefixIsTop | lib/firebase/attendance.ts:131 | an element a prefix of a sorted list leaves out sorts no earlier than any element kept |
| Attendance.NewestPrefix | lib/firebase/attendance.ts:129-131 | the first n of the sessions sorted newest first are drawn from the sessions, are newest first, and no session left out is newer than one kept |
| Attendance.EmployeeAttendance | lib/firebase/attendance.ts:119-132 | only that employee's sessions, each at most as often as stored, newest first, as many as the slice keeps, and none left out is newer than one kept |
| Attendance.AttendanceRecords | lib/firebase/attendance.ts:135-151 | exactly the sessions dated within the range, each as often as stored, by date descending and then newest first |
| Attendance.TodayAttendance | lib/firebase/attendance.ts:154-166 | exactly today's sessions, each as often as stored, newest first |
| Attendance.OpenPositions | app/admin/page.tsx:67 | filtering the open sessions keeps one record per position holding an open session |
| Attendance.OpenSessions | app/admin/page.tsx:67 | the count is the number of positions holding an open session, so at most the records, and zero exactly when every record is closed |
| Scanning.SuccessResult | app/scanner/page.tsx:184-200 | the result is a check-out exactly when the employee was checked in, and it carries the employee |
| Scanning.ScanPage.constructor | app/scanner/page.tsx:151 | a page starts idle, with nothing in progress, no result and no error |
| Scanning.ScanPage.Begin | app/scanner/page.tsx:153-160 | a scan is accepted exactly when none is in progress; a refused scan changes nothing; only the scanner page clears the previous result |
| Scanning.ScanPage.Complete | app/scanner/page.tsx:169-205 | unknown and inactive tokens fail with their messages and write nothing; otherwise the scan checks out when the employee was checked in and checks in otherwise |
| Scanning.ScanPage.Toggle | app/scanner/page.tsx:180-205 | exactly one of check-out and check-in is made, the result is reported, and the one-open-session invariant is kept |
| Scanning.ScanPage.OnScanSuccess | app/page.tsx:124-195 | the whole handler on both pages: a scan in progress blocks the next one, and afterwards processing is over and the outcome is one of not found, inactive, checked in or checked out; a failed scan writes nothing and keeps the checked-in flag, and on the home page the previous scan's result stays shown |
| Dashboard.CurrentSessionHoursGrow | app/admin/page.tsx:130-135 | a closed session shows 0; an open one shows its elapsed hours, which never shrink as time passes |
| Dashboard.DisplayedMatchesAnalytics | app/admin/page.tsx:269-271 | the hours shown beside a record are its stored hours when closed and agree with the analytics page's figure |
| Dashboard.SumOfFilter | app/admin/page.tsx:70-71 | leaving out elements that would add zero leaves the sum unchanged |
| Dashboard.TotalHoursAllRecords | app/admin/page.tsx:70-71 | today's total hours are the stored hours summed over all of today's records |
| Dashboard.OpenSessionAddsNoHours | app/admin/page.tsx:70-71 | a further open session leaves today's total hours unchanged |
| Dashboard.PayOf | app/admin/page.tsx:76-79 | a record earns its hours times the found employee's wage, and nothing when the employee is missing or the wage is 0 |
| Dashboard.PaySumStep | app/admin/page.tsx:75-80 | each loop step adds one record's pay |
| Dashboard.TotalEarningsToday | app/admin/page.tsx:74-80 | the loop's total is the pay summed over today's completed records |
| Dashboard.ScaleBound | app/admin/page.tsx:78 | non-negative hours at a wage no larger than the maximum earn between 0 and the hours at the maximum |
| Dashboard.PayRate | app/admin/page.tsx:76-79 | a record's pay is its stored hours at the found employee's rate |
| Dashboard.FoundIsMember | app/admin/page.tsx:76 | the employee `find` returns is one of the employees searched |
| Dashboard.PayAtRate | app/admin/page.tsx:78 | a record paid at a rate no larger than the maximum earns at most its hours at the maximum |
| Dashboard.PayBound | app/admin/page.tsx:76-79 | with wages between 0 and a maximum, one record earns between 0 and its hours at the maximum |
| Dashboard.EarningsBelowCeiling | app/admin/page.tsx:74-80 | summed over records, the earnings stay between 0 and the pay at the maximum wage |
| Dashboard.CeilingTotal | app/admin/page.tsx:71 | paying every record at the maximum wage pays the total hours at that wage |
| Dashboard.EarningsBound | app/admin/page.tsx:74-80 | the earnings of any records are between 0 and their total hours times the largest wage |
| Dashboard.TodayEarningsBound | app/admin/page.tsx:70-80 | today's earnings are between 0 and today's total hours times the largest wage |
| Dashboard.EmployeesByRole | app/admin/page.tsx:83-97 | the loop counts, for each of the seven roles, the active employees holding it |
| Dashboard.RoleNames | app/admin/page.tsx:83-91 | the map's keys are the seven role names, in declaration order |
| Dashboard.RoleNamesParse | app/admin/page.tsx:94 | the `hasOwnProperty` guard passes exactly the strings that name a role |
| Dashboard.RoleSumCounts | app/admin/page.tsx:93-97 | adding up the map's counts adds up the per-role counts of active employees |
| Dashboard.EmployeesByRoleTotal | app/admin/page.tsx:93-97 | no active employee is counted twice: the role counts add up to at most the active employees, exactly when every active employee holds a known role |
| Dashboard.LoadDashboard | app/admin/page.tsx:58-106 | over today's records as `getTodayAttendance` returns them: the totals, the active count, the number of those records without a check-out, the hours, the earnings and the per-role counts, each as defined above |
| Analytics.RoleDistribution | app/admin/analytics/page.tsx:88-97 | one chart entry per role held by an active employee |
| Analytics.AddRoleStep | app/admin/analytics/page.tsx:89-91 | the callback extends the role dictionary of the employees seen to that of one more employee |
| Analytics.CountRoles | app/admin/analytics/page.tsx:88-97 | the counting loop and the mapping to chart entries yield exactly the role distribution |
| Analytics.RoleDistributionTotal | app/admin/analytics/page.tsx:88-97 | each listed role counts at least one active employee, and the counts add up to the number of active employees |
| Analytics.PrefixTotal | app/admin/analytics/page.tsx:92-96 | the first n chart entries add up to the counts of their roles |
| Analytics.TodayEntries | app/admin/analytics/page.tsx:108-139 | one dictionary entry per employee who contributes hours today |
| Analytics.AddTodayStep | app/admin/analytics/page.tsx:110-138 | the callback extends the dictionary of the records seen to that of one more record |
| Analytics.AccumulateTodayHours | app/admin/analytics/page.tsx:108-139 | the loop over today's records builds exactly that dictionary |
| Analytics.EntryForSnoc | app/admin/analytics/page.tsx:125-137 | one more record changes only its own employee's entry: it adds hours to an existing entry or starts a new one |
| Analytics.TodayEntriesMeaning | app/admin/analytics/page.tsx:108-139 | entries belong to distinct employees who are active, paid and have a record with positive hours, and each entry's hours are positive |
| Analytics.TodayHoursList | app/admin/analytics/page.tsx:141-156 | the list is a permutation of the rounded entries with positive hours (each as often as it occurs), with most hours first |
| Analytics.DroppedWhenUnderHalfHundredth | app/admin/analytics/page.tsx:146-155 | a positive entry is dropped exactly when its hours are below 0.005 |
| Analytics.EarningsFromRawHours | app/admin/analytics/page.tsx:143-147 | earnings are within half a cent of the unrounded hours times the wage, as the code comment's example shows |
| Analytics.TodayTotals | app/admin/analytics/page.tsx:160-164 | today's totals are on the hundredths grid and within half a hundredth of the row sums |
| Analytics.ListHoursPositive | app/admin/analytics/page.tsx:161 | the list's hours add up to a positive total when the list is not empty |
| Analytics.WeeklyBuckets | app/admin/analytics/page.tsx:175-197 | one bucket per date carrying a completed record of an active employee |
| Analytics.AddWeeklyStep | app/admin/analytics/page.tsx:177-197 | the callback extends the dictionary of the records seen to that of one more record |
| Analytics.AddWeeklyCases | app/admin/analytics/page.tsx:178-194 | a skipped record changes nothing; a known date adds to its bucket; a new date starts a bucket |
| Analytics.AddWeeklySkip | app/admin/analytics/page.tsx:178-180 | a record that is not counted keeps the dictionary |
| Analytics.AddWeeklyExisting | app/admin/analytics/page.tsx:184-187 | a record of a known date adds its hours, its earnings and its employee to that bucket |
| Analytics.AddWeeklyNew | app/admin/analytics/page.tsx:188-193 | a record of a new date appends a bucket for that date |
| Analytics.AccumulateWeekly | app/admin/analytics/page.tsx:175-197 | the loop over the week's records builds exactly the per-date dictionary |
| Analytics.BucketForSnoc | app/admin/analytics/page.tsx:184-193 | one more record changes only its own date's bucket |
| Analytics.UnlistedBucket | app/admin/analytics/page.tsx:175 | a date no counted record carries has an empty bucket |
| Analytics.WeeklyRows | app/admin/analytics/page.tsx:200-206 | one row per bucket, in bucket order |
| Analytics.WeeklyRowsMeaning | app/admin/analytics/page.tsx:175-206 | each date appears once; each row counts at least one employee and no more employees than records, its figures are on the hundredths grid, and every employee it counts has a completed record of that date |
| Analytics.WeeklyTotals | app/admin/analytics/page.tsx:216-219 | the week's totals are on the hundredths grid and within half a hundredth of the row sums |
| Analytics.FormatHoursMinutesSplit | app/admin/analytics/page.tsx:273-283 | whole hours and minutes are the value rounded to the minute; on hundredths the minutes stay within 0 to 59, and the label shows both |
| Analytics.FindActive | app/admin/analytics/page.tsx:84-111 | an id finds an employee among the active ones exactly when an employee of the full list with that id is active |
| Analytics.InactiveRecordIgnored | app/admin/analytics/page.tsx:108-197 | a record whose employee has no active entry in the full list changes neither today's per-employee entries nor the week's buckets |
| Analytics.TodayEntriesActive | app/admin/analytics/page.tsx:84-137 | every employee with an entry in today's dictionary is an active employee of the full list |
| Analytics.WeekBucketsActive | app/admin/analytics/page.tsx:84-197 | every employee a weekly bucket counts is an active employee of the full list |
| Analytics.TodayRowsActive | app/admin/analytics/page.tsx:84-156 | every row of today's list belongs to an active employee of the full list |
| Analytics.LoadAnalytics | app/admin/analytics/page.tsx:77-226 | the page shows the active employees, the role distribution over them, the count of today's records without a check-out, today's rows built from today's records (each for an active employee) and the week's rows built from the records of the window, with their totals |
| EmployeeAdmin.AllIssuesListed | app/admin/employees/page.tsx:57-64 | every kind of form issue is among the schema's checks |
| EmployeeAdmin.FormIssues | app/admin/employees/page.tsx:57-64 | an issue is reported exactly when its field fails its rule, and there are none exactly when the form is valid |
| EmployeeAdmin.SubmittedEmail | app/admin/employees/page.tsx:118 | an empty or missing email is not written; any other email is written as entered |
| EmployeeAdmin.Validate | app/admin/employees/page.tsx:57-64 | a form passes exactly when it is valid and then yields its fields; otherwise it yields its non-empty list of issues |
| EmployeeAdmin.DefaultValuesRefused | app/admin/employees/page.tsx:80-87 | the blank form fails on exactly the name, the phone and the address |
| EmployeeAdmin.EditValues | app/admin/employees/page.tsx:137-148 | the edit form shows the stored email, or an empty one when there is none |
| EmployeeAdmin.PatchOf | app/admin/employees/page.tsx:112-119 | saving writes every form field |
| EmployeeAdmin.EditSaveUnchanged | app/admin/employees/page.tsx:121-148 | opening an employee for edit and saving unchanged passes exactly when the stored fields are valid, and then changes only the update time |
| EmployeeAdmin.FilteredEmployees | app/admin/employees/page.tsx:285-289 | the search keeps exactly the matching employees |
| EmployeeAdmin.MatchesAt | app/admin/employees/page.tsx:285-289 | an employee matches exactly when the lower-cased term occurs in the lower-cased name, the term occurs in the phone, or it occurs in a non-empty lower-cased email |
| EmployeeAdmin.NameMatchIgnoresCase | app/admin/employees/page.tsx:286 | when a text occurs in the name, every term that differs from it only in case finds the employee |
| EmployeeAdmin.EmptySearchKeepsAll | app/admin/employees/page.tsx:285-289 | an empty search shows every employee |
| EmployeeAdmin.ActiveEmployees | app/admin/employees/page.tsx:291 | exactly the active employees of the search result |
| EmployeeAdmin.InactiveEmployees | app/admin/employees/page.tsx:292 | exactly the inactive employees of the search result |
| EmployeeAdmin.ActiveInactivePartition | app/admin/employees/page.tsx:291-292 | every searched employee is in exactly one of the two tables, and the two tables add up to the search result as a multiset |
| EmployeeAdmin.RowActions | app/admin/employees/page.tsx:640-680 | every row offers the QR code and editing, plus a permanent removal exactly when inactive or a deactivation exactly when active |
| EmployeeAdmin.SaveResult | app/admin/employees/page.tsx:121-125 | a new employee is appended; an edited employee is patched, and the save fails exactly when that employee has no document |
| EmployeeAdmin.SaveResultAsWritten | app/admin/employees/page.tsx:118-125 | as the code stands, a save whose email is blank fails with an undefined-field error and writes nothing; any other save is `SaveResult` |
| EmployeeAdmin.BlankEmailRefusedAsWritten | app/admin/employees/page.tsx:118-125 | a complete form with a blank email passes the schema, is refused by the save as written, and is created by the intended save |
| EmployeeAdmin.BlankEmailCreated | app/admin/employees/page.tsx:108-125 | the intended save of a valid form with a blank email appends one employee who reads back with the form's fields, no email, the token and active, leaving the others as they were |
| EmployeeAdmin.ShownError | app/admin/employees/page.tsx:131-134 | the store's message when it has one, otherwise the handler's own non-empty text |
| EmployeeAdmin.EmployeesPage.constructor | app/admin/employees/page.tsx:70-88 | the page starts with no employees, no error, no dialog and the blank form |
| EmployeeAdmin.EmployeesPage.LoadEmployees | app/admin/employees/page.tsx:94-106 | the list is reloaded from the directory and the error is cleared |
| EmployeeAdmin.EmployeesPage.HandleAddNew | app/admin/employees/page.tsx:188-199 | nothing is being edited, the form is blank and the dialog is open |
| EmployeeAdmin.EmployeesPage.HandleEdit | app/admin/employees/page.tsx:137-148 | the employee is being edited, the form shows its values and the dialog is open |
| EmployeeAdmin.EmployeesPage.HandleSubmit | app/admin/employees/page.tsx:108-135 | a successful save resets the form, closes the dialog and reloads the list; a failed one changes nothing but the error shown |
| EmployeeAdmin.EmployeesPage.Save | app/admin/employees/page.tsx:121-125 | creates or updates as `SaveResult` says |
| EmployeeAdmin.EmployeesPage.HandleDelete | app/admin/employees/page.tsx:150-162 | without confirmation nothing happens; otherwise the employee is marked inactive and the list reloaded, or the error is shown |
| EmployeeAdmin.EmployeesPage.HandlePermanentDelete | app/admin/employees/page.tsx:164-176 | without confirmation nothing happens; otherwise the document is removed and no listed employee has that id |
| EmployeeAdmin.EmployeesPage.HandleToggleActive | app/admin/employees/page.tsx:178-186 | the employee's flag is flipped and the list reloaded, or the error is shown |

## Left out

- Firestore's network I/O, its security rules and concurrency between clients are not modelled. Every call is atomic, and the handlers run one after another. Two scans at the same moment on two devices could open two sessions; the model does not capture that race.
- The clock (`new Date()`, `serverTimestamp()`), the random tokens (`crypto.randomUUID`) and the store's new document ids are not modelled. They are parameters, and the server timestamp equals the handler's `now`.
- IEEE floating point is not modelled; hours and money are exact reals. `toFixed(2)` followed by `parseFloat` is modelled as rounding to hundredths.
- Rounding.Round2: is exact `floor(100x + 1/2) / 100`, without the binary representation errors JavaScript's `Math.round(x * 100) / 100` can show.
- `convertTimestamp` and the record conversion of the ledger are not modelled; timestamps are milliseconds.
- The day key is an injected `today`, standing for the UTC date `toISOString().split('T')[0]` (not the local date). The weekly window covers the eight dates from seven days ago to today; the window's dates are parameters of `AttendanceRecords`.
- The camera, the scanner library, `setTimeout` resets, navigation and `localStorage` are not modelled. The scanner page's catch block for an unexpected store failure is not modelled, because every modelled store call succeeds once the guards have passed.
- Lower-casing and `Capitalize`'s upper-casing are ASCII only (`toLowerCase` and `toUpperCase` also map other scripts, and 'ß' upper-cases to "SS"; the stored role names are ASCII). Date keys are compared by code units, standing for `localeCompare` on `YYYY-MM-DD` strings.
- The email rule of the form library is the parameter `isEmail`. The role issue carries the library's own wording, which the model does not have.
- The store's own error texts are a parameter (`message`). The confirm dialogs are a boolean, and their prompts are not modelled.
- The loading flag, the QR dialog and its download, the CSV export and the chart rendering are not modelled. A failure of `loadEmployees` itself is not modelled: reading the directory cannot fail.
- The analytics page labels weekly rows with `toLocaleDateString` and sorts them by parsing those labels back. Labels and that sort are not modelled; the rows stay in order of first appearance.
- `Object.entries` order is modelled as insertion order. That is what JavaScript gives for string keys that are not array indices.
- The fused `filter` + `forEach` loops (Analytics.CountRoles, Dashboard.EmployeesByRole) are each one loop over all employees that skips the inactive ones.
- The `forEach` callbacks are functions called from the loops, with one step lemma each.
- Analytics.FormatHoursMinutesSplit: the bound of 59 minutes is stated only for hundredths, the values the page passes in. For other values the code can show 60 minutes (1.995 h gives `1h 60m`).
- The hard delete is offered only for inactive employees, and only by the page. The store's `permanentlyDeleteEmployee` itself removes any employee.
- Query results (`getAllEmployees`, the first token match, the open-session `find`) are taken in the order the collection is given, which stands for insertion order. Firestore returns them in document-id order, and `addDoc` ids are random, so which of several matches comes first is not modelled.
- EmployeeAdmin.EmployeesPage.HandleSubmit: a successful save resets the form to the blank values; `form.reset()` in the page returns to the values of the last `reset(values)`, which after an edit are that employee's. The dialog only reopens through `HandleAddNew` or `HandleEdit`, which both reset the form explicitly, so the difference is never shown.
- The save of a form with a blank email is modelled both as written and as intended (see Findings). The page, `EmployeesPage.HandleSubmit`, follows the intended save.

## Findings

| source | as written | input that shows it | evidently intended | confidence | as-written member | corrected member |
|---|---|---|---|---|---|---|
| app/admin/employees/page.tsx:118 | `email: values.email \|\| undefined` hands `addDoc`/`updateDoc` an `undefined` field, which Firestore refuses because lib/firebase/config.ts:27 sets no `ignoreUndefinedProperties`; the save fails with the store's message and writes nothing | a complete new employee with the email left blank (`Sam`, `server`, 11.5, a phone, an address, email `""`), as EmployeeAdmin.BlankEmailRefusedAsWritten states | a blank email is simply not stored and the employee is created, as EmployeeAdmin.BlankEmailCreated proves | not executed | EmployeeAdmin.SaveResultAsWritten | EmployeeAdmin.SaveResult |
