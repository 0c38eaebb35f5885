/** The administrator dashboard's aggregation (`DashboardController::index`): average audit
    completion time over a fixed reporting window, the month's compliance buckets with
    their rounded percentages, the five most relevant recent activities, and the
    all-or-nothing fallback when any query fails.

    The database is an input: a snapshot of the rows the controller's queries read, or
    the failure one of them raised. Times are whole seconds on one clock; the controller's
    `Carbon::now()->startOfMonth()` is the `monthStart` parameter. */
module Dashboard {
  import opened Basics
  import opened Text
  import Sorting

  /** An `audits` row. `startTime`/`endTime`/`statusId` are nullable columns. */
  datatype Audit = Audit(statusId: Option<int>, startTime: Option<int>, endTime: Option<int>, createdAt: int)

  /** A `statuses` row: reference data naming the lifecycle states. */
  datatype StatusRow = StatusRow(id: int, name: string)

  datatype Outlet = Outlet(isActive: bool)

  datatype User = User(emailVerifiedAt: Option<int>)

  /** An `activity_logs` row: free-text details and its creation time. */
  datatype Activity = Activity(id: int, details: string, createdAt: int)

  /** Every table the dashboard reads. */
  datatype Database = Database(
    statuses: seq<StatusRow>,
    audits: seq<Audit>,
    outlets: seq<Outlet>,
    users: seq<User>,
    activityLog: seq<Activity>)

  /** What the controller's queries find: the tables, or the exception one of them raised. */
  datatype Queried = Readable(tables: Database) | QueryFailed

  datatype Statistics = Statistics(
    totalOutlets: nat,
    activeUsers: nat,
    averageCompletionTime: real,
    pendingReviews: nat)

  datatype Bucket = Bucket(count: nat, percentage: nat)

  datatype ComplianceData = ComplianceData(fullyCompliant: Bucket, partiallyCompliant: Bucket, nonCompliant: Bucket)

  /** One entry of the activity feed; the relative-time text is rendered from `createdAt`. */
  datatype ActivityEntry = ActivityEntry(id: int, description: string, createdAt: int)

  /** The page properties: `None`/`[]` are the empty `[]` the fallback renders. */
  datatype DashboardPage = DashboardPage(
    statistics: Option<Statistics>,
    complianceData: Option<ComplianceData>,
    recentActivities: seq<ActivityEntry>)

  // ---------------------------------------------------------------------------
  // Reference data

  /** The id of the last row named `name`, scanning the rows from the end. */
  function LastIdNamed(rows: seq<StatusRow>, name: string): (id: Option<int>)
    ensures id.Some? <==> exists i :: 0 <= i < |rows| && rows[i].name == name
  {
    if |rows| == 0 then None
    else if rows[|rows| - 1].name == name then Some(rows[|rows| - 1].id)
    else
      var r := LastIdNamed(rows[..|rows| - 1], name);
      assert forall i :: 0 <= i < |rows| - 1 ==> rows[..|rows| - 1][i] == rows[i];
      r
  }

  /** `Status::all()->keyBy('name')`: each name maps to the id of the last row carrying it. */
  function KeyByName(rows: seq<StatusRow>): (m: map<string, int>)
    ensures forall name :: name in m <==> LastIdNamed(rows, name).Some?
    ensures forall name :: name in m ==> m[name] == LastIdNamed(rows, name).value
  {
    if |rows| == 0 then map[]
    else KeyByName(rows[..|rows| - 1])[rows[|rows| - 1].name := rows[|rows| - 1].id]
  }

  /** `$statuses[name]->id ?? null`. */
  function StatusIdNamed(statuses: map<string, int>, name: string): Option<int> {
    if name in statuses then Some(statuses[name]) else None
  }

  /** Laravel's `where('status_id', id)`: a null id becomes `status_id IS NULL`. */
  predicate HasStatus(a: Audit, id: Option<int>) {
    a.statusId == id
  }

  /** SQL `status_id IN (ids)`: a null in the list matches no row. */
  predicate HasStatusIn(a: Audit, ids: seq<Option<int>>) {
    a.statusId.Some? && exists k :: 0 <= k < |ids| && ids[k] == a.statusId
  }

  /** A two-id `IN` list matches a non-null status equal to either id. */
  lemma HasStatusInPair(a: Audit, x: Option<int>, y: Option<int>)
    ensures HasStatusIn(a, [x, y]) <==> a.statusId.Some? && (a.statusId == x || a.statusId == y)
  {
    if a.statusId.Some? && a.statusId == x {
      assert [x, y][0] == x;
    } else if a.statusId.Some? && a.statusId == y {
      assert [x, y][1] == y;
    }
  }

  /** Number of elements satisfying `p`. */
  function Count<T>(s: seq<T>, p: T -> bool): (n: nat)
    ensures n <= |s|
  {
    if |s| == 0 then 0 else Count(s[..|s| - 1], p) + (if p(s[|s| - 1]) then 1 else 0)
  }

  /** The positions of `s` whose element satisfies `p`. */
  function Positions<T>(s: seq<T>, p: T -> bool): set<int> {
    set i | 0 <= i < |s| && p(s[i])
  }

  /** Counting agrees with the number of matching positions. */
  lemma {:induction false} CountIsPositions<T>(s: seq<T>, p: T -> bool)
    ensures Count(s, p) == |Positions(s, p)|
  {
    if |s| > 0 {
      var n := |s| - 1;
      CountIsPositions(s[..n], p);
      assert forall i :: 0 <= i < n ==> s[..n][i] == s[i];
      assert Positions(s, p) == Positions(s[..n], p) + (if p(s[n]) then {n} else {});
    }
  }

  /** One more element adds one to the count exactly when it matches. */
  lemma CountSnoc<T>(s: seq<T>, x: T, p: T -> bool)
    ensures Count(s + [x], p) == Count(s, p) + (if p(x) then 1 else 0)
  {
    assert (s + [x])[..|s|] == s;
  }

  // ---------------------------------------------------------------------------
  // Average completion time

  /** The hard-coded reporting window: 2025-06-01 00:00:00 to 2025-06-30 23:59:59 (UTC). */
  const WindowStart: int := 1748736000
  const WindowEnd: int := 1751327999

  /** The query's filter: both times present, end inside the window (bounds inclusive). */
  predicate InReportingWindow(a: Audit) {
    a.startTime.Some? && a.endTime.Some? && WindowStart <= a.endTime.value <= WindowEnd
  }

  /** The collection filter: the audit does not end before it starts. */
  predicate WellFormed(a: Audit)
    requires a.startTime.Some? && a.endTime.Some?
  {
    a.endTime.value >= a.startTime.value
  }

  predicate Qualifies(a: Audit) {
    InReportingWindow(a) && WellFormed(a)
  }

  /** The audits whose duration enters the average, in their original order. */
  function Qualifying(audits: seq<Audit>): (q: seq<Audit>)
    ensures forall a :: a in q <==> a in audits && Qualifies(a)
    ensures |q| <= |audits|
  {
    if |audits| == 0 then []
    else
      var init := Qualifying(audits[..|audits| - 1]);
      assert audits == audits[..|audits| - 1] + [audits[|audits| - 1]];
      if Qualifies(audits[|audits| - 1]) then init + [audits[|audits| - 1]] else init
  }

  lemma QualifyingAppend(xs: seq<Audit>, ys: seq<Audit>)
    ensures Qualifying(xs + ys) == Qualifying(xs) + Qualifying(ys)
    decreases |ys|
  {
    if |ys| > 0 {
      var init, last := ys[..|ys| - 1], ys[|ys| - 1];
      assert (xs + ys)[..|xs + ys| - 1] == xs + init;
      assert (xs + ys)[|xs + ys| - 1] == last;
      QualifyingAppend(xs, init);
      if Qualifies(last) {
        assert Qualifying(xs + ys) == Qualifying(xs + init) + [last];
        assert Qualifying(ys) == Qualifying(init) + [last];
      } else {
        assert Qualifying(xs + ys) == Qualifying(xs + init);
        assert Qualifying(ys) == Qualifying(init);
      }
    } else {
      assert xs + ys == xs;
    }
  }

  /** The hours one qualifying audit contributes: `diffInSeconds / 3600`. */
  function ContributionHours(a: Audit): (h: real)
    requires Qualifies(a)
    ensures h >= 0.0
    ensures 3600.0 * h == (a.endTime.value - a.startTime.value) as real
  {
    (a.endTime.value - a.startTime.value) as real / 3600.0
  }

  function SumHours(q: seq<Audit>): real
    requires forall a :: a in q ==> Qualifies(a)
  {
    if |q| == 0 then 0.0 else SumHours(q[..|q| - 1]) + ContributionHours(q[|q| - 1])
  }

  lemma {:induction false} SumHoursNonNegative(q: seq<Audit>)
    requires forall a :: a in q ==> Qualifies(a)
    ensures SumHours(q) >= 0.0
  {
    if |q| > 0 {
      assert forall a :: a in q[..|q| - 1] ==> a in q;
      SumHoursNonNegative(q[..|q| - 1]);
    }
  }

  /** Every audit qualifies and contributes at most `maxHours`. */
  predicate AllWithin(q: seq<Audit>, maxHours: real) {
    forall a :: a in q ==> Qualifies(a) && ContributionHours(a) <= maxHours
  }

  /** `n` copies of `m` added up, which keeps the bound below linear. */
  function Repeated(n: nat, m: real): real {
    if n == 0 then 0.0 else Repeated(n - 1, m) + m
  }

  lemma {:induction false} RepeatedIsProduct(n: nat, m: real)
    ensures Repeated(n, m) == n as real * m
  {
    if n > 0 {
      RepeatedIsProduct(n - 1, m);
      assert n as real * m == (n - 1) as real * m + m;
    }
  }

  lemma {:induction false} SumHoursBounds(q: seq<Audit>, maxHours: real)
    requires AllWithin(q, maxHours)
    ensures SumHours(q) <= |q| as real * maxHours
  {
    SumHoursRepeated(q, maxHours);
    RepeatedIsProduct(|q|, maxHours);
  }

  lemma {:induction false} SumHoursRepeated(q: seq<Audit>, maxHours: real)
    requires AllWithin(q, maxHours)
    ensures SumHours(q) <= Repeated(|q|, maxHours)
  {
    if |q| > 0 {
      var init, last := q[..|q| - 1], q[|q| - 1];
      assert q == init + [last];
      assert AllWithin(init, maxHours) by {
        forall a | a in init ensures a in q { }
      }
      SumHoursRepeated(init, maxHours);
      assert last in q;
      SumHoursSnoc(init, last);
    }
  }

  /** The collection's `avg` of the contributions, or 0 for an empty collection (Laravel's
      `null`), clamped by the controller's `$avg > 0 ? $avg : 0`. */
  function AverageCompletionTime(audits: seq<Audit>): (avg: real)
    ensures avg >= 0.0
    ensures |Qualifying(audits)| == 0 ==> avg == 0.0
  {
    var q := Qualifying(audits);
    if |q| == 0 then 0.0
    else
      SumHoursNonNegative(q);
      var mean := SumHours(q) / |q| as real;
      if mean > 0.0 then mean else 0.0
  }

  /** The average never exceeds the longest qualifying duration. */
  lemma AverageAtMostLongest(audits: seq<Audit>, maxHours: real)
    requires forall a :: a in audits && Qualifies(a) ==> ContributionHours(a) <= maxHours
    requires maxHours >= 0.0
    ensures AverageCompletionTime(audits) <= maxHours
  {
    var q := Qualifying(audits);
    if |q| > 0 {
      SumHoursBounds(q, maxHours);
      MeanAtMost(SumHours(q), |q| as real, maxHours);
    }
  }

  lemma MeanAtMost(sum: real, n: real, bound: real)
    requires n > 0.0 && sum <= n * bound
    ensures sum / n <= bound
  {
    assert sum / n * n == sum;
  }

  /** An audit that ends before it starts leaves the average unchanged. */
  lemma MalformedAuditIgnored(audits: seq<Audit>, bad: Audit)
    requires bad.startTime.Some? && bad.endTime.Some?
    requires bad.endTime.value < bad.startTime.value
    ensures AverageCompletionTime(audits + [bad]) == AverageCompletionTime(audits)
  {
    QualifyingAppend(audits, [bad]);
    assert Qualifying([bad]) == Qualifying([]) + [] by {
      assert [bad][..0] == [];
    }
    assert Qualifying(audits + [bad]) == Qualifying(audits);
  }

  /** An audit that starts and ends at the same instant qualifies and contributes 0 hours. */
  lemma InstantAuditQualifies(a: Audit)
    requires InReportingWindow(a)
    requires a.endTime.value == a.startTime.value
    ensures a in Qualifying([a]) && ContributionHours(a) == 0.0
  {
  }

  /** A single audit from 10:00 to 12:30 on 2025-06-01 averages to 2.5 hours. */
  lemma TwoAndAHalfHours()
    ensures AverageCompletionTime([Audit(None, Some(WindowStart + 36000), Some(WindowStart + 45000), 0)]) == 2.5
  {
    var a := Audit(None, Some(WindowStart + 36000), Some(WindowStart + 45000), 0);
    assert Qualifying([a]) == [a] by {
      assert [a][..0] == [];
    }
    assert SumHours([a]) == ContributionHours(a) by {
      assert [a][..0] == [];
    }
  }

  /** Extending the audits by one extends the selection by that audit when it qualifies. */
  lemma QualifyingStep(audits: seq<Audit>, i: nat)
    requires i < |audits|
    ensures Qualifying(audits[..i + 1])
            == if Qualifies(audits[i]) then Qualifying(audits[..i]) + [audits[i]] else Qualifying(audits[..i])
  {
    assert audits[..i + 1][..i] == audits[..i];
  }

  /** Appending a qualifying audit adds its hours to the sum. */
  lemma SumHoursSnoc(q: seq<Audit>, a: Audit)
    requires forall b :: b in q ==> Qualifies(b)
    requires Qualifies(a)
    ensures SumHours(q + [a]) == SumHours(q) + ContributionHours(a)
  {
    assert (q + [a])[..|q|] == q;
  }

  /** The same average, accumulated one audit at a time as the collection's `filter`
      followed by `avg` does. */
  method ComputeAverage(audits: seq<Audit>) returns (avg: real)
    ensures avg == AverageCompletionTime(audits)
  {
    var total := 0.0;
    var n := 0;
    var i := 0;
    while i < |audits|
      invariant 0 <= i <= |audits|
      invariant n == |Qualifying(audits[..i])|
      invariant total == SumHours(Qualifying(audits[..i]))
    {
      var a := audits[i];
      QualifyingStep(audits, i);
      if a.startTime.Some? && a.endTime.Some? && WindowStart <= a.endTime.value <= WindowEnd
         && a.endTime.value >= a.startTime.value
      {
        SumHoursSnoc(Qualifying(audits[..i]), a);
        total := total + (a.endTime.value - a.startTime.value) as real / 3600.0;
        n := n + 1;
      }
      i := i + 1;
    }
    assert audits[..i] == audits;
    if n == 0 {
      avg := 0.0;
    } else {
      avg := total / n as real;
      if !(avg > 0.0) {
        avg := 0.0;
      }
    }
  }

  // ---------------------------------------------------------------------------
  // Compliance buckets

  /** `round(count / total * 100)` for counts, rounding halves up: `(200c + t) div 2t`. */
  function Percentage(count: nat, total: nat): (p: nat)
    requires total > 0
    ensures total * (2 * p - 1) <= 200 * count < total * (2 * p + 1)
    ensures count <= total ==> p <= 100
  {
    var p := (200 * count + total) / (2 * total);
    RoundingBounds(count, total, p);
    p
  }

  lemma RoundingBounds(count: nat, total: nat, p: nat)
    requires total > 0
    requires p == (200 * count + total) / (2 * total)
    ensures total * (2 * p - 1) <= 200 * count < total * (2 * p + 1)
    ensures count <= total ==> p <= 100
  {
    var t2 := 2 * total;
    var m := (200 * count + total) % t2;
    assert 200 * count + total == t2 * p + m && 0 <= m < t2;
    assert total * (2 * p - 1) == t2 * p - total;
    assert total * (2 * p + 1) == t2 * p + total;
    if count <= total && p > 100 {
      MulMonotone(t2, 101, p);
    }
  }

  lemma MulMonotone(a: nat, b: int, c: int)
    requires b <= c
    ensures a * b <= a * c
  {
  }

  /** Percentages as the controller assigns them: each rounded on its own, all 0 when
      nothing was counted. */
  function Buckets(fully: nat, partially: nat, non: nat): (d: ComplianceData)
    ensures d.fullyCompliant.count == fully && d.partiallyCompliant.count == partially
            && d.nonCompliant.count == non
    ensures fully + partially + non == 0 ==>
              d.fullyCompliant.percentage == 0 && d.partiallyCompliant.percentage == 0
              && d.nonCompliant.percentage == 0
    ensures fully + partially + non > 0 ==>
              d.fullyCompliant.percentage == Percentage(fully, fully + partially + non)
              && d.partiallyCompliant.percentage == Percentage(partially, fully + partially + non)
              && d.nonCompliant.percentage == Percentage(non, fully + partially + non)
    ensures d.fullyCompliant.percentage <= 100 && d.partiallyCompliant.percentage <= 100
            && d.nonCompliant.percentage <= 100
  {
    var total := fully + partially + non;
    if total > 0 then
      ComplianceData(Bucket(fully, Percentage(fully, total)),
                     Bucket(partially, Percentage(partially, total)),
                     Bucket(non, Percentage(non, total)))
    else
      ComplianceData(Bucket(fully, 0), Bucket(partially, 0), Bucket(non, 0))
  }

  /** Three equal buckets round to 33 each: the percentages need not add up to 100. */
  lemma PercentagesNeedNotSumToHundred()
    ensures var d := Buckets(1, 1, 1);
            d.fullyCompliant.percentage + d.partiallyCompliant.percentage + d.nonCompliant.percentage == 99
  {
  }

  predicate CreatedThisMonth(a: Audit, monthStart: int) {
    a.createdAt >= monthStart
  }

  /** The audits of the fully compliant bucket: `approved`, created this month. */
  function FullyFilter(statuses: map<string, int>, monthStart: int): Audit -> bool {
    (a: Audit) => HasStatus(a, StatusIdNamed(statuses, "approved")) && CreatedThisMonth(a, monthStart)
  }

  /** The audits of the partially compliant bucket: `pending` or `rejected`, created this
      month. */
  function PartialFilter(statuses: map<string, int>, monthStart: int): Audit -> bool {
    (a: Audit) => HasStatusIn(a, [StatusIdNamed(statuses, "pending"), StatusIdNamed(statuses, "rejected")])
                  && CreatedThisMonth(a, monthStart)
  }

  /** The audits of the non-compliant bucket: `draft`, created this month. */
  function NonFilter(statuses: map<string, int>, monthStart: int): Audit -> bool {
    (a: Audit) => HasStatus(a, StatusIdNamed(statuses, "draft")) && CreatedThisMonth(a, monthStart)
  }

  /** The month's three buckets: each counts the positions of the audits created since
      `monthStart` whose status is the bucket's (a missing status name matching a null
      status in the two single-status buckets, and nothing in the two-status one), and the
      percentages are the rounded shares of those counts. */
  function Compliance(audits: seq<Audit>, statuses: map<string, int>, monthStart: int): (d: ComplianceData)
    ensures d.fullyCompliant.count + d.partiallyCompliant.count + d.nonCompliant.count <= 3 * |audits|
    ensures d.fullyCompliant.count
            == |set i | 0 <= i < |audits| && audits[i].createdAt >= monthStart
                        && audits[i].statusId == StatusIdNamed(statuses, "approved")|
    ensures d.partiallyCompliant.count
            == |set i | 0 <= i < |audits| && audits[i].createdAt >= monthStart && audits[i].statusId.Some?
                        && (audits[i].statusId == StatusIdNamed(statuses, "pending")
                            || audits[i].statusId == StatusIdNamed(statuses, "rejected"))|
    ensures d.nonCompliant.count
            == |set i | 0 <= i < |audits| && audits[i].createdAt >= monthStart
                        && audits[i].statusId == StatusIdNamed(statuses, "draft")|
    ensures d == Buckets(d.fullyCompliant.count, d.partiallyCompliant.count, d.nonCompliant.count)
  {
    var fully := FullyFilter(statuses, monthStart);
    var partial := PartialFilter(statuses, monthStart);
    var non := NonFilter(statuses, monthStart);
    CountIsPositions(audits, fully);
    CountIsPositions(audits, partial);
    CountIsPositions(audits, non);
    forall i | 0 <= i < |audits| {
      HasStatusInPair(audits[i], StatusIdNamed(statuses, "pending"), StatusIdNamed(statuses, "rejected"));
    }
    assert Positions(audits, fully)
           == set i | 0 <= i < |audits| && audits[i].createdAt >= monthStart
                      && audits[i].statusId == StatusIdNamed(statuses, "approved");
    assert Positions(audits, non)
           == set i | 0 <= i < |audits| && audits[i].createdAt >= monthStart
                      && audits[i].statusId == StatusIdNamed(statuses, "draft");
    assert Positions(audits, partial)
           == set i | 0 <= i < |audits| && audits[i].createdAt >= monthStart && audits[i].statusId.Some?
                      && (audits[i].statusId == StatusIdNamed(statuses, "pending")
                          || audits[i].statusId == StatusIdNamed(statuses, "rejected"));
    Buckets(Count(audits, fully), Count(audits, partial), Count(audits, non))
  }

  /** One more audit raises exactly the buckets whose filter it passes, by one each, and
      leaves the others as they were. */
  lemma ComplianceSnoc(audits: seq<Audit>, a: Audit, statuses: map<string, int>, monthStart: int)
    ensures var before := Compliance(audits, statuses, monthStart);
            var after := Compliance(audits + [a], statuses, monthStart);
            after.fullyCompliant.count == before.fullyCompliant.count + (if FullyFilter(statuses, monthStart)(a) then 1 else 0)
            && after.partiallyCompliant.count == before.partiallyCompliant.count + (if PartialFilter(statuses, monthStart)(a) then 1 else 0)
            && after.nonCompliant.count == before.nonCompliant.count + (if NonFilter(statuses, monthStart)(a) then 1 else 0)
  {
    CountSnoc(audits, a, FullyFilter(statuses, monthStart));
    CountSnoc(audits, a, PartialFilter(statuses, monthStart));
    CountSnoc(audits, a, NonFilter(statuses, monthStart));
  }

  /** With the four statuses under distinct ids, an audit created this month lands in the
      bucket of its status alone: approved in fully compliant, pending or rejected in
      partially compliant, draft in non-compliant; one created earlier, or with any other
      status, lands in none. */
  lemma AuditLandsInItsBucket(audits: seq<Audit>, a: Audit, statuses: map<string, int>, monthStart: int)
    requires "approved" in statuses && "pending" in statuses && "rejected" in statuses && "draft" in statuses
    requires statuses["approved"] != statuses["draft"]
    requires statuses["approved"] != statuses["pending"] && statuses["approved"] != statuses["rejected"]
    requires statuses["draft"] != statuses["pending"] && statuses["draft"] != statuses["rejected"]
    ensures var before := Compliance(audits, statuses, monthStart);
            var after := Compliance(audits + [a], statuses, monthStart);
            var fully := if a.createdAt >= monthStart && a.statusId == Some(statuses["approved"]) then 1 else 0;
            var partially := if a.createdAt >= monthStart
                                && (a.statusId == Some(statuses["pending"]) || a.statusId == Some(statuses["rejected"])) then 1 else 0;
            var non := if a.createdAt >= monthStart && a.statusId == Some(statuses["draft"]) then 1 else 0;
            after.fullyCompliant.count == before.fullyCompliant.count + fully
            && after.partiallyCompliant.count == before.partiallyCompliant.count + partially
            && after.nonCompliant.count == before.nonCompliant.count + non
            && fully + partially + non <= 1
  {
    ComplianceSnoc(audits, a, statuses, monthStart);
    HasStatusInPair(a, StatusIdNamed(statuses, "pending"), StatusIdNamed(statuses, "rejected"));
    assert FullyFilter(statuses, monthStart)(a) <==> a.createdAt >= monthStart && a.statusId == Some(statuses["approved"]);
    assert PartialFilter(statuses, monthStart)(a) <==>
           a.createdAt >= monthStart && (a.statusId == Some(statuses["pending"]) || a.statusId == Some(statuses["rejected"]));
    assert NonFilter(statuses, monthStart)(a) <==> a.createdAt >= monthStart && a.statusId == Some(statuses["draft"]);
  }

  /** Three counts over mutually exclusive predicates, each implying `u`, add up to at
      most the count of `u`. */
  lemma {:induction false} CountExclusive<T>(s: seq<T>, p: T -> bool, q: T -> bool, r: T -> bool, u: T -> bool)
    requires forall k :: 0 <= k < |s| ==> (p(s[k]) || q(s[k]) || r(s[k]) ==> u(s[k]))
    requires forall k :: 0 <= k < |s| ==> !(p(s[k]) && q(s[k])) && !(p(s[k]) && r(s[k])) && !(q(s[k]) && r(s[k]))
    ensures Count(s, p) + Count(s, q) + Count(s, r) <= Count(s, u)
  {
    if |s| > 0 {
      CountExclusive(s[..|s| - 1], p, q, r, u);
    }
  }

  /** When the four statuses exist under distinct ids, no audit lands in two buckets, so
      the buckets never hold more than the month's audits. */
  lemma ComplianceWithinMonth(audits: seq<Audit>, statuses: map<string, int>, monthStart: int)
    requires "approved" in statuses && "pending" in statuses && "rejected" in statuses && "draft" in statuses
    requires statuses["approved"] != statuses["draft"]
    requires statuses["approved"] != statuses["pending"] && statuses["approved"] != statuses["rejected"]
    requires statuses["draft"] != statuses["pending"] && statuses["draft"] != statuses["rejected"]
    ensures var d := Compliance(audits, statuses, monthStart);
            d.fullyCompliant.count + d.partiallyCompliant.count + d.nonCompliant.count
            <= Count(audits, (a: Audit) => CreatedThisMonth(a, monthStart))
  {
    CountExclusive(audits, FullyFilter(statuses, monthStart), PartialFilter(statuses, monthStart),
                   NonFilter(statuses, monthStart), (a: Audit) => CreatedThisMonth(a, monthStart));
  }

  /** With neither `approved` nor `draft` among the statuses, both buckets query
      `status_id IS NULL`: an audit without a status is counted as fully and as non-compliant. */
  lemma MissingStatusesCountNullTwice(statuses: map<string, int>, monthStart: int)
    requires "approved" !in statuses && "draft" !in statuses
    ensures var d := Compliance([Audit(None, None, None, monthStart)], statuses, monthStart);
            d.fullyCompliant.count == 1 && d.nonCompliant.count == 1
  {
  }

  // ---------------------------------------------------------------------------
  // Recent activity

  const FetchLimit: nat := 20
  const ShowLimit: nat := 5

  const AssignedPhrase: string := "was assigned to outlet"
  const CreatedPhrase: string := "was created"

  /** The tie-break rank: assignments first, then creations, then everything else. */
  function Priority(a: Activity): (p: int)
    ensures 1 <= p <= 3
    ensures p == 1 <==> Contains(a.details, AssignedPhrase)
    ensures p == 2 <==> !Contains(a.details, AssignedPhrase) && Contains(a.details, CreatedPhrase)
  {
    if Contains(a.details, AssignedPhrase) then 1
    else if Contains(a.details, CreatedPhrase) then 2
    else 3
  }

  function Sign(x: int): int {
    if x < 0 then -1 else if x > 0 then 1 else 0
  }

  /** The controller's comparator: `strcmp` of the timestamps, later first, then the
      priorities with `<=>`. Negative means `a` sorts before `b`. */
  function CompareActivities(a: Activity, b: Activity): int {
    var cmp := Sign(b.createdAt - a.createdAt);
    if cmp != 0 then cmp else Sign(Priority(a) - Priority(b))
  }

  /** One integer carrying the comparator's order: later times lower, then priority. */
  function SortKey(a: Activity): int {
    -4 * a.createdAt + Priority(a)
  }

  /** The key orders activities exactly as the comparator does. */
  lemma SortKeyMatchesComparator(a: Activity, b: Activity)
    ensures CompareActivities(a, b) < 0 <==> SortKey(a) < SortKey(b)
    ensures CompareActivities(a, b) == 0 <==> SortKey(a) == SortKey(b)
    ensures CompareActivities(a, b) > 0 <==> SortKey(a) > SortKey(b)
  {
  }

  function NewestFirstKey(a: Activity): int {
    -a.createdAt
  }

  /** `latest('created_at')->take(20)`: the log newest first, cut to 20 rows. Rows with equal
      times keep their log order. */
  function FetchRecent(log: seq<Activity>): (r: seq<Activity>)
    ensures |r| == Min(FetchLimit, |log|)
    ensures multiset(r) <= multiset(log)
  {
    var sorted := Sorting.SortByKey(log, NewestFirstKey);
    Sorting.PrefixOfSorted(sorted, NewestFirstKey, Min(FetchLimit, |log|));
    sorted[..Min(FetchLimit, |log|)]
  }

  /** The fetched rows sorted by the comparator, first five kept. */
  function RecentActivities(log: seq<Activity>): (r: seq<Activity>)
    ensures |r| == Min(ShowLimit, |log|)
    ensures multiset(r) <= multiset(FetchRecent(log))
    ensures forall i, j :: 0 <= i < j < |r| ==> CompareActivities(r[i], r[j]) <= 0
  {
    var sorted := Sorting.SortByKey(FetchRecent(log), SortKey);
    Sorting.PrefixOfSorted(sorted, SortKey, Min(ShowLimit, |log|));
    ComparatorOrdered(sorted[..Min(ShowLimit, |log|)]);
    sorted[..Min(ShowLimit, |log|)]
  }

  lemma ComparatorOrdered(s: seq<Activity>)
    requires Sorting.SortedBy(s, SortKey)
    ensures forall i, j :: 0 <= i < j < |s| ==> CompareActivities(s[i], s[j]) <= 0
  {
    forall i, j | 0 <= i < j < |s| ensures CompareActivities(s[i], s[j]) <= 0 {
      SortKeyMatchesComparator(s[i], s[j]);
    }
  }

  /** Every activity shown is at least as recent as every log entry the fetch left out. */
  lemma RecentAreAmongLatest(log: seq<Activity>, x: Activity, y: Activity)
    ensures x in RecentActivities(log) && y in multiset(log) - multiset(FetchRecent(log)) ==> y.createdAt <= x.createdAt
  {
    if x in RecentActivities(log) && y in multiset(log) - multiset(FetchRecent(log)) {
      var sorted := Sorting.SortByKey(log, NewestFirstKey);
      var n := Min(FetchLimit, |log|);
      assert x in multiset(RecentActivities(log));
      assert x in sorted[..n];
      Sorting.PrefixHoldsSmallestKeys(sorted, NewestFirstKey, n, x, y);
    }
  }

  /** Every activity shown sorts no later than every fetched activity left out of the five. */
  lemma RecentAreTheFirstFive(log: seq<Activity>, x: Activity, y: Activity)
    ensures x in RecentActivities(log) && y in multiset(FetchRecent(log)) - multiset(RecentActivities(log))
            ==> CompareActivities(x, y) <= 0
  {
    if x in RecentActivities(log) && y in multiset(FetchRecent(log)) - multiset(RecentActivities(log)) {
      var sorted := Sorting.SortByKey(FetchRecent(log), SortKey);
      Sorting.PrefixHoldsSmallestKeys(sorted, SortKey, Min(ShowLimit, |log|), x, y);
      SortKeyMatchesComparator(x, y);
    }
  }

  /** At equal times an assignment entry sorts before any entry that is not one, even
      when the other mentions a creation and even when the assignment does too. */
  lemma AssignmentWinsTies(a: Activity, b: Activity)
    requires a.createdAt == b.createdAt
    requires Contains(a.details, AssignedPhrase) && !Contains(b.details, AssignedPhrase)
    ensures CompareActivities(a, b) < 0
  {
  }

  // ---------------------------------------------------------------------------
  // The whole page

  function ToEntry(a: Activity): ActivityEntry {
    ActivityEntry(a.id, a.details, a.createdAt)
  }

  function ToEntries(s: seq<Activity>): (r: seq<ActivityEntry>)
    ensures |r| == |s|
    ensures forall i :: 0 <= i < |s| ==> r[i] == ToEntry(s[i])
  {
    if |s| == 0 then [] else [ToEntry(s[0])] + ToEntries(s[1..])
  }

  /** The four figures: active outlets, users with a verified email, the average completion
      time, and audits whose status is `pending` (a null status when no status is named
      so). */
  function ComputeStatistics(db: Database): (st: Statistics)
    ensures st.totalOutlets <= |db.outlets| && st.activeUsers <= |db.users|
    ensures st.pendingReviews <= |db.audits|
    ensures st.totalOutlets == |set i | 0 <= i < |db.outlets| && db.outlets[i].isActive|
    ensures st.activeUsers == |set i | 0 <= i < |db.users| && db.users[i].emailVerifiedAt.Some?|
    ensures st.pendingReviews
            == |set i | 0 <= i < |db.audits| && db.audits[i].statusId == StatusIdNamed(KeyByName(db.statuses), "pending")|
    ensures st.averageCompletionTime == AverageCompletionTime(db.audits)
  {
    var pending := StatusIdNamed(KeyByName(db.statuses), "pending");
    var active := (o: Outlet) => o.isActive;
    var verified := (u: User) => u.emailVerifiedAt.Some?;
    var awaiting := (a: Audit) => HasStatus(a, pending);
    CountIsPositions(db.outlets, active);
    CountIsPositions(db.users, verified);
    CountIsPositions(db.audits, awaiting);
    assert Positions(db.outlets, active) == set i | 0 <= i < |db.outlets| && db.outlets[i].isActive;
    assert Positions(db.users, verified) == set i | 0 <= i < |db.users| && db.users[i].emailVerifiedAt.Some?;
    assert Positions(db.audits, awaiting)
           == set i | 0 <= i < |db.audits| && db.audits[i].statusId == StatusIdNamed(KeyByName(db.statuses), "pending");
    Statistics(Count(db.outlets, active), Count(db.users, verified), AverageCompletionTime(db.audits), Count(db.audits, awaiting))
  }

  /** `index`: a full page from a readable database, and the empty page, never a partial
      one, when a query raised an exception. The feed is the five most relevant of the
      twenty newest activities. */
  function Index(db: Queried, monthStart: int): (page: DashboardPage)
    ensures db.QueryFailed? ==> page.statistics.None? && page.complianceData.None? && page.recentActivities == []
    ensures db.Readable? ==> page.statistics.Some? && page.complianceData.Some?
    ensures db.Readable? ==> |page.recentActivities| == Min(ShowLimit, |db.tables.activityLog|)
    ensures db.Readable? ==> page.recentActivities == ToEntries(RecentActivities(db.tables.activityLog))
    ensures db.Readable? ==> page.statistics.value.averageCompletionTime == AverageCompletionTime(db.tables.audits)
    ensures db.Readable? ==> page.statistics.value == ComputeStatistics(db.tables)
    ensures db.Readable? ==> page.complianceData.value == Compliance(db.tables.audits, KeyByName(db.tables.statuses), monthStart)
  {
    match db
    case QueryFailed => DashboardPage(None, None, [])
    case Readable(d) =>
      DashboardPage(
        Some(ComputeStatistics(d)),
        Some(Compliance(d.audits, KeyByName(d.statuses), monthStart)),
        ToEntries(RecentActivities(d.activityLog)))
  }

  /** The page is all or nothing: statistics and compliance data come together, and the
      fallback carries no activities. */
  lemma NeverPartial(db: Queried, monthStart: int)
    ensures var page := Index(db, monthStart);
            (page.statistics.Some? <==> page.complianceData.Some?)
            && (page.statistics.None? ==> page.recentActivities == [])
  {
  }
}
