/** The login-failure lock: one upsert that is a state machine over time, and the rate it allows. */
module LoginLock {
  import opened Wrappers

  /** maxAttempts, lockSeconds and windowSeconds of one kind of attempt. */
  datatype Limits = Limits(maxAttempts: int, lockSeconds: int, windowSeconds: int)
  {
    function Lock(): int { lockSeconds * 1000 }

    function Window(): int { windowSeconds * 1000 }

    /** The most failures one window accepts. */
    function Most(): int { if maxAttempts <= 1 then 1 else maxAttempts }

    /** The shortest time between two windows. */
    function Spacing(): int { if Lock() <= Window() then Lock() else Window() }

    /** One full window, and one more for every spacing that fits into the span. */
    function Allowance(span: int): int
      requires Spacing() > 0
    {
      Most() * (1 + span / Spacing())
    }
  }

  /** An auth_attempts row; times are in milliseconds. */
  datatype Row = Row(attempts: int, windowStart: Option<int>, blockedUntil: Option<int>)

  /** The row that a successful login leaves. */
  const RESET := Row(0, None, None)

  predicate Locked(r: Row, now: int)
  {
    r.blockedUntil.Some? && r.blockedUntil.value > now
  }

  predicate Restarts(r: Row, now: int, lim: Limits)
  {
    && !Locked(r, now)
    && (r.windowStart.None? || r.blockedUntil.Some? || r.windowStart.value < now - lim.Window())
  }

  /** One failure: a locked row stays, a lapsed one starts over, any other counts up. */
  function Failed(row: Option<Row>, now: int, lim: Limits): Row
  {
    if row.Some? && Locked(row.value, now) then row.value
    else
      var over := row.None? || Restarts(row.value, now, lim);
      var attempts := if over then 1 else row.value.attempts + 1;
      Row(attempts,
          if over then Some(now) else row.value.windowStart,
          if attempts >= lim.maxAttempts then Some(now + lim.Lock()) else None)
  }

  // ---- The table ----

  class AuthAttempts {
    /** Rows by type and lower-cased key. */
    var rows: map<(int, string), Row>

    constructor ()
      ensures rows == map[]
    {
      rows := map[];
    }

    /** The upsert. Every column is computed from the row as it was, each by its own CASE. */
    method RecordFailedAttempt(key: (int, string), now: int, lim: Limits) returns (row: Row)
      modifies this
      ensures row == Failed(if key in old(rows) then Some(old(rows)[key]) else None, now, lim)
      ensures rows == old(rows)[key := row]
    {
      var lockedUntil := now + lim.lockSeconds * 1000;
      if key !in rows {
        row := Row(1, Some(now), if lim.maxAttempts <= 1 then Some(lockedUntil) else None);
        rows := rows[key := row];
        return;
      }
      var r := rows[key];
      var locked := r.blockedUntil.Some? && r.blockedUntil.value > now;
      var lapsed := r.windowStart.None? || (r.blockedUntil.Some? && r.blockedUntil.value <= now)
                    || r.windowStart.value < now - lim.windowSeconds * 1000;
      var attempts, windowStart, blockedUntil := r.attempts, r.windowStart, r.blockedUntil;
      if !locked {
        attempts := if lapsed then 1 else r.attempts + 1;
      }
      if !locked && lapsed {
        windowStart := Some(now);
      }
      if !locked {
        blockedUntil := if (if lapsed then 1 else r.attempts + 1) >= lim.maxAttempts then Some(lockedUntil) else None;
      }
      row := Row(attempts, windowStart, blockedUntil);
      rows := rows[key := row];
    }

    method ResetAttempt(key: (int, string))
      modifies this
      ensures rows == if key in old(rows) then old(rows)[key := RESET] else old(rows)
    {
      if key in rows {
        rows := rows[key := Row(0, None, None)];
      }
    }
  }

  // ---- What every stored row satisfies ----

  /** A row that the last failure, at or before a time, left. */
  ghost predicate RowOk(r: Row, at: int, lim: Limits)
  {
    && 1 <= r.attempts <= lim.Most()
    && (r.attempts >= lim.maxAttempts <==> r.blockedUntil.Some?)
    && r.windowStart.Some? && r.windowStart.value <= at
    && (r.blockedUntil.Some? ==> r.blockedUntil.value >= r.windowStart.value + lim.Lock())
  }

  ghost predicate Clean(row: Option<Row>)
  {
    row.None? || (row.value.windowStart.None? && row.value.blockedUntil.None?)
  }

  /** From a clean row or from a good one, with time not running back, a failure leaves a good row. */
  lemma FailedKeeps(row: Option<Row>, before: int, now: int, lim: Limits)
    requires Clean(row) || RowOk(row.value, before, lim)
    requires before <= now
    ensures RowOk(Failed(row, now, lim), now, lim)
    ensures row.Some? && Locked(row.value, now) ==> Failed(row, now, lim) == row.value
  {
  }

  // ---- What the limits mean ----

  /** A row without a lock starts over once its window has passed, or where it has none. */
  predicate Lapsed(r: Row, now: int, lim: Limits)
  {
    r.windowStart.None? || r.blockedUntil.Some? || now > r.windowStart.value + 1000 * lim.windowSeconds
  }

  /**
   An accepted failure counts on within its window and starts over after it; the one that reaches the limit
   locks for the lock's length, to the millisecond, and one below it locks nothing.
   */
  lemma FailureCounts(row: Option<Row>, now: int, lim: Limits, later: int)
    requires row.Some? ==> row.value.blockedUntil.None? || row.value.blockedUntil.value <= now
    requires later >= now
    ensures var r := Failed(row, now, lim);
            && r.attempts == (if row.None? || Lapsed(row.value, now, lim) then 1 else row.value.attempts + 1)
            && r.windowStart == (if row.None? || Lapsed(row.value, now, lim) then Some(now) else row.value.windowStart)
            && (Locked(r, later) <==> r.attempts >= lim.maxAttempts && later < now + 1000 * lim.lockSeconds)
  {
  }

  // ---- Traces ----

  function After(row: Option<Row>, times: seq<int>, lim: Limits): Option<Row>
  {
    if |times| == 0 then row
    else Some(Failed(After(row, times[..|times| - 1], lim), times[|times| - 1], lim))
  }

  /** The failures of a trace that arrive while the row is not locked. */
  function Accepted(row: Option<Row>, times: seq<int>, lim: Limits): int
  {
    if |times| == 0 then 0
    else
      var front, now := times[..|times| - 1], times[|times| - 1];
      var before := After(row, front, lim);
      Accepted(row, front, lim) + if before.Some? && Locked(before.value, now) then 0 else 1
  }

  predicate Nondecreasing(times: seq<int>)
  {
    forall i, j :: 0 <= i < j < |times| ==> times[i] <= times[j]
  }

  lemma RestartsFarApart(r: Row, before: int, now: int, lim: Limits)
    requires RowOk(r, before, lim) && Restarts(r, now, lim)
    ensures now >= r.windowStart.value + lim.Spacing()
  {
  }

  /** n full spacings fit between the start of a span and its current window, and n windows before it are paid for. */
  ghost predicate Bounded(accepted: int, r: Row, first: int, spare: int, n: nat, lim: Limits)
  {
    && r.windowStart.Some?
    && n * lim.Spacing() <= r.windowStart.value - first
    && accepted <= spare + n * lim.Most() + r.attempts
  }

  /** One more failure keeps the bookkeeping, with one more window when it starts one. */
  lemma BoundedStep(r: Row, before: int, now: int, first: int, accepted: int, spare: int, n: nat, lim: Limits)
    returns (n': nat)
    requires lim.Spacing() > 0 && RowOk(r, before, lim) && first <= now && before <= now
    requires Bounded(accepted, r, first, spare, n, lim)
    ensures Bounded(accepted + if Locked(r, now) then 0 else 1, Failed(Some(r), now, lim), first, spare, n', lim)
  {
    if Restarts(r, now, lim) {
      RestartsFarApart(r, before, now, lim);
      n' := n + 1;
      assert n' * lim.Spacing() == n * lim.Spacing() + lim.Spacing();
      assert n' * lim.Most() == n * lim.Most() + lim.Most();
    } else {
      n' := n;
    }
  }

  lemma {:induction false} RestartedRun(row: Option<Row>, times: seq<int>, lim: Limits) returns (n: nat)
    requires lim.Spacing() > 0 && Nondecreasing(times) && |times| > 0
    requires row.None? || Restarts(row.value, times[0], lim)
    ensures var r := After(row, times, lim);
            && r.Some? && RowOk(r.value, times[|times| - 1], lim)
            && Bounded(Accepted(row, times, lim), r.value, times[0], 0, n, lim)
  {
    var front, now := times[..|times| - 1], times[|times| - 1];
    if |front| == 0 {
      n := 0;
    } else {
      n := RestartedRun(row, front, lim);
      var mid, last := After(row, front, lim).value, front[|front| - 1];
      n := BoundedStep(mid, last, now, times[0], Accepted(row, front, lim), 0, n, lim);
      FailedKeeps(Some(mid), last, now, lim);
    }
  }

  lemma {:induction false} OneMore(n: int, q: int, m: int)
    requires m > 0 && n >= q + 1
    ensures n * m >= q * m + m
    decreases n - q
  {
    if n > q + 1 {
      OneMore(n - 1, q, m);
      assert n * m == (n - 1) * m + m;
    } else {
      assert (q + 1) * m == q * m + m;
    }
  }

  lemma FitsInSpan(n: nat, m: int, span: int)
    requires m > 0 && n * m <= span
    ensures n <= span / m
  {
    var q := span / m;
    assert q * m + span % m == span;
    if n >= q + 1 {
      OneMore(n, q, m);
    }
  }

  lemma BoundOfWindows(accepted: int, r: Row, first: int, last: int, spare: int, n: nat, lim: Limits)
    requires lim.Spacing() > 0 && RowOk(r, last, lim) && Bounded(accepted, r, first, spare, n, lim)
    ensures accepted <= spare + lim.Allowance(last - first)
  {
    assert n * lim.Spacing() <= last - first;
    AllowanceCovers(n, last - first, lim);
  }

  lemma AllowanceCovers(n: nat, span: int, lim: Limits)
    requires lim.Spacing() > 0 && n * lim.Spacing() <= span
    ensures n * lim.Most() + lim.Most() <= lim.Allowance(span)
  {
    var q, most := span / lim.Spacing(), lim.Most();
    FitsInSpan(n, lim.Spacing(), span);
    assert n * most <= q * most;
    assert most * (1 + q) == most + q * most;
  }

  /**
   A span of failures whose first one starts a window, as the first failure after a reset does, accepts at
   most one full window at its start and one more for each spacing that its length contains.
   */
  lemma RateBound(row: Option<Row>, times: seq<int>, lim: Limits)
    requires lim.Spacing() > 0 && Nondecreasing(times) && |times| > 0
    requires row.None? || Restarts(row.value, times[0], lim)
    ensures Accepted(row, times, lim) <= lim.Allowance(times[|times| - 1] - times[0])
  {
    var n := RestartedRun(row, times, lim);
    BoundOfWindows(Accepted(row, times, lim), After(row, times, lim).value, times[0], times[|times| - 1], 0, n, lim);
  }

  // ---- The limit locks ----

  lemma {:induction false} WindowCounts(times: seq<int>, lim: Limits)
    requires Nondecreasing(times) && 1 <= |times| <= lim.maxAttempts
    requires times[|times| - 1] - times[0] <= lim.Window()
    ensures After(None, times, lim)
            == Some(Row(|times|, Some(times[0]),
                        if |times| == lim.maxAttempts then Some(times[|times| - 1] + lim.Lock()) else None))
  {
    var front, now := times[..|times| - 1], times[|times| - 1];
    if |front| > 0 {
      WindowCounts(front, lim);
    } else {
      assert After(None, front, lim) == None;
    }
  }

  /**
   From the first failure on, a key is locked exactly when as many failures as the limit have come within one
   window, and then for the lock's length from the last of them.
   */
  lemma LimitLocks(times: seq<int>, later: int, lim: Limits)
    requires Nondecreasing(times) && 1 <= |times| <= lim.maxAttempts
    requires times[|times| - 1] - times[0] <= 1000 * lim.windowSeconds && later >= times[|times| - 1]
    ensures var r := After(None, times, lim);
            && r.Some? && Accepted(None, times, lim) == |times|
            && (Locked(r.value, later) <==>
                  |times| == lim.maxAttempts && later < times[|times| - 1] + 1000 * lim.lockSeconds)
  {
    WindowCounts(times, lim);
    AllAccepted(times, lim);
  }

  lemma {:induction false} AllAccepted(times: seq<int>, lim: Limits)
    requires Nondecreasing(times) && |times| <= lim.maxAttempts
    requires |times| > 0 ==> times[|times| - 1] - times[0] <= lim.Window()
    ensures Accepted(None, times, lim) == |times|
  {
    if |times| > 0 {
      var front := times[..|times| - 1];
      AllAccepted(front, lim);
      if |front| > 0 {
        WindowCounts(front, lim);
      } else {
        assert After(None, front, lim) == None;
      }
    }
  }

  // ---- A span that begins inside a window ----

  /** From this moment on, at least one spacing passes before the row can start another window unlocked. */
  predicate PlainBoundHolds(r: Row, first: int, lim: Limits)
  {
    || Locked(r, first)
    || Restarts(r, first, lim)
    || r.attempts + 1 >= lim.Most()
    || (r.windowStart.Some? && r.windowStart.value + lim.Window() + 1 >= first + lim.Spacing())
  }

  /** What an open window may add to the allowance of a span that begins inside it. */
  function Excess(r: Row, first: int, lim: Limits): int
  {
    if PlainBoundHolds(r, first, lim) then 0 else lim.Most() - 1 - r.attempts
  }

  /** The row has not moved: its lock still stands. */
  ghost predicate Waiting(accepted: int, r: Row, row: Row, first: int)
  {
    accepted == 0 && r == row && Locked(row, first)
  }

  /** The row still counts in the window that was open when the span began. */
  ghost predicate Counting(accepted: int, r: Row, row: Row, first: int, lim: Limits)
  {
    && !Locked(row, first) && !Restarts(row, first, lim)
    && r.windowStart == row.windowStart && accepted + row.attempts == r.attempts
    && (r.blockedUntil.Some? ==> r.blockedUntil.value >= first + lim.Lock())
    && (r.blockedUntil.None? && PlainBoundHolds(row, first, lim) ==>
          row.windowStart.value + lim.Window() + 1 >= first + lim.Spacing())
  }

  ghost predicate Tracked(accepted: int, r: Row, row: Row, first: int, n: nat, lim: Limits)
  {
    || Waiting(accepted, r, row, first)
    || (row.windowStart.Some? && Counting(accepted, r, row, first, lim))
    || Bounded(accepted, r, first, Excess(row, first, lim), n, lim)
  }

  lemma FirstTracked(row: Row, at: int, first: int, lim: Limits)
    requires lim.Spacing() > 0 && RowOk(row, at, lim) && at <= first
    ensures Tracked(if Locked(row, first) then 0 else 1, Failed(Some(row), first, lim), row, first, 0, lim)
  {
  }

  /** The first window after the open one: a spacing away, or within the excess. */
  lemma CountingStep(r: Row, row: Row, at: int, before: int, now: int, first: int, accepted: int, lim: Limits)
    returns (n: nat)
    requires lim.Spacing() > 0 && RowOk(row, at, lim) && RowOk(r, before, lim) && at <= first <= before <= now
    requires Counting(accepted, r, row, first, lim) && accepted >= 1
    ensures Tracked(accepted + if Locked(r, now) then 0 else 1, Failed(Some(r), now, lim), row, first, n, lim)
  {
    n := if Restarts(r, now, lim) && now - first >= lim.Spacing() then 1 else 0;
  }

  lemma TrackedStep(r: Row, row: Row, at: int, before: int, now: int, first: int, accepted: int, n: nat, lim: Limits)
    returns (n': nat)
    requires lim.Spacing() > 0 && RowOk(row, at, lim) && RowOk(r, before, lim) && at <= first <= before <= now
    requires Tracked(accepted, r, row, first, n, lim) && (accepted >= 1 || Waiting(accepted, r, row, first))
    ensures Tracked(accepted + if Locked(r, now) then 0 else 1, Failed(Some(r), now, lim), row, first, n', lim)
    ensures accepted >= 1 || !Locked(r, now) || Waiting(0, Failed(Some(r), now, lim), row, first)
  {
    if Waiting(accepted, r, row, first) {
      n' := 0;
    } else if row.windowStart.Some? && Counting(accepted, r, row, first, lim) {
      n' := CountingStep(r, row, at, before, now, first, accepted, lim);
    } else {
      n' := BoundedStep(r, before, now, first, accepted, Excess(row, first, lim), n, lim);
    }
  }

  lemma {:induction false} TrackedRun(row: Row, at: int, times: seq<int>, lim: Limits) returns (n: nat)
    requires lim.Spacing() > 0 && RowOk(row, at, lim) && Nondecreasing(times)
    requires |times| > 0 && at <= times[0]
    ensures var r, accepted := After(Some(row), times, lim), Accepted(Some(row), times, lim);
            && r.Some? && RowOk(r.value, times[|times| - 1], lim)
            && Tracked(accepted, r.value, row, times[0], n, lim)
            && accepted >= 0 && (accepted >= 1 || Waiting(accepted, r.value, row, times[0]))
  {
    hide Tracked, Waiting, PlainBoundHolds, Failed;
    var front, now := times[..|times| - 1], times[|times| - 1];
    if |front| == 0 {
      FirstTracked(row, at, now, lim);
      FailedKeeps(Some(row), at, now, lim);
      WaitingStart(row, at, now, lim);
      n := 0;
    } else {
      n := TrackedRun(row, at, front, lim);
      var mid, last := After(Some(row), front, lim).value, front[|front| - 1];
      FailedKeeps(Some(mid), last, now, lim);
      n := TrackedStep(mid, row, at, last, now, times[0], Accepted(Some(row), front, lim), n, lim);
    }
  }

  lemma WaitingStart(row: Row, at: int, first: int, lim: Limits)
    ensures Locked(row, first) ==> Waiting(0, Failed(Some(row), first, lim), row, first)
  {
  }

  lemma TrackedBound(accepted: int, r: Row, row: Row, at: int, first: int, last: int, n: nat, lim: Limits)
    requires lim.Spacing() > 0 && RowOk(row, at, lim) && RowOk(r, last, lim) && first <= last
    requires Tracked(accepted, r, row, first, n, lim)
    ensures accepted <= Excess(row, first, lim) + lim.Allowance(last - first)
  {
    AllowanceCovers(0, last - first, lim);
    if Bounded(accepted, r, first, Excess(row, first, lim), n, lim) {
      BoundOfWindows(accepted, r, first, last, Excess(row, first, lim), n, lim);
    }
  }

  /** From any row between two resets: the allowance of the span, and the excess of the open window if there is one. */
  lemma RateBoundAnywhere(row: Row, at: int, times: seq<int>, lim: Limits)
    requires lim.Spacing() > 0 && RowOk(row, at, lim) && Nondecreasing(times)
    requires |times| > 0 && at <= times[0]
    ensures Accepted(Some(row), times, lim)
            <= Excess(row, times[0], lim) + lim.Allowance(times[|times| - 1] - times[0])
  {
    hide Accepted, After, Tracked, Excess;
    var n := TrackedRun(row, at, times, lim);
    TrackedBound(Accepted(Some(row), times, lim), After(Some(row), times, lim).value, row, at,
                 times[0], times[|times| - 1], n, lim);
  }

  // ---- The excess is reached ----

  /** A trace followed by n failures at one moment. */
  function Burst(times: seq<int>, now: int, n: nat): (longer: seq<int>)
    ensures |longer| == |times| + n
    ensures forall i :: 0 <= i < |times| ==> longer[i] == times[i]
    ensures forall i :: |times| <= i < |longer| ==> longer[i] == now
  {
    if n == 0 then times else Burst(times, now, n - 1) + [now]
  }

  lemma BurstFront(times: seq<int>, now: int, n: nat)
    requires n > 0
    ensures var longer := Burst(times, now, n);
            longer[..|longer| - 1] == Burst(times, now, n - 1) && longer[|longer| - 1] == now
  {
  }

  lemma OpenWindowCounts(r: Row, now: int, lim: Limits)
    requires r.blockedUntil.None? && r.windowStart.Some? && r.windowStart.value >= now - lim.Window()
    ensures !Locked(r, now)
    ensures Failed(Some(r), now, lim)
            == Row(r.attempts + 1, r.windowStart,
                   if r.attempts + 1 >= lim.maxAttempts then Some(now + lim.Lock()) else None)
  {
  }

  /** Failures at one moment of an open window count up one by one, as long as the limit is not passed. */
  lemma {:induction false} BurstCounts(row: Option<Row>, times: seq<int>, now: int, n: nat, r: Row, lim: Limits)
    requires After(row, times, lim) == Some(r) && r.blockedUntil.None? && r.windowStart.Some?
    requires r.windowStart.value >= now - lim.Window() && r.attempts + n <= lim.maxAttempts
    ensures var r' := After(row, Burst(times, now, n), lim);
            && r'.Some? && r'.value.attempts == r.attempts + n && r'.value.windowStart == r.windowStart
            && (r.attempts + n < lim.maxAttempts || n == 0 ==> r'.value.blockedUntil.None?)
    ensures Accepted(row, Burst(times, now, n), lim) == Accepted(row, times, lim) + n
  {
    hide Failed, Locked;
    if n > 0 {
      BurstCounts(row, times, now, n - 1, r, lim);
      BurstFront(times, now, n);
      OpenWindowCounts(After(row, Burst(times, now, n - 1), lim).value, now, lim);
    }
  }

  /** A full window's worth of failures at the first moment after an open window. */
  lemma FreshBurst(row: Option<Row>, times: seq<int>, now: int, r: Row, lim: Limits)
    requires lim.maxAttempts > 1 && lim.Window() > 0
    requires After(row, times, lim) == Some(r) && Restarts(r, now, lim)
    ensures Accepted(row, Burst(times, now, lim.maxAttempts), lim) == Accepted(row, times, lim) + lim.maxAttempts
  {
    hide Burst;
    var one := Burst(times, now, 1);
    assert Burst(times, now, 0) == times;
    BurstFront(times, now, 1);
    assert After(row, one, lim) == Some(Row(1, Some(now), None));
    BurstCounts(row, one, now, lim.maxAttempts - 1, Row(1, Some(now), None), lim);
    BurstOfBurst(times, now, lim.maxAttempts - 1);
  }

  lemma {:induction false} BurstOfBurst(times: seq<int>, now: int, n: nat)
    ensures Burst(Burst(times, now, 1), now, n) == Burst(times, now, n + 1)
  {
    if n > 0 {
      BurstOfBurst(times, now, n - 1);
    } else {
      assert Burst(times, now, 0) == times;
    }
  }

  /** The trace that uses up what the open window has left without locking, and then a whole window at once. */
  function Worst(row: Row, first: int, lim: Limits): (times: seq<int>)
    requires row.windowStart.Some? && row.attempts + 1 < lim.Most()
    ensures |times| > 0 && times[0] == first && times[|times| - 1] == row.windowStart.value + lim.Window() + 1
    ensures row.windowStart.value + lim.Window() + 1 >= first ==> Nondecreasing(times)
  {
    Burst(Burst([], first, lim.Most() - 1 - row.attempts), row.windowStart.value + lim.Window() + 1, lim.Most())
  }

  /** Where the plain bound does not hold, that trace takes the allowance and the whole excess. */
  lemma ExcessIsReached(row: Row, at: int, first: int, lim: Limits)
    requires lim.Spacing() > 0 && RowOk(row, at, lim) && at <= first && !PlainBoundHolds(row, first, lim)
    ensures var times := Worst(row, first, lim);
            && Nondecreasing(times) && times[0] == first
            && Accepted(Some(row), times, lim)
               == Excess(row, first, lim) + lim.Allowance(times[|times| - 1] - times[0])
            && Excess(row, first, lim) > 0
  {
    hide Accepted, After, Burst;
    var k, u := lim.Most() - 1 - row.attempts, row.windowStart.value + lim.Window() + 1;
    assert After(Some(row), [], lim) == Some(row) && Accepted(Some(row), [], lim) == 0 by {
      NothingYet(row, lim);
    }
    BurstCounts(Some(row), [], first, k, row, lim);
    var opening := Burst([], first, k);
    FreshBurst(Some(row), opening, u, After(Some(row), opening, lim).value, lim);
    OneWindow(u - first, lim);
  }

  lemma NothingYet(row: Row, lim: Limits)
    ensures After(Some(row), [], lim) == Some(row) && Accepted(Some(row), [], lim) == 0
  {
  }

  lemma OneWindow(span: int, lim: Limits)
    requires 0 <= span < lim.Spacing()
    ensures lim.Allowance(span) == lim.Most()
  {
    SmallQuotient(span, lim.Spacing());
  }

  lemma SmallQuotient(span: int, m: int)
    requires 0 <= span < m
    ensures span / m == 0
  {
    var q := span / m;
    assert q * m + span % m == span;
    if q >= 1 {
      OneMore(q, 0, m);
    }
  }

  /**
   Between two resets the plain bound holds of every span that begins at a moment exactly when the row is
   locked then, starts a window then, is one failure from its limit, or stays open for a whole spacing.
   */
  lemma RateBoundExactly(row: Row, at: int, first: int, lim: Limits)
    requires lim.Spacing() > 0 && RowOk(row, at, lim) && at <= first
    ensures (forall times :: Nondecreasing(times) && |times| > 0 && times[0] == first ==>
               Accepted(Some(row), times, lim) <= lim.Allowance(times[|times| - 1] - first))
            <==> PlainBoundHolds(row, first, lim)
  {
    hide Accepted, After, RowOk, Nondecreasing;
    if PlainBoundHolds(row, first, lim) {
      forall times | Nondecreasing(times) && |times| > 0 && times[0] == first
        ensures Accepted(Some(row), times, lim) <= lim.Allowance(times[|times| - 1] - first)
      {
        RateBoundAnywhere(row, at, times, lim);
      }
    } else {
      WindowIsOpen(row, at, lim);
      ExcessIsReached(row, at, first, lim);
      var times := Worst(row, first, lim);
      assert Accepted(Some(row), times, lim) > lim.Allowance(times[|times| - 1] - first);
    }
  }

  lemma WindowIsOpen(row: Row, at: int, lim: Limits)
    requires RowOk(row, at, lim)
    ensures row.windowStart.Some?
  {
  }

  /** Such a row comes up: one failure, and a span that begins as its window is about to end, four for three. */
  lemma MidWindowExceeds()
    ensures var lim, times := Limits(3, 1, 1), [1000, 1001, 1001, 1001];
            && After(None, [0], lim) == Some(Row(1, Some(0), None))
            && !PlainBoundHolds(Row(1, Some(0), None), 1000, lim) && Nondecreasing(times)
            && Accepted(After(None, [0], lim), times, lim) == 4
            && lim.Allowance(times[3] - times[0]) == 3
  {
    var lim, row := Limits(3, 1, 1), Some(Row(1, Some(0), None));
    assert [0][..0] == [];
    var t1, t2, t3, t4 := [1000], [1000, 1001], [1000, 1001, 1001], [1000, 1001, 1001, 1001];
    assert t4[..3] == t3 && t3[..2] == t2 && t2[..1] == t1 && t1[..0] == [];
    assert After(row, t1, lim) == Some(Row(2, Some(0), None));
    assert After(row, t2, lim) == Some(Row(1, Some(1001), None));
    assert After(row, t3, lim) == Some(Row(2, Some(1001), None));
    assert Accepted(row, t3, lim) == 3;
  }
}
