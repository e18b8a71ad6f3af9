/** The Supabase function's verification of one OTP request: each call runs as separate
    steps (read, count the attempt, compare, mark), interleaved with other calls and with
    resends; only the counting procedure holds the row lock. */
module SupabaseVerify {
  type Handler = nat
  type Code = string // stands for its hash, which is injective

  datatype Status = Pending | Sent | Failed | Verified | Expired

  datatype OtpRow = OtpRow(hash: Code, status: Status, attempts: nat, maxAttempts: nat, expiresAt: int)

  /** Where a verify call stands, with the row as it was read. */
  datatype Phase =
    | Overdue                         // read past its deadline; the update to expired is next
    | Read(snapshot: OtpRow)
    | MayCompare(snapshot: OtpRow)
    | Matched
    | Done

  datatype Call = Call(code: Code, phase: Phase)

  /** The row, the verify calls, and, kept for the statements only, which calls were let
      through by the counter, which were let through because the procedure call failed,
      and which have compared their code. */
  datatype State = State(row: OtpRow, calls: map<Handler, Call>,
                         counted: set<Handler>, uncounted: set<Handler>, compared: set<Handler>)

  datatype Step =
    | ReadRow(h: Handler, code: Code, now: int)
    | MarkExpired(h: Handler)
    | RecordAttempt(h: Handler, rpcUp: bool)
    | Compare(h: Handler)
    | MarkVerified(h: Handler)
    | Resend(code: Code, expiresAt: int)   // the update of a resend, its checks passed

  /** `record_otp_attempt`: the row after it, and whether it answers `exceeded`. */
  function Recorded(row: OtpRow): OtpRow {
    var attempts := row.attempts + 1;
    row.(attempts := attempts, status := if attempts >= row.maxAttempts then Failed else row.status)
  }

  predicate AttemptExceeded(row: OtpRow) {
    row.attempts + 1 >= row.maxAttempts
  }

  function Move(s: State, h: Handler, phase: Phase): State
    requires h in s.calls
  {
    s.(calls := s.calls[h := s.calls[h].(phase := phase)])
  }

  /** A step whose call is not at that point changes nothing. */
  function Next(s: State, step: Step): State {
    match step
    case ReadRow(h, code, now) =>
      if h in s.calls then s
      else if s.row.status == Verified then s.(calls := s.calls[h := Call(code, Done)])
      else if s.row.expiresAt < now then s.(calls := s.calls[h := Call(code, Overdue)])
      else s.(calls := s.calls[h := Call(code, Read(s.row))])
    case MarkExpired(h) =>
      if h !in s.calls || !s.calls[h].phase.Overdue? then s
      else Move(s, h, Done).(row := s.row.(status := Expired))
    case RecordAttempt(h, rpcUp) =>
      if h !in s.calls || !s.calls[h].phase.Read? then s
      else if !rpcUp then Move(s, h, MayCompare(s.calls[h].phase.snapshot)).(uncounted := s.uncounted + {h})
      else if AttemptExceeded(s.row) then Move(s, h, Done).(row := Recorded(s.row))
      else Move(s, h, MayCompare(s.calls[h].phase.snapshot)).(row := Recorded(s.row), counted := s.counted + {h})
    case Compare(h) =>
      if h !in s.calls || !s.calls[h].phase.MayCompare? then s
      else
        Move(s, h, if s.calls[h].code == s.calls[h].phase.snapshot.hash then Matched else Done)
          .(compared := s.compared + {h})
    case MarkVerified(h) =>
      if h !in s.calls || !s.calls[h].phase.Matched? then s
      else Move(s, h, Done).(row := s.row.(status := Verified))
    case Resend(code, expiresAt) =>
      s.(row := s.row.(hash := code, status := Sent, expiresAt := expiresAt))
  }

  function Initial(row: OtpRow): State {
    State(row, map[], {}, {}, {})
  }

  /** The state after the first n steps. */
  function Run(row: OtpRow, steps: seq<Step>, n: nat): State
    requires n <= |steps|
  {
    if n == 0 then Initial(row) else Next(Run(row, steps, n - 1), steps[n - 1])
  }

  predicate LetThrough(s: State, h: Handler) {
    h in s.counted || h in s.uncounted
  }

  /** Only calls let through, one way or the other, compare. */
  predicate CallOk(s: State, h: Handler) {
    (LetThrough(s, h) ==> h in s.calls && !s.calls[h].phase.Read? && !s.calls[h].phase.Overdue?) &&
    (h in s.calls && s.calls[h].phase.MayCompare? ==> LetThrough(s, h)) &&
    (h in s.compared ==> LetThrough(s, h))
  }

  function Cap(maxAttempts: nat): nat {
    if maxAttempts == 0 then 0 else maxAttempts - 1
  }

  /** The counter has let through one call for each of its values below the maximum. */
  predicate CountOk(s: State, maxAttempts: nat) {
    s.row.maxAttempts == maxAttempts &&
    |s.counted| == if s.row.attempts < maxAttempts then s.row.attempts else Cap(maxAttempts)
  }

  ghost predicate Inv(s: State, maxAttempts: nat) {
    CountOk(s, maxAttempts) && forall h :: CallOk(s, h)
  }

  lemma NextKeepsCall(s: State, step: Step, h: Handler)
    requires CallOk(s, h)
    ensures CallOk(Next(s, step), h)
  {
    match step
    case ReadRow(_, _, _) =>
    case MarkExpired(_) =>
    case RecordAttempt(_, _) =>
    case Compare(_) =>
    case MarkVerified(_) =>
    case Resend(_, _) =>
  }

  lemma NextKeepsCount(s: State, step: Step, maxAttempts: nat)
    requires CountOk(s, maxAttempts) && (step.RecordAttempt? ==> CallOk(s, step.h))
    ensures CountOk(Next(s, step), maxAttempts)
  {
    match step
    case ReadRow(_, _, _) =>
    case MarkExpired(_) =>
    case RecordAttempt(h, _) => assert h !in s.counted ==> |s.counted + {h}| == |s.counted| + 1;
    case Compare(_) =>
    case MarkVerified(_) =>
    case Resend(_, _) =>
  }

  lemma NextKeepsInv(s: State, step: Step, maxAttempts: nat)
    requires Inv(s, maxAttempts)
    ensures Inv(Next(s, step), maxAttempts)
  {
    NextKeepsCount(s, step, maxAttempts);
    forall h: Handler ensures CallOk(Next(s, step), h) {
      NextKeepsCall(s, step, h);
    }
  }

  lemma {:induction false} InvHolds(row: OtpRow, steps: seq<Step>, n: nat)
    requires n <= |steps| && row.attempts == 0
    ensures Inv(Run(row, steps, n), row.maxAttempts)
  {
    if n == 0 {
    } else {
      InvHolds(row, steps, n - 1);
      NextKeepsInv(Run(row, steps, n - 1), steps[n - 1], row.maxAttempts);
    }
  }

  lemma UnionSize(a: set<Handler>, b: set<Handler>, c: set<Handler>)
    requires c <= a + b
    ensures |c| <= |a| + |b|
  {
    assert |a + b| <= |a| + |b|;
    assert a + b == c + ((a + b) - c);
  }

  /** In every interleaving a request is compared with at most maxAttempts - 1 codes, plus
      one for each call whose counting procedure failed; resends do not add to that. */
  lemma ComparisonsBounded(row: OtpRow, steps: seq<Step>, n: nat)
    requires n <= |steps| && row.attempts == 0
    ensures var s := Run(row, steps, n);
            |s.compared| <= |s.uncounted| + Cap(row.maxAttempts)
  {
    InvHolds(row, steps, n);
    var s := Run(row, steps, n);
    forall h | h in s.compared ensures h in s.counted + s.uncounted {
      assert CallOk(s, h);
    }
    UnionSize(s.counted, s.uncounted, s.compared);
  }

  /** With no failing procedure call, no call is let through uncounted. */
  lemma {:induction false} NothingUncounted(row: OtpRow, steps: seq<Step>, n: nat)
    requires n <= |steps|
    requires forall i :: 0 <= i < n ==> steps[i].RecordAttempt? ==> steps[i].rpcUp
    ensures Run(row, steps, n).uncounted == {}
  {
    if n == 0 {
    } else {
      NothingUncounted(row, steps, n - 1);
    }
  }

  /** So, when every procedure call succeeds, at most maxAttempts - 1 comparisons ever. */
  lemma AttemptCap(row: OtpRow, steps: seq<Step>, n: nat)
    requires n <= |steps| && row.attempts == 0 && 1 <= row.maxAttempts
    requires forall i :: 0 <= i < n ==> steps[i].RecordAttempt? ==> steps[i].rpcUp
    ensures |Run(row, steps, n).compared| <= row.maxAttempts - 1
  {
    ComparisonsBounded(row, steps, n);
    NothingUncounted(row, steps, n);
  }

  /** The counter only grows; a resend gives a new code and no new attempts. */
  lemma {:induction false} AttemptsOnlyGrow(row: OtpRow, steps: seq<Step>, m: nat, n: nat)
    requires m <= n <= |steps|
    ensures Run(row, steps, m).row.attempts <= Run(row, steps, n).row.attempts
    ensures Run(row, steps, n).row.maxAttempts == row.maxAttempts
  {
    if m < n {
      AttemptsOnlyGrow(row, steps, m, n - 1);
    } else if n > 0 {
      AttemptsOnlyGrow(row, steps, n - 1, n - 1);
    }
  }

  /** Once the counter has reached maxAttempts - 1, no later counted call is let through,
      whatever resends come between. */
  lemma {:induction false} LockedForGood(row: OtpRow, steps: seq<Step>, m: nat, n: nat)
    requires m <= n <= |steps|
    requires Run(row, steps, m).row.attempts + 1 >= row.maxAttempts
    ensures Run(row, steps, n).counted == Run(row, steps, m).counted
  {
    if m == n {
    } else {
      LockedForGood(row, steps, m, n - 1);
      AttemptsOnlyGrow(row, steps, m, n - 1);
    }
  }

  /** A failing procedure call lifts the cap: each such call compares, at any count. */
  lemma UncountedCallCompares(s: State, h: Handler)
    requires h in s.calls && s.calls[h].phase.Read?
    ensures var s' := Next(Next(s, RecordAttempt(h, false)), Compare(h));
            h in s'.compared && s'.row == s.row
  {
  }

  /* ---- Which codes match ---- */

  /** Step i is the reading of the row by call h. */
  predicate ReadsAt(row: OtpRow, steps: seq<Step>, i: nat, h: Handler)
    requires i < |steps|
  {
    steps[i].ReadRow? && steps[i].h == h && h !in Run(row, steps, i).calls
  }

  /** What call h knows of the row it read, and of its submitted code. */
  predicate KnowsRow(call: Call, code: Code, read: OtpRow) {
    call.code == code &&
    match call.phase
    case Read(snapshot) => snapshot == read
    case MayCompare(snapshot) => snapshot == read
    case Matched => code == read.hash
    case _ => true
  }

  /** The reading found a request that could be verified: not verified yet, and in time. */
  predicate ReadsOpen(row: OtpRow, steps: seq<Step>, i: nat)
    requires i < |steps| && steps[i].ReadRow?
  {
    var read := Run(row, steps, i).row;
    read.status != Verified && steps[i].now <= read.expiresAt
  }

  /** What a call can still do, by what its reading found. */
  predicate PhaseFits(phase: Phase, verified: bool, overdue: bool) {
    (verified ==> phase.Done?) && (!verified && overdue ==> phase.Overdue? || phase.Done?)
  }

  predicate OnCourse(s: State, h: Handler, verified: bool, overdue: bool) {
    h in s.calls && PhaseFits(s.calls[h].phase, verified, overdue) && (verified || overdue ==> h !in s.compared)
  }

  lemma NextKeepsCourse(s: State, step: Step, h: Handler, verified: bool, overdue: bool)
    requires OnCourse(s, h, verified, overdue)
    ensures OnCourse(Next(s, step), h, verified, overdue)
  {
  }

  lemma ReadingSetsCourse(s: State, h: Handler, code: Code, now: int)
    requires h !in s.calls && h !in s.compared
    ensures OnCourse(Next(s, ReadRow(h, code, now)), h, s.row.status == Verified, s.row.expiresAt < now)
  {
  }

  lemma {:induction false} CallKeepsCourse(row: OtpRow, steps: seq<Step>, i: nat, n: nat, h: Handler)
    requires i < n <= |steps| && ReadsAt(row, steps, i, h)
    ensures var read := Run(row, steps, i).row;
            OnCourse(Run(row, steps, n), h, read.status == Verified, read.expiresAt < steps[i].now)
  {
    var read := Run(row, steps, i).row;
    if n == i + 1 {
      NotYetCompared(row, steps, i, h);
      ReadingSetsCourse(Run(row, steps, i), h, steps[i].code, steps[i].now);
    } else {
      CallKeepsCourse(row, steps, i, n - 1, h);
      NextKeepsCourse(Run(row, steps, n - 1), steps[n - 1], h, read.status == Verified, read.expiresAt < steps[i].now);
    }
  }

  lemma {:induction false} NotYetCompared(row: OtpRow, steps: seq<Step>, n: nat, h: Handler)
    requires n <= |steps| && h !in Run(row, steps, n).calls
    ensures h !in Run(row, steps, n).compared
  {
    if n == 0 {
    } else {
      NotYetCompared(row, steps, n - 1, h);
    }
  }

  /** In every interleaving a call that read the row after its deadline, or read it verified,
      never compares its code, and verifies nothing; an overdue one, unverified, can do no
      more than mark the row expired. */
  lemma ClosedReadingNeverCompares(row: OtpRow, steps: seq<Step>, i: nat, n: nat, h: Handler)
    requires i < n <= |steps| && ReadsAt(row, steps, i, h) && !ReadsOpen(row, steps, i)
    ensures var s := Run(row, steps, n);
            h !in s.compared && h in s.calls &&
            (s.calls[h].phase.Done? || (s.calls[h].phase.Overdue? && Run(row, steps, i).row.status != Verified)) &&
            Next(s, MarkVerified(h)) == s &&
            (s.calls[h].phase.Overdue? ==> Next(s, MarkExpired(h)).row == s.row.(status := Expired))
  {
    CallKeepsCourse(row, steps, i, n, h);
  }

  lemma NextKnowsRow(s: State, step: Step, h: Handler, code: Code, read: OtpRow)
    requires h in s.calls && KnowsRow(s.calls[h], code, read)
    ensures h in Next(s, step).calls && KnowsRow(Next(s, step).calls[h], code, read)
  {
  }

  /** From its reading on, a call keeps the row it read, and is matched only if its code is
      the hash of that row. */
  lemma {:induction false} CallKnowsRow(row: OtpRow, steps: seq<Step>, i: nat, n: nat, h: Handler)
    requires i < n <= |steps| && ReadsAt(row, steps, i, h)
    ensures h in Run(row, steps, n).calls && KnowsRow(Run(row, steps, n).calls[h], steps[i].code, Run(row, steps, i).row)
  {
    if n == i + 1 {
    } else {
      CallKnowsRow(row, steps, i, n - 1, h);
      NextKnowsRow(Run(row, steps, n - 1), steps[n - 1], h, steps[i].code, Run(row, steps, i).row);
    }
  }

  /** Every call has read the row at some step. */
  lemma {:induction false} FindReading(row: OtpRow, steps: seq<Step>, n: nat, h: Handler) returns (i: nat)
    requires n <= |steps| && h in Run(row, steps, n).calls
    ensures i < n && ReadsAt(row, steps, i, h)
  {
    if h in Run(row, steps, n - 1).calls {
      i := FindReading(row, steps, n - 1, h);
    } else {
      i := n - 1;
    }
  }

  /** The code sent last before step n: that of the last resend, or the first one. */
  function LastCode(row: OtpRow, steps: seq<Step>, n: nat): Code
    requires n <= |steps|
  {
    if n == 0 then row.hash
    else if steps[n - 1].Resend? then steps[n - 1].code
    else LastCode(row, steps, n - 1)
  }

  lemma {:induction false} RowHoldsLastCode(row: OtpRow, steps: seq<Step>, n: nat)
    requires n <= |steps|
    ensures Run(row, steps, n).row.hash == LastCode(row, steps, n)
  {
    if n == 0 {
    } else {
      RowHoldsLastCode(row, steps, n - 1);
    }
  }

  /** In every interleaving a comparison matches if and only if the submitted code is the
      one sent last before the call read the row. So an old code is accepted exactly when
      the reading came before the resend, and a new one when it came after. */
  lemma MatchesIff(row: OtpRow, steps: seq<Step>, i: nat, n: nat, h: Handler)
    requires i < n < |steps| && ReadsAt(row, steps, i, h) && steps[n] == Compare(h)
    requires h in Run(row, steps, n).calls && Run(row, steps, n).calls[h].phase.MayCompare?
    ensures h in Run(row, steps, n + 1).calls
    ensures Run(row, steps, n + 1).calls[h].phase == Matched <==> steps[i].code == LastCode(row, steps, i)
  {
    CallKnowsRow(row, steps, i, n, h);
    RowHoldsLastCode(row, steps, i);
  }

  lemma MarkNeedsMatch(row: OtpRow, steps: seq<Step>, n: nat) returns (h: Handler, i: nat)
    requires n < |steps| && Run(row, steps, n).row.status != Verified && Run(row, steps, n + 1).row.status == Verified
    ensures i < n && steps[n] == MarkVerified(h) && ReadsAt(row, steps, i, h)
    ensures steps[i].code == LastCode(row, steps, i) && ReadsOpen(row, steps, i)
  {
    h := steps[n].h;
    i := FindReading(row, steps, n, h);
    CallKnowsRow(row, steps, i, n, h);
    CallKeepsCourse(row, steps, i, n, h);
    RowHoldsLastCode(row, steps, i);
  }

  /** Nothing is verified without the right code, in time: a request that has become verified
      was marked so by a call whose code was the one sent last before that call read the row,
      and which read it unverified and not past its deadline. */
  lemma {:induction false} VerifiedNeedsCode(row: OtpRow, steps: seq<Step>, n: nat) returns (k: nat, h: Handler, i: nat)
    requires n <= |steps| && row.status != Verified && Run(row, steps, n).row.status == Verified
    ensures i < k < n && steps[k] == MarkVerified(h) && ReadsAt(row, steps, i, h)
    ensures steps[i].code == LastCode(row, steps, i) && ReadsOpen(row, steps, i)
  {
    if Run(row, steps, n - 1).row.status == Verified {
      k, h, i := VerifiedNeedsCode(row, steps, n - 1);
    } else {
      k := n - 1;
      h, i := MarkNeedsMatch(row, steps, k);
    }
  }

  /** What the counting procedure writes: the counter always, the status past the maximum. */
  lemma AttemptWrites(row: OtpRow)
    ensures Recorded(row) == OtpRow(row.hash, if row.maxAttempts <= row.attempts + 1 then Failed else row.status,
                                    row.attempts + 1, row.maxAttempts, row.expiresAt)
    ensures AttemptExceeded(row) <==> row.maxAttempts <= row.attempts + 1
  {
  }

  /** A resend marks the row sent, under the new code and deadline; the attempts stay. */
  lemma ResendWrites(s: State, code: Code, expiresAt: int)
    ensures Next(s, Resend(code, expiresAt)) ==
      s.(row := OtpRow(code, Sent, s.row.attempts, s.row.maxAttempts, expiresAt))
  {
  }

  /** The state after a verify call that no other step interrupts. */
  function AfterCall(s: State, h: Handler, code: Code, now: int): State {
    var read := Next(s, ReadRow(h, code, now));
    var expired := Next(read, MarkExpired(h));
    Next(Next(Next(expired, RecordAttempt(h, true)), Compare(h)), MarkVerified(h))
  }

  /** A call by itself verifies if and only if the row is not verified yet, is in time, has
      an attempt left, and has the code's hash; an overdue one is marked expired and counts
      nothing, and every other one is counted. */
  lemma AloneVerifiesIff(s: State, h: Handler, code: Code, now: int)
    requires h !in s.calls && s.row.status != Verified
    ensures var row', row := AfterCall(s, h, code, now).row, s.row;
            (row'.status == Verified <==>
              now <= row.expiresAt && row.attempts + 1 < row.maxAttempts && code == row.hash) &&
            (row.expiresAt < now ==> row' == row.(status := Expired)) &&
            (now <= row.expiresAt ==> row'.attempts == row.attempts + 1) &&
            (now <= row.expiresAt && row.maxAttempts <= row.attempts + 1 ==> row'.status == Failed)
  {
    var read := Next(s, ReadRow(h, code, now));
    if s.row.expiresAt < now {
      assert Next(read, MarkExpired(h)).calls[h].phase == Done;
    } else {
      assert Next(read, MarkExpired(h)) == read;
    }
  }

  /** So a call that read the row before a resend succeeds with the old code, and marks the
      request verified. */
  lemma OldCodeAfterResend(row: OtpRow, newCode: Code, h: Handler, now: int, later: int)
    requires row.status != Verified && now <= row.expiresAt && row.attempts + 1 < row.maxAttempts
    ensures var steps := [ReadRow(h, row.hash, now), Resend(newCode, later), RecordAttempt(h, true), Compare(h), MarkVerified(h)];
            Run(row, steps, 5).row.status == Verified && Run(row, steps, 5).row.hash == newCode
  {
    var steps := [ReadRow(h, row.hash, now), Resend(newCode, later), RecordAttempt(h, true), Compare(h), MarkVerified(h)];
    var s1 := Run(row, steps, 1);
    assert s1 == Next(Run(row, steps, 0), steps[0]) && s1.calls[h].phase == Read(row);
    var s2 := Run(row, steps, 2);
    assert s2 == Next(s1, steps[1]);
    var s3 := Run(row, steps, 3);
    assert s3 == Next(s2, steps[2]) && s3.calls[h].phase == MayCompare(row);
    MatchesIff(row, steps, 0, 3, h);
    assert Run(row, steps, 5) == Next(Run(row, steps, 4), steps[4]);
  }

  /** The stored procedure on its row, under the row lock. */
  class OtpRequest {
    var hash: Code
    var status: Status
    var attempts: nat
    var maxAttempts: nat
    var expiresAt: int

    function View(): OtpRow
      reads this
    {
      OtpRow(hash, status, attempts, maxAttempts, expiresAt)
    }

    constructor (row: OtpRow)
      ensures View() == row
    {
      hash, status, attempts, maxAttempts, expiresAt := row.hash, row.status, row.attempts, row.maxAttempts, row.expiresAt;
    }

    method RecordOtpAttempt() returns (newAttempts: nat, exceeded: bool)
      modifies this
      ensures View() == Recorded(old(View()))
      ensures newAttempts == old(attempts) + 1 && exceeded == AttemptExceeded(old(View()))
    {
      newAttempts := attempts + 1;
      if newAttempts >= maxAttempts {
        attempts, status := newAttempts, Failed;
        return newAttempts, true;
      } else {
        attempts := newAttempts;
        return newAttempts, false;
      }
    }
  }
}
