/** The store of outstanding codes: one entry for each (application, phone), in its two
    forms. In Redis an entry is a JSON value under a key with an expiry, rewritten after
    each wrong try with the remaining time to live; in process memory it is an object,
    updated in place. Times are in milliseconds, a time to live in whole seconds.
    A code stands for its hash, which is injective. */
module OtpStore {
  import opened Prelude

  type Code = string

  /** `TTL` answers in whole seconds. How it rounds is Redis's business: both ways are covered. */
  datatype TtlRounding = Down | Nearest

  datatype Mode = Memory | Redis(ttl: TtlRounding)

  datatype Entry = Entry(hash: Code, request: string, attempts: nat, expires: int)

  datatype Verdict =
    | NotFound                                                      // expired, or never requested
    | Incorrect(request: string, attempts: nat, remaining: int)
    | Exceeded(request: string, attempts: nat)
    | Correct(request: string, attempts: nat)

  function StoreOtp(code: Code, request: string, ttlSeconds: nat, now: int): Entry {
    Entry(code, request, 0, now + ttlSeconds * 1000)
  }

  /** The memory form compares `now <= expires_at`; Redis drops a key at its expiry. */
  predicate Live(mode: Mode, e: Entry, now: int) {
    if mode.Memory? then now <= e.expires else now < e.expires
  }

  function TtlReply(rounding: TtlRounding, remaining: nat): nat {
    if rounding.Down? then remaining / 1000 else (remaining + 500) / 1000
  }

  /** A wrong try at this time is recorded: always in memory; in Redis only while `TTL`
      answers more than zero, the guard of the write-back. */
  predicate Recorded(mode: Mode, e: Entry, now: int) {
    mode.Memory? || (now < e.expires && TtlReply(mode.ttl, e.expires - now) > 0)
  }

  function AfterWrongTry(mode: Mode, e: Entry, now: int): Entry
    requires Live(mode, e, now)
  {
    if !Recorded(mode, e, now) then e
    else if mode.Memory? then e.(attempts := e.attempts + 1)
    else e.(attempts := e.attempts + 1, expires := now + TtlReply(mode.ttl, e.expires - now) * 1000)
  }

  function VerdictOn(mode: Mode, max: nat, slot: Option<Entry>, code: Code, now: int): Verdict {
    if slot == None || !Live(mode, slot.value, now) then NotFound
    else
      var e := slot.value;
      if code == e.hash then Correct(e.request, e.attempts + 1)
      else if e.attempts + 1 >= max then Exceeded(e.request, e.attempts + 1)
      else Incorrect(e.request, e.attempts + 1, max - (e.attempts + 1))
  }

  function SlotAfter(mode: Mode, max: nat, slot: Option<Entry>, code: Code, now: int): Option<Entry> {
    match VerdictOn(mode, max, slot, code, now)
    case NotFound => slot
    case Incorrect(_, _, _) => Some(AfterWrongTry(mode, slot.value, now))
    case Exceeded(_, _) => None
    case Correct(_, _) => None
  }

  /* ---- The attempt budget of one stored code ---- */

  datatype Try = Try(code: Code, now: int)

  /** The entry after the first n tries. */
  function SlotRun(mode: Mode, max: nat, e: Entry, tries: seq<Try>, n: nat): Option<Entry>
    requires n <= |tries|
  {
    if n == 0 then Some(e)
    else SlotAfter(mode, max, SlotRun(mode, max, e, tries, n - 1), tries[n - 1].code, tries[n - 1].now)
  }

  function VerdictAt(mode: Mode, max: nat, e: Entry, tries: seq<Try>, i: nat): Verdict
    requires i < |tries|
  {
    VerdictOn(mode, max, SlotRun(mode, max, e, tries, i), tries[i].code, tries[i].now)
  }

  /** Try i was compared with the stored code, at a time when a wrong try is recorded. */
  predicate Charged(mode: Mode, max: nat, e: Entry, tries: seq<Try>, i: nat)
    requires i < |tries|
  {
    !VerdictAt(mode, max, e, tries, i).NotFound? &&
    Recorded(mode, SlotRun(mode, max, e, tries, i).value, tries[i].now)
  }

  function ChargedCount(mode: Mode, max: nat, e: Entry, tries: seq<Try>, n: nat): nat
    requires n <= |tries|
  {
    if n == 0 then 0
    else ChargedCount(mode, max, e, tries, n - 1) + (if Charged(mode, max, e, tries, n - 1) then 1 else 0)
  }

  function CorrectCount(mode: Mode, max: nat, e: Entry, tries: seq<Try>, n: nat): nat
    requires n <= |tries|
  {
    if n == 0 then 0
    else CorrectCount(mode, max, e, tries, n - 1) + (if VerdictAt(mode, max, e, tries, n - 1).Correct? then 1 else 0)
  }

  /** For each stored code, whatever the tries: the entry counts the charged tries, of which
      there are at most max, and at most one try succeeds, after which the entry is gone. */
  lemma {:induction false} AttemptBudget(mode: Mode, max: nat, e: Entry, tries: seq<Try>, n: nat)
    requires n <= |tries| && 1 <= max && e.attempts == 0
    ensures var slot := SlotRun(mode, max, e, tries, n);
            (slot.Some? ==> slot.value.attempts == ChargedCount(mode, max, e, tries, n) < max &&
                            CorrectCount(mode, max, e, tries, n) == 0) &&
            ChargedCount(mode, max, e, tries, n) <= max && CorrectCount(mode, max, e, tries, n) <= 1
  {
    if n == 0 {
    } else {
      AttemptBudget(mode, max, e, tries, n - 1);
    }
  }

  /** So the k-th charged try, when wrong, reports max - k tries left, and ends the code
      when k is max. */
  lemma WrongTryReports(mode: Mode, max: nat, e: Entry, tries: seq<Try>, i: nat)
    requires i < |tries| && 1 <= max && e.attempts == 0
    requires Charged(mode, max, e, tries, i)
    ensures var k := ChargedCount(mode, max, e, tries, i + 1);
            var v := VerdictAt(mode, max, e, tries, i);
            !v.Correct? ==> if k == max then v.Exceeded? else v.Incorrect? && v.attempts == k && v.remaining == max - k
  {
    AttemptBudget(mode, max, e, tries, i);
  }

  function ComparedCount(mode: Mode, max: nat, e: Entry, tries: seq<Try>, n: nat): nat
    requires n <= |tries|
  {
    if n == 0 then 0
    else ComparedCount(mode, max, e, tries, n - 1) + (if VerdictAt(mode, max, e, tries, n - 1).NotFound? then 0 else 1)
  }

  /** Try i was compared while a wrong try would not be recorded: in Redis, while `TTL`
      answers zero. */
  predicate Unmetered(mode: Mode, max: nat, e: Entry, tries: seq<Try>, i: nat)
    requires i < |tries|
  {
    !VerdictAt(mode, max, e, tries, i).NotFound? && !Charged(mode, max, e, tries, i)
  }

  function UnmeteredCount(mode: Mode, max: nat, e: Entry, tries: seq<Try>, n: nat): nat
    requires n <= |tries|
  {
    if n == 0 then 0
    else UnmeteredCount(mode, max, e, tries, n - 1) + (if Unmetered(mode, max, e, tries, n - 1) then 1 else 0)
  }

  lemma {:induction false} ComparedAreChargedOrNot(mode: Mode, max: nat, e: Entry, tries: seq<Try>, n: nat)
    requires n <= |tries|
    ensures ComparedCount(mode, max, e, tries, n) ==
      ChargedCount(mode, max, e, tries, n) + UnmeteredCount(mode, max, e, tries, n)
  {
    if n == 0 {
    } else {
      ComparedAreChargedOrNot(mode, max, e, tries, n - 1);
    }
  }

  lemma {:induction false} UnmeteredIff(mode: Mode, max: nat, e: Entry, tries: seq<Try>, n: nat)
    requires n <= |tries|
    ensures UnmeteredCount(mode, max, e, tries, n) == 0 <==> forall i :: 0 <= i < n ==> !Unmetered(mode, max, e, tries, i)
  {
    if n == 0 {
    } else {
      UnmeteredIff(mode, max, e, tries, n - 1);
    }
  }

  /** Comparisons over a whole run, in every form: at most max of them are charged, and all
      others are made while `TTL` answers zero. So a stored code is compared at most max
      times when no try falls there, as in memory none can. */
  lemma ComparisonsAccounted(mode: Mode, max: nat, e: Entry, tries: seq<Try>, n: nat)
    requires n <= |tries| && 1 <= max && e.attempts == 0
    ensures var compared := ComparedCount(mode, max, e, tries, n);
            compared == ChargedCount(mode, max, e, tries, n) + UnmeteredCount(mode, max, e, tries, n) &&
            compared <= max + UnmeteredCount(mode, max, e, tries, n) &&
            ((forall i :: 0 <= i < n ==> !Unmetered(mode, max, e, tries, i)) ==>
              compared == ChargedCount(mode, max, e, tries, n) <= max)
    ensures forall i :: 0 <= i < n && Unmetered(mode, max, e, tries, i) ==>
              mode.Redis? && TtlReply(mode.ttl, SlotRun(mode, max, e, tries, i).value.expires - tries[i].now) == 0
  {
    AttemptBudget(mode, max, e, tries, n);
    ComparedAreChargedOrNot(mode, max, e, tries, n);
    UnmeteredIff(mode, max, e, tries, n);
  }

  /** In Redis the budget fails in the last instants of a key: while it is alive but `TTL`
      rounds to zero, wrong tries are compared and none is recorded, however many. */
  lemma {:induction false} LastInstantIsUnmetered(rounding: TtlRounding, max: nat, e: Entry, now: int, tries: seq<Try>, n: nat)
    requires n <= |tries| && e.attempts + 1 < max
    requires now < e.expires && TtlReply(rounding, e.expires - now) == 0
    requires forall i :: 0 <= i < n ==> tries[i].now == now && tries[i].code != e.hash
    ensures SlotRun(Redis(rounding), max, e, tries, n) == Some(e)
    ensures ComparedCount(Redis(rounding), max, e, tries, n) == n
  {
    if n == 0 {
    } else {
      LastInstantIsUnmetered(rounding, max, e, now, tries, n - 1);
    }
  }

  /** A wrong try below the maximum is counted exactly when it is recorded. */
  lemma CountedIff(mode: Mode, max: nat, e: Entry, code: Code, now: int)
    requires Live(mode, e, now) && code != e.hash && e.attempts + 1 < max
    ensures var next := SlotAfter(mode, max, Some(e), code, now);
            next.Some? && (next.value.attempts == e.attempts + 1 <==> Recorded(mode, e, now)) &&
            (!Recorded(mode, e, now) ==> next == Some(e))
  {
  }

  /* ---- How far a wrong try moves the expiry ---- */

  /** The most that n recorded wrong tries can add to, or take from, a code's life. */
  function Gain(mode: Mode, n: nat): nat {
    if mode == Redis(Nearest) then 500 * n else 0
  }

  function Loss(mode: Mode, n: nat): nat {
    match mode
    case Memory => 0
    case Redis(Down) => 999 * n
    case Redis(Nearest) => 499 * n
  }

  lemma WrongTryDrift(mode: Mode, e: Entry, now: int)
    requires Live(mode, e, now)
    ensures var next := AfterWrongTry(mode, e, now); var n := next.attempts - e.attempts;
            next.attempts == e.attempts + (if Recorded(mode, e, now) then 1 else 0) &&
            e.expires - Loss(mode, n) <= next.expires <= e.expires + Gain(mode, n)
  {
  }

  /** A wrong try lengthens a code's life exactly when `TTL` rounds to the nearest second
      and the remaining life is half a second or more past a whole one. */
  lemma LifeExtendedIff(mode: Mode, e: Entry, now: int)
    requires Live(mode, e, now)
    ensures AfterWrongTry(mode, e, now).expires > e.expires <==>
            mode == Redis(Nearest) && (e.expires - now) % 1000 >= 500
  {
  }

  /* ---- Memory against Redis ---- */

  /** One wrong try leaves the same entry in both forms exactly when a whole number of
      seconds of life remain. */
  lemma SameAfterWrongTryIff(rounding: TtlRounding, e: Entry, now: int)
    requires now < e.expires
    ensures AfterWrongTry(Memory, e, now) == AfterWrongTry(Redis(rounding), e, now) <==>
            (e.expires - now) % 1000 == 0
  {
  }

  /** A live entry that a try finds, with the attempts it has counted. */
  predicate Finds(mode: Mode, slot: Option<Entry>, now: int) {
    slot.Some? && Live(mode, slot.value, now)
  }

  /** What a try can tell apart about two stores: whether it finds an entry, and its count. */
  predicate Alike(rounding: TtlRounding, m: Option<Entry>, r: Option<Entry>, now: int) {
    Finds(Memory, m, now) == Finds(Redis(rounding), r, now) &&
    (Finds(Memory, m, now) ==> m.value.attempts == r.value.attempts)
  }

  /** Two entries of the same code give the same verdict on a try, whatever is tried,
      exactly when both are found with the same count, or neither is found. */
  lemma SameVerdictIff(rounding: TtlRounding, max: nat, m: Option<Entry>, r: Option<Entry>, code: Code, now: int)
    requires m.Some? && r.Some? ==> m.value.hash == r.value.hash && m.value.request == r.value.request
    ensures VerdictOn(Memory, max, m, code, now) == VerdictOn(Redis(rounding), max, r, code, now) <==>
            Alike(rounding, m, r, now)
  {
  }

  function MemorySlot(max: nat, e: Entry, tries: seq<Try>, i: nat): Option<Entry>
    requires i <= |tries|
  {
    SlotRun(Memory, max, e, tries, i)
  }

  function RedisSlot(rounding: TtlRounding, max: nat, e: Entry, tries: seq<Try>, i: nat): Option<Entry>
    requires i <= |tries|
  {
    SlotRun(Redis(rounding), max, e, tries, i)
  }

  predicate SameVerdictAt(rounding: TtlRounding, max: nat, e: Entry, tries: seq<Try>, i: nat)
    requires i < |tries|
  {
    VerdictAt(Memory, max, e, tries, i) == VerdictAt(Redis(rounding), max, e, tries, i)
  }

  predicate AlikeAt(rounding: TtlRounding, max: nat, e: Entry, tries: seq<Try>, i: nat)
    requires i < |tries|
  {
    Alike(rounding, MemorySlot(max, e, tries, i), RedisSlot(rounding, max, e, tries, i), tries[i].now)
  }

  lemma {:induction false} SlotKeepsCode(mode: Mode, max: nat, e: Entry, tries: seq<Try>, n: nat)
    requires n <= |tries|
    ensures var slot := SlotRun(mode, max, e, tries, n);
            slot.Some? ==> slot.value.hash == e.hash && slot.value.request == e.request
  {
    if n == 0 {
    } else {
      SlotKeepsCode(mode, max, e, tries, n - 1);
    }
  }

  /** Over every sequence of tries, each gets the same verdict in both forms exactly when
      both find the code with the same count, or neither finds it. */
  lemma VerdictsAgreeIff(rounding: TtlRounding, max: nat, e: Entry, tries: seq<Try>, n: nat)
    requires n <= |tries|
    ensures forall i :: 0 <= i < n ==>
      (SameVerdictAt(rounding, max, e, tries, i) <==> AlikeAt(rounding, max, e, tries, i))
  {
    forall i | 0 <= i < n ensures SameVerdictAt(rounding, max, e, tries, i) <==> AlikeAt(rounding, max, e, tries, i) {
      SlotKeepsCode(Memory, max, e, tries, i);
      SlotKeepsCode(Redis(rounding), max, e, tries, i);
      SameVerdictIff(rounding, max, MemorySlot(max, e, tries, i), RedisSlot(rounding, max, e, tries, i),
                     tries[i].code, tries[i].now);
    }
  }

  /** The least remaining life for which `TTL` does not answer zero. */
  function LeastMetered(rounding: TtlRounding): nat {
    if rounding.Down? then 1000 else 500
  }

  /** At this time, after that many wrong tries, the code is surely alive and metered in
      both forms, or surely expired in both, however its expiry in Redis has drifted. */
  predicate OutsideDrift(rounding: TtlRounding, e: Entry, attempts: nat, now: int) {
    now <= e.expires - Loss(Redis(rounding), attempts) - LeastMetered(rounding) ||
    (now > e.expires && now >= e.expires + Gain(Redis(rounding), attempts))
  }

  /** The two forms of one code, after the same tries. */
  predicate InStep(rounding: TtlRounding, max: nat, e: Entry, m: Option<Entry>, r: Option<Entry>) {
    m.Some? == r.Some? &&
    (m.Some? ==>
      m.value.attempts == r.value.attempts < max && m.value == e.(attempts := m.value.attempts) &&
      r.value == m.value.(expires := r.value.expires) &&
      e.expires - Loss(Redis(rounding), m.value.attempts) <= r.value.expires <=
        e.expires + Gain(Redis(rounding), m.value.attempts))
  }

  lemma TryKeepsInStep(rounding: TtlRounding, max: nat, e: Entry, m: Option<Entry>, r: Option<Entry>, code: Code, now: int)
    requires InStep(rounding, max, e, m, r)
    requires m.Some? ==> OutsideDrift(rounding, e, m.value.attempts, now)
    ensures Alike(rounding, m, r, now)
    ensures InStep(rounding, max, e, SlotAfter(Memory, max, m, code, now), SlotAfter(Redis(rounding), max, r, code, now))
  {
    if m.Some? && Live(Redis(rounding), r.value, now) {
      WrongTryDrift(Redis(rounding), r.value, now);
    }
  }

  /** Try i falls outside the drift of the wrong tries before it. */
  predicate Clear(rounding: TtlRounding, max: nat, e: Entry, tries: seq<Try>, i: nat)
    requires i < |tries|
  {
    var slot := MemorySlot(max, e, tries, i);
    slot.Some? ==> OutsideDrift(rounding, e, slot.value.attempts, tries[i].now)
  }

  lemma {:induction false} RunKeepsInStep(rounding: TtlRounding, max: nat, e: Entry, tries: seq<Try>, n: nat)
    requires n <= |tries| && 1 <= max && e.attempts == 0
    requires forall i :: 0 <= i < n ==> Clear(rounding, max, e, tries, i)
    ensures InStep(rounding, max, e, MemorySlot(max, e, tries, n), RedisSlot(rounding, max, e, tries, n))
  {
    if n == 0 {
    } else {
      RunKeepsInStep(rounding, max, e, tries, n - 1);
      assert Clear(rounding, max, e, tries, n - 1);
      TryKeepsInStep(rounding, max, e, MemorySlot(max, e, tries, n - 1), RedisSlot(rounding, max, e, tries, n - 1),
                     tries[n - 1].code, tries[n - 1].now);
    }
  }

  /** Store refinement: for every sequence of tries that each fall outside the few seconds
      around the expiry into which the wrong tries before it can have moved it, the memory
      form and the Redis form give the same verdicts. */
  lemma FormsAgree(rounding: TtlRounding, max: nat, e: Entry, tries: seq<Try>, n: nat)
    requires n <= |tries| && 1 <= max && e.attempts == 0
    requires forall i :: 0 <= i < n ==> Clear(rounding, max, e, tries, i)
    ensures forall i :: 0 <= i < n ==> SameVerdictAt(rounding, max, e, tries, i)
  {
    VerdictsAgreeIff(rounding, max, e, tries, n);
    forall i | 0 <= i < n ensures AlikeAt(rounding, max, e, tries, i) {
      RunKeepsInStep(rounding, max, e, tries, i);
      assert Clear(rounding, max, e, tries, i);
      TryKeepsInStep(rounding, max, e, MemorySlot(max, e, tries, i), RedisSlot(rounding, max, e, tries, i),
                     tries[i].code, tries[i].now);
    }
  }

  /** The same from the times of the tries alone. */
  lemma FormsAgreeAwayFromExpiry(rounding: TtlRounding, max: nat, e: Entry, tries: seq<Try>, n: nat)
    requires n <= |tries| && 1 <= max && e.attempts == 0
    requires forall i :: 0 <= i < n ==> OutsideDrift(rounding, e, max - 1, tries[i].now)
    ensures forall i :: 0 <= i < n ==> SameVerdictAt(rounding, max, e, tries, i)
  {
    forall i | 0 <= i < n ensures Clear(rounding, max, e, tries, i) {
      AttemptBudget(Memory, max, e, tries, i);
      var slot := MemorySlot(max, e, tries, i);
      if slot.Some? {
        DriftGrows(rounding, slot.value.attempts, max - 1);
        assert OutsideDrift(rounding, e, max - 1, tries[i].now);
      }
    }
    FormsAgree(rounding, max, e, tries, n);
  }

  lemma DriftGrows(rounding: TtlRounding, a: nat, b: nat)
    requires a <= b
    ensures Loss(Redis(rounding), a) <= Loss(Redis(rounding), b) && Gain(Redis(rounding), a) <= Gain(Redis(rounding), b)
  {
  }

  /** Inside that margin too, when every try is a whole number of seconds away from the
      expiry but not at it. */
  lemma {:induction false} FormsAgreeOnWholeSeconds(rounding: TtlRounding, max: nat, e: Entry, tries: seq<Try>, n: nat)
    requires n <= |tries|
    requires forall i :: 0 <= i < n ==> tries[i].now != e.expires && (e.expires - tries[i].now) % 1000 == 0
    ensures var slot := MemorySlot(max, e, tries, n);
            slot == RedisSlot(rounding, max, e, tries, n) && (slot.Some? ==> slot.value.expires == e.expires)
    ensures forall i :: 0 <= i < n ==> SameVerdictAt(rounding, max, e, tries, i)
  {
    if n == 0 {
    } else {
      FormsAgreeOnWholeSeconds(rounding, max, e, tries, n - 1);
      var slot := MemorySlot(max, e, tries, n - 1);
      if slot.Some? && tries[n - 1].now < e.expires {
        SameAfterWrongTryIff(rounding, slot.value, tries[n - 1].now);
      }
    }
  }

  lemma AfterOneWrongTry(mode: Mode, max: nat, e: Entry, tries: seq<Try>)
    requires tries != [] && 2 <= max && e.attempts == 0 && tries[0].code != e.hash && Live(mode, e, tries[0].now)
    ensures SlotRun(mode, max, e, tries, 1) == Some(AfterWrongTry(mode, e, tries[0].now))
  {
    assert SlotRun(mode, max, e, tries, 0) == Some(e);
  }

  /** The margin is needed: one wrong try can move the expiry so that a later try, before
      the original expiry or after it, is answered in one form only. */
  lemma DriftShows(max: nat, e: Entry, wrong: Code, code: Code)
    requires 2 <= max && e.attempts == 0 && wrong != e.hash
    ensures var tries := [Try(wrong, e.expires - 1999), Try(code, e.expires - 999)];
            !SameVerdictAt(Down, max, e, tries, 1)
    ensures var tries := [Try(wrong, e.expires - 1500), Try(code, e.expires + 499)];
            !SameVerdictAt(Nearest, max, e, tries, 1)
  {
    var early := [Try(wrong, e.expires - 1999), Try(code, e.expires - 999)];
    AfterOneWrongTry(Memory, max, e, early);
    AfterOneWrongTry(Redis(Down), max, e, early);
    var late := [Try(wrong, e.expires - 1500), Try(code, e.expires + 499)];
    AfterOneWrongTry(Memory, max, e, late);
    AfterOneWrongTry(Redis(Nearest), max, e, late);
  }

  /** At the expiry instant they differ, on every entry and code. */
  lemma FormsDifferAtExpiry(rounding: TtlRounding, max: nat, e: Entry, code: Code)
    ensures VerdictOn(Redis(rounding), max, Some(e), code, e.expires) == NotFound
    ensures !VerdictOn(Memory, max, Some(e), code, e.expires).NotFound?
  {
  }

  /* ---- The memory form, updated in place ---- */

  type Key = (nat, string) // application, phone

  /** The object kept in the memory map. */
  class StoredOtp {
    const otpHash: Code
    const requestId: string
    const expiresAt: int
    var attempts: nat

    constructor (otpHash: Code, requestId: string, expiresAt: int)
      ensures this.otpHash == otpHash && this.requestId == requestId && this.expiresAt == expiresAt && attempts == 0
    {
      this.otpHash, this.requestId, this.expiresAt, this.attempts := otpHash, requestId, expiresAt, 0;
    }

    function View(): Entry
      reads this
    {
      Entry(otpHash, requestId, attempts, expiresAt)
    }
  }

  class MemoryOtpStore {
    var entries: map<Key, StoredOtp>

    /** No object is stored under two keys, so that updating it changes one entry. */
    ghost predicate Valid() reads this {
      forall k, l :: k in entries && l in entries && k != l ==> entries[k] != entries[l]
    }

    ghost function View(): map<Key, Entry>
      reads this, entries.Values
    {
      map k | k in entries :: entries[k].View()
    }

    constructor ()
      ensures Valid() && View() == map[]
    {
      entries := map[];
    }

    method Store(key: Key, code: Code, requestId: string, ttlSeconds: nat, now: int)
      requires Valid()
      modifies this
      ensures Valid() && View() == old(View())[key := StoreOtp(code, requestId, ttlSeconds, now)]
      ensures fresh(entries.Values - old(entries.Values))
    {
      var data := new StoredOtp(code, requestId, now + ttlSeconds * 1000);
      entries := entries[key := data];
    }

    method Verify(key: Key, code: Code, max: nat, now: int) returns (v: Verdict)
      requires Valid()
      modifies this, entries.Values
      ensures Valid() && entries.Values <= old(entries.Values)
      ensures var slot := if key in old(View()) then Some(old(View())[key]) else None;
              v == VerdictOn(Memory, max, slot, code, now) &&
              View() == match SlotAfter(Memory, max, slot, code, now)
                        case Some(e) => old(View())[key := e]
                        case None => old(View()) - {key}
    {
      if key !in entries || entries[key].expiresAt < now {
        assert key in entries ==> View() == View()[key := View()[key]];
        return NotFound;
      }
      var storedData := entries[key];
      var attempts := storedData.attempts + 1;
      if code != storedData.otpHash {
        storedData.attempts := attempts;
        if attempts >= max {
          entries := entries - {key};
          return Exceeded(storedData.requestId, attempts);
        }
        return Incorrect(storedData.requestId, attempts, max - attempts);
      }
      entries := entries - {key};
      return Correct(storedData.requestId, attempts);
    }
  }

  /* ---- The Redis form ---- */

  /** The JSON value of a key, and when the key expires. */
  datatype Json = Json(otpHash: Code, requestId: string, attempts: nat)
  datatype RedisValue = RedisValue(json: Json, expiresAt: int)

  function Decode(value: RedisValue): Entry {
    Entry(value.json.otpHash, value.json.requestId, value.json.attempts, value.expiresAt)
  }

  class RedisOtpStore {
    var keys: map<Key, RedisValue>
    const rounding: TtlRounding

    ghost function View(): map<Key, Entry>
      reads this
    {
      map k | k in keys :: Decode(keys[k])
    }

    constructor (rounding: TtlRounding)
      ensures View() == map[] && this.rounding == rounding
    {
      keys := map[];
      this.rounding := rounding;
    }

    method Store(key: Key, code: Code, requestId: string, ttlSeconds: nat, now: int)
      modifies this
      ensures View() == old(View())[key := StoreOtp(code, requestId, ttlSeconds, now)]
    {
      keys := keys[key := RedisValue(Json(code, requestId, 0), now + ttlSeconds * 1000)];
    }

    method Verify(key: Key, code: Code, max: nat, now: int) returns (v: Verdict)
      modifies this
      ensures var slot := if key in old(View()) then Some(old(View())[key]) else None;
              v == VerdictOn(Redis(rounding), max, slot, code, now) &&
              View() == match SlotAfter(Redis(rounding), max, slot, code, now)
                        case Some(e) => old(View())[key := e]
                        case None => old(View()) - {key}
    {
      if key !in keys || keys[key].expiresAt <= now {
        assert key in keys ==> View() == View()[key := View()[key]];
        return NotFound;
      }
      var storedData := keys[key].json;
      var attempts := storedData.attempts + 1;
      if code != storedData.otpHash {
        storedData := storedData.(attempts := attempts);
        if attempts >= max {
          keys := keys - {key};
          return Exceeded(storedData.requestId, attempts);
        }
        var ttl := TtlReply(rounding, keys[key].expiresAt - now);
        if ttl > 0 {
          keys := keys[key := RedisValue(storedData, now + ttl * 1000)];
        } else {
          assert View() == View()[key := View()[key]];
        }
        return Incorrect(storedData.requestId, attempts, max - attempts);
      }
      keys := keys - {key};
      return Correct(storedData.requestId, attempts);
    }
  }
}
