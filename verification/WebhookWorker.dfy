/** Delivery webhooks: one queued job records one status of one message. Jobs may be
    repeated and reordered at will, and every call a job makes may fail: its writes are not
    in one transaction. */
module WebhookWorker {
  import opened Prelude
  import opened Text
  import opened Messages

  /** `statusMap` and `eventTypeMap`: an unknown status counts as sent. */
  function StateOf(statusStr: string): DeliveryState {
    var normalized := Lower(statusStr);
    if normalized == "delivered" then MsgDelivered
    else if normalized == "read" then MsgRead
    else if normalized == "failed" then MsgFailed
    else MsgSent
  }

  /** `otpStatusMap`: read, and unknown statuses, leave the request alone. */
  function OtpStatusOf(statusStr: string): Option<OtpStatus> {
    var normalized := Lower(statusStr);
    if normalized == "sent" then Some(OtpStatus.Sent)
    else if normalized == "delivered" then Some(OtpStatus.Delivered)
    else if normalized == "failed" then Some(OtpStatus.Failed)
    else None
  }

  /* ---- One job, with failing calls ---- */

  /** The calls a job may make, in order. The failure of the last is swallowed. */
  datatype Call = ReadMessage | UpdateMessage | InsertEvent | ReadRequest | UpdateRequest | MarkProcessed

  /** The calls that throw. A throwing call maps to whether its effect landed all the same. */
  type Faults = map<Call, bool>

  predicate Lands(faults: Faults, call: Call) {
    call !in faults || faults[call]
  }

  /** What a job comes to on its message: status and event written, the status alone, or
      neither. */
  datatype Effect = Whole | Torn | Nothing

  function EffectOf(faults: Faults): Effect {
    if ReadMessage in faults || !Lands(faults, UpdateMessage) then Nothing
    else if UpdateMessage in faults || !Lands(faults, InsertEvent) then Torn
    else Whole
  }

  /** The message after a job: an event type already recorded changes nothing. */
  function Record(m: Message, statusStr: string, effect: Effect): Message {
    var state := StateOf(statusStr);
    if state in m.events || effect.Nothing? then m
    else m.(status := state, events := if effect.Whole? then m.events + [state] else m.events)
  }

  /** The job comes to the update of the request, and it lands. */
  predicate Reflects(m: Message, statusStr: string, faults: Faults) {
    ReadMessage !in faults &&
    (StateOf(statusStr) in m.events || (UpdateMessage !in faults && InsertEvent !in faults)) &&
    ReadRequest !in faults && Lands(faults, UpdateRequest)
  }

  /** The request's status after such an update: unless it is verified. */
  function Reflect(status: OtpStatus, statusStr: string): OtpStatus {
    if status == Verified || OtpStatusOf(statusStr) == None then status else OtpStatusOf(statusStr).value
  }

  /** The statuses of Meta, in any case, and what they are recorded as and do to a request. */
  lemma StatusTable(statusStr: string)
    ensures StateOf(statusStr) == match Lower(statusStr)
      case "delivered" => MsgDelivered
      case "read" => MsgRead
      case "failed" => MsgFailed
      case _ => MsgSent
    ensures forall status :: status != Verified ==>
      Reflect(status, statusStr) == match Lower(statusStr)
        case "sent" => OtpStatus.Sent
        case "delivered" => OtpStatus.Delivered
        case "failed" => OtpStatus.Failed
        case _ => status
    ensures Reflect(Verified, statusStr) == Verified
  {
  }

  /** What a job comes to when none of its calls fails, and when one of them does without
      effect. */
  lemma JobComesTo(m: Message, statusStr: string, failing: Call)
    ensures EffectOf(map[]) == Whole && Reflects(m, statusStr, map[])
    ensures EffectOf(map[failing := false]) ==
      if failing.ReadMessage? || failing.UpdateMessage? then Nothing else if failing.InsertEvent? then Torn else Whole
    ensures Reflects(m, statusStr, map[failing := false]) <==>
      failing.MarkProcessed? || (StateOf(statusStr) in m.events && (failing.UpdateMessage? || failing.InsertEvent?))
  {
  }

  /* ---- Runs of jobs ---- */

  /** A job on a message and its request, with what it comes to on each. */
  datatype Job = Job(statusStr: string, effect: Effect, reflects: bool)

  /** The message after the first n jobs. */
  function Fold(m: Message, jobs: seq<Job>, n: nat): Message
    requires n <= |jobs|
  {
    if n == 0 then m else Record(Fold(m, jobs, n - 1), jobs[n - 1].statusStr, jobs[n - 1].effect)
  }

  function TypeAt(jobs: seq<Job>, i: nat): DeliveryState
    requires i < |jobs|
  {
    StateOf(jobs[i].statusStr)
  }

  predicate Distinct(events: seq<DeliveryState>) {
    forall i, j :: 0 <= i < j < |events| ==> events[i] != events[j]
  }

  /** The status is that of the last event. */
  predicate Synced(m: Message) {
    m.events != [] && m.status == m.events[|m.events| - 1]
  }

  /** Before job n, a whole job of its type has been run. */
  predicate DoneBefore(jobs: seq<Job>, n: nat)
    requires n < |jobs|
  {
    exists i :: 0 <= i < n && jobs[i].effect.Whole? && TypeAt(jobs, i) == TypeAt(jobs, n)
  }

  /** The events recorded are those of the message, and one for each type of a whole job;
      no type is recorded twice, and none is removed. */
  lemma {:induction false} EventsRecorded(m: Message, jobs: seq<Job>, n: nat)
    requires Distinct(m.events) && n <= |jobs|
    ensures Distinct(Fold(m, jobs, n).events) && m.events <= Fold(m, jobs, n).events
    ensures forall t :: t in Fold(m, jobs, n).events <==>
      t in m.events || exists i :: 0 <= i < n && jobs[i].effect.Whole? && TypeAt(jobs, i) == t
  {
    if n == 0 {
    } else {
      EventsRecorded(m, jobs, n - 1);
      var before, after := Fold(m, jobs, n - 1), Fold(m, jobs, n);
      forall t ensures t in after.events <==> t in before.events || (jobs[n - 1].effect.Whole? && t == TypeAt(jobs, n - 1)) {
        if jobs[n - 1].effect.Whole? && TypeAt(jobs, n - 1) !in before.events {
          assert after.events == before.events + [TypeAt(jobs, n - 1)];
        }
      }
    }
  }

  /** Job i writes the message's status: it comes to that, and its type is a new one. */
  predicate Writes(m: Message, jobs: seq<Job>, i: nat)
    requires i < |jobs|
  {
    !jobs[i].effect.Nothing? && TypeAt(jobs, i) !in m.events && !DoneBefore(jobs, i)
  }

  lemma WritesIff(m: Message, jobs: seq<Job>, i: nat)
    requires Distinct(m.events) && i < |jobs|
    ensures Writes(m, jobs, i) <==> !jobs[i].effect.Nothing? && TypeAt(jobs, i) !in Fold(m, jobs, i).events
  {
    EventsRecorded(m, jobs, i);
  }

  /** Job k is the last of the first n that writes the status. */
  predicate LastWrite(m: Message, jobs: seq<Job>, n: nat, k: nat)
    requires n <= |jobs|
  {
    k < n && Writes(m, jobs, k) && forall i :: k < i < n ==> !Writes(m, jobs, i)
  }

  lemma WriteDecides(m: Message, statusStr: string, effect: Effect)
    requires StateOf(statusStr) !in m.events && !effect.Nothing?
    ensures Synced(Record(m, statusStr, effect)) <==> effect.Whole?
  {
    var m' := Record(m, statusStr, effect);
    if effect.Torn? && m'.events != [] {
      assert m'.events[|m'.events| - 1] in m.events;
    }
  }

  lemma NoWriteKeeps(m: Message, jobs: seq<Job>, i: nat)
    requires Distinct(m.events) && i < |jobs| && !Writes(m, jobs, i)
    ensures Fold(m, jobs, i + 1) == Fold(m, jobs, i)
  {
    WritesIff(m, jobs, i);
  }

  lemma {:induction false} NoWritesKeep(m: Message, jobs: seq<Job>, from: nat, n: nat)
    requires Distinct(m.events) && from <= n <= |jobs|
    requires forall i :: from <= i < n ==> !Writes(m, jobs, i)
    ensures Fold(m, jobs, n) == Fold(m, jobs, from)
  {
    if n == from {
    } else {
      NoWritesKeep(m, jobs, from, n - 1);
      NoWriteKeeps(m, jobs, n - 1);
    }
  }

  /** Over any run of jobs the status is that of the last event if and only if the last job
      that wrote a status also inserted its event. With no such job the message is as it was
      (`NoWritesKeep`). */
  lemma SyncedIff(m: Message, jobs: seq<Job>, n: nat, k: nat)
    requires Distinct(m.events) && n <= |jobs| && LastWrite(m, jobs, n, k)
    ensures Synced(Fold(m, jobs, n)) <==> jobs[k].effect.Whole?
  {
    NoWritesKeep(m, jobs, k + 1, n);
    WritesIff(m, jobs, k);
    WriteDecides(Fold(m, jobs, k), jobs[k].statusStr, jobs[k].effect);
  }

  /* ---- Replays ---- */

  /** Of the first n jobs, the first whole one of each event type. */
  function Firsts(jobs: seq<Job>, n: nat): seq<Job>
    requires n <= |jobs|
  {
    if n == 0 then []
    else Firsts(jobs, n - 1) + (if !jobs[n - 1].effect.Whole? || DoneBefore(jobs, n - 1) then [] else [jobs[n - 1]])
  }

  lemma {:induction false} FoldPrefix(m: Message, jobs: seq<Job>, more: seq<Job>, n: nat)
    requires n <= |jobs|
    ensures Fold(m, jobs + more, n) == Fold(m, jobs, n)
  {
    if n == 0 {
    } else {
      FoldPrefix(m, jobs, more, n - 1);
    }
  }

  lemma FoldLast(m: Message, jobs: seq<Job>, job: Job)
    ensures Fold(m, jobs + [job], |jobs| + 1) == Record(Fold(m, jobs, |jobs|), job.statusStr, job.effect)
  {
    FoldPrefix(m, jobs, [job], |jobs|);
  }

  function Replayed(m: Message, jobs: seq<Job>, n: nat): Message
    requires n <= |jobs|
  {
    Fold(m, Firsts(jobs, n), |Firsts(jobs, n)|)
  }

  /** One more job, on a message and on its replay with the same events. */
  lemma ReplayOneMore(m: Message, jobs: seq<Job>, n: nat)
    requires Distinct(m.events) && n < |jobs| && Fold(m, jobs, n).events == Replayed(m, jobs, n).events
    ensures Fold(m, jobs, n + 1).events == Replayed(m, jobs, n + 1).events
    ensures Synced(m) && Synced(Replayed(m, jobs, n)) ==> Synced(Replayed(m, jobs, n + 1))
  {
    EventsRecorded(m, jobs, n);
    if jobs[n].effect.Whole? && !DoneBefore(jobs, n) {
      FoldLast(m, Firsts(jobs, n), jobs[n]);
    } else {
      assert Firsts(jobs, n + 1) == Firsts(jobs, n);
    }
  }

  /** Whatever jobs are torn, the events are those of the first whole job of each type. */
  lemma {:induction false} EventsAreOfFirsts(m: Message, jobs: seq<Job>, n: nat)
    requires Distinct(m.events) && n <= |jobs|
    ensures Fold(m, jobs, n).events == Replayed(m, jobs, n).events
    ensures Synced(m) ==> Synced(Replayed(m, jobs, n))
  {
    if n == 0 {
    } else {
      EventsAreOfFirsts(m, jobs, n - 1);
      ReplayOneMore(m, jobs, n - 1);
    }
  }

  lemma {:induction false} FoldKeepsIdentity(m: Message, jobs: seq<Job>, n: nat)
    requires n <= |jobs|
    ensures Fold(m, jobs, n).request == m.request && Fold(m, jobs, n).wamid == m.wamid
  {
    if n == 0 {
    } else {
      FoldKeepsIdentity(m, jobs, n - 1);
    }
  }

  lemma SyncedIffLastWhole(m: Message, jobs: seq<Job>, n: nat)
    requires Synced(m) && Distinct(m.events) && n <= |jobs|
    ensures Synced(Fold(m, jobs, n)) <==> forall k: nat :: LastWrite(m, jobs, n, k) ==> jobs[k].effect.Whole?
  {
    if exists i :: 0 <= i < n && Writes(m, jobs, i) {
      var k := FindLastWrite(m, jobs, n);
      SyncedIff(m, jobs, n, k);
    } else {
      NoWritesKeep(m, jobs, 0, n);
    }
  }

  /** So any run of jobs leaves a message as the first whole job of each type would, if and
      only if the last write of its status was whole. */
  lemma ReplayIsIdempotentIff(m: Message, jobs: seq<Job>, n: nat)
    requires Synced(m) && Distinct(m.events) && n <= |jobs|
    ensures Fold(m, jobs, n) == Replayed(m, jobs, n) <==> Synced(Fold(m, jobs, n))
    ensures Fold(m, jobs, n) == Replayed(m, jobs, n) <==> forall k: nat :: LastWrite(m, jobs, n, k) ==> jobs[k].effect.Whole?
  {
    EventsAreOfFirsts(m, jobs, n);
    FoldKeepsIdentity(m, jobs, n);
    FoldKeepsIdentity(m, Firsts(jobs, n), |Firsts(jobs, n)|);
    SyncedIffLastWhole(m, jobs, n);
  }

  lemma {:induction false} FindLastWrite(m: Message, jobs: seq<Job>, n: nat) returns (k: nat)
    requires n <= |jobs| && exists i :: 0 <= i < n && Writes(m, jobs, i)
    ensures LastWrite(m, jobs, n, k)
  {
    if Writes(m, jobs, n - 1) {
      k := n - 1;
    } else {
      k := FindLastWrite(m, jobs, n - 1);
    }
  }

  /** Job i, if torn, is followed by a whole job of its type: a retry that got through. */
  predicate MadeGood(jobs: seq<Job>, n: nat, i: nat)
    requires i < n <= |jobs|
  {
    jobs[i].effect.Torn? ==> exists k :: i < k < n && jobs[k].effect.Whole? && TypeAt(jobs, k) == TypeAt(jobs, i)
  }

  lemma {:induction false} FirstWhole(jobs: seq<Job>, i: nat, k: nat) returns (f: nat)
    requires i < k < |jobs| && jobs[k].effect.Whole? && TypeAt(jobs, k) == TypeAt(jobs, i) && !DoneBefore(jobs, i)
    requires !jobs[i].effect.Whole?
    ensures i < f <= k && jobs[f].effect.Whole? && TypeAt(jobs, f) == TypeAt(jobs, i) && !DoneBefore(jobs, f)
    decreases k
  {
    f := k;
    if DoneBefore(jobs, k) {
      var j :| 0 <= j < k && jobs[j].effect.Whole? && TypeAt(jobs, j) == TypeAt(jobs, k);
      assert i < j;
      f := FirstWhole(jobs, i, j);
    }
  }

  /** It is enough that every torn job is retried until it gets through, whatever runs in
      between and in whatever order. */
  lemma ReplayIsIdempotent(m: Message, jobs: seq<Job>, n: nat)
    requires Synced(m) && Distinct(m.events) && n <= |jobs|
    requires forall i :: 0 <= i < n ==> MadeGood(jobs, n, i)
    ensures Fold(m, jobs, n) == Replayed(m, jobs, n) && Synced(Fold(m, jobs, n))
  {
    forall k: nat | LastWrite(m, jobs, n, k) ensures jobs[k].effect.Whole? {
      assert MadeGood(jobs, n, k);
      if jobs[k].effect.Torn? {
        var i :| k < i < n && jobs[i].effect.Whole? && TypeAt(jobs, i) == TypeAt(jobs, k);
        var f := FirstWhole(jobs, k, i);
        assert Writes(m, jobs, f);
      }
    }
    ReplayIsIdempotentIff(m, jobs, n);
  }

  /** A job whose event insert fails leaves the message with a status of which it has no
      event; so does every replay that fails there, and the first that does not repairs it. */
  lemma TornJobShows(m: Message, statusStr: string)
    requires Synced(m) && Distinct(m.events) && StateOf(statusStr) !in m.events
    ensures var torn := Record(m, statusStr, EffectOf(map[InsertEvent := false]));
            !Synced(torn) && torn.events == m.events && torn.status == StateOf(statusStr) &&
            Record(torn, statusStr, Torn) == torn &&
            Record(torn, statusStr, Whole) == Record(m, statusStr, Whole)
  {
    WriteDecides(m, statusStr, Torn);
  }

  /** A job changes the message exactly when its type is new and it comes to writing one. */
  lemma JobRecordsOnce(m: Message, statusStr: string, effect: Effect)
    requires Synced(m) && Distinct(m.events)
    ensures var once := Record(m, statusStr, effect);
            Record(once, statusStr, effect) == once && Distinct(once.events) &&
            (once == m <==> StateOf(statusStr) in m.events || effect.Nothing?)
  {
    var once := Record(m, statusStr, effect);
    if StateOf(statusStr) !in m.events {
      assert m.events[|m.events| - 1] in m.events;
      if effect.Whole? {
        assert once.events[|m.events|] == StateOf(statusStr);
      }
    }
  }

  /* ---- The request's status ---- */

  function FoldStatus(status: OtpStatus, jobs: seq<Job>, n: nat): OtpStatus
    requires n <= |jobs|
  {
    if n == 0 then status
    else if !jobs[n - 1].reflects then FoldStatus(status, jobs, n - 1)
    else Reflect(FoldStatus(status, jobs, n - 1), jobs[n - 1].statusStr)
  }

  /** Job i writes the request's status, unless that is verified. */
  predicate Informs(jobs: seq<Job>, i: nat)
    requires i < |jobs|
  {
    jobs[i].reflects && OtpStatusOf(jobs[i].statusStr).Some?
  }

  /** Unlike the message, the request follows every job: its status is that of the last job
      that came to its update with a status of its own; and a verified request never moves. */
  lemma {:induction false} RequestFollowsLastJob(status: OtpStatus, jobs: seq<Job>, n: nat, last: nat)
    requires last < n <= |jobs| && Informs(jobs, last) && forall i :: last < i < n ==> !Informs(jobs, i)
    ensures FoldStatus(status, jobs, n) == if status == Verified then Verified else OtpStatusOf(jobs[last].statusStr).value
  {
    VerifiedStays(status, jobs, n - 1);
    if n == last + 1 {
    } else {
      assert !Informs(jobs, n - 1);
      RequestFollowsLastJob(status, jobs, n - 1, last);
    }
  }

  lemma {:induction false} VerifiedStays(status: OtpStatus, jobs: seq<Job>, n: nat)
    requires n <= |jobs|
    ensures FoldStatus(status, jobs, n) == Verified <==> status == Verified
  {
    if n == 0 {
    } else {
      VerifiedStays(status, jobs, n - 1);
    }
  }

  /** So a replay can move a request back: after sent and delivered, a second sent leaves
      the message delivered and the request sent. */
  lemma ReplayMovesRequestBack(m: Message, status: OtpStatus)
    requires Synced(m) && m.events == [MsgSent] && status != Verified
    ensures var jobs := [Job("delivered", Whole, true), Job("SENT", Whole, true)];
            Fold(m, jobs, 2).status == MsgDelivered && FoldStatus(status, jobs, 1) == OtpStatus.Delivered &&
            FoldStatus(status, jobs, 2) == OtpStatus.Sent
  {
    var jobs := [Job("delivered", Whole, true), Job("SENT", Whole, true)];
    assert Lower(jobs[0].statusStr) == "delivered" && Lower(jobs[1].statusStr) == "sent";
    RequestFollowsLastJob(status, jobs, 1, 0);
    RequestFollowsLastJob(status, jobs, 2, 1);
    assert Fold(m, jobs, 1) == Record(Fold(m, jobs, 0), "delivered", Whole);
    assert Fold(m, jobs, 2) == Record(Fold(m, jobs, 1), "SENT", Whole);
  }

  /* ---- The worker ---- */

  /** The first message with this provider id. */
  function FindMessage(messages: seq<Message>, wamid: string): Option<nat> {
    FindFrom(messages, wamid, 0)
  }

  function FindFrom(messages: seq<Message>, wamid: string, from: nat): (r: Option<nat>)
    requires from <= |messages|
    ensures r.Some? ==> from <= r.value < |messages| && messages[r.value].wamid == Some(wamid)
    ensures forall i :: from <= i < (if r.Some? then r.value else |messages|) ==> messages[i].wamid != Some(wamid)
    decreases |messages| - from
  {
    if from == |messages| then None
    else if messages[from].wamid == Some(wamid) then Some(from)
    else FindFrom(messages, wamid, from + 1)
  }

  class WebhookWorker {
    var messages: seq<Message>
    var otpStatus: map<string, OtpStatus> // by request
    var processed: set<nat>               // webhook_events marked processed

    constructor (messages: seq<Message>, otpStatus: map<string, OtpStatus>)
      ensures this.messages == messages && this.otpStatus == otpStatus && processed == {}
    {
      this.messages, this.otpStatus, this.processed := messages, otpStatus, {};
    }

    /** The message part of a job; the result says whether it threw. */
    method RecordStatus(i: nat, statusStr: string, faults: Faults) returns (threw: bool)
      requires i < |messages| && ReadMessage !in faults
      modifies this`messages
      ensures messages == old(messages)[i := Record(old(messages)[i], statusStr, EffectOf(faults))]
      ensures threw == !(StateOf(statusStr) in old(messages)[i].events || (UpdateMessage !in faults && InsertEvent !in faults))
    {
      var newState := StateOf(statusStr);
      if newState in messages[i].events {
        return false;
      }
      if Lands(faults, UpdateMessage) {
        messages := messages[i := messages[i].(status := newState)];
      }
      if UpdateMessage in faults {
        return true;
      }
      if Lands(faults, InsertEvent) {
        messages := messages[i := messages[i].(events := messages[i].events + [newState])];
      }
      return InsertEvent in faults;
    }

    /** The request part; the result says whether it threw. */
    method UpdateOtpStatus(request: string, statusStr: string, faults: Faults) returns (threw: bool)
      modifies this`otpStatus
      ensures otpStatus ==
        if request in old(otpStatus) && ReadRequest !in faults && Lands(faults, UpdateRequest)
        then old(otpStatus)[request := Reflect(old(otpStatus)[request], statusStr)] else old(otpStatus)
      ensures threw ==> ReadRequest in faults || UpdateRequest in faults
    {
      if ReadRequest in faults {
        return true;
      }
      if request in otpStatus && otpStatus[request] != Verified {
        var mapped := OtpStatusOf(statusStr);
        if mapped.Some? {
          if Lands(faults, UpdateRequest) {
            otpStatus := otpStatus[request := mapped.value];
          }
          return UpdateRequest in faults;
        }
      }
      return false;
    }

    method ProcessWebhookJob(eventId: nat, wamid: string, statusStr: string, faults: Faults) returns (threw: bool)
      modifies this
      ensures match FindMessage(old(messages), wamid)
              case None => messages == old(messages) && otpStatus == old(otpStatus)
              case Some(i) =>
                var m := old(messages)[i];
                messages == old(messages)[i := Record(m, statusStr, EffectOf(faults))] &&
                otpStatus == (if m.request in old(otpStatus) && Reflects(m, statusStr, faults)
                              then old(otpStatus)[m.request := Reflect(old(otpStatus)[m.request], statusStr)]
                              else old(otpStatus))
      ensures processed == if threw || !Lands(faults, MarkProcessed) then old(processed) else old(processed) + {eventId}
      ensures faults == map[] ==> !threw
    {
      if ReadMessage in faults {
        return true;
      }
      var found := FindMessage(messages, wamid);
      if found.Some? {
        var request := messages[found.value].request;
        threw := RecordStatus(found.value, statusStr, faults);
        if threw {
          return;
        }
        threw := UpdateOtpStatus(request, statusStr, faults);
        if threw {
          return;
        }
      }
      if Lands(faults, MarkProcessed) {
        processed := processed + {eventId};
      }
      return false;
    }
  }
}
