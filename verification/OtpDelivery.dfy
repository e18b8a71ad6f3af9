/** The delivery records of the OTP system, with faults in both workers: which writes of a
    message leave its status with its event, and how often the provider is called. */
module OtpDelivery {
  import opened Prelude
  import opened Messages
  import opened OtpSystem
  import Worker = OtpWorker
  import Hook = WebhookWorker

  /* ---- The message of an attempt ---- */

  /** The message row of the attempt is created, by a call that may throw all the same. */
  predicate CreatesMessage(a: Worker.Attempt) {
    !a.delivery.Throws? && Worker.Lands(a, Worker.CreateMessage)
  }

  predicate CreatesEvent(a: Worker.Attempt) {
    CreatesMessage(a) && Worker.CreateMessage !in a.faults && Worker.Lands(a, Worker.CreateEvent)
  }

  function NewMessage(job: Worker.Job, a: Worker.Attempt): Message {
    var status := if a.delivery.Success? then MsgSent else MsgFailed;
    Message(job.request, if a.delivery.Success? then Some(a.delivery.wamid) else None, status,
            if CreatesEvent(a) then [status] else [])
  }

  lemma TryMessages(job: Worker.Job, w: Worker.World, a: Worker.Attempt)
    ensures Worker.Try(job, w, a).w.messages ==
      if CreatesMessage(a) then w.messages + [NewMessage(job, a)] else w.messages
  {
    if !a.delivery.Throws? {
      var added := Worker.WithMessage(w, job, a.delivery);
      var m := added.messages[|w.messages|];
      assert added.messages == w.messages + [m] && m == NewMessage(job, a).(events := []);
      assert m.events + [m.status] == [m.status];
      assert Worker.WithEvent(added).messages == w.messages + [m.(events := [m.status])];
    }
  }

  lemma HandlerMessages(job: Worker.Job, w: Worker.World, a: Worker.Attempt)
    ensures Worker.Handler(job, w, a).messages == w.messages
  {
  }

  predicate RunsJob(s: Sys, i: nat) {
    i < |s.jobs| && s.jobs[i].waiting && s.jobs[i].job.request in s.rows
  }

  lemma RunJobMessages(s: Sys, i: nat, a: Worker.Attempt)
    ensures RunJob(s, i, a).messages ==
      if RunsJob(s, i) && CreatesMessage(a) then s.messages + [NewMessage(s.jobs[i].job, a)] else s.messages
  {
    if RunsJob(s, i) {
      var q := s.jobs[i];
      var w := WorldOf(s, s.rows[q.job.request].status);
      TryMessages(q.job, w, a);
      HandlerMessages(q.job, Worker.Try(q.job, w, a).w, a);
    }
  }

  lemma SendKeepsMessages(cfg: Config, s: Sys, c: SendCall)
    ensures Send(cfg, s, c).0.messages == s.messages
  {
    if SendGate(cfg, s, c) == None {
      var s1 := WithCharge(cfg, WithNewRow(cfg, s, c), c);
      assert SendDispatch(cfg, s1, c).messages == s.messages;
    }
  }

  lemma ResendKeepsMessages(cfg: Config, s: Sys, c: ResendCall)
    ensures Resend(cfg, s, c).0.messages == s.messages
  {
    if ResendGate(cfg, s, c) == None {
      var s1 := WithNewCode(cfg, s, c);
      assert ResendDispatch(cfg, s1, c).messages == s.messages;
    }
  }

  lemma HandlersKeepMessages(cfg: Config, s: Sys, step: Step)
    requires !step.DoJob? && !step.DoWebhook?
    ensures Next(cfg, s, step).messages == s.messages
  {
    if step.DoSend? {
      SendKeepsMessages(cfg, s, step.send);
    } else if step.DoResend? {
      ResendKeepsMessages(cfg, s, step.resend);
    }
  }

  /* ---- What a step writes ---- */

  /** The step creates message i. */
  predicate Creates(s: Sys, step: Step, i: nat) {
    step.DoJob? && i == |s.messages| && RunsJob(s, step.i) && CreatesMessage(step.attempt)
  }

  /** The step is a webhook job that writes the status of message i. */
  predicate Updates(s: Sys, step: Step, i: nat) {
    step.DoWebhook? && Hook.FindMessage(s.messages, step.wamid) == Some(i) && i < |s.messages| &&
    Hook.StateOf(step.statusStr) !in s.messages[i].events && !Hook.EffectOf(step.webhookFaults).Nothing?
  }

  predicate WritesMessage(s: Sys, step: Step, i: nat) {
    Creates(s, step, i) || Updates(s, step, i)
  }

  /** ... and inserts the event of that status too. */
  predicate InsertsEvent(step: Step) {
    (step.DoJob? && CreatesEvent(step.attempt)) ||
    (step.DoWebhook? && Hook.EffectOf(step.webhookFaults).Whole?)
  }

  predicate AllDistinct(messages: seq<Message>) {
    forall i :: 0 <= i < |messages| ==> Hook.Distinct(messages[i].events)
  }

  /** What a step does to message i, with s' the state after it. */
  predicate MessageStep(s: Sys, step: Step, s': Sys, i: nat) {
    |s.messages| <= |s'.messages| &&
    (i < |s'.messages| && WritesMessage(s, step, i) ==> (Hook.Synced(s'.messages[i]) <==> InsertsEvent(step))) &&
    (i < |s'.messages| && !WritesMessage(s, step, i) ==> i < |s.messages| && s'.messages[i] == s.messages[i])
  }

  lemma JobStep(s: Sys, step: Step, s': Sys, i: nat)
    requires step.DoJob? && s' == RunJob(s, step.i, step.attempt) && AllDistinct(s.messages)
    ensures MessageStep(s, step, s', i) && AllDistinct(s'.messages)
  {
    RunJobMessages(s, step.i, step.attempt);
  }

  lemma WebhookStep(s: Sys, step: Step, s': Sys, i: nat)
    requires step.DoWebhook? && s' == RunWebhook(s, step.wamid, step.statusStr, step.webhookFaults)
    requires AllDistinct(s.messages)
    ensures MessageStep(s, step, s', i) && AllDistinct(s'.messages)
  {
    var found := Hook.FindMessage(s.messages, step.wamid);
    if found.Some? {
      var m, effect := s.messages[found.value], Hook.EffectOf(step.webhookFaults);
      RecordKeepsDistinct(m, step.statusStr, effect);
      if Hook.StateOf(step.statusStr) !in m.events && !effect.Nothing? {
        Hook.WriteDecides(m, step.statusStr, effect);
      }
    }
  }

  lemma RecordKeepsDistinct(m: Message, statusStr: string, effect: Hook.Effect)
    requires Hook.Distinct(m.events)
    ensures Hook.Distinct(Hook.Record(m, statusStr, effect).events)
  {
  }

  lemma NextMessages(cfg: Config, s: Sys, step: Step, s': Sys, i: nat)
    requires s' == Next(cfg, s, step) && AllDistinct(s.messages)
    ensures MessageStep(s, step, s', i) && AllDistinct(s'.messages)
  {
    if step.DoJob? {
      JobStep(s, step, s', i);
    } else if step.DoWebhook? {
      WebhookStep(s, step, s', i);
    } else {
      HandlersKeepMessages(cfg, s, step);
    }
  }

  /* ---- Runs ---- */

  lemma {:induction false} EventsDistinct(cfg: Config, now: int, steps: seq<Step>, n: nat)
    requires n <= |steps|
    ensures AllDistinct(Run(cfg, Initial(now), steps, n).messages)
  {
    if n == 0 {
    } else {
      EventsDistinct(cfg, now, steps, n - 1);
      NextMessages(cfg, Run(cfg, Initial(now), steps, n - 1), steps[n - 1], Run(cfg, Initial(now), steps, n), 0);
    }
  }

  predicate WritesAt(cfg: Config, now: int, steps: seq<Step>, j: nat, i: nat)
    requires j < |steps|
  {
    WritesMessage(Run(cfg, Initial(now), steps, j), steps[j], i)
  }

  /** Step j is the last of the first n that writes the status of message i. */
  predicate LastWrite(cfg: Config, now: int, steps: seq<Step>, n: nat, j: nat, i: nat)
    requires n <= |steps|
  {
    j < n && WritesAt(cfg, now, steps, j, i) && forall k :: j < k < n ==> !WritesAt(cfg, now, steps, k, i)
  }

  lemma OneLastWrite(cfg: Config, now: int, steps: seq<Step>, n: nat, j: nat, k: nat, i: nat)
    requires n <= |steps| && LastWrite(cfg, now, steps, n, j, i) && LastWrite(cfg, now, steps, n, k, i)
    ensures j == k
  {
  }

  lemma StepMessages(cfg: Config, now: int, steps: seq<Step>, n: nat, i: nat)
    requires n < |steps|
    ensures MessageStep(Run(cfg, Initial(now), steps, n), steps[n], Run(cfg, Initial(now), steps, n + 1), i)
  {
    EventsDistinct(cfg, now, steps, n);
    NextMessages(cfg, Run(cfg, Initial(now), steps, n), steps[n], Run(cfg, Initial(now), steps, n + 1), i);
  }

  lemma LastWriteStays(cfg: Config, now: int, steps: seq<Step>, n: nat, j: nat, i: nat)
    requires n < |steps| && LastWrite(cfg, now, steps, n, j, i) && !WritesAt(cfg, now, steps, n, i)
    ensures LastWrite(cfg, now, steps, n + 1, j, i)
  {
  }

  lemma {:induction false} FindLastWrite(cfg: Config, now: int, steps: seq<Step>, n: nat, i: nat) returns (j: nat)
    requires n <= |steps| && i < |Run(cfg, Initial(now), steps, n).messages|
    ensures LastWrite(cfg, now, steps, n, j, i)
    ensures Hook.Synced(Run(cfg, Initial(now), steps, n).messages[i]) <==> InsertsEvent(steps[j])
  {
    j := n - 1;
    StepMessages(cfg, now, steps, j, i);
    if !WritesAt(cfg, now, steps, j, i) {
      j := FindLastWrite(cfg, now, steps, n - 1, i);
      LastWriteStays(cfg, now, steps, n - 1, j, i);
    }
  }

  /** In every reachable state, whatever calls of either worker fail and however webhooks
      repeat or overtake each other: no message has an event type twice, and the status of a
      message is that of its last event if and only if the last write of its status also
      inserted the event. */
  lemma RecordsHold(cfg: Config, now: int, steps: seq<Step>, n: nat, i: nat)
    requires n <= |steps| && i < |Run(cfg, Initial(now), steps, n).messages|
    ensures var m := Run(cfg, Initial(now), steps, n).messages[i];
            Hook.Distinct(m.events) &&
            (exists j: nat :: LastWrite(cfg, now, steps, n, j, i)) &&
            forall j: nat :: LastWrite(cfg, now, steps, n, j, i) ==> (Hook.Synced(m) <==> InsertsEvent(steps[j]))
  {
    EventsDistinct(cfg, now, steps, n);
    var last := FindLastWrite(cfg, now, steps, n, i);
    forall j: nat | LastWrite(cfg, now, steps, n, j, i) ensures j == last {
      OneLastWrite(cfg, now, steps, n, j, last, i);
    }
  }

  /* ---- Calls to the provider ---- */

  /** The step is an attempt of job i, which calls the provider once. */
  predicate Attempts(s: Sys, step: Step, i: nat) {
    step.DoJob? && step.i == i && RunsJob(s, i)
  }

  function Calls(cfg: Config, now: int, steps: seq<Step>, n: nat, i: nat): nat
    requires n <= |steps|
  {
    if n == 0 then 0
    else Calls(cfg, now, steps, n - 1, i) + (if Attempts(Run(cfg, Initial(now), steps, n - 1), steps[n - 1], i) then 1 else 0)
  }

  /** Times that the queue hands job i out again. */
  function Redeliveries(steps: seq<Step>, n: nat, i: nat): nat
    requires n <= |steps|
  {
    if n == 0 then 0 else Redeliveries(steps, n - 1, i) + (if steps[n - 1] == Redeliver(i) then 1 else 0)
  }

  /** calls - handOuts bounds the retries made so far: one is left open while the job waits. */
  predicate JobBudget(s: Sys, i: nat, calls: nat, handOuts: nat) {
    if i >= |s.jobs| then calls == 0
    else
      var retries := if s.jobs[i].attemptsMade < MAX_RETRIES then s.jobs[i].attemptsMade else MAX_RETRIES - 1;
      calls + (if s.jobs[i].waiting then 1 else 0) <= retries + handOuts
  }

  lemma RunJobBudget(s: Sys, k: nat, a: Worker.Attempt, i: nat, calls: nat, handOuts: nat)
    requires JobBudget(s, i, calls, handOuts) && 1 <= handOuts
    ensures JobBudget(RunJob(s, k, a), i, calls + (if k == i && RunsJob(s, i) then 1 else 0), handOuts)
  {
  }

  lemma SendBudget(cfg: Config, s: Sys, c: SendCall, i: nat, calls: nat, handOuts: nat)
    requires JobBudget(s, i, calls, handOuts) && 1 <= handOuts
    ensures JobBudget(Send(cfg, s, c).0, i, calls, handOuts)
  {
  }

  lemma ResendBudget(cfg: Config, s: Sys, c: ResendCall, i: nat, calls: nat, handOuts: nat)
    requires JobBudget(s, i, calls, handOuts) && 1 <= handOuts
    ensures JobBudget(Resend(cfg, s, c).0, i, calls, handOuts)
  {
  }

  lemma OthersBudget(cfg: Config, s: Sys, step: Step, i: nat, calls: nat, handOuts: nat)
    requires JobBudget(s, i, calls, handOuts) && 1 <= handOuts
    requires !step.DoJob? && !step.DoSend? && !step.DoResend?
    ensures JobBudget(Next(cfg, s, step), i, calls, handOuts + if step == Redeliver(i) then 1 else 0)
  {
  }

  lemma NextBudget(cfg: Config, s: Sys, step: Step, s': Sys, i: nat, calls: nat, handOuts: nat)
    requires s' == Next(cfg, s, step) && JobBudget(s, i, calls, handOuts) && 1 <= handOuts
    ensures JobBudget(s', i, calls + (if Attempts(s, step, i) then 1 else 0),
                      handOuts + if step == Redeliver(i) then 1 else 0)
  {
    if step.DoJob? {
      RunJobBudget(s, step.i, step.attempt, i, calls, handOuts);
    } else if step.DoSend? {
      SendBudget(cfg, s, step.send, i, calls, handOuts);
    } else if step.DoResend? {
      ResendBudget(cfg, s, step.resend, i, calls, handOuts);
    } else {
      OthersBudget(cfg, s, step, i, calls, handOuts);
    }
  }

  lemma {:induction false} BudgetHolds(cfg: Config, now: int, steps: seq<Step>, n: nat, i: nat)
    requires n <= |steps|
    ensures JobBudget(Run(cfg, Initial(now), steps, n), i, Calls(cfg, now, steps, n, i), 1 + Redeliveries(steps, n, i))
  {
    if n == 0 {
    } else {
      BudgetHolds(cfg, now, steps, n - 1, i);
      NextBudget(cfg, Run(cfg, Initial(now), steps, n - 1), steps[n - 1], Run(cfg, Initial(now), steps, n), i,
                 Calls(cfg, now, steps, n - 1, i), 1 + Redeliveries(steps, n - 1, i));
    }
  }

  /** In every run the attempts of a job, and with them its calls to the provider, are at
      most the three of the queue, and one more for each time the job is handed out again. */
  lemma CallsBounded(cfg: Config, now: int, steps: seq<Step>, n: nat, i: nat)
    requires n <= |steps|
    ensures Calls(cfg, now, steps, n, i) <= 3 + Redeliveries(steps, n, i)
  {
    BudgetHolds(cfg, now, steps, n, i);
  }
}
