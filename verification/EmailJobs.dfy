/**
 Mail jobs: one status row and one queued job for each recipient, up to three attempts a job.

 The queue may refuse the jobs after the rows were written. Status writes succeed, and a worker that has started an
 attempt finishes it. Templates and participants may be deleted at any time, which deletes their status rows.
 */
module EmailJobs {
  import opened Wrappers
  import opened Store

  const ATTEMPTS := 3

  datatype EmailStatus = Pending | Sent | Failed

  /** `participant` is not recorded when a snapshot of it is sent along. */
  datatype StatusRow = StatusRow(status: EmailStatus, email: Id, participant: Option<Id>)

  /** Where a job is: queued, looked up, about to mail, after the mail call returned, failing, done. */
  datatype Pc = Waiting | Running | Ready | Mailed | Throwing | Completed | Dead

  datatype Job = Job(email: Id, participant: Id, snapshot: bool, status: Id, attempts: nat, failures: nat, pc: Pc)

  datatype State = State(templates: set<Id>, participants: set<Id>, statuses: map<Id, StatusRow>, jobs: map<nat, Job>)

  datatype Action =
    | Send(email: Id, recipients: seq<Id>, snapshot: bool, ids: seq<Id>, numbers: seq<nat>)
    | SendFails(email: Id, recipients: seq<Id>, snapshot: bool, ids: seq<Id>, numbers: seq<nat>)
    | Start(j: nat)
    | Look(j: nat)
    | Mail(j: nat, ok: bool)
    | Finish(j: nat)
    | DeleteTemplate(e: Id)
    | DeleteParticipant(p: Id)

  function NewRow(email: Id, p: Id, snapshot: bool): StatusRow {
    StatusRow(Pending, email, if snapshot then None else Some(p))
  }

  function NewJob(email: Id, p: Id, snapshot: bool, id: Id): Job {
    Job(email, p, snapshot, id, 0, 0, Waiting)
  }

  /** Rows and jobs for the first `n` recipients. */
  function Enqueued(s: State, email: Id, recipients: seq<Id>, snapshot: bool, ids: seq<Id>, numbers: seq<nat>,
                    n: nat): State
    requires n <= |recipients| == |ids| == |numbers|
  {
    if n == 0 then s
    else
      var before := Enqueued(s, email, recipients, snapshot, ids, numbers, n - 1);
      before.(statuses := before.statuses[ids[n - 1] := NewRow(email, recipients[n - 1], snapshot)],
              jobs := before.jobs[numbers[n - 1] := NewJob(email, recipients[n - 1], snapshot, ids[n - 1])])
  }

  /** The queue has refused the jobs: only the rows are there. */
  function Unqueued(s: State, email: Id, recipients: seq<Id>, snapshot: bool, ids: seq<Id>, numbers: seq<nat>): State
    requires |recipients| == |ids| == |numbers|
  {
    s.(statuses := Enqueued(s, email, recipients, snapshot, ids, numbers, |recipients|).statuses)
  }

  /** New ids for rows and jobs; the rows name a stored template and, without a snapshot, stored participants. */
  predicate CanSend(s: State, email: Id, recipients: seq<Id>, snapshot: bool, ids: seq<Id>, numbers: seq<nat>) {
    && |recipients| == |ids| == |numbers|
    && email in s.templates
    && (snapshot || forall i :: 0 <= i < |recipients| ==> recipients[i] in s.participants)
    && Apart(ids, numbers)
    && AllNew(s, ids, numbers)
  }

  /** `updateMany`: nothing happens if the row is gone. */
  function Marked(statuses: map<Id, StatusRow>, id: Id, status: EmailStatus): map<Id, StatusRow> {
    if id in statuses then statuses[id := statuses[id].(status := status)] else statuses
  }

  /** The queue tries again until the attempts are used up. */
  function AfterFailure(job: Job): Pc {
    if job.attempts < ATTEMPTS then Waiting else Dead
  }

  /** The status write at the end of an attempt, and what the queue makes of its outcome. */
  function FinishJob(s: State, j: nat): State
    requires j in s.jobs && (s.jobs[j].pc.Mailed? || s.jobs[j].pc.Throwing?)
  {
    var job := s.jobs[j];
    if job.pc.Mailed? then
      s.(statuses := Marked(s.statuses, job.status, Sent), jobs := s.jobs[j := job.(pc := Completed)])
    else
      s.(statuses := Marked(s.statuses, job.status, Failed),
         jobs := s.jobs[j := job.(failures := job.failures + 1, pc := AfterFailure(job))])
  }

  function Step(s: State, action: Action): Option<State> {
    match action
    case Send(email, recipients, snapshot, ids, numbers) =>
      if CanSend(s, email, recipients, snapshot, ids, numbers)
      then Some(Enqueued(s, email, recipients, snapshot, ids, numbers, |recipients|)) else None
    case SendFails(email, recipients, snapshot, ids, numbers) =>
      if CanSend(s, email, recipients, snapshot, ids, numbers)
      then Some(Unqueued(s, email, recipients, snapshot, ids, numbers)) else None
    case Start(j) =>
      if j in s.jobs && s.jobs[j].pc.Waiting?
      then Some(s.(jobs := s.jobs[j := s.jobs[j].(attempts := s.jobs[j].attempts + 1, pc := Running)])) else None
    case Look(j) =>
      if j in s.jobs && s.jobs[j].pc.Running? then
        var job := s.jobs[j];
        var found := job.email in s.templates && (job.snapshot || job.participant in s.participants);
        Some(s.(jobs := s.jobs[j := job.(pc := if found then Ready else Throwing)]))
      else None
    case Mail(j, ok) =>
      if j in s.jobs && s.jobs[j].pc.Ready?
      then Some(s.(jobs := s.jobs[j := s.jobs[j].(pc := if ok then Mailed else Throwing)])) else None
    case Finish(j) =>
      if j in s.jobs && (s.jobs[j].pc.Mailed? || s.jobs[j].pc.Throwing?) then Some(FinishJob(s, j)) else None
    case DeleteTemplate(e) =>
      Some(s.(templates := s.templates - {e},
              statuses := map k | k in s.statuses && s.statuses[k].email != e :: s.statuses[k]))
    case DeleteParticipant(p) =>
      Some(s.(participants := s.participants - {p},
              statuses := map k | k in s.statuses && s.statuses[k].participant != Some(p) :: s.statuses[k]))
  }

  function Run(s: State, actions: seq<Action>): Option<State>
    decreases actions
  {
    if actions == [] then Some(s)
    else
      var next := Step(s, actions[0]);
      if next.Some? then Run(next.value, actions[1..]) else None
  }

  // What a job's row says

  /** The status of a job's row, while there is one: sent once completed, else failed once an attempt has failed. */
  function StatusFor(job: Job): EmailStatus {
    if job.pc.Completed? then Sent else if job.failures > 0 then Failed else Pending
  }

  predicate JobOk(job: Job) {
    match job.pc
    case Waiting => job.failures == job.attempts < ATTEMPTS
    case Dead => job.failures == job.attempts == ATTEMPTS
    case _ => job.failures + 1 == job.attempts <= ATTEMPTS
  }

  ghost predicate Consistent(s: State) {
    && (forall j :: j in s.jobs ==> JobOk(s.jobs[j]))
    && (forall i, j :: i in s.jobs && j in s.jobs && s.jobs[i].status == s.jobs[j].status ==> i == j)
    && (forall j :: j in s.jobs && s.jobs[j].status in s.statuses ==>
        s.statuses[s.jobs[j].status].status == StatusFor(s.jobs[j]))
    && forall k :: k in s.statuses ==> s.statuses[k].status.Pending? || HasJob(s, k)
  }

  ghost predicate HasJob(s: State, k: Id) {
    exists j :: j in s.jobs && s.jobs[j].status == k
  }

  lemma EnqueueOne(s: State, email: Id, p: Id, snapshot: bool, id: Id, number: nat)
    requires Consistent(s) && IsNew(s, id, number)
    ensures Consistent(s.(statuses := s.statuses[id := NewRow(email, p, snapshot)],
        jobs := s.jobs[number := NewJob(email, p, snapshot, id)]))
  {
    var s' := s.(statuses := s.statuses[id := NewRow(email, p, snapshot)],
        jobs := s.jobs[number := NewJob(email, p, snapshot, id)]);
    forall k | k in s'.statuses ensures s'.statuses[k].status.Pending? || HasJob(s', k) {
      if k != id && HasJob(s, k) {
        var j :| j in s.jobs && s.jobs[j].status == k;
        assert s'.jobs[j].status == k;
      }
    }
  }

  /** Nothing but the first `n` of the new rows and jobs has been added. */
  ghost predicate Added(s: State, s': State, ids: seq<Id>, numbers: seq<nat>, n: nat)
    requires n <= |ids| == |numbers|
  {
    && (forall k :: k in s.statuses ==> k in s'.statuses && s'.statuses[k] == s.statuses[k])
    && (forall j :: j in s.jobs ==> j in s'.jobs && s'.jobs[j] == s.jobs[j])
    && (forall k :: k in s'.statuses && k !in s.statuses ==> exists i :: 0 <= i < n && ids[i] == k)
    && (forall j :: j in s'.jobs && j !in s.jobs ==>
        exists i :: 0 <= i < n && numbers[i] == j && ids[i] == s'.jobs[j].status)
  }

  lemma AddedOne(s: State, s': State, ids: seq<Id>, numbers: seq<nat>, n: nat, row: StatusRow, job: Job)
    requires n < |ids| == |numbers| && Added(s, s', ids, numbers, n) && job.status == ids[n]
    requires IsNew(s, ids[n], numbers[n])
    ensures Added(s, s'.(statuses := s'.statuses[ids[n] := row], jobs := s'.jobs[numbers[n] := job]),
                  ids, numbers, n + 1)
  {
    var after := s'.(statuses := s'.statuses[ids[n] := row], jobs := s'.jobs[numbers[n] := job]);
    forall k | k in after.statuses && k !in s.statuses ensures exists i :: 0 <= i < n + 1 && ids[i] == k {
      if k != ids[n] {
        var i :| 0 <= i < n && ids[i] == k;
        assert i < n + 1;
      }
    }
    forall j | j in after.jobs && j !in s.jobs
      ensures exists i :: 0 <= i < n + 1 && numbers[i] == j && ids[i] == after.jobs[j].status
    {
      if j != numbers[n] {
        var i :| 0 <= i < n && numbers[i] == j && ids[i] == s'.jobs[j].status;
        assert i < n + 1;
      }
    }
  }

  /** Each row and job is new when its turn comes. */
  ghost predicate NewInTurn(s: State, email: Id, recipients: seq<Id>, snapshot: bool, ids: seq<Id>, numbers: seq<nat>,
                            n: nat)
    requires n <= |recipients| == |ids| == |numbers|
  {
    n > 0 ==>
      && NewInTurn(s, email, recipients, snapshot, ids, numbers, n - 1)
      && IsNew(Enqueued(s, email, recipients, snapshot, ids, numbers, n - 1), ids[n - 1], numbers[n - 1])
  }

  predicate IsNew(s: State, id: Id, number: nat) {
    id !in s.statuses && number !in s.jobs && forall j :: j in s.jobs ==> s.jobs[j].status != id
  }

  predicate Apart(ids: seq<Id>, numbers: seq<nat>) {
    |ids| == |numbers| && forall i, j :: 0 <= i < j < |ids| ==> ids[i] != ids[j] && numbers[i] != numbers[j]
  }

  lemma StillNew(s: State, s': State, ids: seq<Id>, numbers: seq<nat>, n: nat)
    requires Apart(ids, numbers) && n < |ids| && Added(s, s', ids, numbers, n) && IsNew(s, ids[n], numbers[n])
    ensures IsNew(s', ids[n], numbers[n])
  {
  }

  predicate AllNew(s: State, ids: seq<Id>, numbers: seq<nat>)
    requires |ids| == |numbers|
  {
    forall i {:trigger IsNew(s, ids[i], numbers[i])} :: 0 <= i < |ids| ==> IsNew(s, ids[i], numbers[i])
  }

  lemma {:induction false} EnqueueAdds(s: State, email: Id, recipients: seq<Id>, snapshot: bool, ids: seq<Id>,
                                       numbers: seq<nat>, n: nat)
    requires n <= |recipients| == |ids| == |numbers| && AllNew(s, ids, numbers)
    ensures Added(s, Enqueued(s, email, recipients, snapshot, ids, numbers, n), ids, numbers, n)
    decreases n
  {
    if n > 0 {
      EnqueueAdds(s, email, recipients, snapshot, ids, numbers, n - 1);
      var before := Enqueued(s, email, recipients, snapshot, ids, numbers, n - 1);
      assert IsNew(s, ids[n - 1], numbers[n - 1]);
      AddedOne(s, before, ids, numbers, n - 1, NewRow(email, recipients[n - 1], snapshot),
          NewJob(email, recipients[n - 1], snapshot, ids[n - 1]));
    }
  }

  lemma NextIsNew(s: State, email: Id, recipients: seq<Id>, snapshot: bool, ids: seq<Id>, numbers: seq<nat>, n: nat)
    requires n < |recipients| == |ids| == |numbers| && Apart(ids, numbers) && AllNew(s, ids, numbers)
    ensures IsNew(Enqueued(s, email, recipients, snapshot, ids, numbers, n), ids[n], numbers[n])
  {
    EnqueueAdds(s, email, recipients, snapshot, ids, numbers, n);
    assert IsNew(s, ids[n], numbers[n]);
    StillNew(s, Enqueued(s, email, recipients, snapshot, ids, numbers, n), ids, numbers, n);
  }

  lemma {:induction false} AllNewInTurn(s: State, email: Id, recipients: seq<Id>, snapshot: bool, ids: seq<Id>,
                                        numbers: seq<nat>, n: nat)
    requires n <= |recipients| == |ids| == |numbers| && Apart(ids, numbers) && AllNew(s, ids, numbers)
    ensures NewInTurn(s, email, recipients, snapshot, ids, numbers, n)
    decreases n
  {
    if n > 0 {
      AllNewInTurn(s, email, recipients, snapshot, ids, numbers, n - 1);
      NextIsNew(s, email, recipients, snapshot, ids, numbers, n - 1);
    }
  }

  lemma {:induction false} EnqueueKeeps(s: State, email: Id, recipients: seq<Id>, snapshot: bool, ids: seq<Id>,
                                        numbers: seq<nat>, n: nat)
    requires n <= |recipients| == |ids| == |numbers|
    requires Consistent(s) && NewInTurn(s, email, recipients, snapshot, ids, numbers, n)
    ensures Consistent(Enqueued(s, email, recipients, snapshot, ids, numbers, n))
    decreases n
  {
    if n > 0 {
      EnqueueKeeps(s, email, recipients, snapshot, ids, numbers, n - 1);
      EnqueueOne(Enqueued(s, email, recipients, snapshot, ids, numbers, n - 1), email, recipients[n - 1], snapshot,
          ids[n - 1], numbers[n - 1]);
    }
  }

  lemma JobMoves(s: State, j: nat, job: Job, statuses: map<Id, StatusRow>)
    requires Consistent(s) && j in s.jobs && job.status == s.jobs[j].status && JobOk(job)
    requires statuses.Keys == s.statuses.Keys
    requires forall k :: k in statuses && k != job.status ==> statuses[k] == s.statuses[k]
    requires job.status in statuses ==> statuses[job.status].status == StatusFor(job)
    ensures Consistent(s.(jobs := s.jobs[j := job], statuses := statuses))
  {
    var s' := s.(jobs := s.jobs[j := job], statuses := statuses);
    forall k | k in s'.statuses ensures s'.statuses[k].status.Pending? || HasJob(s', k) {
      if HasJob(s, k) {
        var i :| i in s.jobs && s.jobs[i].status == k;
        assert s'.jobs[i].status == k;
      }
    }
  }

  lemma RowsGo(s: State, s': State)
    requires Consistent(s) && s'.jobs == s.jobs && s'.statuses.Keys <= s.statuses.Keys
    requires forall k :: k in s'.statuses ==> s'.statuses[k] == s.statuses[k]
    ensures Consistent(s')
  {
  }

  lemma {:induction false} NewRowsArePending(s: State, email: Id, recipients: seq<Id>, snapshot: bool, ids: seq<Id>,
                                             numbers: seq<nat>, n: nat)
    requires n <= |recipients| == |ids| == |numbers|
    ensures var s' := Enqueued(s, email, recipients, snapshot, ids, numbers, n);
      forall k :: k in s'.statuses && k !in s.statuses ==> s'.statuses[k].status.Pending?
    decreases n
  {
    if n > 0 {
      NewRowsArePending(s, email, recipients, snapshot, ids, numbers, n - 1);
    }
  }

  lemma UnqueuedKeeps(s: State, email: Id, recipients: seq<Id>, snapshot: bool, ids: seq<Id>, numbers: seq<nat>)
    requires Consistent(s) && CanSend(s, email, recipients, snapshot, ids, numbers)
    ensures Consistent(Unqueued(s, email, recipients, snapshot, ids, numbers))
  {
    var s' := Unqueued(s, email, recipients, snapshot, ids, numbers);
    NewRowsArePending(s, email, recipients, snapshot, ids, numbers, |recipients|);
    EnqueueAdds(s, email, recipients, snapshot, ids, numbers, |recipients|);
    forall i | 0 <= i < |ids| ensures IsNew(s, ids[i], numbers[i]) {
    }
    forall k | k in s'.statuses ensures s'.statuses[k].status.Pending? || HasJob(s', k) {
      if HasJob(s, k) {
        var i :| i in s.jobs && s.jobs[i].status == k;
        assert s'.jobs[i].status == k;
      }
    }
  }

  lemma StepKeepsConsistent(s: State, action: Action)
    requires Consistent(s) && Step(s, action).Some?
    ensures Consistent(Step(s, action).value)
  {
    var s' := Step(s, action).value;
    match action
    case Send(email, recipients, snapshot, ids, numbers) => {
      AllNewInTurn(s, email, recipients, snapshot, ids, numbers, |recipients|);
      EnqueueKeeps(s, email, recipients, snapshot, ids, numbers, |recipients|);
    }
    case SendFails(email, recipients, snapshot, ids, numbers) =>
      UnqueuedKeeps(s, email, recipients, snapshot, ids, numbers);
    case DeleteTemplate(e) => RowsGo(s, s');
    case DeleteParticipant(p) => RowsGo(s, s');
    case Finish(j) => {
      assert JobOk(s.jobs[j]);
      JobMoves(s, j, s'.jobs[j], s'.statuses);
    }
    case _ => {
      assert JobOk(s.jobs[action.j]);
      JobMoves(s, action.j, s'.jobs[action.j], s'.statuses);
    }
  }

  lemma {:induction false} RunKeepsConsistent(s: State, actions: seq<Action>)
    requires Consistent(s) && Run(s, actions).Some?
    ensures Consistent(Run(s, actions).value)
    decreases actions
  {
    if actions != [] {
      StepKeepsConsistent(s, actions[0]);
      RunKeepsConsistent(Step(s, actions[0]).value, actions[1..]);
    }
  }

  /** A row that says "sent" says so for good. */
  lemma {:induction false} SentStaysSent(s: State, actions: seq<Action>, k: Id)
    requires Consistent(s) && Run(s, actions).Some? && k in s.statuses && s.statuses[k].status.Sent?
    ensures var s' := Run(s, actions).value; k in s'.statuses ==> s'.statuses[k].status.Sent?
    decreases actions
  {
    if actions != [] {
      var next := Step(s, actions[0]).value;
      StepKeepsConsistent(s, actions[0]);
      var j :| j in s.jobs && s.jobs[j].status == k;
      CompletedStays(s, actions[0], j);
      if k in next.statuses {
        SentStaysSent(next, actions[1..], k);
      } else {
        GoneStaysGone(next, actions[1..], j);
      }
    }
  }

  lemma SendStays(s: State, s': State, ids: seq<Id>, numbers: seq<nat>, j: nat)
    requires |ids| == |numbers| && AllNew(s, ids, numbers) && Added(s, s', ids, numbers, |ids|) && j in s.jobs
    ensures j in s'.jobs && s'.jobs[j] == s.jobs[j]
    ensures s.jobs[j].status !in s.statuses ==> s.jobs[j].status !in s'.statuses
  {
    forall i | 0 <= i < |ids| ensures ids[i] != s.jobs[j].status {
      assert IsNew(s, ids[i], numbers[i]);
    }
  }

  lemma CompletedStays(s: State, action: Action, j: nat)
    requires Consistent(s) && Step(s, action).Some? && j in s.jobs
    ensures var s' := Step(s, action).value;
      j in s'.jobs && s'.jobs[j].status == s.jobs[j].status && (s.jobs[j].pc.Completed? ==> s'.jobs[j] == s.jobs[j])
    ensures s.jobs[j].status !in s.statuses ==> s.jobs[j].status !in Step(s, action).value.statuses
  {
    if action.Send? || action.SendFails? {
      EnqueueAdds(s, action.email, action.recipients, action.snapshot, action.ids, action.numbers, |action.recipients|);
      SendStays(s, Step(s, action).value, action.ids, action.numbers, j);
    }
  }

  /** A deleted row does not come back: no later row has its id. */
  lemma {:induction false} GoneStaysGone(s: State, actions: seq<Action>, j: nat)
    requires Consistent(s) && Run(s, actions).Some? && j in s.jobs && s.jobs[j].status !in s.statuses
    ensures s.jobs[j].status !in Run(s, actions).value.statuses
    decreases actions
  {
    if actions != [] {
      StepKeepsConsistent(s, actions[0]);
      CompletedStays(s, actions[0], j);
      GoneStaysGone(Step(s, actions[0]).value, actions[1..], j);
    }
  }

  // What a job's history says

  /** The mail call of the job's last attempt has returned. */
  predicate Delivered(job: Job) {
    job.pc.Mailed? || job.pc.Completed?
  }

  /** How many attempts of the job the run starts. */
  function Starts(actions: seq<Action>, j: nat): nat {
    if actions == [] then 0 else (if actions[0] == Start(j) then 1 else 0) + Starts(actions[1..], j)
  }

  lemma {:induction false} NewJobsWait(s: State, email: Id, recipients: seq<Id>, snapshot: bool, ids: seq<Id>,
                                       numbers: seq<nat>, n: nat)
    requires n <= |recipients| == |ids| == |numbers|
    ensures var s' := Enqueued(s, email, recipients, snapshot, ids, numbers, n);
      forall j :: j in s'.jobs && j !in s.jobs ==> s'.jobs[j].pc.Waiting? && s'.jobs[j].attempts == 0
    decreases n
  {
    if n > 0 {
      NewJobsWait(s, email, recipients, snapshot, ids, numbers, n - 1);
    }
  }

  lemma StepHistory(s: State, action: Action, j: nat)
    requires Step(s, action).Some?
    ensures var s' := Step(s, action).value;
      && (j in s.jobs ==> j in s'.jobs)
      && (j in s'.jobs ==>
            && (Delivered(s'.jobs[j]) <==> (j in s.jobs && Delivered(s.jobs[j])) || action == Mail(j, true))
            && s'.jobs[j].attempts == (if j in s.jobs then s.jobs[j].attempts else 0) +
                if action == Start(j) then 1 else 0)
      && (j !in s'.jobs ==> action != Mail(j, true) && action != Start(j))
  {
    if action.Send? || action.SendFails? {
      var n := |action.recipients|;
      NewJobsWait(s, action.email, action.recipients, action.snapshot, action.ids, action.numbers, n);
      EnqueueAdds(s, action.email, action.recipients, action.snapshot, action.ids, action.numbers, n);
    }
  }

  /** A job has been delivered exactly when one of its mail calls returned, and it counts its attempts. */
  lemma {:induction false} RunHistory(s: State, actions: seq<Action>, j: nat)
    requires Run(s, actions).Some?
    ensures var s' := Run(s, actions).value;
      && (j in s.jobs ==> j in s'.jobs)
      && (j in s'.jobs ==>
            && (Delivered(s'.jobs[j]) <==> (j in s.jobs && Delivered(s.jobs[j])) || Mail(j, true) in actions)
            && s'.jobs[j].attempts == (if j in s.jobs then s.jobs[j].attempts else 0) + Starts(actions, j))
      && (j !in s'.jobs ==> Mail(j, true) !in actions && Starts(actions, j) == 0)
    decreases actions
  {
    if actions != [] {
      StepHistory(s, actions[0], j);
      RunHistory(Step(s, actions[0]).value, actions[1..], j);
      assert actions == [actions[0]] + actions[1..];
    }
  }

  /** The row was written by a send whose jobs the queue refused. */
  ghost predicate WasRefused(actions: seq<Action>, k: Id) {
    exists i :: 0 <= i < |actions| && actions[i].SendFails? && k in actions[i].ids
  }

  lemma {:induction false} EnqueuedHaveJobs(s: State, email: Id, recipients: seq<Id>, snapshot: bool, ids: seq<Id>,
                                            numbers: seq<nat>, n: nat)
    requires n <= |recipients| == |ids| == |numbers| && Apart(ids, numbers)
    ensures var s' := Enqueued(s, email, recipients, snapshot, ids, numbers, n);
      forall i :: 0 <= i < n ==> numbers[i] in s'.jobs && s'.jobs[numbers[i]].status == ids[i]
    decreases n
  {
    if n > 0 {
      EnqueuedHaveJobs(s, email, recipients, snapshot, ids, numbers, n - 1);
    }
  }

  lemma NewRowsHaveJobs(s: State, action: Action, k: Id)
    requires Step(s, action).Some? && k in Step(s, action).value.statuses && !HasJob(Step(s, action).value, k)
    ensures (k in s.statuses && !HasJob(s, k)) || (action.SendFails? && k in action.ids)
  {
    var s' := Step(s, action).value;
    if action.Send? || action.SendFails? {
      EnqueueAdds(s, action.email, action.recipients, action.snapshot, action.ids, action.numbers, |action.recipients|);
      EnqueuedHaveJobs(s, action.email, action.recipients, action.snapshot, action.ids, action.numbers,
          |action.recipients|);
    }
    forall j | j in s.jobs ensures j in s'.jobs && s'.jobs[j].status == s.jobs[j].status {
    }
  }

  /** Every row has a job unless it is one that no job was queued for. */
  lemma {:induction false} RowsHaveJobs(s: State, actions: seq<Action>, k: Id)
    requires Run(s, actions).Some? && k in Run(s, actions).value.statuses && !HasJob(Run(s, actions).value, k)
    ensures (k in s.statuses && !HasJob(s, k)) || WasRefused(actions, k)
    decreases actions
  {
    if actions != [] {
      var next, rest := Step(s, actions[0]).value, actions[1..];
      RowsHaveJobs(next, rest, k);
      if WasRefused(rest, k) {
        var i :| 0 <= i < |rest| && rest[i].SendFails? && k in rest[i].ids;
        assert actions[i + 1] == rest[i];
      } else {
        NewRowsHaveJobs(s, actions[0], k);
      }
    }
  }

  /**
   Whatever the queue does: every row belongs to one job, unless the queue refused its jobs, and then it stays
   "pending". A job starts at most three attempts. Its row says "sent"
   only after a mail call of the job returned. Once the job is finished it says "sent" exactly when that happened,
   and "failed" exactly when the job started three attempts and none of their mail calls returned.
   */
  lemma RowsTellWhatHappened(templates: set<Id>, participants: set<Id>, actions: seq<Action>, j: nat)
    requires Run(State(templates, participants, map[], map[]), actions).Some?
    ensures var s := Run(State(templates, participants, map[], map[]), actions).value;
      && (forall k :: k in s.statuses && !HasJob(s, k) ==> WasRefused(actions, k) && s.statuses[k].status.Pending?)
      && Starts(actions, j) <= ATTEMPTS
      && (j in s.jobs && s.jobs[j].status in s.statuses ==>
            var job, status := s.jobs[j], s.statuses[s.jobs[j].status].status;
            && (forall i :: i in s.jobs && s.jobs[i].status == job.status ==> i == j)
            && (status.Sent? ==> job.pc.Completed? && Mail(j, true) in actions)
            && (job.pc.Completed? || job.pc.Dead? ==>
                  && (status.Sent? <==> Mail(j, true) in actions)
                  && (status.Failed? <==> Mail(j, true) !in actions && Starts(actions, j) == ATTEMPTS)))
  {
    RunKeepsConsistent(State(templates, participants, map[], map[]), actions);
    RunHistory(State(templates, participants, map[], map[]), actions, j);
    var s := Run(State(templates, participants, map[], map[]), actions).value;
    assert j in s.jobs ==> JobOk(s.jobs[j]);
    forall k | k in s.statuses && !HasJob(s, k) ensures WasRefused(actions, k) {
      RowsHaveJobs(State(templates, participants, map[], map[]), actions, k);
    }
  }

  // The service

  lemma {:induction false} EnqueuedKeepsOthers(s: State, email: Id, recipients: seq<Id>, snapshot: bool, ids: seq<Id>,
                                               numbers: seq<nat>, n: nat)
    requires n <= |recipients| == |ids| == |numbers|
    ensures var s' := Enqueued(s, email, recipients, snapshot, ids, numbers, n);
      s'.templates == s.templates && s'.participants == s.participants
    decreases n
  {
    if n > 0 {
      EnqueuedKeepsOthers(s, email, recipients, snapshot, ids, numbers, n - 1);
    }
  }

  /** An attempt that nothing interrupts. */
  function Attempted(s: State, j: nat, delivered: bool): State
    requires j in s.jobs
  {
    var job := s.jobs[j].(attempts := s.jobs[j].attempts + 1);
    if job.email in s.templates && (job.snapshot || job.participant in s.participants) && delivered then
      s.(statuses := Marked(s.statuses, job.status, Sent), jobs := s.jobs[j := job.(pc := Completed)])
    else
      s.(statuses := Marked(s.statuses, job.status, Failed),
         jobs := s.jobs[j := job.(failures := job.failures + 1, pc := AfterFailure(job))])
  }

  lemma RunCons(s: State, action: Action, next: State, rest: seq<Action>)
    requires Step(s, action) == Some(next)
    ensures Run(s, [action] + rest) == Run(next, rest)
  {
    assert ([action] + rest)[1..] == rest;
  }

  function PutJob(s: State, j: nat, job: Job): State {
    s.(jobs := s.jobs[j := job])
  }

  lemma PutTwice(s: State, j: nat, x: Job, y: Job)
    ensures PutJob(PutJob(s, j, x), j, y) == PutJob(s, j, y)
  {
    assert s.jobs[j := x][j := y] == s.jobs[j := y];
  }

  /** The job after looking up template and participant. */
  function Looked(s: State, j: nat): State
    requires j in s.jobs
  {
    var job := s.jobs[j].(attempts := s.jobs[j].attempts + 1);
    var found := job.email in s.templates && (job.snapshot || job.participant in s.participants);
    PutJob(s, j, job.(pc := if found then Ready else Throwing))
  }

  lemma AttemptStarts(s: State, j: nat, rest: seq<Action>)
    requires j in s.jobs && s.jobs[j].pc.Waiting?
    ensures Run(s, [Start(j)] + ([Look(j)] + rest)) == Run(Looked(s, j), rest)
  {
    var s1 := PutJob(s, j, s.jobs[j].(attempts := s.jobs[j].attempts + 1, pc := Running));
    RunCons(s, Start(j), s1, [Look(j)] + rest);
    PutTwice(s, j, s1.jobs[j], Looked(s, j).jobs[j]);
    RunCons(s1, Look(j), Looked(s, j), rest);
  }

  /** The job after the mail call, if there was something to mail. */
  function AfterMail(s: State, j: nat, delivered: bool): State
    requires j in s.jobs
  {
    var looked := Looked(s, j);
    PutJob(s, j, looked.jobs[j].(pc := if looked.jobs[j].pc.Ready? && delivered then Mailed else Throwing))
  }

  lemma AttemptMails(s: State, j: nat, delivered: bool, rest: seq<Action>)
    requires j in s.jobs
    ensures Run(Looked(s, j), (if Looked(s, j).jobs[j].pc.Ready? then [Mail(j, delivered)] else []) + rest)
        == Run(AfterMail(s, j, delivered), rest)
  {
    var looked, after := Looked(s, j), AfterMail(s, j, delivered);
    PutTwice(s, j, looked.jobs[j], after.jobs[j]);
    if looked.jobs[j].pc.Ready? {
      RunCons(looked, Mail(j, delivered), after, rest);
    } else {
      assert [] + rest == rest;
      assert looked == after;
    }
  }

  lemma AttemptEnds(s: State, j: nat, delivered: bool)
    requires j in s.jobs
    ensures Run(AfterMail(s, j, delivered), [Finish(j)] + []) == Some(Attempted(s, j, delivered))
  {
    var after := AfterMail(s, j, delivered);
    PutTwice(s, j, after.jobs[j], Attempted(s, j, delivered).jobs[j]);
    RunCons(after, Finish(j), Attempted(s, j, delivered), []);
  }

  /** It takes the steps start, look, mail (if there is something to mail) and finish one after the other. */
  lemma AttemptIsARun(s: State, j: nat, delivered: bool)
    requires j in s.jobs && s.jobs[j].pc.Waiting?
    ensures Run(s, [Start(j)] +
        ([Look(j)] + ((if Looked(s, j).jobs[j].pc.Ready? then [Mail(j, delivered)] else []) + ([Finish(j)] + []))))
         == Some(Attempted(s, j, delivered))
  {
    AttemptStarts(s, j, (if Looked(s, j).jobs[j].pc.Ready? then [Mail(j, delivered)] else []) + ([Finish(j)] + []));
    AttemptMails(s, j, delivered, [Finish(j)] + []);
    AttemptEnds(s, j, delivered);
  }

  lemma AttemptKeepsConsistent(s: State, j: nat, delivered: bool)
    requires Consistent(s) && j in s.jobs && s.jobs[j].pc.Waiting?
    ensures Consistent(Attempted(s, j, delivered))
  {
    hide Consistent;
    var mail := if Looked(s, j).jobs[j].pc.Ready? then [Mail(j, delivered)] else [];
    AttemptIsARun(s, j, delivered);
    RunKeepsConsistent(s, [Start(j)] + ([Look(j)] + (mail + ([Finish(j)] + []))));
  }

  class EmailDelivery {
    var templates: set<Id>
    var participants: set<Id>
    var statuses: map<Id, StatusRow>
    var jobs: map<nat, Job>

    function Snapshot(): State
      reads this
    {
      State(templates, participants, statuses, jobs)
    }

    /** Every row agrees with its one job. */
    ghost predicate Valid()
      reads this
    {
      Consistent(Snapshot())
    }

    constructor (templates: set<Id>, participants: set<Id>)
      ensures Valid() && Snapshot() == State(templates, participants, map[], map[])
    {
      this.templates, this.participants := templates, participants;
      statuses, jobs := map[], map[];
    }

    method MarkStatus(id: Id, status: EmailStatus)
      modifies this`statuses
      ensures statuses == Marked(old(statuses), id, status)
    {
      if id in statuses {
        statuses := statuses[id := statuses[id].(status := status)];
      }
    }

    /** First all status rows, then all jobs, if the queue takes them. */
    method SendEmailToParticipants(email: Id, recipients: seq<Id>, snapshot: bool, ids: seq<Id>, numbers: seq<nat>,
                                   queueWorks: bool)
      returns (r: Result<()>)
      requires Valid() && CanSend(Snapshot(), email, recipients, snapshot, ids, numbers)
      modifies this`statuses, this`jobs
      ensures Valid()
      ensures r == if queueWorks || recipients == [] then Ok(()) else Err(Internal)
      ensures Step(old(Snapshot()), if r.Ok? then Send(email, recipients, snapshot, ids, numbers)
          else SendFails(email, recipients, snapshot, ids, numbers)) == Some(Snapshot())
    {
      hide Consistent;
      ghost var before := Snapshot();
      for i := 0 to |recipients|
        invariant statuses == Enqueued(before, email, recipients, snapshot, ids, numbers, i).statuses
        invariant templates == before.templates && participants == before.participants && jobs == before.jobs
      {
        statuses := statuses[ids[i] := NewRow(email, recipients[i], snapshot)];
      }
      if !queueWorks && recipients != [] {
        StepKeepsConsistent(before, SendFails(email, recipients, snapshot, ids, numbers));
        return Err(Internal);
      }
      for i := 0 to |recipients|
        invariant statuses == Enqueued(before, email, recipients, snapshot, ids, numbers, |recipients|).statuses
        invariant jobs == Enqueued(before, email, recipients, snapshot, ids, numbers, i).jobs
        invariant templates == before.templates && participants == before.participants
      {
        jobs := jobs[numbers[i] := NewJob(email, recipients[i], snapshot, ids[i])];
      }
      EnqueuedKeepsOthers(before, email, recipients, snapshot, ids, numbers, |recipients|);
      StepKeepsConsistent(before, Send(email, recipients, snapshot, ids, numbers));
      return Ok(());
    }

    /** One attempt; `delivered` says whether the mail call returns. Whether the attempt throws is the answer. */
    method Deliver(j: nat, delivered: bool) returns (ok: bool)
      requires Valid() && j in jobs && jobs[j].pc.Waiting?
      modifies this`statuses, this`jobs
      ensures Valid()
      ensures Snapshot() == Attempted(old(Snapshot()), j, delivered)
      ensures ok <==> jobs[j].pc.Completed?
    {
      hide Consistent;
      AttemptKeepsConsistent(Snapshot(), j, delivered);
      var job := jobs[j].(attempts := jobs[j].attempts + 1);
      if job.email !in templates || (!job.snapshot && job.participant !in participants) || !delivered {
        MarkStatus(job.status, Failed);
        jobs := jobs[j := job.(failures := job.failures + 1, pc := AfterFailure(job))];
        return false;
      }
      MarkStatus(job.status, Sent);
      jobs := jobs[j := job.(pc := Completed)];
      return true;
    }
  }
}
