/** The agent's action service: what one call does to the shared tables inside the mutex. */
module ActionServiceCore {
  import opened Outcomes
  import opened CanonicalArguments
  import opened CanonicalTask

  datatype ActionResult = ActionResult(jobId: string, succeeded: bool, message: string, finishedAt: int)

  datatype ActionError =
    | TaskAuthentication
    | BadApprovalHash
    | JobExpired
    | TargetNotAllowed
    | KeyBoundToOtherTask
    | ContextDone

  /** A record is finished when its `done` channel is closed. */
  datatype Record =
    | Running(fingerprint: string)
    | Finished(fingerprint: string, result: ActionResult, completedAt: int)

  datatype NonceRecord = NonceRecord(idempotencyKey: string, expiresAt: int)

  datatype Tables = Tables(records: map<string, Record>, nonces: map<string, NonceRecord>)

  /** `secret` is None when the service was built without an authenticator. */
  datatype Config = Config(primitives: Primitives, secret: Option<string>, realActionsMode: string)

  datatype Admission = Refused(error: ActionError) | Join | Lead

  const LAB_PREFIX := "lab-"
  const REAL_PREFIX := "docker/devops-lab/"

  predicate ReadOnlyActionAllowed(c: Config, job: Job) {
    && c.realActionsMode == "approval_only"
    && REAL_PREFIX <= job.target
    && job.actionType in ["health_check", "inspect_container", "collect_logs"]
  }

  /** Laboratory targets are free; real ones may be looked at, in one mode. */
  ghost predicate InScope(c: Config, job: Job) {
    || "lab-" <= job.target
    || (c.realActionsMode == "approval_only" && "docker/devops-lab/" <= job.target
        && (job.actionType == "health_check" || job.actionType == "inspect_container"
            || job.actionType == "collect_logs"))
  }

  /** What the agent demands of a job at any time, its expiry aside. */
  predicate Authorised(c: Config, job: Job) {
    && c.secret.Some? && Verify(c.primitives, c.secret.value, job)
    && IsHex(job.approvedHash, 64)
    && (LAB_PREFIX <= job.target || ReadOnlyActionAllowed(c, job))
  }

  function Precheck(c: Config, job: Job, now: int): (r: Option<ActionError>)
    ensures r.None? <==> Authorised(c, job) && now < job.expiresAt
    ensures r == Some(TaskAuthentication) <==> c.secret == None || !Verify(c.primitives, c.secret.value, job)
    ensures r == Some(BadApprovalHash) ==> !IsHex(job.approvedHash, 64)
    ensures r == Some(JobExpired) ==> IsHex(job.approvedHash, 64) && job.expiresAt <= now
    ensures r == Some(TargetNotAllowed) ==> IsHex(job.approvedHash, 64) && now < job.expiresAt && !InScope(c, job)
    ensures r != Some(KeyBoundToOtherTask) && r != Some(ContextDone)
  {
    if c.secret.None? || !Verify(c.primitives, c.secret.value, job) then Some(TaskAuthentication)
    else if !IsHex(job.approvedHash, 64) then Some(BadApprovalHash)
    else if job.expiresAt <= now then Some(JobExpired)
    else if !(LAB_PREFIX <= job.target) && !ReadOnlyActionAllowed(c, job) then Some(TargetNotAllowed)
    else None
  }

  /** What the shared tables need to know of jobs: the checks made before the mutex is taken, what
    * passing them establishes, and the name of a task.
    */
  datatype Gate = Gate(
    check: (Job, int) -> Option<ActionError>,
    authorised: Job -> bool,
    fingerprint: Job -> string)

  ghost predicate Sound(g: Gate) {
    forall job, now :: g.check(job, now).None? ==> g.authorised(job)
  }

  function GateOf(c: Config): (g: Gate)
    ensures Sound(g)
  {
    Gate((job, now) => Precheck(c, job, now), job => Authorised(c, job), job => Fingerprint(c.primitives, job))
  }

  function Pruned(nonces: map<string, NonceRecord>, now: int): map<string, NonceRecord> {
    map n | n in nonces && now < nonces[n].expiresAt :: nonces[n]
  }

  function Admit(g: Gate, t: Tables, job: Job, now: int): (Tables, Admission) {
    var nonces := Pruned(t.nonces, now);
    if job.nonce in nonces && nonces[job.nonce].idempotencyKey != job.idempotencyKey then
      (Tables(t.records, nonces), Refused(TaskAuthentication))
    else
      var bound := nonces[job.nonce := NonceRecord(job.idempotencyKey, job.expiresAt)];
      var fingerprint := g.fingerprint(job);
      if job.idempotencyKey in t.records then
        (Tables(t.records, bound),
         if t.records[job.idempotencyKey].fingerprint == fingerprint then Join else Refused(KeyBoundToOtherTask))
      else
        (Tables(t.records[job.idempotencyKey := Running(fingerprint)], bound), Lead)
  }

  function Settle(t: Tables, key: string, result: ActionResult, now: int): Tables
    requires key in t.records
  {
    t.(records := t.records[key := Finished(t.records[key].fingerprint, result, now)])
  }

  /** The tables as the service holds them, each method one holding of the mutex. */
  class ActionService {
    const gate: Gate
    var records: map<string, Record>
    var nonces: map<string, NonceRecord>

    constructor (config: Config)
      ensures gate == GateOf(config) && Value() == Tables(map[], map[])
    {
      gate := GateOf(config);
      records, nonces := map[], map[];
    }

    function Value(): Tables
      reads this
    {
      Tables(records, nonces)
    }

    /** Deletes, in no particular order, every binding whose expiry is not after `now`. */
    method PruneExpiredNoncesLocked(now: int)
      modifies this`nonces
      ensures nonces == Pruned(old(nonces), now)
    {
      var pending := nonces.Keys;
      while pending != {}
        invariant pending <= nonces.Keys <= old(nonces).Keys
        invariant forall n :: n in nonces ==> nonces[n] == old(nonces)[n]
        invariant forall n :: n in old(nonces) && n !in pending ==> (n in nonces <==> now < old(nonces)[n].expiresAt)
        decreases pending
      {
        var nonce :| nonce in pending;
        if nonces[nonce].expiresAt <= now {
          nonces := nonces - {nonce};
        }
        pending := pending - {nonce};
      }
    }

    method AdmitLocked(job: Job, now: int) returns (admission: Admission)
      modifies this
      ensures (Value(), admission) == Admit(gate, old(Value()), job, now)
    {
      PruneExpiredNoncesLocked(now);
      if job.nonce in nonces && nonces[job.nonce].idempotencyKey != job.idempotencyKey {
        return Refused(TaskAuthentication);
      }
      nonces := nonces[job.nonce := NonceRecord(job.idempotencyKey, job.expiresAt)];
      var fingerprint := gate.fingerprint(job);
      if job.idempotencyKey in records {
        if records[job.idempotencyKey].fingerprint != fingerprint {
          return Refused(KeyBoundToOtherTask);
        }
        return Join;
      }
      records := records[job.idempotencyKey := Running(fingerprint)];
      return Lead;
    }

    method PublishLocked(key: string, result: ActionResult, now: int)
      requires key in records
      modifies this`records
      ensures Value() == Settle(old(Value()), key, result, now)
      ensures records[key] == Finished(old(records)[key].fingerprint, result, now)
      ensures records.Keys == old(records).Keys
              && forall other :: other in records && other != key ==> records[other] == old(records)[other]
    {
      records := records[key := Finished(records[key].fingerprint, result, now)];
    }
  }

  /** Pruning drops exactly the bindings that have run out; an unexpired one is never lost. */
  lemma PruneKeepsUnexpired(nonces: map<string, NonceRecord>, now: int, later: int)
    requires now <= later
    ensures forall n :: n in nonces && now < nonces[n].expiresAt ==>
              n in Pruned(nonces, now) && Pruned(nonces, now)[n] == nonces[n]
    ensures Pruned(Pruned(nonces, now), later) == Pruned(nonces, later)
  {
    var a, b := Pruned(Pruned(nonces, now), later), Pruned(nonces, later);
    assert forall n :: n in a <==> n in b;
  }
}
