/** The task message both sides sign, and the fingerprint that names a task across re-sends.
  * SHA-256, HMAC-SHA256 and the date layout are parameters; what is needed of them is asked only
  * for the strings at hand: hex digests of 64 characters and no collision among those strings.
  */
module CanonicalTask {
  import opened Outcomes
  import opened CanonicalArguments

  datatype Primitives = Primitives(
    sha256: string -> string,
    hmac: (string, string) -> string,
    stamp: int -> string)

  datatype Job = Job(
    id: string,
    idempotencyKey: string,
    approvedHash: string,
    actionType: string,
    target: string,
    arguments: Arguments,
    expiresAt: int,
    nonce: string,
    signature: string)

  datatype TaskError = IncompleteTask | BadNonce

  const SIGNATURE_VERSION := "aiops-action-v1"
  /** Go's zero time and the fixed instant of a fingerprint, in milliseconds since the Unix epoch. */
  const ZERO_TIME := -62135596800000
  const FINGERPRINT_EXPIRY := 946684800000
  const FINGERPRINT_NONCE := "00000000000000000000000000000000"

  predicate IsHex(s: string, n: nat) {
    |s| == n && forall c :: c in s ==> HexValue(c).Some?
  }

  /** The expiry is signed at the precision of a second. */
  function ExpirySecond(job: Job): int {
    job.expiresAt / 1000
  }

  predicate Complete(job: Job) {
    && job.id != "" && job.idempotencyKey != "" && job.approvedHash != "" && job.actionType != ""
    && job.target != "" && job.expiresAt != ZERO_TIME && job.nonce != ""
  }

  function Fields(p: Primitives, job: Job): seq<string> {
    [job.id, job.idempotencyKey, job.approvedHash, job.actionType, job.target,
     p.stamp(ExpirySecond(job)), job.nonce, EncodeArguments(job.arguments)]
  }

  function Digests(p: Primitives, fields: seq<string>): (r: seq<string>)
    ensures |r| == |fields| && forall i :: 0 <= i < |r| ==> r[i] == p.sha256(fields[i])
  {
    if fields == [] then [] else [p.sha256(fields[0])] + Digests(p, fields[1..])
  }

  function Lines(s: seq<string>): string {
    if s == [] then "" else "\n" + s[0] + Lines(s[1..])
  }

  function Message(p: Primitives, job: Job): Result<string, TaskError> {
    if Complete(job) then Ok(SIGNATURE_VERSION + Lines(Digests(p, Fields(p, job)))) else Err(IncompleteTask)
  }

  method DigestAll(p: Primitives, fields: seq<string>) returns (digests: seq<string>)
    ensures digests == Digests(p, fields)
  {
    digests := [];
    for i := 0 to |fields|
      invariant |digests| == i && forall k :: 0 <= k < i ==> digests[k] == p.sha256(fields[k])
    {
      digests := digests + [p.sha256(fields[i])];
    }
  }

  /** The agent's own loop: one digest per field, appended in order, then joined by line feeds. */
  method CanonicalTaskMessage(p: Primitives, job: Job) returns (r: Result<string, TaskError>)
    ensures r == Message(p, job)
  {
    if !Complete(job) {
      return Err(IncompleteTask);
    }
    var argumentsText := EncodeCanonicalArguments(Some(job.arguments));
    var fields := [job.id, job.idempotencyKey, job.approvedHash, job.actionType, job.target,
                   p.stamp(ExpirySecond(job)), job.nonce, argumentsText];
    var digests := DigestAll(p, fields);
    r := Ok(SIGNATURE_VERSION + Lines(digests));
  }

  // ---- what the message determines ---------------------------------------------------------

  /** No two of these strings share a digest, and each digest is 64 lower-case hex characters. */
  ghost predicate NoCollision(p: Primitives, xs: seq<string>) {
    && (forall i :: 0 <= i < |xs| ==> IsHex(p.sha256(xs[i]), 64))
    && (forall i, j :: 0 <= i < |xs| && 0 <= j < |xs| && p.sha256(xs[i]) == p.sha256(xs[j]) ==> xs[i] == xs[j])
  }

  lemma {:induction false} LinesInjective(a: seq<string>, b: seq<string>)
    requires |a| == |b|
    requires forall i :: 0 <= i < |a| ==> |a[i]| == 64 && |b[i]| == 64
    requires Lines(a) == Lines(b)
    ensures a == b
  {
    if a != [] {
      assert a[0] == Lines(a)[1..65] == Lines(b)[1..65] == b[0];
      assert Lines(a[1..]) == Lines(a)[65..] == Lines(b)[65..] == Lines(b[1..]);
      LinesInjective(a[1..], b[1..]);
      assert a == [a[0]] + a[1..] && b == [b[0]] + b[1..];
    }
  }

  /** The eight components a signature covers: expiry by the second, arguments as a mapping. */
  ghost predicate SameSignedParts(a: Job, b: Job) {
    && a.id == b.id && a.idempotencyKey == b.idempotencyKey && a.approvedHash == b.approvedHash
    && a.actionType == b.actionType && a.target == b.target && ExpirySecond(a) == ExpirySecond(b)
    && a.nonce == b.nonce && AsMap(a.arguments) == AsMap(b.arguments)
  }

  /** The components that make two tasks one: neither id, nor expiry, nor nonce, nor signature. */
  ghost predicate SameTask(a: Job, b: Job) {
    && a.idempotencyKey == b.idempotencyKey && a.approvedHash == b.approvedHash
    && a.actionType == b.actionType && a.target == b.target && AsMap(a.arguments) == AsMap(b.arguments)
  }

  lemma EqualDigestsEqualFields(p: Primitives, f: seq<string>, g: seq<string>)
    requires |f| == |g| && NoCollision(p, f + g)
    ensures Lines(Digests(p, f)) == Lines(Digests(p, g)) <==> f == g
  {
    var df, dg := Digests(p, f), Digests(p, g);
    forall i | 0 <= i < |f| ensures |df[i]| == 64 && |dg[i]| == 64 && (df[i] == dg[i] ==> f[i] == g[i]) {
      assert (f + g)[i] == f[i] && (f + g)[|f| + i] == g[i];
    }
    if Lines(df) == Lines(dg) {
      LinesInjective(df, dg);
    }
  }

  /** Two complete jobs have one canonical message exactly when all eight signed components agree. */
  lemma MessageNamesSignedParts(p: Primitives, a: Job, b: Job)
    requires Complete(a) && Complete(b)
    requires NoCollision(p, Fields(p, a) + Fields(p, b))
    requires p.stamp(ExpirySecond(a)) == p.stamp(ExpirySecond(b)) ==> ExpirySecond(a) == ExpirySecond(b)
    ensures Message(p, a) == Message(p, b) <==> SameSignedParts(a, b)
  {
    var f, g := Fields(p, a), Fields(p, b);
    var ma, mb := Message(p, a).value, Message(p, b).value;
    assert ma[|SIGNATURE_VERSION|..] == Lines(Digests(p, f));
    assert mb[|SIGNATURE_VERSION|..] == Lines(Digests(p, g));
    EqualDigestsEqualFields(p, f, g);
    EncodingNamesMapping(a.arguments, b.arguments);
    assert f[0] == a.id && f[1] == a.idempotencyKey && f[2] == a.approvedHash && f[3] == a.actionType
        && f[4] == a.target && f[5] == p.stamp(ExpirySecond(a)) && f[6] == a.nonce
        && f[7] == EncodeArguments(a.arguments);
    assert g[0] == b.id && g[1] == b.idempotencyKey && g[2] == b.approvedHash && g[3] == b.actionType
        && g[4] == b.target && g[5] == p.stamp(ExpirySecond(b)) && g[6] == b.nonce
        && g[7] == EncodeArguments(b.arguments);
  }

  /** A line feed before each line. */
  function Join8(a: string, b: string, c: string, d: string, e: string, f: string, g: string, h: string): string {
    "\n" + a + ("\n" + b + ("\n" + c + ("\n" + d + ("\n" + e + ("\n" + f + ("\n" + g + ("\n" + h)))))))
  }

  lemma LinesOfEight(s: seq<string>)
    requires |s| == 8
    ensures Lines(s) == Join8(s[0], s[1], s[2], s[3], s[4], s[5], s[6], s[7])
  {
    assert Lines(s[7..]) == "\n" + s[7];
    assert Lines(s[6..]) == "\n" + s[6] + Lines(s[7..]) by { assert s[6..][1..] == s[7..]; }
    assert Lines(s[5..]) == "\n" + s[5] + Lines(s[6..]) by { assert s[5..][1..] == s[6..]; }
    assert Lines(s[4..]) == "\n" + s[4] + Lines(s[5..]) by { assert s[4..][1..] == s[5..]; }
    assert Lines(s[3..]) == "\n" + s[3] + Lines(s[4..]) by { assert s[3..][1..] == s[4..]; }
    assert Lines(s[2..]) == "\n" + s[2] + Lines(s[3..]) by { assert s[2..][1..] == s[3..]; }
    assert Lines(s[1..]) == "\n" + s[1] + Lines(s[2..]) by { assert s[1..][1..] == s[2..]; }
  }

  /** The message, line by line: the version, then the digests of the eight fields. Only a job with an empty
    * field, or at Go's zero time, has none.
    */
  lemma MessageIsSpelled(p: Primitives, job: Job)
    ensures Message(p, job).Err?
            <==> "" in [job.id, job.idempotencyKey, job.approvedHash, job.actionType, job.target, job.nonce]
                 || job.expiresAt == -62135596800000
    ensures Message(p, job).Ok? ==>
              Message(p, job).value
              == "aiops-action-v1"
                 + Join8(p.sha256(job.id), p.sha256(job.idempotencyKey), p.sha256(job.approvedHash),
                         p.sha256(job.actionType), p.sha256(job.target), p.sha256(p.stamp(job.expiresAt / 1000)),
                         p.sha256(job.nonce), p.sha256(EncodeArguments(job.arguments)))
  {
    LinesOfEight(Digests(p, Fields(p, job)));
  }

  // ---- fingerprints ------------------------------------------------------------------------

  function SemanticJob(job: Job): Job {
    job.(id := job.idempotencyKey, expiresAt := FINGERPRINT_EXPIRY, nonce := FINGERPRINT_NONCE)
  }

  function Fingerprint(p: Primitives, job: Job): string {
    match Message(p, SemanticJob(job))
    case Err(_) => ""
    case Ok(m) => p.sha256(m)
  }

  ghost predicate FingerprintsSound(p: Primitives, a: Job, b: Job) {
    && NoCollision(p, Fields(p, SemanticJob(a)) + Fields(p, SemanticJob(b)))
    && (Complete(a) && Complete(b) ==>
          NoCollision(p, [Message(p, SemanticJob(a)).value, Message(p, SemanticJob(b)).value]))
  }

  /** Fingerprints agree exactly when key, approved hash, action, target and arguments agree, so a
    * re-send under a new id, nonce and expiry is the same task and nothing else is.
    */
  lemma FingerprintNamesTask(p: Primitives, a: Job, b: Job)
    requires Complete(a) && Complete(b) && FingerprintsSound(p, a, b)
    ensures Fingerprint(p, a) == Fingerprint(p, b) <==> SameTask(a, b)
  {
    var sa, sb := SemanticJob(a), SemanticJob(b);
    MessageNamesSignedParts(p, sa, sb);
    var ms := [Message(p, sa).value, Message(p, sb).value];
    assert p.sha256(ms[0]) == p.sha256(ms[1]) ==> ms[0] == ms[1];
  }

  /** The fingerprint digests the message of the same task under its key as id, at the start of the year 2000,
    * with a nonce of 32 zeros.
    */
  lemma FingerprintIsSpelled(p: Primitives, job: Job)
    ensures Complete(job) ==>
              Fingerprint(p, job)
              == p.sha256("aiops-action-v1"
                          + Join8(p.sha256(job.idempotencyKey), p.sha256(job.idempotencyKey),
                                  p.sha256(job.approvedHash), p.sha256(job.actionType), p.sha256(job.target),
                                      p.sha256(p.stamp(946684800)),
                                  p.sha256("00000000000000000000000000000000"),
                                  p.sha256(EncodeArguments(job.arguments))))
    ensures "" in [job.idempotencyKey, job.approvedHash, job.actionType, job.target] ==> Fingerprint(p, job) == ""
  {
    MessageIsSpelled(p, SemanticJob(job));
  }

  // ---- signatures --------------------------------------------------------------------------

  predicate Verify(p: Primitives, secret: string, job: Job) {
    && IsHex(job.nonce, 32) && IsHex(job.signature, 64)
    && Message(p, job).Ok? && job.signature == p.hmac(secret, Message(p, job).value)
  }

  function Sign(p: Primitives, secret: string, job: Job): Result<Job, TaskError> {
    if !IsHex(job.nonce, 32) then Err(BadNonce)
    else
      match Message(p, job)
      case Err(e) => Err(e)
      case Ok(m) => Ok(job.(signature := p.hmac(secret, m)))
  }

  /** Signing succeeds exactly on complete jobs with a well-formed nonce, changes the signature
    * alone, and what it signs verifies.
    */
  lemma SignedJobsVerify(p: Primitives, secret: string, job: Job)
    requires Message(p, job).Ok? ==> IsHex(p.hmac(secret, Message(p, job).value), 64)
    ensures Sign(p, secret, job).Ok? <==> IsHex(job.nonce, 32) && Complete(job)
    ensures Sign(p, secret, job).Ok? ==>
              Verify(p, secret, Sign(p, secret, job).value)
              && Sign(p, secret, job).value.(signature := job.signature) == job
  {
    if Sign(p, secret, job).Ok? {
      assert Fields(p, Sign(p, secret, job).value) == Fields(p, job);
    }
  }

  ghost predicate LowerHex(s: string) {
    forall i :: 0 <= i < |s| ==> '0' <= s[i] <= '9' || 'a' <= s[i] <= 'f'
  }

  lemma HexIsLowerHex(s: string, n: nat)
    ensures IsHex(s, n) <==> |s| == n && LowerHex(s)
  {
    if LowerHex(s) {
      forall c | c in s ensures HexValue(c).Some? { var i :| 0 <= i < |s| && s[i] == c; }
    }
    if IsHex(s, n) {
      forall i | 0 <= i < |s| ensures '0' <= s[i] <= '9' || 'a' <= s[i] <= 'f' { assert s[i] in s; }
    }
  }

  /** Exactly what verifies: a nonce and a signature of the right form, and the message's own signature. */
  lemma VerifiesExactly(p: Primitives, secret: string, job: Job)
    ensures Verify(p, secret, job)
            <==> && |job.nonce| == 32 && LowerHex(job.nonce) && |job.signature| == 64 && LowerHex(job.signature)
                 && Message(p, job).Ok? && job.signature == p.hmac(secret, Message(p, job).value)
  {
    HexIsLowerHex(job.nonce, 32);
    HexIsLowerHex(job.signature, 64);
  }

  /** One signature cannot be moved to a job that differs in any signed component. */
  lemma SignatureBindsJob(p: Primitives, secret: string, a: Job, b: Job)
    requires Verify(p, secret, a) && Verify(p, secret, b)
    requires NoCollision(p, Fields(p, a) + Fields(p, b))
    requires p.stamp(ExpirySecond(a)) == p.stamp(ExpirySecond(b)) ==> ExpirySecond(a) == ExpirySecond(b)
    requires p.hmac(secret, Message(p, a).value) == p.hmac(secret, Message(p, b).value) ==>
             Message(p, a) == Message(p, b)
    ensures a.signature == b.signature <==> SameSignedParts(a, b)
  {
    MessageNamesSignedParts(p, a, b);
  }

  // ---- the control plane's side of the same bytes ------------------------------------------

  const REQUIRED_FIELDS := ["id", "idempotency_key", "approved_hash", "action_type", "target", "expires_at", "nonce"]

  /** The payload the control plane signs: named text fields, the expiry already laid out as text. */
  function PayloadOf(p: Primitives, job: Job): map<string, string> {
    map["id" := job.id, "idempotency_key" := job.idempotencyKey, "approved_hash" := job.approvedHash,
        "action_type" := job.actionType, "target" := job.target,
        "expires_at" := p.stamp(ExpirySecond(job)), "nonce" := job.nonce]
  }

  predicate HasField(payload: map<string, string>, name: string) {
    name in payload && payload[name] != ""
  }

  predicate PayloadComplete(payload: map<string, string>) {
    forall i :: 0 <= i < 7 ==> HasField(payload, REQUIRED_FIELDS[i])
  }

  function PayloadFields(payload: map<string, string>, arguments: Arguments): seq<string>
    requires PayloadComplete(payload)
  {
    seq(7, i requires 0 <= i < 7 => assert HasField(payload, REQUIRED_FIELDS[i]); payload[REQUIRED_FIELDS[i]])
    + [EncodeArguments(arguments)]
  }

  function PayloadMessage(p: Primitives, payload: map<string, string>, arguments: Option<Arguments>)
    : Result<string, TaskError>
  {
    if PayloadComplete(payload) && arguments.Some? then
      Ok(SIGNATURE_VERSION + Lines(Digests(p, PayloadFields(payload, arguments.value))))
    else Err(IncompleteTask)
  }

  /** The control plane's loop over its required fields; it stops at the first missing or empty one. */
  method CanonicalMessage(p: Primitives, payload: map<string, string>, arguments: Option<Arguments>)
    returns (r: Result<string, TaskError>)
    ensures r == PayloadMessage(p, payload, arguments)
  {
    var values := [];
    for i := 0 to 7
      invariant |values| == i
      invariant forall k :: 0 <= k < i ==>
                  HasField(payload, REQUIRED_FIELDS[k]) && values[k] == p.sha256(payload[REQUIRED_FIELDS[k]])
    {
      if !HasField(payload, REQUIRED_FIELDS[i]) {
        return Err(IncompleteTask);
      }
      values := values + [p.sha256(payload[REQUIRED_FIELDS[i]])];
    }
    if arguments.None? {
      return Err(IncompleteTask);
    }
    values := values + [p.sha256(EncodeArguments(arguments.value))];
    assert values == Digests(p, PayloadFields(payload, arguments.value));
    r := Ok(SIGNATURE_VERSION + Lines(values));
  }

  lemma PayloadNames(p: Primitives, job: Job)
    ensures forall i :: 0 <= i < 7 ==>
              REQUIRED_FIELDS[i] in PayloadOf(p, job) && PayloadOf(p, job)[REQUIRED_FIELDS[i]] == Fields(p, job)[i]
  {
    var payload, f := PayloadOf(p, job), Fields(p, job);
    assert payload["id"] == f[0] && payload["idempotency_key"] == f[1] && payload["approved_hash"] == f[2]
        && payload["action_type"] == f[3] && payload["target"] == f[4] && payload["expires_at"] == f[5]
        && payload["nonce"] == f[6];
  }

  /** Both sides produce the same bytes for the same task, whatever order the arguments were
    * inserted in. They part ways only on Go's zero time, which the agent alone calls incomplete.
    */
  lemma SidesAgree(p: Primitives, job: Job, inserted: Arguments)
    requires AsMap(inserted) == AsMap(job.arguments) && p.stamp(ExpirySecond(job)) != ""
    ensures Message(p, job) == PayloadMessage(p, PayloadOf(p, job), Some(inserted))
            <==> job.expiresAt != ZERO_TIME || !Complete(job.(expiresAt := 0))
  {
    var payload := PayloadOf(p, job);
    PayloadNames(p, job);
    EncodingNamesMapping(inserted, job.arguments);
    var f := Fields(p, job);
    assert Complete(job.(expiresAt := 0)) <==> PayloadComplete(payload) by {
      forall i | 0 <= i < 7 ensures HasField(payload, REQUIRED_FIELDS[i]) <==> f[i] != "" {}
      assert f[0] == job.id && f[1] == job.idempotencyKey && f[2] == job.approvedHash && f[3] == job.actionType
          && f[4] == job.target && f[6] == job.nonce;
    }
    if PayloadComplete(payload) {
      var g := PayloadFields(payload, inserted);
      forall i | 0 <= i < 8 ensures g[i] == f[i] {
        if i < 7 { assert HasField(payload, REQUIRED_FIELDS[i]); }
      }
      assert g == f;
    }
  }
}
