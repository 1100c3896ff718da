/** What holds of every store the server can reach, because of what it checked
    before it stored anything. */
module Reachable {
  import opened Wrappers
  import opened Evidence
  import opened Codecs
  import opened Attestation
  import opened Tables
  import opened Persist
  import opened Log
  import opened Commit
  import opened Concurrency
  import opened Pipeline
  import opened Ingest

  // ---- The log holds only what requests began with ----

  predicate AllTxns(st: State, p: Submission -> bool) {
    forall i | 0 <= i < |st.txns| :: p(st.txns[i].s)
  }

  predicate AllBegun(steps: seq<Step>, p: Submission -> bool) {
    forall n | 0 <= n < |steps| && steps[n].Begin? :: p(steps[n].s)
  }

  lemma {:induction false} RunKeepsTxns(hash: string -> int, st: State, steps: seq<Step>, p: Submission -> bool)
    requires CanTake(hash, st, steps) && AllTxns(st, p) && AllBegun(steps, p)
    ensures AllTxns(After(hash, st, steps), p)
    decreases |steps|
  {
    if steps != [] {
      var next := Do(hash, st, steps[0]);
      assert AllTxns(next, p);
      assert forall n | 0 <= n < |steps[1..]| && steps[1..][n].Begin? :: p(steps[1..][n].s) by {
        forall n | 0 <= n < |steps[1..]| && steps[1..][n].Begin?
          ensures p(steps[1..][n].s)
        {
          assert steps[1..][n] == steps[n + 1];
        }
      }
      RunKeepsTxns(hash, next, steps[1..], p);
    }
  }

  /** Whatever the server checked of every request holds of every accepted submission. */
  lemma {:induction false} LogKeepsChecks(hash: string -> int, steps: seq<Step>, p: Submission -> bool)
    requires CanTake(hash, INITIAL, steps) && AllBegun(steps, p)
    ensures forall s | s in Submissions(After(hash, INITIAL, steps).log) :: p(s)
  {
    var st := After(hash, INITIAL, steps);
    RunKeepsInv(hash, INITIAL, steps);
    RunKeepsTxns(hash, INITIAL, steps, p);
    forall s | s in Submissions(st.log)
      ensures p(s)
    {
      var e :| 0 <= e < |st.log| && st.log[e].s == s;
      assert EntrySound(st, e);
      assert p(st.txns[st.log[e].txn].s);
    }
  }

  // ---- Bound identities ----

  /** The first submission of an id that brought a proof. */
  function FirstProved(log: seq<Submission>, id: string): (s: Submission)
    requires Bound(log, id).Some?
    ensures s in log && s.id == id && s.proof == Bound(log, id)
  {
    if Bound(log[..|log| - 1], id).Some? then FirstProved(log[..|log| - 1], id) else log[|log| - 1]
  }

  lemma {:induction false} FirstBroughtProof(log: seq<Submission>, id: string)
    requires Seen(log, id) && First(log, id).proof.Some?
    ensures Bound(log, id).Some? && FirstProved(log, id) == First(log, id)
  {
    var init := log[..|log| - 1];
    if Seen(init, id) {
      FirstBroughtProof(init, id);
    } else {
      UnseenIsEmpty(init, id);
    }
  }

  /** The identity bound to an id passed the verifier and the policy on the bytes of
      the first submission of the id that brought a proof, which have the canonical
      id. Those bytes are the stored ones exactly when the first submission of all had
      them too, and so whenever that submission brought the proof itself. */
  ghost predicate VerifiedOnProvedBytes(c: Config, db: Tables, log: seq<Submission>, id: string)
    requires id in db.attestations && db.attestations[id].id in db.identities
  {
    && Seen(log, id) && Bound(log, id) == Some(db.identities[db.attestations[id].id])
    && var proved, stored := FirstProved(log, id).document.original, db.attestations[id].document.original;
    && Established(c, proved, db.identities[db.attestations[id].id])
    && IdOfBytes(c.foreign, proved) == IdOfBytes(c.foreign, stored) == Some(id)
    && (stored == proved <==> First(log, id).document.original == proved)
    && (First(log, id).proof.Some? ==> stored == proved)
  }

  lemma BoundIdentityWasVerified(c: Config, db: Tables, log: seq<Submission>, id: string)
    requires AllStored(db, log) && (forall s | s in log :: Vouched(c, s))
    requires id in db.attestations && db.attestations[id].id in db.identities
    ensures VerifiedOnProvedBytes(c, db, log, id)
  {
    assert Stored(db, log, id);
    assert First(log, id) in log && FirstProved(log, id) in log;
    if First(log, id).proof.Some? {
      FirstBroughtProof(log, id);
    }
  }

  /** After the bytes `a` without a proof and then the bytes `b` with one, `a` is
      stored beside an identity that was verified on `b`. */
  ghost predicate StandsBeside(c: Config, db: Tables, log: seq<Submission>, a: Bytes, b: Bytes, proof: Json, d: Draws,
      e: Draws)
    requires d.Valid() && e.Valid()
  {
    && Prepare(c, a, None).Ok? && Prepare(c, b, Some(proof)).Ok?
    && var first, second := Prepare(c, a, None).value, Prepare(c, b, Some(proof)).value;
    && first.id == second.id && !Conflict(db, first) && second.proof.Some?
    && var once := Apply(db, first, d);
    && !Conflict(once, second)
    && var twice := Apply(once, second, e);
    && Represents(twice, log + [first] + [second])
    && first.id in twice.attestations && twice.attestations[first.id].document.original == a
    && twice.attestations[first.id].id in twice.identities
    && twice.identities[twice.attestations[first.id].id] == second.proof.value
    && Established(c, b, second.proof.value)
  }

  /** They can differ: when an attestation is accepted without a proof, and then in
      another formatting with one, the first bytes stay stored beside an identity
      that was verified on the second. */
  lemma IdentityBesideOtherBytes(c: Config, db: Tables, log: seq<Submission>, a: Bytes, b: Bytes, proof: Json, d: Draws,
      e: Draws)
    requires d.Valid() && e.Valid() && Represents(db, log) && Fresh(db, d)
    requires Prepare(c, a, None).Ok? && Prepare(c, a, None).value.id !in db.attestations
    requires a != b && c.foreign.parse(a) == c.foreign.parse(b) && Prepare(c, b, Some(proof)).Ok?
    ensures StandsBeside(c, db, log, a, b, proof, d, e)
  {
    var first, second := Prepare(c, a, None).value, Prepare(c, b, Some(proof)).value;
    PreparedIsVouched(c, a, None);
    PreparedIsVouched(c, b, Some(proof));
    ProofNeverRescues(c, b, proof);
    FormattingKeepsId(c, a, b);
    CommitAppends(db, log, first, d);
    var once := Apply(db, first, d);
    ApplyNew(db, first, d);
    FreshMeetsNothing(db, log, d);
    SecondBinds(once, log + [first], first.id, second, e);
  }

  /** The bytes of a signed envelope, as a client may send them. */
  function SentBytes(c: Config, e: PublicEvidence, secret: Bytes, envelopeJson: DsseEnvelope -> Json): Bytes {
    if Signed(c.foreign, e, secret).None? then []
    else c.foreign.canonical(envelopeJson(Signed(c.foreign, e, secret).value))
  }

  lemma SentIsAccepted(c: Config, e: PublicEvidence, secret: Bytes, envelopeJson: DsseEnvelope -> Json)
    requires Lawful(c.foreign) && MeetsSchema(e) && PurlsMatch(e) && !HasSensitiveName(c.foreign.evidenceJson(e))
    requires forall v :: c.envelopeFrom(envelopeJson(v)) == Some(v)
    requires forall v :: c.foreign.parse(c.foreign.canonical(envelopeJson(v))) == Some(envelopeJson(v))
    requires |SentBytes(c, e, secret, envelopeJson)| <= MAX_ATTESTATION_BYTES
    ensures Prepare(c, SentBytes(c, e, secret, envelopeJson), None).Ok?
  {
    SignSucceeds(c.foreign, e, secret);
    SignVerifies(c.foreign, e, secret);
    SignedCarries(c.foreign, e, secret);
    InspectExact(c, SentBytes(c, e, secret, envelopeJson));
  }

  /** For instance with a space at the end, under any parser that ignores it: the
      signed bytes are posted bare to an empty store, and then with the space and a
      proof that the verifier and the policy accept for them. */
  lemma TrailingSpace(c: Config, e: PublicEvidence, secret: Bytes, envelopeJson: DsseEnvelope -> Json, proof: Json,
      d: Draws, d': Draws)
    requires Lawful(c.foreign) && MeetsSchema(e) && PurlsMatch(e) && !HasSensitiveName(c.foreign.evidenceJson(e))
    requires forall v :: c.envelopeFrom(envelopeJson(v)) == Some(v)
    requires forall v :: c.foreign.parse(c.foreign.canonical(envelopeJson(v))) == Some(envelopeJson(v))
    requires |SentBytes(c, e, secret, envelopeJson)| < MAX_ATTESTATION_BYTES
    requires var a := SentBytes(c, e, secret, envelopeJson);
      && c.foreign.parse(a + [SPACE]) == c.foreign.parse(a)
      && c.verifier(a + [SPACE], proof).Ok? && c.policy.Accepts(c.verifier(a + [SPACE], proof).value)
    requires d.Valid() && d'.Valid()
    ensures var a := SentBytes(c, e, secret, envelopeJson);
      StandsBeside(c, EMPTY_TABLES, [], a, a + [SPACE], proof, d, d')
  {
    var a := SentBytes(c, e, secret, envelopeJson);
    SentIsAccepted(c, e, secret, envelopeJson);
    FormattingKeepsId(c, a, a + [SPACE]);
    ProofNeverRescues(c, a + [SPACE], proof);
    EmptyRepresents();
    IdentityBesideOtherBytes(c, EMPTY_TABLES, [], a, a + [SPACE], proof, d, d');
  }

  lemma EmptyRepresents()
    ensures Represents(EMPTY_TABLES, [])
  {
  }

  lemma SecondBinds(db: Tables, log: seq<Submission>, id: string, s: Submission, d: Draws)
    requires Represents(db, log) && d.Valid() && s.id == id && s.proof.Some?
    requires id in db.attestations && db.attestations[id].id !in db.identities
    ensures !Conflict(db, s)
    ensures var after := Apply(db, s, d);
      && Represents(after, log + [s])
      && after.attestations == db.attestations
      && db.attestations[id].id in after.identities && after.identities[db.attestations[id].id] == s.proof.value
  {
    assert Stored(db, log, id);
    ApplyDuplicate(db, s, d);
    DuplicateCommit(db, log, s, d);
  }

  /** What the server checks of every request before it begins a transaction. */
  function Vouching(c: Config): Submission -> bool {
    s => Vouched(c, s)
  }

  lemma {:induction false} StoredInRun(hash: string -> int, steps: seq<Step>, st: State)
    requires CanTake(hash, INITIAL, steps) && st == After(hash, INITIAL, steps)
    ensures AllStored(st.db, Submissions(st.log))
  {
    RunKeepsInv(hash, INITIAL, steps);
  }

  /** The same, over every run of concurrent requests that each passed the checks. */
  lemma {:induction false} BoundIdentityOfRun(c: Config, hash: string -> int, steps: seq<Step>, st: State, id: string)
    requires CanTake(hash, INITIAL, steps) && AllBegun(steps, Vouching(c)) && st == After(hash, INITIAL, steps)
    requires id in st.db.attestations && st.db.attestations[id].id in st.db.identities
    ensures VerifiedOnProvedBytes(c, st.db, Submissions(st.log), id)
  {
    StoredInRun(hash, steps, st);
    LogKeepsChecks(hash, steps, Vouching(c));
    BoundIdentityWasVerified(c, st.db, Submissions(st.log), id);
  }

  // ---- Signers ----

  /** Every signer row names a usable public key, and no two rows name one key. */
  lemma SignersAreKeys(c: Config, db: Tables, log: seq<Submission>)
    requires AllBacked(db, log) && (forall s | s in log :: Vouched(c, s))
    ensures forall k | SignerKey(k) in db.rows :: NamesKey(c.foreign, k)
    ensures forall k, m | SignerKey(k) in db.rows && SignerKey(m) in db.rows &&
      KeyFromKeyId(c.foreign, k) == KeyFromKeyId(c.foreign, m) :: k == m
  {
    assert forall s | s in log :: Vouched(c, s) && NamesKey(c.foreign, s.keyId);
    forall k | SignerKey(k) in db.rows
      ensures NamesKey(c.foreign, k)
    {
      SignerIsNamed(c, db, log, k);
    }
  }

  lemma SignerIsNamed(c: Config, db: Tables, log: seq<Submission>, keyId: string)
    requires AllBacked(db, log) && (forall s | s in log :: NamesKey(c.foreign, s.keyId)) && SignerKey(keyId) in db.rows
    ensures NamesKey(c.foreign, keyId)
  {
    var key := SignerKey(keyId);
    assert Backed(db, log, key);
    var id :| id in db.attestations && Seen(log, id) && Linked(db.rows, First(log, id)) &&
        Mentions(db.rows, First(log, id), key);
    assert First(log, id) in log && First(log, id).keyId == keyId;
  }

  // ---- From a verification to an accepted submission ----

  /** Evidence that a verification produced for packages whose coordinates are the
      subject's can always be signed, and then verifies. */
  lemma ProducedEvidenceVerifies(inputs: Inputs, e: PublicEvidence, secret: Bytes)
    requires Lawful(inputs.foreign) && Answers(inputs, Ok(e))
    requires inputs.baseline.ecosystem == inputs.candidate.ecosystem == "npm"
    requires inputs.baseline.name == inputs.candidate.name == inputs.package
    ensures var f := inputs.foreign;
      && Signed(f, e, secret).Some?
      && VerifyEnvelope(f, Signed(f, e, secret).value).Ok?
      && Verify(f, Signed(f, e, secret).value, f.publicKey(secret)).Ok?
  {
    ProjectPurls(e, inputs.baseline, inputs.candidate);
    SignVerifies(inputs.foreign, e, secret);
  }
}
