# DepGuard: a verified model

DepGuard runs a package update in a sandbox, signs what it observed, and sends
the signed evidence to a network server that verifies and indexes it. This
project models that path in Dafny and proves what it promises. The centre is
the index store: `persist` as a sequence of SQL statements, any number of
copies of it interleaved, and the log of accepted submissions that its tables
stand for.

| files | what they model |
|---|---|
| `Evidence`, `Identity`, `Outcome`, `Tables` | the evidence and identity types, the outcome of a run, the tables |
| `Persist`, `Log`, `Commit` | one statement of `persist`; the log, and what it means for tables to represent it; that a commit appends to it |
| `Store` | the database object that `persist` updates statement by statement |
| `Concurrency`, `Progress`, `History` | interleaved transactions with locks; deadlock freedom; exactly-once replies and what later commits keep |
| `Queries`, `Pages`, `Counting`, `Aggregates`, `Conservation`, `Figures`, `Moments` | the lookups, pages and groupings as joins, the scans of the log and of the stored evidence they equal, and answers whose queries see different moments |
| `Ordering`, `Pagination`, `Walks` | sorted listings, keyset pages, and a client that pages while others submit |
| `Codecs`, `Attestation` | decimal, PAE, hexadecimal, base64; signing and verifying |
| `Text`, `Certificate` | splitting and joining; reading an identity from a certificate |
| `Ingest`, `Requests`, `Reachable` | the checks of a request and its reply; what ids, columns and findings are in terms of the bytes; what the checks give for every reachable store |
| `Observer`, `Diff`, `Digest`, `Sandbox`, `Pipeline`, `Reports` | snapshots, diffs, digests, process lists, the run from plan to public evidence, and what that says of each sandbox run |

## How it is modelled

**Tables.** A table with a UNIQUE key is a map from that key, and a BIGSERIAL id
is a field of the row. Six upsert tables share one map whose keys say which
table they belong to. `Represents(db, log)` relates tables to a log: ids are
unique within a table, foreign keys lead somewhere, every accepted id has one
attestation, one run and one submission row holding what its first submission
said, and every other row is there because an accepted submission refers to it.

`Concurrency.Serializable` and `Store.Database.Persist` establish it for every
reachable store, and every theorem about lookups, aggregates and counts is about
any tables and log that it relates.

**Transactions.** `Execute` is one statement under PostgreSQL's read-committed
isolation: it reads the committed rows under the transaction's own writes.
`pg_advisory_xact_lock(hashtext(id))` takes the lock of an arbitrary hash, so
ids may collide; an upsert takes the lock of its UNIQUE key; locks are held to
the end, and a commit publishes all of a transaction's writes at once. A lost
connection, and a value that the database cannot store, such as a NUL in a text
or a key too long for its index, roll the transaction back: a `Lose` step, and in
`Database` an arbitrary predicate of what is refused. The key-share locks
of foreign-key checks are not modelled: each falls on a row the transaction
holds already, or on an attestation row, which nothing updates. The values of
sequences are parameters; all that is assumed is that a value is not
in a stored row nor in the hands of another running transaction.

**Foreign code.** JSON parsing, the RFC 8785 canonicaliser, the schema
validator, SHA-256, Ed25519, the identity verifier and the sandbox are
function-valued parameters. Theorems that need a law of them say so
(`Lawful`, `Canonical`, `Injective`); all other theorems hold for any such functions. The laws
do not contradict each other: `LawfulIsMet` builds libraries that meet them from
any serialisers that read back what they wrote.

**Classes.** `Database` and `Server` carry the state that the server changes.
Their methods are proved against functions (`Apply`, `Admit`), and the theorems
about those functions, for single requests and for every interleaving, are lemmas.

## What the code does that one might not expect

- Signing accepts evidence that verifying turns down: evidence that meets the
  schema and whose package URLs do not spell the subject (`SignVerifies` says
  exactly when; `SignedButRejected` shows one).
- A bound identity was verified on bytes with the canonical id of the
  attestation, which are not necessarily the bytes stored for it
  (`BoundIdentityWasVerified` says exactly when they are;
  `IdentityBesideOtherBytes` shows how they come to differ).
- With an `@` in the owner or repository name, the ref at the end of a workflow
  URI can reach back over the workflows directory (`IdentityShape` says exactly
  when it does not; `RefCanReachBack` shows certificates for which it does).
- With the limiter closed, an oversized attestation is answered differently by
  the two endpoints (`EndpointsAgree`).
- Temporary directory names are merged, so one snapshot can hold a path twice
  and differ from itself (`SnapshotSelfCompare` says exactly when;
  `TemporaryFilesCollide` shows two files).
- The whole path of a file is searched for `node_modules` and `.depguard`, so
  where the workspace lies does not show in its snapshots exactly when no
  component of its own path is one of these (`RootDoesNotShow`); otherwise they
  are all empty (`IgnoredRoot`).
- Of the figures of a transition, the count of attestations without an identity
  can fall, when one of them gets an identity (`FiguresOfRun` says by how much).
- `extension_string` accepts the long form of a length that has a short form
  (`ExtensionStringExact`).

## Model

| member | source | states |
|---|---|---|
| Persist.StatementKeepsShape | crates/depguard-server/src/lib.rs:736-809 | each statement takes the transaction from the closed form of its work at one statement to that at the next; only the identity check of a duplicate can fail |
| Log.UpsertsLink | crates/depguard-server/src/lib.rs:758-771 | the seven upserts leave exactly the rows the submission refers to, keep every old row's id, keep ids unique and package URLs spelled, and return the ids of those rows |
| Commit.CommitAppends | crates/depguard-server/src/lib.rs:727-809 | a `persist` that is not refused takes tables representing a log to tables representing the log with the submission appended |
| Commit.ConflictIsInLog | crates/depguard-server/src/lib.rs:825-830 | a submission is refused exactly when the log binds its id to another bundle |
| Commit.ApplyDuplicate | crates/depguard-server/src/lib.rs:742-756 | a repeated submission changes its counter by one, binds an identity only if none is bound, and changes nothing else |
| Store.Database.constructor | crates/depguard-server/migrations/0001_network_mvp.sql:1-102 | a new database is empty and represents the empty log, whatever it refuses to store |
| Store.Database.Upsert | crates/depguard-server/src/lib.rs:758-771 | an upsert keeps the id that is there or takes the next sequence value, and is the next step of the closed form |
| Store.Database.UpsertRows | crates/depguard-server/src/lib.rs:758-771 | the upserts in source order give the rows and ids of the closed form; each sequence advances once per upsert of its table |
| Store.Database.PersistIdentity | crates/depguard-server/src/lib.rs:811-845 | binds an unbound attestation, accepts the bound bundle without change, and refuses another bundle without change |
| Store.Database.InsertFindings | crates/depguard-server/src/lib.rs:785-805 | the four loops append exactly the findings of the evidence, in order |
| Store.Database.InsertRun | crates/depguard-server/src/lib.rs:773-805 | the plain inserts of a new id, table by table |
| Store.Database.Persist | crates/depguard-server/src/lib.rs:727-809 | replies duplicate exactly for a stored id, leaves the tables of `Apply` and extends the log by the submission; on a conflict, or when the database refuses a value, changes nothing |
| Concurrency.Serializable | crates/depguard-server/src/lib.rs:727-809 | after any interleaving, with lost connections and colliding lock hashes, the tables are those of running the committed requests one at a time in commit order, and represent that log |
| Concurrency.StepKeepsInv | crates/depguard-server/src/lib.rs:727-809 | every begin, statement, commit, rollback and lost connection keeps the invariant |
| Concurrency.CommitAgrees | crates/depguard-server/src/lib.rs:737-771 | a commit changes nothing that another transaction in flight has read, because of the locks that one holds |
| Progress.WaitRises | crates/depguard-server/src/lib.rs:737-771 | who waits, waits for a transaction that has reached a later statement |
| Progress.NoDeadlock | crates/depguard-server/src/lib.rs:736-771 | no walk in the wait-for graph of a reachable state is a cycle |
| Progress.RowWaitRises | crates/depguard-server/src/lib.rs:758-771 | a transaction at an upsert waits only for one past that upsert; two that have both locked their packages never meet on a version or transition |
| Progress.FurthestRuns | crates/depguard-server/src/lib.rs:736-771 | while any transaction is unfinished, one of them can run its next statement |
| Progress.AllFinish | crates/depguard-server/src/lib.rs:736-809 | from every reachable state, running statements alone finishes every transaction: each commits with its proof, if any, the one bound to its id, or is rolled back because another bundle is bound |
| Progress.CanBegin | crates/depguard-server/src/lib.rs:736 | in every reachable state an admissible request can begin |
| History.ExactlyOnce | crates/depguard-server/src/lib.rs:737-781 | of the committed submissions of an id exactly one replied duplicate=false, and submission_count is how many there are |
| History.OnlyConflictsFail | crates/depguard-server/src/lib.rs:742-784 | no insert of any run meets a UNIQUE violation: apart from lost connections and values the database cannot store, a transaction rolls back exactly on the identity check of a conflict |
| History.Resubmission | crates/depguard-server/src/lib.rs:750-755 | resubmitting an id with an identity changes no identity; it is counted unless it brings another bundle |
| History.RunGrows | crates/depguard-server/src/lib.rs:757-845 | over any run, index rows, attestations with their bytes, runs, bound identities and findings never change, counts never fall, and the log only grows |
| History.StepGrows | crates/depguard-server/src/lib.rs:736-809 | only a commit changes the committed tables; a rolled-back or lost transaction leaves them as they were |
| Queries.PackageLookupScans | crates/depguard-server/src/lib.rs:917-927 | the package lookup lists in order exactly the versions that accepted submissions of the package name, each once and with the URL it spells; 404 exactly when there are none |
| Queries.VersionLookupScans | crates/depguard-server/src/lib.rs:928-937 | the version lookup lists in order exactly the transitions into and out of the version, one for each joined row; 404 exactly when there are none |
| Queries.TransitionLookupScans | crates/depguard-server/src/lib.rs:939-947 | a transition is found exactly when an accepted submission made it, and its evidence is exactly the ids of those submissions |
| Queries.RawEvidenceScans | crates/depguard-server/src/lib.rs:885-897 | the raw bytes of an id are those of the submission it was first accepted with; 404 exactly for an id never accepted |
| Queries.ItemScans | crates/depguard-server/src/lib.rs:991-996 | digest, outcome and assurance of a listed id are those of its first submission and of its first accepted proof |
| Requests.TransitionsOfBytes | crates/depguard-server/src/lib.rs:939-947 | over a represented log of checked submissions, a transition is found exactly when the stored bytes of some id carry evidence of that ecosystem and package from that baseline to that candidate version, and its evidence is exactly the ids whose bytes do |
| Requests.PairsOfBytes | crates/depguard-server/src/lib.rs:928-937 | a pair of versions is listed for a version exactly when stored bytes name the transition from its first to its second and one of the two is asked for; increasing in the order of pairs |
| Requests.VersionsOfBytes | crates/depguard-server/src/lib.rs:917-927 | a version of a package is listed exactly when stored bytes name a transition of the package into it or out of it |
| Requests.StoredRowsOfBytes | crates/depguard-server/src/lib.rs:757-805 | signer row, environment row, methodology row, outcome, capabilities, documents and findings stored for an id are those that its stored bytes name |
| Requests.FindingsSpelled | crates/depguard-server/src/lib.rs:785-805 | the findings of a run are, in order and all there: path and kind of each file, each process, each policy finding with the outcome, each security finding with provider and status of its source |
| Requests.FindingsOfExact | crates/depguard-server/src/lib.rs:785-805 | the findings of a run are all stored rows with its id, as often as they are stored |
| Pages.PageScans | crates/depguard-server/src/lib.rs:980-1002 | the answer computed from the tables is the one computed from a scan of the log; 404 exactly when the log has no such transition |
| Pages.PageExact | crates/depguard-server/src/lib.rs:980-1002 | in terms of the scan and the order of texts alone: every item is a scanned id above the cursor with the digest, outcome and assurance the log gives, ids strictly increase, there are as many as the limit or the remaining ids allow, every other remaining id is above the last one, which is the next cursor exactly when such ids remain |
| Pages.AnswerMakesPage | crates/depguard-server/src/lib.rs:990-1001 | whatever order the database gives joined rows of equal ids, its answer lists each id once, is what the page is built from, and makes the items of those ids |
| Aggregates.SummaryScans | crates/depguard-server/src/lib.rs:956-979 | in one state, every figure of the summary but the behaviour groups, computed by joins and groupings, is the figure that the log gives for the transition's ids |
| Aggregates.SummaryConserves | crates/depguard-server/src/lib.rs:966-977 | in one state, runtime, OS, architecture, outcome, methodology, process and assurance groups each add up to the runs, which equal the distinct attestations and are at least the distinct signers |
| Figures.SummaryOfEvidence | crates/depguard-server/src/lib.rs:956-979 | in one state, every figure but the behaviour groups is what the stored evidence of the transition says, read back from its bytes: groups by its fields, its signers and its classified outcomes |
| Figures.BehaviorOfEvidence | crates/depguard-server/src/lib.rs:973 | each behaviour group counts the findings of its kind in the stored evidence |
| Figures.FiguresRead | crates/depguard-server/src/lib.rs:956-979 | in one state, each group named runtime, OS, architecture, methodology, process or outcome counts exactly the ids whose stored evidence has the value in that field; runs and evidence count the ids |
| Figures.SignersRead | crates/depguard-server/src/lib.rs:966-977 | in one state, the signers are the distinct key ids in the stored envelopes, and the assurances count the ids with a stored identity and those without one |
| Moments.FiguresOfRun | crates/depguard-server/src/lib.rs:963-979 | over every run, a figure read later, behaviour groups included, is at least the one read earlier, but for the count without an identity, which falls by those that got one; nothing changes when nothing of the transition was added or bound |
| Moments.AnswerDuringRun | crates/depguard-server/src/lib.rs:963-979 | an answer whose queries see different states of a run: each grouping adds up to between the runs it reports and the runs at its end, no figure leaves the range from first to last state, and undisturbed it is the answer of one state |
| Aggregates.IdentitiesMatch | crates/depguard-server/src/lib.rs:974-977 | the left join to identities has exactly one row for each evidence id |
| Aggregates.SignersMatch | crates/depguard-server/src/lib.rs:966 | the distinct signer rows of a transition stand one to one for the distinct key ids of its submissions |
| Conservation.OneToOne | crates/depguard-server/migrations/0001_network_mvp.sql:53-102 | attestations, runs and submission rows correspond one to one, identities and findings belong to them, and every transition has a run |
| Conservation.SubmissionsTotal | crates/depguard-server/src/lib.rs:753-781 | the sum of submission_count is the number of accepted submissions |
| Conservation.SubmissionsOfRun | crates/depguard-server/src/lib.rs:753-781 | over every run, that sum is the number of transactions that committed |
| Conservation.BehaviorConserved | crates/depguard-server/src/lib.rs:973 | each behaviour group counts the findings of its kind in the accepted evidence |
| Conservation.BehaviorGroupsTotal | crates/depguard-server/src/lib.rs:973 | all behaviour groups together count every file and process finding of the transition's evidence once |
| Pagination.BoundedLimit | crates/depguard-server/src/lib.rs:914-916 | 50 by default, otherwise the requested limit moved into 1 to 100 |
| Pagination.BuildPage | crates/depguard-server/src/lib.rs:990-1001 | fetching one row more and dropping it gives the first ids above the cursor, and a next cursor exactly when there are more |
| Pagination.PageCovers | crates/depguard-server/src/lib.rs:990-1001 | a page holds strictly increasing ids above the cursor, and what it leaves out is above its last id |
| Pagination.WalkIsComplete | crates/depguard-server/src/lib.rs:980-1002 | while ids keep arriving, a walk is strictly increasing, invents nothing, and when finished has every id that was there at its start |
| Pagination.WalkEnds | crates/depguard-server/src/lib.rs:980-1002 | on fixed ids a walk with any limits ends within one request per id and one more, having listed every id in order |
| Walks.WalkDuringRun | crates/depguard-server/src/lib.rs:980-1002 | the same over the states of an arbitrary run of concurrent submissions, from the empty cursor |
| Walks.WalkByName | crates/depguard-server/src/lib.rs:980-1002 | a client that asks the endpoint for page after page, by name and with the cursor of each answer, while any transactions run: no id twice, only ids the log has for the transition, and at the end every id that was there at first |
| Walks.WalkOfQuietStore | crates/depguard-server/src/lib.rs:980-1002 | a walk over a reachable store that no longer changes ends with the full listing |
| Walks.BrowseOfQuietStore | crates/depguard-server/src/lib.rs:980-1002 | on a store that no longer changes, following the answers of the endpoint comes to an end after at most one request for each id and one more, with exactly the ids of the transition in order |
| Outcome.Verdicts | crates/depguard-server/src/lib.rs:847-883 | when each verdict is given, for all evidence |
| Identity.IdentityPolicy.Validate | crates/depguard-server/src/lib.rs:406-428 | accepts exactly GitHub's issuer with the expected repository and workflow; blames the issuer exactly when it is another |
| Ingest.WalkFindsNames | crates/depguard-server/src/lib.rs:339-366 | the privacy walk objects to every sensitive object name, however deep |
| Ingest.WalkFindsOnlyNames | crates/depguard-server/src/lib.rs:339-366 | and only to a name that is there |
| Ingest.InspectExact | crates/depguard-server/src/lib.rs:237-262 | which attestations pass the checks, and for which reason another is rejected |
| Ingest.ProofNeverRescues | crates/depguard-server/src/lib.rs:261-274 | with a proof, bytes are rejected for the same reason as without, or pass as the same submission with the identity added, which happens exactly when verifier and policy accept |
| Ingest.FormattingKeepsId | crates/depguard-server/src/lib.rs:174-185 | bytes that parse to one value pass together, with one id and equal contents but for the bytes; Requests.IdsAreValues has the converse |
| Requests.IdsAreValues | crates/depguard-server/src/lib.rs:174-185 | with an injective hash and a serialiser that parsing undoes, two byte strings have one id exactly when they parse to one value |
| Requests.DuplicateIsSameValue | crates/depguard-server/src/lib.rs:742-756 | under the same laws, a request is a duplicate exactly when bytes of the same value are stored, which then stay; a new value meets no bound bundle and its bytes are stored under its id |
| Requests.RefusedIsOtherBundle | crates/depguard-server/src/lib.rs:817-830 | under the same laws, a request is refused exactly when its id is bound to another bundle than its proof |
| Requests.BundleDigests | crates/depguard-server/src/lib.rs:817-818 | two accepted proofs have one bundle digest exactly when they are one bundle |
| Requests.EvidenceDigests | crates/depguard-evidence/src/lib.rs:203-212 | two pieces of evidence that can be signed have one digest exactly when they are the same evidence |
| Requests.SensitiveExact | crates/depguard-server/src/lib.rs:342-357 | a name is sensitive exactly when one of seven forbidden names occurs in it, whatever the ASCII case |
| Ingest.WrappedProof | crates/depguard-server/src/lib.rs:206-226 | base64 text with a proof is unwrapped to the same bytes and proof, after the checks of size and shape in order |
| Ingest.PreparedIsVouched | crates/depguard-server/src/lib.rs:228-275 | a request that passes the checks becomes a submission made from its own bytes, with matching package URLs, a usable lower-case key id, its own proof, and an identity that verifier and policy accepted for these bytes; Requests.PreparedColumns says what each column is |
| Requests.PreparedColumns | crates/depguard-server/src/lib.rs:758-777 | each column of a submission that passed: package, from the baseline to the candidate version with both URLs, five environment fields, methodology, classified outcome, both capabilities, the observed parts, original bytes, canonical value, statement, predicate, signatures, key, id and the digest of the evidence |
| Requests.PrepareRejects | crates/depguard-server/src/lib.rs:228-275 | the reason of a rejection: that of the attestation, or else that of the proof, the verifier's before the policy's two |
| Requests.AdmitExact | crates/depguard-server/src/lib.rs:228-275 | a closed limiter turns every request away; under an open one a rejection carries its reason and nothing that passes is changed |
| Requests.UnwrapRejects | crates/depguard-server/src/lib.rs:201-227 | a body that is none and a text that does not decode are malformed submissions, before the limiter is asked; bytes and proof are handed on as they came |
| Requests.SizesExact | crates/depguard-server/src/lib.rs:206-241 | attestations are too large exactly above 262144 bytes; a wrapped proof passes exactly as an object of at most 524288 |
| Ingest.EndpointsAgree | crates/depguard-server/src/lib.rs:186-241 | the evidence and submission endpoints admit the same for bytes and their base64 text exactly when the limiter is open or the bytes are not too many; at most 349528 characters |
| Ingest.SubmissionsAgree | crates/depguard-server/src/lib.rs:206-209 | no two texts that decode carry the same attestation |
| Ingest.Server.IngestAttestation | crates/depguard-server/src/lib.rs:228-309 | the reply and the next store; a request that is rejected, limited, in conflict or refused by the database leaves the store as it was |
| Ingest.Server.IngestSubmission | crates/depguard-server/src/lib.rs:201-227 | the same for the base64 wrapper, whose own checks come first |
| Ingest.Server.IngestEvidence | crates/depguard-server/src/lib.rs:186-188 | the same for bare bytes, which never bring a proof |
| Reachable.BoundIdentityWasVerified | crates/depguard-server/src/lib.rs:263-274 | every bound identity passed the verifier and the policy on the bytes of the first submission of its id with a proof; those are the stored bytes exactly when the first submission of all had them, and so whenever it brought the proof |
| Reachable.IdentityBesideOtherBytes | crates/depguard-server/src/lib.rs:742-752 | an attestation accepted bare, and then in another formatting with a proof, leaves the first bytes beside an identity verified on the second |
| Reachable.TrailingSpace | crates/depguard-server/src/lib.rs:174-185 | for instance, under a parser that ignores a trailing space: signed bytes posted bare to an empty store, and then with the space and a proof |
| Reachable.BoundIdentityOfRun | crates/depguard-server/src/lib.rs:263-274 | the same over every run of concurrent requests |
| Reachable.SignersAreKeys | crates/depguard-server/src/lib.rs:758-759 | every signer row names a usable public key, and no two name one key |
| Reachable.ProducedEvidenceVerifies | crates/depguard-evidence/src/lib.rs:290-301 | evidence of a verification with the subject's coordinates can always be signed, and then verifies |
| Codecs.DssePae | crates/depguard-attestation/src/lib.rs:175-185 | the buffer that is built up is the DSSE v1 pre-authentication encoding |
| Codecs.PaeRoundTrip | crates/depguard-attestation/src/lib.rs:175-185 | a reader that trusts only the decimal lengths recovers type and payload, whatever bytes they hold |
| Codecs.PaeIsInjective | crates/depguard-attestation/src/lib.rs:175-185 | a byte string encodes a type and a payload exactly when it reads back as them, so no two pairs share an encoding |
| Codecs.PaeText | crates/depguard-attestation/src/lib.rs:175-185 | the encoding spelled as text: the version, and each field after its length and a space |
| Codecs.DecimalText | crates/depguard-attestation/src/lib.rs:175-185 | lengths are spelled in decimal digits that give the number, without a leading zero |
| Codecs.HexRoundTrip | crates/depguard-attestation/src/lib.rs:215-217 | decoding undoes encoding, and what is encoded is lower case |
| Codecs.HexDecodeIsEncoded | crates/depguard-attestation/src/lib.rs:149-151 | a text decodes to the bytes it encodes, up to the case of its digits |
| Codecs.HexSpelled | crates/depguard-attestation/src/lib.rs:215-217 | two digits for each byte, the higher half first |
| Codecs.Base64RoundTrip | crates/depguard-attestation/src/lib.rs:211-217 | decoding undoes encoding |
| Codecs.Base64DecodeIsEncoded | crates/depguard-attestation/src/lib.rs:231-240 | every text that decodes is the one canonical encoding of its bytes |
| Codecs.Base64Spelled | crates/depguard-attestation/src/lib.rs:211-217 | group by group, four digits to the base 64 of the number that three bytes make, padded where bytes are missing |
| Codecs.Base64Alphabet | crates/depguard-attestation/src/lib.rs:211-217 | the digits are those of section 4 of RFC 4648 |
| Codecs.Base64Length | crates/depguard-network-client/src/lib.rs:71-74 | four characters for every three bytes begun |
| Attestation.Sign | crates/depguard-attestation/src/lib.rs:187-221 | builds the envelope of the specification, with the PAE signed; Attestation.SignedSubject says what it carries |
| Attestation.SignedSubject | crates/depguard-attestation/src/lib.rs:187-221 | every signed envelope carries a V1 statement of its evidence with its digest, and exactly one subject: the candidate's package URL with the one digest d for which the candidate's artifact digest is "sha256:" followed by d; the signature is over a message that reads back as the in-toto type and the payload, under the named key |
| Attestation.SignSucceeds | crates/depguard-attestation/src/lib.rs:187-188 | signing succeeds exactly on evidence that meets the schema |
| Attestation.LawfulIsMet | crates/depguard-evidence/src/lib.rs:203-209 | the laws assumed of the libraries can be met: serialisers that read back what they wrote are enough |
| Attestation.SignVerifies | crates/depguard-attestation/src/lib.rs:187-317 | what was signed verifies under its key exactly when both package URLs are spelled canonically, and otherwise fails with exactly the artifact-relationship error |
| Attestation.SignedButRejected | crates/depguard-attestation/src/lib.rs:304-316 | evidence with the package URL pkg:x that is signed and then fails with that error |
| Attestation.VerifyReportsFirst | crates/depguard-attestation/src/lib.rs:224-356 | verification reports the first failing check of a fixed list, and succeeds exactly when all hold |
| Attestation.AcceptedKeyId | crates/depguard-attestation/src/lib.rs:146-166 | an accepted envelope names its key by exactly its 64 lower-case hexadecimal digits |
| Attestation.AcceptedStatement | crates/depguard-attestation/src/lib.rs:158-273 | an accepted envelope carries a readable statement whose package URLs match |
| Attestation.AcceptedSubject | crates/depguard-attestation/src/lib.rs:223-356 | every accepted envelope carries a V1 statement, with literal types, assurance and evidence digest, whose package URLs are spelled; where its evidence meets the schema, as under the laws it does, it has exactly one subject, the candidate with the candidate's digest |
| Attestation.AcceptedMessage | crates/depguard-attestation/src/lib.rs:223-256 | every accepted envelope has one 64-byte signature by the named 32-byte key over a message that reads back as the in-toto type and the payload shown; the summary says the same for all |
| Attestation.DigestTextMeans | crates/depguard-evidence/src/lib.rs:210-212 | a digest text is exactly "sha256:" and 32 bytes in lower-case hexadecimal |
| Certificate.ExtensionStringExact | crates/depguard-server/src/lib.rs:654-681 | a value is read exactly from itself, its short DER form (up to 127 bytes) and its 0x81 form (up to 255) |
| Certificate.FormsDoNotOverlap | crates/depguard-server/src/lib.rs:654-681 | no byte string is a form of two values or two forms of one |
| Certificate.IdentityShape | crates/depguard-server/src/lib.rs:581-649 | the identity's workflow is the certificate's URI in the workflows directory of its two-part repository and ends with its ref; it is a file at that ref exactly when the tail is long enough, which it is without an '@' in owner and name |
| Certificate.IdentityFields | crates/depguard-server/src/lib.rs:588-648 | each field is the claim under its own id, the generic one and only without it the legacy one; the certificate identity is the first workflow URI |
| Certificate.CollectExact | crates/depguard-server/src/lib.rs:588-594 | a claim is the value of the last readable extension with the id; there is none exactly when none can be read |
| Certificate.ShaMeans | crates/depguard-server/src/lib.rs:710-713 | a revision is 20 bytes in hexadecimal, after "sha1:" or alone |
| Certificate.RefMeans | crates/depguard-server/src/lib.rs:714-718 | a ref is a branch, a tag or a pull request |
| Certificate.EventMeans | crates/depguard-server/src/lib.rs:719-725 | an event is one to 64 lower-case letters and underscores |
| Certificate.IdentityErrors | crates/depguard-server/src/lib.rs:592-640 | the issuer is blamed exactly when a workflow URI is there and the issuer is not GitHub's |
| Certificate.RefCanReachBack | crates/depguard-server/src/lib.rs:634-640 | every certificate with this workflow and ref, whose other claims fit, is accepted although the workflow is no file of the directory at its ref |
| Certificate.WellFormedIsAccepted | crates/depguard-server/src/lib.rs:581-649 | a certificate that spells out well-formed parts is accepted with that repository |
| Observer.NormalizePathIdempotent | crates/depguard-observer/src/lib.rs:58-69 | normalising again changes nothing, and segments stay as many |
| Observer.NormalizePathKernel | crates/depguard-observer/src/lib.rs:58-69 | two paths are merged exactly when they agree segment by segment up to temporary names |
| Observer.FilesystemSnapshot | crates/depguard-observer/src/lib.rs:5-57 | the loop collects and sorts exactly the observations of the entries that are kept, or fails when one cannot be read |
| Observer.WalkOrderIrrelevant | crates/depguard-observer/src/lib.rs:5-57 | any walk order of the same entries gives the same snapshot |
| Observer.SnapshotRecords | crates/depguard-observer/src/lib.rs:12-54 | a snapshot records exactly the entries that are not skipped |
| Observer.ObserveExact | crates/depguard-observer/src/lib.rs:28-53 | kind, size, executable flag and, for regular files only, digest of a recorded entry |
| Observer.RecordedPath | crates/depguard-observer/src/lib.rs:24-27 | a recorded path has the components of the entry, each normalised, when none has a separator in it |
| Observer.NormalizePartExact | crates/depguard-observer/src/lib.rs:58-69 | a component becomes "<temp>" exactly when it starts with "depguard-" or "tmp-" |
| Observer.SkippedExact | crates/depguard-observer/src/lib.rs:13-22 | exactly the root and what has node_modules or .depguard as a component is skipped |
| Observer.SnapshotAscends | crates/depguard-observer/src/lib.rs:55 | a snapshot has each observation as often as it was made, in order, and so with paths that never fall |
| Observer.FileLeMeans | crates/depguard-observer/src/lib.rs:55 | files are ordered by path, then kind, size, digest and flag |
| Ordering.TextLeMeans | crates/depguard-server/src/lib.rs:991 | one text comes before another exactly when it is its start or has the smaller code point at the first difference |
| Ordering.TextsLeMeans | crates/depguard-diff/src/lib.rs:15-16 | the same for lists of texts, text by text |
| Observer.RootDoesNotShow | crates/depguard-observer/src/lib.rs:13-22 | where the workspace lies does not show in any snapshot of it exactly when no component of its own path is ignored |
| Observer.IgnoredRoot | crates/depguard-observer/src/lib.rs:13-22 | with an ignored component in its own path, every snapshot of the workspace is empty |
| Observer.BehaviorDigestKernel | crates/depguard-observer/src/lib.rs:70-76 | with an injective hash, two observations share a digest exactly when they agree outside durations and resource use |
| Observer.DigestOfWalks | crates/depguard-observer/src/lib.rs:55-76 | two walks of the same files give the same behaviour digest whatever was measured |
| Diff.CompareIsPatch | crates/depguard-diff/src/lib.rs:14-41 | for files and for processes, removing and then creating leads from base to candidate, and the diff is the only pair of sets that does |
| Diff.DifferencesIncrease | crates/depguard-diff/src/lib.rs:15-25 | each difference is listed once, in the derived order of its elements |
| Diff.CompareSwaps | crates/depguard-diff/src/lib.rs:14-41 | swapping the observations swaps created and removed, and keeps which paths are modified |
| Diff.ModifiedIsReplaced | crates/depguard-diff/src/lib.rs:26-35 | with distinct paths, a path is modified exactly when it is removed and created with different digests |
| Diff.SelfCompare | crates/depguard-diff/src/lib.rs:14-41 | an observation differs from itself exactly when two of its files share a path and not a digest |
| Diff.SnapshotSelfCompare | crates/depguard-observer/src/lib.rs:47-53 | a snapshot agrees with itself exactly when no two recorded entries become one path with different digests |
| Diff.TemporaryFilesCollide | crates/depguard-observer/src/lib.rs:58-69 | a snapshot of two temporary directories with different files of one name differs from itself |
| Diff.NewDestinations | crates/depguard-diff/src/lib.rs:36-39 | the destinations are the texts of the new observations, one for each in their order |
| Diff.DestinationMeans | crates/depguard-diff/src/lib.rs:38 | a destination is spelled with a colon and the decimal digits of its port |
| Diff.ProcessLeMeans | crates/depguard-diff/src/lib.rs:15-16 | processes are ordered by executable, then arguments, parent and exit code |
| Diff.NetworkLeMeans | crates/depguard-diff/src/lib.rs:19-20 | network observations are ordered by destination, then port, protocol and source |
| Digest.Normalize | crates/depguard-core/src/lib.rs:174-192 | the nested loops over the copy clear exactly durations, log digests and retrieval times |
| Digest.DigestKernel | crates/depguard-core/src/lib.rs:173-193 | with an injective hash, two pieces of evidence share a digest exactly when they agree outside durations, log digests and retrieval times |
| Digest.NormalIdempotent | crates/depguard-core/src/lib.rs:177-190 | normalising twice is normalising once |
| Sandbox.StatusOf | crates/depguard-sandbox/src/lib.rs:148-154 | passed exactly with exit code 0 in time, timed out exactly on a timeout, and never an infrastructure failure |
| Sandbox.CollectProcesses | crates/depguard-sandbox/src/lib.rs:169-202 | adds exactly the observations of the lines after the heading |
| Sandbox.LineProcessExact | crates/depguard-sandbox/src/lib.rs:171-200 | a line is observed exactly when its third word ends with "node" and its fourth is "-e", as its words with secrets redacted |
| Sandbox.OnlyHeadingSkipped | crates/depguard-sandbox/src/lib.rs:170 | the first line is skipped and no other |
| Sandbox.LinesExact | crates/depguard-sandbox/src/lib.rs:170 | lines are what line breaks end, and a last one without |
| Sandbox.WordsExact | crates/depguard-sandbox/src/lib.rs:171-174 | words are what stands between white space |
| Sandbox.RedactedExact | crates/depguard-sandbox/src/lib.rs:180-188 | an argument is replaced exactly when "token=" or "password=" stands in it, and is kept otherwise |
| Sandbox.NothingSecret | crates/depguard-sandbox/src/lib.rs:180-188 | no observed argument shows a token or a password |
| Pipeline.ParseSpecExact | crates/depguard-cli/src/main.rs:226-232 | a specification reads as a name and a version exactly when it is the two joined by '@', neither empty and no '@' in the version |
| Pipeline.Commands | crates/depguard-cli/src/main.rs:441-464 | the plan: the install command and then each of six names in order, configured by an override, else by a script, else not |
| Pipeline.ExecutePlan | crates/depguard-cli/src/main.rs:465-498 | the loop with its `continue` and its early exit gives the results of running the plan from the start; Reports.ExecutingReports says what they are |
| Reports.ExecutingReports | crates/depguard-cli/src/main.rs:465-498 | every result is what its run reports: not configured without a command, and otherwise the run's exit code, duration and log digests, passed exactly in time with exit code 0, timed out exactly when it timed out; processes are those of the runs in order; results stop behind the first run that does not succeed; nothing is given exactly when the sandbox fails at a command that is reached |
| Reports.GateOverRuns | crates/depguard-cli/src/main.rs:272-281 | the baseline is turned down exactly when a command of it that is reached times out or does not exit with 0; the sandbox is blamed exactly when it fails there, or in the candidate after a baseline that passed |
| Pipeline.ExecutingFollowsPlan | crates/depguard-cli/src/main.rs:473-497 | the results are the plan's first commands in order, and are cut short exactly by a failure, which is last |
| Pipeline.RunVerification | crates/depguard-cli/src/main.rs:240-387 | which of its answers a verification gives: the failures in order, with the baseline gate before the candidate runs, or the evidence |
| Pipeline.ProjectPurls | crates/depguard-evidence/src/lib.rs:288-301 | the projected package URLs match exactly when the coordinates spell the subject's ecosystem and package |
| Pipeline.ProjectMeetsSchema | crates/depguard-evidence/src/lib.rs:253-371 | the projected evidence meets the schema exactly when names, versions, digests, policy outcome and provenance status from outside do |
| Pipeline.EvidenceFollowsPlan | crates/depguard-evidence/src/lib.rs:263-287 | both worlds reach the public evidence in the order of the plan, the baseline without a failure |
| Reports.WorldsReport | crates/depguard-evidence/src/lib.rs:263-287 | both worlds of the evidence publish what the sandboxes reported, command by command, with its status and exit code |
| Reports.BehaviorIsReported | crates/depguard-cli/src/main.rs:289-306 | files and processes are the candidate's, the behaviour digest hashes them with times cleared, and the wall time sums the runs of both |
| Reports.SettingIsReported | crates/depguard-evidence/src/lib.rs:253-371 | subject, environment, artifacts, policy, intelligence, capabilities and missing evidence are those that were given; the installed versions are the subject's |
| Pipeline.TimingShowsOnlyInWallTime | crates/depguard-evidence/src/lib.rs:312-332 | verifications whose commands end alike give the same answer whatever they took and logged, except for the summed wall time |
| Pipeline.EndToEnd | crates/depguard-server/src/lib.rs:847-883 | evidence from the command line is never an invalid baseline or an infrastructure error; under a clear policy it is a regression exactly when the last candidate result failed or timed out, and otherwise the whole plan passed in order |
| Reports.EndToEndOverRuns | crates/depguard-server/src/lib.rs:847-883 | under a clear policy, evidence from the command line is a regression exactly when a candidate command that is reached times out or does not exit with 0, and otherwise passed |

## Left out

- HTTP routing, body and time limits of the router, tracing, environment variables and the worker: plumbing.
- The endpoint that only verifies an attestation: it is one call of `VerifyEnvelope`.
- The Cosign process, X.509 parsing, Fulcio and Rekor: the verifier is any function from bytes and bundle to an identity or an error, and certificate reading starts from the parsed names and extensions.
- Ed25519, SHA-256, the RFC 8785 canonicaliser and the JSON Schema validator: parameters, with the laws that `Lawful` lists.
- Docker and its polling loop, npm, the registry, OSV, file copying and permissions: I/O; a sandbox run is a parameter, and so is whether everything before the first command went well.
- The configuration and policy crates: defaults and short branches; a policy decision is a parameter.
- Timestamps (accepted_at, last_seen_at, verified_at) and the row ids of tables that nothing refers to.
- The collation of the database: evidence ids are compared by code point, which for ids of lower-case hexadecimal digits is the order of every usual collation.
- Queries.PackageLookupScans: versions are listed by code point; the source orders their text by the collation of the database, which can place them otherwise.
- Queries.VersionLookupScans: pairs of versions are listed by code point; the same.
- Integer widths: sequence values, counters and durations are unbounded.
- Observer.FilesystemSnapshot: takes the entries of the directory walk as given, and entries that the walk itself cannot read are absent.
- Aggregates.SummaryScans: all figures come from one state of the store; the source issues one query for each, and Moments.AnswerDuringRun says what its answer is then.
- Aggregates.SummaryConserves: the same.
- Figures.SummaryOfEvidence: the same.
- Figures.FiguresRead: the same.
- Figures.SignersRead: the same.
- VerificationRun and its metadata: the wrapper adds fields beside the digest and none to it.
- The legacy JavaScript verifier: no longer in use.
