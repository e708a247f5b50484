# Security kernel and workbench logic in Dafny

This project models two parts of the repository and proves properties of them.

**The security kernel.** Every request to the kernel carries a timestamp, a nonce and a signature. The gate checks the
signature and the clock window, claims the nonce in a database table shared by all replicas, and only then runs the
handler. Around the claim there are a cleanup loop, a single retry after a lost connection, and a reconnect under a mutex.

- `Text`, `Signing`, `Gate` (with `Segments`): texts as bytes, hexadecimal printing, the comparison loop, the framing of the MAC input,
  `i64` parsing, the clock window and the expiry arithmetic, saturation and casts included.
- `ReplayProtocol`: the protocol as a state machine. Any number of tasks run on any number of replicas against one table
  and one real-valued database clock. Each `await` is a boundary between two steps. A statement sent to the server is
  executed at some moment of its own or never, replies may be lost, connections close at any time, tasks may be dropped.
  A run is any sequence of enabled steps from an initial state.
- `ReplayStructure`, `ReplaySafety`, `ReplayWindow`, `ReplayAttempts`, `ReplayClients`, `ReplaySweeps`, `ReplayRefusal`, `ReplayLedger`,
  `ReplayReconnect`, `ReplayRetention`, `ReplayProgress`: what holds in every reachable state of every run.
- `SecurityKernel`: the same code as a class with mutable fields. Each stretch between two `await`s is one method, and the
  multi-step operations string them together, with arbitrary steps of everybody else in between (`Interfere`). A ghost
  history ties the fields to a run of the machine, so every theorem about runs holds of the class.
- `Records` (with `Segments`): the identity challenge payload and the audit hash chain.
- `Authorization` (with `Strings`): the authorization evaluator against a policy stated without order.

**Self-contained logic of the frontend.** `Csv` (trial balance download), `Percent` and `PathTemplate` (request paths),
`RenderQueue` (PDF preview), `AssistantStream` (assistant events), `PageMerge` (paged records), `DraftDiff` (import
review), `FieldPatch` (saving a document).

## What the proofs say about the code

Each point is a theorem below; the code is modelled as it is, also where its own texts suggest otherwise.

- **The expiry's extra second leaves no time between reading the clock and inserting the row.** Suppose each claim still
  waited for is executed at most `delay` seconds after the clock value it was admitted on. Then no request is let through
  twice in any run exactly when `slack >= 1 + delay` (`ReplayWindow.AtMostOnceIff`). With the source's slack of one second
  this means `delay = 0` (`SourceSlackAllowsNoDelay`): sampling and commit must happen at one instant of one clock.
  Independently of any slack, claims committed no later than their own expiry are enough
  (`ReplaySafety.AtMostOnceIfPunctual`), also when another request reuses the nonce with an earlier expiry.
- **A lost acknowledgement refuses a genuine request.** The retry cannot tell its own row from a replay, so the only copy
  of a request may insert its row and still be answered as a replay (`ReplayWindow.LostAcknowledgementRefuses`). This is
  the only way: a request sent once is refused exactly when an insert of its own was executed, its reply was lost, and no
  delete between two inserts of its own, after its expiry, made room for the second (`ReplayRefusal.RefusedIff`). For a
  caller: if the reply to the first attempt arrives and nobody else uses the nonce, the answer is never "replay"
  (`SecurityKernel.Kernel.Claim`).
- **`"saas_global"` is never allowed.** Its arm is guarded by the absence of the platform-admin flag, so an admin falls
  through to the unsupported-scope arm. The reason text `platform_admin_required` suggests otherwise; the model follows
  the code (`Authorization.CurableIff`).
- **Three framings are ambiguous for some inputs, and exactly for these.** In each, the condition is a segment out of
  place: one between two separators that could be taken for the middle part.
  - The signed message `timestamp.nonce.body` is shared with another triple exactly when a dot-delimited segment of the
    body but the last, or of the timestamp but the first, is a canonical UUID (`Signing.MessageSharedIff`). The signature
    of such a request is valid for its twin too; the signature check runs first and accepts it, and it is the parsing of
    the timestamp that turns every twin away (`Gate.TwinRejected`, `Gate.SameSignatureSameRequest`).
  - A challenge shares its payload with another one exactly when some colon-delimited segment of its nonce but the last,
    or of its purpose but the first, is a `u64` as the payload prints it (`Records.PayloadSharedIff`). `new` makes
    colon-free nonces, but the caller chooses the purpose, so a purpose like `x:7` is enough
    (`Records.FreshPayloadSharedIff`).
  - An audit event shares its hashed material exactly when such a segment of its payload hash or event type is a UUID
    (`Records.MaterialSharedIff`), and a history can be rewritten without changing a hash, the final one included, exactly
    when it holds such an event (`Records.RewritableIff`).
- **The formula guard is not undone on reading.** A download reads back as the table itself exactly when no cell starts
  with `=`, `+`, `-` or `@` (`Csv.DownloadExactIff`); negative amounts, for instance, come back with a leading apostrophe.
- **A placeholder that occurs twice is filled once.** One-by-one replacement equals filling all placeholders at once
  exactly when no filled placeholder occurs twice (`PathTemplate.SequentialIsSimultaneousIff`).
- **Saving settles in one round** exactly when every changed number parses and every changed date has at most ten
  characters (`FieldPatch.SaveConvergesIff`); a field that holds `NaN` is reported as changed for ever.
- **A failed preview stays failed.** `failed` is raised exactly by a run that fails while its effect is live
  (`RenderQueue.FailedIff`) and never cleared, so the failure outlives a later render that succeeds
  (`RenderQueue.FailureOutlivesSuccess`).

## Assumptions

- The MAC and SHA-256 are arbitrary functions. Nothing is assumed of them; results say "the inputs are equal, or these two
  given messages collide".
- `skew` and `slack` are at most 2^53 / 32 seconds (`ValidConfig`) and clock readings stay below 2^53 / 8 seconds
  (`HORIZON`), so that the conversions to `f64` for `to_timestamp` are exact (`ReplaySafety.ExpiriesExact`). This is some 35 million
  years.
- A task's clock reading is arbitrary. Only `Prompt` (at-most-once: a claim executes at most `delay` after the reading)
  and `OnTime` (row lifetime: replica clocks lead the database clock by at most `ahead`) relate it to the database clock,
  and each theorem that needs one of them says so.
- `FieldPatch` uses the conversions of ECMAScript only through these laws: a number read, printed and read again is the
  same number; a text in upper case and its beginnings stay as they are when upper-cased again, and upper-casing puts no
  white space at the ends. The laws of upper-casing are proved for ASCII (`FieldPatch.AsciiUpperLawful`).

## Model

| member | source | states |
|---|---|---|
| ReplayWindow.AtMostOnceIff | security-kernel/src/main.rs:184-227 | all runs whose claims execute within `delay` of their clock reading execute each request at most once if and only if the expiry slack is at least one second plus `delay` |
| ReplayWindow.SourceSlackAllowsNoDelay | security-kernel/src/nonce_store.rs:62-65 | with the source's slack of one second the guarantee covers exactly the runs without delay |
| ReplayWindow.ReplayRun | security-kernel/src/main.rs:196-227 | for every sampling and execution time that the slack does not cover, a legal prompt run that executes one request twice |
| ReplayWindow.LostAcknowledgementRefuses | security-kernel/src/nonce_store.rs:81-89 | a concrete legal run in which the only copy of a request inserts its row and its retry is answered `Ok(false)`; when this happens at all is `ReplayRefusal.RefusedIff` |
| ReplayRefusal.RefusedIff | security-kernel/src/nonce_store.rs:66-90 | in every run, an answered claim that is the only copy of its request is refused if and only if an insert of its own was executed and its reply lost, and no delete came between two inserts of its own after their expiry |
| ReplayRefusal.RefusedInTimeIff | security-kernel/src/nonce_store.rs:66-90 | for a task whose inserts all came by their expiry, the lost reply to an own insert alone decides |
| ReplayRefusal.LetThroughDespiteLoss | security-kernel/src/nonce_store.rs:81-96 | in every run, a claim let through despite an own lost insert owes it to a delete executed after the expiry and between its two inserts |
| ReplaySweeps.SweepsExplainHolds | security-kernel/src/nonce_store.rs:66-96 | in every run an inserted row is in the table or a delete was executed after its expiry, and two rows of one nonce were inserted with such a delete between them |
| ReplayAttempts.AtMostTwoAttempts | security-kernel/src/nonce_store.rs:81-90 | in every run no call sends three statements: there is a single retry |
| ReplayClients.EachAttemptItsOwnClient | security-kernel/src/nonce_store.rs:115-124 | in every run no two statements of one task go over one connection: a reconnect never hands back the client that was given up |
| ReplayClients.ClientsHold | security-kernel/src/nonce_store.rs:107-125 | in every run, while a task is after a client all it has sent went over the one it gave up, and a client in hand is another one |
| ReplayRefusal.RefusedBecause | security-kernel/src/nonce_store.rs:66-90 | in every run, `Ok(false)` names an earlier insert of the nonce that is another task's, or the task's own with its reply lost |
| ReplayRefusal.OnlyCopyLetThrough | security-kernel/src/nonce_store.rs:81-90 | in every run, an answered only copy that lost no reply to an insert is let through |
| ReplayRefusal.RefusalsExplainedHolds | security-kernel/src/nonce_store.rs:76-77 | in every run, every claim that found its nonce taken has another statement that inserted that nonce no later |
| ReplaySafety.AtMostOnceHolds | security-kernel/src/main.rs:184-227 | over every interleaving of replicas, cleanup, losses, retries and reconnects, no two tasks with one nonce and timestamp are let through, given prompt claims |
| ReplaySafety.AtMostOnceIfPunctual | security-kernel/src/nonce_store.rs:66-90 | at most once for any slack, given that every insert a task heard of or waits for was executed by its own expiry |
| ReplaySafety.OneSignatureOneExecution | security-kernel/src/main.rs:184-227 | two executed requests with one signature exhibit two different framed messages with the same MAC |
| ReplaySafety.PunctualHolds | security-kernel/src/nonce_store.rs:62-87 | prompt execution implies execution by `expires_at`, in every run |
| ReplaySafety.TableInvariantHolds | security-kernel/src/nonce_store.rs:66-96 | in every run: each row is the row of a recorded insert; an inserted row stays its nonce's row until it expires; of two inserts with one nonce and expiry one was late |
| ReplaySafety.GrantedInserted | security-kernel/src/nonce_store.rs:81-90 | a task answered `Ok(true)` holds the delivered reply of its own last statement, which inserted the row of its nonce and expiry |
| ReplaySafety.ExpiryOfAdmitted | security-kernel/src/main.rs:196-203 | an admitted claim asks for timestamp + skew + slack, and its clock reading lies in the window around that timestamp |
| ReplaySafety.ExpiriesExact | security-kernel/src/nonce_store.rs:61-65 | in every run every expiry asked for is below 2^53 in magnitude, so `f64` holds it exactly |
| ReplayStructure.StructureHolds | security-kernel/src/nonce_store.rs:56-125 | in every run every task owns the client, mutex and statement its position needs, each mutex holder is where the mutex says, and each statement has exactly one outcome |
| ReplayStructure.PropertyRespected | security-kernel/src/nonce_store.rs:113-125 | no step of another task touches a task's statements, held mutex or unshared connection |
| ReplayStructure.NothingForgotten | security-kernel/src/nonce_store.rs:56-125 | every step keeps identities, marks and verdicts |
| ReplayLedger.ClaimsConserved | security-kernel/src/nonce_store.rs:66-90 | in every run rows inserted = tasks let through + lost acknowledgements + replies in flight = rows present + the row counts the sweeps reported; no row lets two tasks through |
| ReplayLedger.ReportsHold | security-kernel/src/nonce_store.rs:93-105 | in every run the rows that left the table are the sum of the counts of the executed delete statements |
| ReplayReconnect.MutualExclusion | security-kernel/src/nonce_store.rs:115-116 | at most one task of a replica is inside the reconnect section |
| ReplayReconnect.ReplacesWhatItChecked | security-kernel/src/nonce_store.rs:115-125 | the client overwritten is the one checked under the mutex; it is the very client this task gave up on, or it was closed; no other generation is replaced |
| ReplayReconnect.ConnectionsBounded | security-kernel/src/nonce_store.rs:107-125 | connections a replica ever shares = 1 + replaced generations, and every replaced one was at fault |
| ReplayRetention.RowLifetimeBounded | security-kernel/src/main.rs:244-257 | with sweeps on time and replica clocks at most `ahead` seconds ahead of the database, no row outlives 2 * skew + slack + max(skew, 30) + `ahead` seconds, and the table is no larger than the claims of that trailing interval |
| ReplayRetention.FreshHolds | security-kernel/src/nonce_store.rs:93-96 | under the same two conditions every row the last sweep met had not expired then, and its expiry is bounded by its insertion |
| ReplayProgress.NobodyStuck | security-kernel/src/nonce_store.rs:107-125 | from every reachable state every task can reach its end in at most twenty steps without a drop, a lost reply or a closing connection, however connecting turns out; so the mutex is given back on every path |
| SecurityKernel.Kernel.constructor | security-kernel/src/nonce_store.rs:33-43 | starts with an empty table, one open connection and a free mutex per replica, and a history of this state alone |
| SecurityKernel.Kernel.ReadShared | security-kernel/src/nonce_store.rs:107-112 | the client in hand is the shared one if it is open; a closed one is given up |
| SecurityKernel.Kernel.TakeMutex | security-kernel/src/nonce_store.rs:115-116 | taking the mutex, as one step of the machine |
| SecurityKernel.Kernel.AwaitMutex | security-kernel/src/nonce_store.rs:115-115 | waiting ends with the mutex free: others make any steps, and a holder that is left goes on until it gives the mutex back |
| SecurityKernel.Kernel.CheckCurrent | security-kernel/src/nonce_store.rs:117-120 | the current client is taken exactly when it is not the one given up and not closed; otherwise a connection is attempted with that client as the one checked |
| SecurityKernel.Kernel.ConnectClient | security-kernel/src/nonce_store.rs:121-121 | the connection attempt; a failure releases the mutex and fails the call |
| SecurityKernel.Kernel.InstallClient | security-kernel/src/nonce_store.rs:122-124 | the write of the shared client and the release of the mutex |
| SecurityKernel.Kernel.SendStatement | security-kernel/src/nonce_store.rs:81-81 | a closed client refuses at once and is given up; an open one sends one statement over itself with the task's own effect |
| SecurityKernel.Kernel.InsertRow | security-kernel/src/nonce_store.rs:67-78 | a present nonce leaves table and count alone and reports no row; an absent one gets its row with the given expiry and time, and one row is reported |
| SecurityKernel.Kernel.DeleteRows | security-kernel/src/nonce_store.rs:93-97 | a row stays, unchanged, exactly if the current time is not after its expiry; the number of the others is reported |
| SecurityKernel.Kernel.ReceiveError | security-kernel/src/nonce_store.rs:177-184 | a lost query is retried only on the first attempt and only for a closed client or a shutdown code, and that client is given up |
| SecurityKernel.Kernel.Reconnect | security-kernel/src/nonce_store.rs:114-125 | ends with a client in hand that is not the one given up and was not closed before the call, or with a failure only if connecting failed, whatever other tasks do in between |
| SecurityKernel.Kernel.Replace | security-kernel/src/nonce_store.rs:121-124 | a new client in hand, neither the one given up nor one that was closed before, or a failure, exactly as connecting succeeds or fails |
| SecurityKernel.Kernel.Client | security-kernel/src/nonce_store.rs:107-113 | the shared client if open, else a reconnect; fails only if the shared client was closed and connecting failed |
| SecurityKernel.Kernel.Query | security-kernel/src/nonce_store.rs:81-88 | one query: answered exactly when the reply arrives and the client in hand was open; a second attempt only follows a first; a failure only a second attempt or a loss without shutdown code |
| SecurityKernel.Kernel.Retry | security-kernel/src/nonce_store.rs:85-88 | the second and last attempt fails only if there was no new connection, its reply was lost or its connection closed after the first attempt |
| SecurityKernel.Kernel.RunStatement | security-kernel/src/nonce_store.rs:80-90 | the shared body of the three operations ends answered or failed, and names the attempt that failed and why |
| SecurityKernel.Kernel.Claim | security-kernel/src/nonce_store.rs:56-91 | `Ok(true)` exactly when this call's own last attempt inserted the row of its request and the reply arrived; `Ok(false)` only for a row of the nonce that is another task's or its own with the reply lost, and never for an only copy whose first reply arrives; an error only if the shared client was closed and could not be replaced, the first reply was lost without a reason to retry, or the first attempt allowed a second and that one failed |
| SecurityKernel.Kernel.DeleteExpired | security-kernel/src/nonce_store.rs:93-105 | `Ok(n)` only if the call's own last delete statement was executed and removed `n` rows; errors for the same reasons as a claim |
| SecurityKernel.Kernel.VerifyServiceRequest | security-kernel/src/main.rs:122-228 | the answer to every request but `/healthz`: 400 exactly for a request with its three headers whose body is absent or over 1024 * 1024 bytes, 503 exactly for a claim that failed and only for the causes named for a claim, 401 exactly for every other refusal of the gate and for a claim that found its nonce taken, the handler exactly for a claim that inserted a row; never 401 for an admitted only copy whose first reply arrives |
| SecurityKernel.Kernel.RunNonceCleanup | security-kernel/src/main.rs:244-257 | for any number of ticks: each tick starts one new sweep of this replica, no earlier than its multiple of max(skew, 30) seconds and after the sweep before has ended, with whatever result |
| SecurityKernel.Kernel.DueAtIs | security-kernel/src/main.rs:244-248 | tick `t` is due `t` times max(skew, 30) seconds after the start |
| SecurityKernel.Kernel.NoReplay | security-kernel/src/main.rs:184-227 | at every moment of every execution of this code, no replay, given prompt claims and enough slack |
| Gate.SlackOfOneIsNecessaryAndSufficient | security-kernel/src/nonce_store.rs:62-65 | some acceptable request may have lost its row if and only if the slack is less than one second |
| Gate.AcceptedBeforeExpiry | security-kernel/src/main.rs:230-242 | every instant at which a timestamp is accepted lies before ts + skew + 1, and the saturating sums are exact there |
| Gate.CheckRequest | security-kernel/src/main.rs:121-203 | the ordered checks, each with its own refusal |
| Gate.AdmissionIff | security-kernel/src/main.rs:121-242 | each of the eight answers of the gate and exactly when it is given, the window as two inequalities |
| Gate.AdmittedIsWellSigned | security-kernel/src/main.rs:184-203 | an admitted request parses, is signed for exactly its own triple, and its timestamp lies within skew of the clock on both sides |
| Gate.ClientRequestAdmittedIff | backend/internal/pkg/securitykernel/client.go:215-230 | a request signed by the Go client is admitted if and only if its body has at most 1024 * 1024 bytes and now - skew <= its second <= now + skew |
| Gate.SameSignatureSameRequest | security-kernel/src/lib.rs:260-284 | two well-signed requests with one signature are the same request, or their framed messages collide |
| Gate.TwinRejected | security-kernel/src/main.rs:189-203 | another request with the message and signature of a well-signed one passes the signature check and is refused for its timestamp |
| Gate.ParsedIsDotFree | security-kernel/src/main.rs:235-237 | a timestamp that parses as i64 holds no dot |
| Gate.ParseFormat | security-kernel/src/main.rs:235-237 | parsing undoes printing for every i64 |
| Gate.ParseI64Iff | security-kernel/src/main.rs:235-237 | exactly the texts that parse: digits, after a plus or minus sign if any, with a value in the range of i64 |
| Gate.FormatI64Is | backend/internal/pkg/securitykernel/client.go:219-219 | the client's decimal form: a minus sign for negative numbers only, no plus sign, no leading zeros |
| Signing.MessageInjective | security-kernel/src/lib.rs:266-270 | for dot-free timestamps the framing determines timestamp, nonce and body, whatever the body holds |
| Signing.MessageSharedIff | security-kernel/src/lib.rs:266-270 | for every timestamp text, another triple has the same message if and only if a dot segment of the body but the last, or of the timestamp but the first, is a canonical UUID |
| Signing.PlainMessageSharedIff | security-kernel/src/lib.rs:266-270 | for a dot-free timestamp the body alone decides |
| Signing.DottedTimestampsCollide | security-kernel/src/lib.rs:266-270 | an explicit pair of triples with one message, for every nonce; when there is one is `Signing.MessageSharedIff` |
| Signing.SignatureBindsTriple | security-kernel/src/lib.rs:260-272 | equal signatures mean equal triples or a MAC collision |
| Signing.ServiceSignature | security-kernel/src/lib.rs:260-272 | the incremental updates feed exactly the framed message |
| Signing.VerifyServiceSignature | security-kernel/src/lib.rs:274-284 | accepts a text if and only if it decodes to, and is the lower-case form of, the MAC of the framed triple |
| Signing.ConstantTimeEq | security-kernel/src/lib.rs:357-366 | the OR-of-XOR loop decides equality of byte sequences |
| Signing.HexEncode | security-kernel/src/lib.rs:347-355 | the table loop prints two lower-case digits per byte |
| Signing.UnhexHex | security-kernel/src/lib.rs:347-355 | an independent decoder undoes the printer |
| Signing.HexTableIs | security-kernel/src/lib.rs:348-348 | the sixteen digits, in order and in lower case |
| Records.PayloadInjective | security-kernel/src/lib.rs:114-119 | with colon-free nonces equal payloads mean equal challenges, whatever the purpose holds |
| Records.PayloadLayout | security-kernel/src/lib.rs:114-119 | the colon-delimited segments of a payload: "meta-org", challenge, subject, those of the purpose, the seconds, those of the nonce |
| Records.ColonInNonceAmbiguous | security-kernel/src/lib.rs:114-119 | an explicit twin for every challenge whose nonce starts with a number of seconds and a colon |
| Records.PayloadSharedIff | security-kernel/src/lib.rs:114-119 | another challenge has the same payload if and only if a nonce segment but the last, or a purpose segment but the first, is a canonical `u64` |
| Records.PrintsSecondsIff | security-kernel/src/lib.rs:114-119 | the texts the payload prints for seconds are exactly the canonical decimals below 2^64 |
| Records.FreshPayloadSharedIff | security-kernel/src/lib.rs:103-119 | with a colon-free nonce, as `new` makes it, this depends on the purpose alone |
| Records.MaterialInjective | security-kernel/src/lib.rs:248-251 | the chain material determines the previous hash text and the event, whatever the event type holds |
| Records.MaterialLayout | security-kernel/src/lib.rs:244-251 | the colon-delimited segments of a material: those of the previous hash or "genesis", of the event type, the subject, of the payload hash |
| Records.EventsLinked | security-kernel/src/lib.rs:243-258 | every recorded event carries its type and subject, names the hash of the event before it, and its hash can be computed again |
| Records.ChainTamperEvident | security-kernel/src/lib.rs:243-258 | two chains with the same final hash record the same events in the same order, or two hashed materials collide at named positions |
| Records.ColonInPayloadHashAmbiguous | security-kernel/src/lib.rs:243-258 | an explicit twin for every event whose payload hash starts with a UUID and a colon |
| Records.MaterialSharedIff | security-kernel/src/lib.rs:243-251 | another event has the same material, on any colon-free previous hash, if and only if a payload-hash segment but the last, or an event-type segment but the first, is a UUID |
| Records.RewritableIff | security-kernel/src/lib.rs:243-258 | another history hashes the same materials step by step and ends in the same hash if and only if some event of the history has such a segment |
| Records.UnsplittableTamperEvident | security-kernel/src/lib.rs:243-258 | a history without such segments is told apart from every other history by its final hash, or two hashed materials collide at named positions |
| Records.ChainHashForm | security-kernel/src/lib.rs:244-251 | the text before an event is colon-free, and is "genesis" only at the start |
| Segments.OtherReadingMarksElsewhere | security-kernel/src/lib.rs:114-119 | two readings of one framed text are equal, or a second mark stands among the segments of head or tail |
| Segments.MarkedElsewhereReads | security-kernel/src/lib.rs:114-119 | a second mark gives a second reading |
| Authorization.EvaluatorRefinesPolicy | security-kernel/src/lib.rs:159-207 | allowed if and only if all four gates of an order-free policy pass; a denial's reason belongs to the first gate that fails |
| Authorization.ReasonIsFirstFailure | security-kernel/src/lib.rs:159-207 | the reason as a function of which gates pass; a failed scope gate gives tenant mismatch for "organization", platform admin required for "saas_global" without the flag, and unsupported scope otherwise |
| Authorization.ModuleDisabledIff | security-kernel/src/lib.rs:167-176 | for a key text of blanks, a key and blanks, a licensed request is turned away for its module exactly if the key is neither empty nor "general" nor enabled |
| Authorization.ModuleKeyParts | security-kernel/src/lib.rs:167-167 | every key text can be read like that |
| Authorization.WeightsInOrder | security-kernel/src/lib.rs:309-339 | the orders of licences and tiers |
| Authorization.EntitlementsMonotone | security-kernel/src/lib.rs:159-207 | raising licence, modules, tier or admin never turns allow into deny |
| Authorization.CurableIff | security-kernel/src/lib.rs:178-192 | entitlements can make a request acceptable if and only if its licence text is known and its scope is one of three; "saas_global" never is |
| Strings.TrimFixpointIff | security-kernel/src/lib.rs:167-167 | trimming changes nothing exactly when neither end is blank |
| Strings.TrimCutsBlanks | security-kernel/src/lib.rs:167-167 | for every text, trimming cuts out what stands between blanks: nothing but blanks goes, and no blank stays at an end |
| Strings.TrimIs | security-kernel/src/lib.rs:167-167 | a text with no blank at its ends, put between blanks, is what trimming returns |
| Strings.WhitespaceIs | security-kernel/src/lib.rs:167-167 | the blank characters of Rust and of the script language, one by one |
| Csv.DownloadRoundTrip | frontend/src/app/erp-business-module-workspace.tsx:388-393 | an RFC 4180 (section 2) parser reads back every table, with the guard applied per cell |
| Csv.DownloadExactIff | frontend/src/app/erp-business-module-workspace.tsx:388-393 | a table with cells is read back unchanged if and only if no cell starts with `=`, `+`, `-` or `@` |
| Csv.DownloadCells | frontend/src/app/erp-business-module-workspace.tsx:388-393 | the file starts with a byte order mark, and each cell is read back as it was, behind one apostrophe exactly if it starts with `=`, `+`, `-` or `@` |
| Csv.DownloadFaithful | frontend/src/app/erp-business-module-workspace.tsx:388-393 | two tables give one file if and only if they agree up to the guard |
| Csv.NoFormulaInDownload | frontend/src/app/erp-business-module-workspace.tsx:392-392 | no cell read back starts a formula |
| Csv.GuardCommutesWithDoubling | frontend/src/app/erp-business-module-workspace.tsx:392-392 | the guard and the doubling of quotes commute |
| Percent.DecodeEncode | frontend/src/app/operation-runner.tsx:36-36 | decoding (section 2.1 of RFC 3986) undoes the encoding for every text |
| Percent.CharactersIff | frontend/src/app/operation-runner.tsx:36-36 | the decoder accepts a byte sequence as a text if and only if it is the UTF-8 form (RFC 3629) of that text |
| Percent.EncodeEmits | frontend/src/app/operation-runner.tsx:36-36 | encoded text holds only unreserved characters and percent signs |
| Percent.EncodeIsPlain | frontend/src/app/operation-runner.tsx:36-36 | encoded text is letters, digits, `-_.!~*'()` and percent triples with upper-case digits, and nothing else |
| Percent.EncodeIdentityIff | frontend/src/app/operation-runner.tsx:36-36 | a text stays as it is if and only if all its characters are among these |
| PathTemplate.BuildOperationRequestPath | frontend/src/app/operation-runner.tsx:33-47 | the two loops leave the successive replacements followed by the non-blank trimmed query |
| PathTemplate.KeptQueryIs | frontend/src/app/operation-runner.tsx:39-43 | kept are exactly the query entries that are not blank, in order, with their trimmed values |
| PathTemplate.ReplaceFillsFirst | frontend/src/app/operation-runner.tsx:36-36 | on a rendered template one `replace` fills the first placeholder of that name and nothing else |
| PathTemplate.SequentialIsSimultaneousIff | frontend/src/app/operation-runner.tsx:34-37 | successive replacement equals simultaneous substitution if and only if no filled placeholder occurs twice |
| PathTemplate.OrderIrrelevant | frontend/src/app/operation-runner.tsx:34-37 | the order of the entries never changes the path |
| PathTemplate.RequestPathSegments | frontend/src/app/operation-runner.tsx:33-47 | segments keep their number and order; each filled one decodes to the trimmed value, each other is unchanged |
| RenderQueue.InvHolds | frontend/src/app/document-pdf-preview.tsx:47-87 | every history keeps runs in order, only the newest effect live, and the canvas explained by one run |
| RenderQueue.OneAtATimeInOrder | frontend/src/app/document-pdf-preview.tsx:57-79 | at most one run is at work; a run starts after all earlier ones have settled and before any later one |
| RenderQueue.CancelledNeverPaints | frontend/src/app/document-pdf-preview.tsx:57-59 | a run cancelled before its page came never paints, never holds the canvas and never owns the task, in any later history |
| RenderQueue.OnlyLiveRunReports | frontend/src/app/document-pdf-preview.tsx:76-84 | `rendered` and `failed` change only by the run of the live, newest effect |
| RenderQueue.FailedIff | frontend/src/app/document-pdf-preview.tsx:79-83 | after any history `failed` holds if and only if some run was reported as failed while its effect was live |
| RenderQueue.FailureStays | frontend/src/app/document-pdf-preview.tsx:79-83 | no later step clears `failed` |
| RenderQueue.FailureOutlivesSuccess | frontend/src/app/document-pdf-preview.tsx:75-83 | a drained history whose live run has succeeded and is shown while `failed` still holds |
| RenderQueue.DrainedShowsNewest | frontend/src/app/document-pdf-preview.tsx:47-85 | once drained with an effect live, the canvas holds the newest render if and only if that run did not fail, and then `rendered` names it |
| RenderQueue.NeverStalls | frontend/src/app/document-pdf-preview.tsx:78-79 | however each render ends, every history can be drained: a failed run never blocks later ones |
| RenderQueue.PdfPreview.RunEffectBody | frontend/src/app/document-pdf-preview.tsx:47-85 | one more run on the chain after the earlier effect's clean-up, as one step of the machine |
| RenderQueue.PdfPreview.SkipEffectBody | frontend/src/app/document-pdf-preview.tsx:47-48 | an effect without document, width or canvas only runs the earlier effect's clean-up |
| RenderQueue.PdfPreview.StartRun | frontend/src/app/document-pdf-preview.tsx:56-58 | a cancelled run ends at once, any other awaits its page |
| RenderQueue.PdfPreview.ReceivePage | frontend/src/app/document-pdf-preview.tsx:58-70 | a page taken by a live run makes it paint on the canvas with the task its own; a run cancelled meanwhile ends and leaves canvas and task alone, as does a failed page |
| RenderQueue.PdfPreview.FinishRender | frontend/src/app/document-pdf-preview.tsx:71-76 | the task ref is released on both endings, `rendered` is set unless cancelled |
| RenderQueue.PdfPreview.ReportFailure | frontend/src/app/document-pdf-preview.tsx:80-84 | `failed` is set unless cancelled |
| RenderQueue.PdfPreview.UnmountComponent | frontend/src/app/document-pdf-preview.tsx:85-88 | the live run is cancelled and the task ref cleared |
| AssistantStream.Send | frontend/src/app/ai-assistant.tsx:297-376 | for every event sequence and ending: the state, text, steps, pending approval, invocation, usage and cost that a description of the whole sequence gives, and the fetched invocation's usage and cost after a finished stream that named one |
| AssistantStream.ResumeAfterApproval | frontend/src/app/ai-assistant.tsx:410-471 | the same outcome, starting from what is shown; usage and cost change only by the fetch at the end |
| AssistantStream.ErrorStateIs | frontend/src/app/ai-assistant.tsx:342-347 | an error is a denial exactly by the code "forbidden" or by "denied" or "forbidden" in its lower-case text, and a failure of the provider otherwise |
| AssistantStream.FinalStateIs | frontend/src/app/ai-assistant.tsx:334-376 | approval is required exactly if some step asked for it; without one and without errors the run is completed |
| AssistantStream.LastErrorDecides | frontend/src/app/ai-assistant.tsx:342-353 | the last error gives the state, unless an approval was asked for, and the text up to the later deltas |
| AssistantStream.LastApprovalIs | frontend/src/app/ai-assistant.tsx:335-341 | the pending approval is the one the last asking datum names, by its step or else by itself |
| AssistantStream.LastInvocationIs | frontend/src/app/ai-assistant.tsx:299-303 | the invocation is the one the last naming datum names, by itself or else by its step |
| AssistantStream.EndingIs | frontend/src/app/ai-assistant.tsx:356-390 | what an abort, an exception and the fetch after a finished stream change, and what a cleared display is |
| AssistantStream.ContentSnoc | frontend/src/app/ai-assistant.tsx:309-352 | the text is the last error followed by the later deltas |
| AssistantStream.StepsSnoc | frontend/src/app/ai-assistant.tsx:304-309 | a step is appended exactly when its id is new |
| AssistantStream.StepsDistinct | frontend/src/app/ai-assistant.tsx:304-309 | step ids stay distinct and shown steps keep their place |
| AssistantStream.HandledAllTracks | frontend/src/app/ai-assistant.tsx:297-354 | handling datum after datum keeps state, text, steps, approval and invocation at what the whole sequence so far gives |
| AssistantStream.RepricedAllIsLast | frontend/src/app/ai-assistant.tsx:316-333 | every part of usage and cost is the last one the stream gave |
| PageMerge.LoadPages | frontend/src/app/erp-business-module-workspace.tsx:281-283 | loading pages one by one equals merging their concatenation once, from the second page on |
| PageMerge.MergeIsMerge | frontend/src/app/erp-business-module-workspace.tsx:282-282 | one record per key, placed by first occurrence, valued by last |
| PageMerge.MergeAbsorbs | frontend/src/app/erp-business-module-workspace.tsx:282-282 | merging a merged prefix with more pages equals merging everything at once |
| PageMerge.MergeFixpointIff | frontend/src/app/erp-business-module-workspace.tsx:282-282 | a list is its own merge if and only if its keys are distinct |
| DraftDiff.ChangesAreTheDifference | frontend/src/app/document-import-workspace.tsx:354-362 | each path at which the flattened drafts differ is listed exactly once; the changes turn the original into the reviewed draft, and backwards |
| DraftDiff.PropertyText | frontend/src/app/document-import-workspace.tsx:355-358 | at `properties.` and the key stands the property's text, and nothing for a missing value |
| DraftDiff.LineText | frontend/src/app/document-import-workspace.tsx:355-358 | at `lines.`, the index, a dot and the key stands the text of that line's property, and nothing for a missing value |
| DraftDiff.NoTextElsewhere | frontend/src/app/document-import-workspace.tsx:355-360 | at every other path there is nothing |
| DraftDiff.ListedIff | frontend/src/app/document-import-workspace.tsx:354-362 | a change is listed if and only if it has the two texts of its path and they differ |
| DraftDiff.PropertyEditListed | frontend/src/app/document-import-workspace.tsx:354-362 | an edited property is listed from its old text to its new one; an unedited one is not |
| DraftDiff.LineEditListed | frontend/src/app/document-import-workspace.tsx:354-362 | the same for a property of a line |
| DraftDiff.FlattenDistinct | frontend/src/app/document-import-workspace.tsx:355-358 | flattening never gives two values one path |
| DraftDiff.LinePathInjective | frontend/src/app/document-import-workspace.tsx:357-357 | a line path determines index and key, even when keys hold dots and digits |
| DraftDiff.CopyHasNoChanges | frontend/src/app/document-import-workspace.tsx:24-30 | a fresh copy of a draft differs from it nowhere |
| DraftDiff.CopyKeepsTexts | frontend/src/app/document-import-workspace.tsx:24-30 | the copy has the same keys and texts, with an empty text for what is missing |
| FieldPatch.SaveConvergesIff | frontend/src/app/document-workbench.tsx:162-176 | after the patch the same form shows no changes if and only if every changed number parses and every changed date has at most ten characters |
| FieldPatch.SaveConvergesByFormIff | frontend/src/app/document-workbench.tsx:162-176 | if upper-casing makes no text longer, the same holds with all collected values in place of the changed ones |
| FieldPatch.NormalizeIdempotentIff | frontend/src/app/document-workbench.tsx:549-561 | reading a normalized value back through the record gives it again, for exactly those values |
| FieldPatch.PatchHolds | frontend/src/app/document-workbench.tsx:540-547 | the patch holds a field if and only if it is collected and differs, with its new value |
| FieldPatch.ChangesListed | frontend/src/app/document-workbench.tsx:540-547 | listed are the collected fields, all of them for a new record and else those that differ, each with the value before and after |
| FieldPatch.CollectFields | frontend/src/app/document-workbench.tsx:526-538 | the loop collects, field by field, what the form contributes |
| FieldPatch.CollectedIff | frontend/src/app/document-workbench.tsx:526-538 | a field is collected exactly if it may be written, is no key of an existing record, and is a check box or has a form text that is not an optional blank of a new record |
| FieldPatch.CollectedIs | frontend/src/app/document-workbench.tsx:526-538 | what is collected: presence for a check box, the normalized form text otherwise |
| FieldPatch.NormalizedIs | frontend/src/app/document-workbench.tsx:549-554 | a text normalized: what stands between its blanks, as a number, a flag, a currency code in upper case, or itself |
| FieldPatch.InitialIs | frontend/src/app/document-workbench.tsx:556-561 | what a form starts from: the stored text, the first ten characters of a date, Y or N for a flag |

## Left out

- SecurityKernel.Kernel.AwaitMutex: a wait that never ends is not an execution of the class; that every wait can end is `ReplayProgress.NobodyStuck`.
- SecurityKernel.Kernel.VerifyServiceRequest: `/healthz`, which reaches its handler unsigned (main.rs lines 119-121), is modelled only by the readiness statement (`Probe`).
- SecurityKernel.Kernel.RunNonceCleanup: an arbitrary finite number of ticks; the source's loop never ends.
- Gate.CheckRequest: header decoding and `Uuid::parse_str` are inputs (present or absent, canonical text); a body that cannot be read or is too long is one case.
- ReplayRetention.RowLifetimeBounded: takes sweeps on time and a bounded lead of replica clocks as its assumptions.
- PathTemplate.BuildOperationRequestPath: `URLSearchParams` is an arbitrary function of the kept entries.
- Percent.DecodeEncode: texts are sequences of Unicode scalar values; the error for lone surrogates is not modelled.
- AssistantStream.Send: `toLowerCase` and the localized text for an exception are parameters; the session id and the form of the messages are not modelled.
- RenderQueue.PdfPreview.UnmountComponent: a cancelled render task may still finish, because cancelling a task whose promise has already resolved has no effect; rejection is the other outcome of any painting run.
- RenderQueue.FailedIff: a document that cannot be loaded also raises `failed` (document-pdf-preview.tsx line 35); loading is not part of the queue.
- The key error of `HmacSha256::new_from_slice` does not occur for any key length and has no counterpart.
- All replicas use one database clock; the server's isolation and durability are those of single atomic statements.
- SHA-256, HMAC, Ed25519 verification and base64 are not modelled.
- HTTP routing, environment parsing, logging, React rendering, layout and translations are not modelled.
- The Go backend's domain services are not modelled, apart from the request signing of its kernel client.
- The frontend's other workspaces only forward to the backend and would add easy members.
