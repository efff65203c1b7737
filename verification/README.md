# A verified model of the SD-JWT disclosure pipeline

The library issues, holds and verifies Selective Disclosure JWTs (RFC 9901). An issuer hides chosen claims behind
digests, a holder presents some of the hidden claims, and a verifier rebuilds what it may see. This project models that
pipeline as transformations on JSON trees and proves what the pipeline is for: hiding and then revealing gives the
claims back, exactly the parent-closed presentations are accepted, what a holder selects is one of them, and every
fast or threaded form of the work gives the result of its serial form.

Check everything with `dafny verify dfyconfig.toml` (Dafny 4.11).

## How the model is laid out

| Part | Modules |
|---|---|
| JSON values, their meaning without member order, the values inside them, sequences | `Wrappers`, `Json`, `JsonFacts`, `Places`, `Sequences` |
| Claims with their choices: what is signed, what may be read | `ClaimTree`, `Strategy`, `SignedPayload`, `WireFormat` |
| Issuance: plan, random draws, registry, serial assembly, executor-driven assembly, restoration of outcomes | `Plan`, `PlannedDraws`, `Planner`, `Registry`, `Assembly`, `SerialIssuance`, `Restoration`, `ParallelIssuance`, `ReadyBatches`, `Assembler`, `Issuance` |
| Verification: unpacking and what it means | `Unpacking`, `Verifier`, `Encounters`, `UnboundedUnpacking`, `AcceptedPayload`, `Reconstruction`, `Acceptance` |
| Issue, serially or through an executor, then present, then verify | `CredentialLaw`, `ExecutorIssuance`, `IssuerPromises` |
| Holder: selection, its meaning on the claim tree, presentations | `Holding`, `Choosing`, `SelectionMeaning`, `HolderLaw`, `FullRequest`, `ShadowedClaim`, `Holder`, `Presenting` |
| Disclosure preprocessing, one credential and many | `Preprocessing`, `OutcomeContract`, `Batch` |
| Chunks, thread decisions, the worker budget as a protocol | `Chunks`, `Adaptive`, `WorkerBudget` |
| Work estimates and the benchmark's trace | `WorkEstimate`, `Trace` |
| Path strategy, generated paths, tag removal | `PathStrategy`, `TaggedClaims` |
| Compact serialization and the escape printer | `Compact`, `Escape` |

Code that changes state is modelled as classes and loops (`Planner`, `Assembler`, `Verifier`, `Holder`, `Restoration`,
`Preprocessing`, `Batch`, `Chunks`, `Adaptive`, `Trace`, `TaggedClaims`, `Escape`). Each method is proved to compute a
specification function, and the laws are lemmas about these functions.

What comes from outside is a parameter: a `Codec` for JSON printing with base64url, SHA-256 and their decoding; a
`JwtCodec` for reading JWT parts; `Signing` for what the key libraries say and print; a `Tape` of random draws; an
`Executor`; the host's parallelism and the budget's answers. About the codec the laws assume only that the digests of one
credential, decoys included, differ from each other and that its disclosures decode to what was encoded
(`CredentialLaw.SoundlyEncoded`). An executor is a function of the batch it is given. It also stands for one whose
answers change from call to call: no job is in two batches of a run, and the run depends on no other answers
(`ReadyBatches.BatchesDiffer`, `ReadyBatches.SameRun`). Errors are enumerations, not texts.

What is accepted is also said without the specification functions, in the names and numbers of the formats and for
inputs that nobody honest made: which payloads and disclosures the verifier accepts (`AcceptedPayload`), which claims the
issuer takes and what it leaves in the clear (`IssuerPromises`), what a request selects (`SelectionMeaning`), and which
outcomes of workers are taken (`OutcomeContract`, `Restoration.RestoredExactly`).

Where a promise has a condition, the condition is proved to be exact:

- The round trip holds if and only if the presentation is parent-closed and what it shows has no empty array, at most
  128 levels and no visible `_sd_alg` member (`CredentialLaw.HideThenReveal`, `Acceptance.Fits`).
- Whatever is asked for, the holder's selection is parent-closed, if and only if no top-level claim called `_sd_alg` is
  hidden with something hidden inside. The code does not check this (`ShadowedClaim.KeepsParentsExactly`,
  `ShadowedClaim.HiddenAlgClaimLosesParent`).
- Asking for the claims themselves gives all disclosures in the issuer's order, if and only if no hidden member is
  `false` or null and every hidden array element is `true` or a container that hides nothing
  (`FullRequest.FullRequestSelectsAll`).
- A path is chosen by being listed, whatever else is listed, if and only if no name on it, after the first, reads as the
  start of an index (`PathStrategy.ByListingExactly`), and a name listed by itself also chooses some other path if and
  only if it has a dot or a bracket (`PathStrategy.AmbiguousExactly`).

## Model

| member | source | states |
|---|---|---|
| CredentialLaw.HideThenReveal | src/verifier.rs:270-509 | Present any different disclosures of an issued credential in any order: the verifier reads the claims without exactly the hidden entries not presented iff the selection is parent-closed and what it shows fits; where it fits, it accepts iff the selection is parent-closed. |
| CredentialLaw.ShowEverything | src/issuer/issuance_plan.rs:541-700 | Presenting all disclosures gives the subject's claims back, up to member order, exactly when the whole tree fits the verifier. |
| CredentialLaw.FittingClaimsAreRead | src/verifier.rs:286-312 | For claims without empty arrays, `_sd_alg` members or more than 128 levels, the verifier accepts exactly the parent-closed selections and reads what was not withheld. |
| CredentialLaw.IssuedCredential | src/issuer.rs:227-300 | Issuing always succeeds on clean claims and hands over the payload of a tree of the planned claims in which exactly the chosen entries are hidden, with its disclosures, nested ones first. |
| CredentialLaw.WholeTreeClaims | src/issuer.rs:227-300 | Removing `iss`, `iat`, `exp` and `cnf` before planning and adding them afterwards loses and changes no claim. |
| CredentialLaw.SelectionIsBound | src/disclosure_preprocessing.rs:74-125 | Preprocessing a selection of a credential's disclosures binds each digest to its own disclosure and no decoy to anything. |
| IssuerPromises.IssuedExactly | src/issuer.rs:227-300 | For any input: issuing succeeds exactly for an object without a member `_sd` or `...` at any depth, and listed paths that all begin with `$.`. |
| IssuerPromises.ClaimsInTheClear | src/issuer.rs:244-300 | Whatever the strategy, the signed payload has `iss`, `iat` and `exp` as given, `_sd_alg` is `sha-256`, a holder key is carried as `cnf.jwk`, and exactly the other claims are planned. |
| IssuerPromises.NothingHidden | src/issuer.rs:95-160 | Without selective disclosure nothing is hidden at any depth, and there are no disclosures. |
| IssuerPromises.TopLevelHidden | src/issuer.rs:95-160 | With the top level only, every planned claim is hidden and nothing below any of them. |
| IssuerPromises.AllLevelsHidden | src/issuer.rs:95-160 | With all levels, every planned claim, nested claim and array element is hidden. |
| PlannedDraws.PlanDraws | src/issuer/issuance_plan.rs:541-686 | Nodes have the locations 0, 1, 2, ... in preorder, objects have as many decoys as were drawn for them or none, and disclosures and decoys have the salts in the order in which they were drawn. |
| PlannedDraws.DisclosuresAreSalted | src/disclosure.rs:33-60 | The i-th disclosure of any credential encodes the i-th salt drawn, then a name and a value or a value alone. |
| WireFormat.ObjectFormat | src/issuer/issuance_plan.rs:1712-1759 | A signed object has its visible members as they are and, exactly if something is hidden or a decoy added, a sorted `_sd` list of the digests of `[salt, name, value]` and of the decoys, and nothing else. |
| WireFormat.ArrayFormat | src/issuer/issuance_plan.rs:1608-1632 | A signed array has its visible elements as they are, and for a hidden one `{"...": digest}` with the digest of `[salt, value]`. |
| ExecutorIssuance.IssuesTheSame | src/issuer.rs:227-300 | For all claims, clean or not, issuing through an honest executor gives the serial credential or the serial error. |
| ExecutorIssuance.HideThenRevealWith | src/issuer/issuance_plan.rs:505-509 | The round-trip law holds as it stands for a credential issued through an honest executor. |
| SignedPayload.SignedReadsAsTree | src/issuer.rs:227-300 | The signed payload, with `_sd_alg` and the always revealed claims inserted, unpacks as the payload of the tree with these claims visible. |
| SignedPayload.SignedPassesAlgChecks | src/verifier.rs:270-327 | A signed payload has the accepted digest algorithm, and passes the nested `_sd_alg` check whenever no shown object has such a member. |
| Acceptance.ExactReading | src/verifier.rs:305-509 | Unpacking the payload of a tree and checking that every held disclosure was met succeeds exactly for parent-closed sets over a fitting shape. |
| Acceptance.ClosedIsMet | src/verifier.rs:305-312 | Every held disclosure is met on the verifier's walk exactly when each comes with the one enclosing it. |
| Acceptance.DropMatters | src/verifier.rs:409-435 | Dropping `_sd_alg` members leaves the pruned claims unchanged exactly when no shown object has one. |
| Reconstruction.UnpackTree | src/verifier.rs:339-509 | Unpacking the payload of any claim tree gives the meaning of the pruned tree and meets exactly the digests on the way, or fails exactly when an array is empty or the depth limit is passed. |
| Reconstruction.UnpackHidden | src/verifier.rs:437-481 | The sorted digest list of an object, decoys and hidden members mixed in any order, adds exactly the fields of the hidden members that are held. |
| UnboundedUnpacking.BoundedIsExact | src/verifier.rs:329-509 | For any value and digest map, cyclic ones included, the depth-limited unpacking succeeds exactly when the unlimited one does with a result nested within the limit, and then they agree. |
| Encounters.UnpackTells | src/verifier.rs:329-509 | For any value and digest map: success means that every digest met was fresh and is recorded exactly once; a duplicate is reported only if a digest is met twice. |
| AcceptedPayload.UnpackedExactly | src/verifier.rs:329-509 | For any value and digest map: unpacking succeeds exactly when no digest is met twice and every visited value is proper (no empty array, stand-ins with one digest and nothing else, listed digests that are text, disclosures of two or three parts, text names that are not reserved and not there already) and within 128 levels. |
| AcceptedPayload.ExtractedExactly | src/verifier.rs:270-327 | For any payload: it is accepted exactly when `_sd_alg` at the top level is `sha-256` or absent, no object below has such a member, it unpacks, and every presented disclosure was met. |
| AcceptedPayload.AcceptedExactly | src/verifier.rs:270-509 | Both together: acceptance of any payload with any disclosures, in terms of what is visited and met. |
| Verifier.SDJWTVerifier.ExtractSdClaims | src/verifier.rs:270-312 | Computes the specification of extraction: algorithm checks, unpacking, cardinality and unreferenced disclosures, with the error that comes first. |
| Verifier.SDJWTVerifier.RecordDigest | src/verifier.rs:329-337 | Refuses exactly the digests already met and adds any other to the set. |
| Verifier.SDJWTVerifier.UnpackDisclosedClaims | src/verifier.rs:339-369 | Result and digests left seen are those of the specification, for every value and depth. |
| Verifier.SDJWTVerifier.UnpackDisclosedClaimsInArray | src/verifier.rs:371-407 | The array loop, with placeholders and decoys, follows the specification. |
| Verifier.SDJWTVerifier.UnpackFromDigestValue | src/verifier.rs:483-509 | An array placeholder reveals its disclosure, or nothing for a decoy, or fails as specified. |
| Verifier.SDJWTVerifier.UnpackDisclosedClaimsInObject | src/verifier.rs:409-435 | The member loop and the digest list follow the specification. |
| Verifier.SDJWTVerifier.UnpackDigests | src/verifier.rs:437-481 | The digest loop, with reserved, duplicate and malformed claim names, follows the specification. |
| Registry.PlannerMadePlan | src/issuer/issuance_plan.rs:381-401 | A planner-made plan has a valid registry; its tree refers to jobs 0, 1, 2, ... in postorder and to disclosures in ordinal order, and resolves to the claims with exactly the chosen entries hidden. |
| Registry.PlanValueSound | src/issuer/issuance_plan.rs:541-686 | Planning any value extends the registry by exactly the jobs its planned tree refers to, children before their parent. |
| Planner.Create | src/issuer/issuance_plan.rs:381-401 | The planner object makes the plan of the specification, drawing salts and decoy counts in its order. |
| Planner.Planner.PlanValue | src/issuer/issuance_plan.rs:541-557 | Planning a value changes location counter, registry and random draws as specified. |
| Planner.Planner.PlanArray | src/issuer/issuance_plan.rs:559-588 | The loop over array elements plans each below its index key. |
| Planner.Planner.PlanObject | src/issuer/issuance_plan.rs:590-636 | The loop over members, then the decoys, plans an object. |
| Planner.Planner.PlanDisclosure | src/issuer/issuance_plan.rs:638-671 | Allocates the next job id and ordinal, draws a salt, and registers the disclosure. |
| Planner.Planner.PlanDecoy | src/issuer/issuance_plan.rs:673-686 | Allocates the next job id and registers a decoy with a fresh salt. |
| Assembly.RegistryErrorIff | src/issuer/issuance_plan.rs:1541-1577 | The registry check passes exactly when jobs are numbered by position and disclosures and ordinals name each other. |
| Assembly.ValueExact | src/issuer/issuance_plan.rs:1579-1760 | For any planned value, corrupted ones included: serial assembly succeeds iff its references are bound to jobs of their kind and location and untaken, and then yields the payload of the resolved tree and exactly the slots expected. |
| SerialIssuance.SerialExact | src/issuer/issuance_plan.rs:422-426 | For any plan whatsoever: serial execution succeeds iff the tree refers to every job of a valid registry exactly once, by location and kind, and then delivers its payload and the disclosure of every ordinal. |
| SerialIssuance.WorkInOrder | src/issuer/issuance_plan.rs:1893-1932 | Reading the recorded disclosures by ordinal gives the disclosures of the tree in nesting order. |
| SerialIssuance.PlannedIssuance | src/issuer/issuance_plan.rs:381-426 | Every planner-made plan runs to the end: payload of a tree of the given claims with exactly the chosen entries hidden, and its disclosures in order. |
| Assembler.ValidateRegistry | src/issuer/issuance_plan.rs:1541-1577 | The two loops find the first registry error of the specification, or none. |
| Assembler.SerialAssembler.TakePlannedJob | src/issuer/issuance_plan.rs:1864-1891 | Takes a job once, checking identity, location and kind in that order. |
| Assembler.SerialAssembler.RecordDisclosure | src/issuer/issuance_plan.rs:1893-1913 | Fills the ordinal's slot once, for the job bound to it. |
| Assembler.SerialAssembler.FinishAssembly | src/issuer/issuance_plan.rs:1915-1932 | Succeeds exactly when no job is left and every ordinal is filled, with the disclosures in ordinal order. |
| Assembler.SerialAssembler.ExecuteArray | src/issuer/issuance_plan.rs:1608-1632 | The serial array loop computes the specification and leaves its slots. |
| Assembler.SerialAssembler.ExecuteObject | src/issuer/issuance_plan.rs:1712-1759 | The serial member and decoy loops compute the specification and leave its slots. |
| Assembler.Execute | src/issuer/issuance_plan.rs:422-426 | Serial execution by the assembler object is the specification, errors included. |
| Assembler.SerialAssembler.ExecuteArrayWithExecutor | src/issuer/issuance_plan.rs:1635-1710 | Collecting, running and filling an array's batch follows the specification for any executor. |
| Assembler.SerialAssembler.ExecuteObjectWithExecutor | src/issuer/issuance_plan.rs:1762-1851 | Collecting, running and recording an object's batch follows the specification for any executor. |
| Assembler.ExecuteAndRestore | src/issuer/issuance_plan.rs:1417-1428 | An empty batch gives nothing; any other is executed and restored by identity. |
| Assembler.ExecuteWithExecutor | src/issuer/issuance_plan.rs:505-509 | Executor-driven execution by the assembler object is the specification, errors included. |
| ParallelIssuance.LateRecording | src/issuer/issuance_plan.rs:1635-1851 | Recording a container's own disclosures after those of all its children leaves the same record. |
| ParallelIssuance.BatchedValueExact | src/issuer/issuance_plan.rs:1591-1851 | With an honest executor, executor-driven assembly of any planned value succeeds exactly when serial assembly does, with the same payload and slots. |
| ParallelIssuance.BatchedRefinesSerial | src/issuer/issuance_plan.rs:1579-1851 | For every plan, corrupted ones included, and every executor answering a permutation of the processed jobs: success exactly when serial execution succeeds, and then the same payload and the same ordered disclosures. |
| ParallelIssuance.PlannedBatchedIssuance | src/issuer/issuance_plan.rs:505-509 | Planner-made plans run to the end under any honest executor, with the serial result. |
| ReadyBatches.BatchesDiffer | src/issuer/issuance_plan.rs:1635-1851 | For any plan and any executor, no job is handed over twice in a run, so no two of its batches are the same. |
| ReadyBatches.SameRun | src/issuer/issuance_plan.rs:1417-1428 | Two executors that agree on the batches of a run lead to the same batches and the same result. |
| ReadyBatches.HonestRunRefinesSerial | src/issuer/issuance_plan.rs:1579-1851 | For the refinement of serial execution it is enough that the executor processes the batches of the run itself. |
| Restoration.RestoreIssuanceOutcomes | src/issuer/issuance_plan.rs:1431-1516 | For arbitrary outcomes the result is a function of their bag: any completion order gives the same products or the same error, unexpected before duplicate before misplaced before missing before the first failure in planned order. |
| Restoration.ScanOutcomes | src/issuer/issuance_plan.rs:1449-1470 | One pass puts each first answer into its slot and raises the first flag of the source's precedence exactly: unexpected whenever such an outcome is in the bag, duplicate where none is unexpected, misplaced where none is unexpected or duplicate. |
| Restoration.RestoreHonest | src/issuer/issuance_plan.rs:1431-1516 | Honest outcomes in any order restore to all products in planned order. |
| Restoration.RestoredExactly | src/issuer/issuance_plan.rs:1431-1516 | For arbitrary outcomes: restoring succeeds exactly when job ids differ and some order of the outcomes answers the planned jobs one by one with products of their kind, and gives these products. |
| Preprocessing.PreprocessWithWorker | src/disclosure_preprocessing.rs:74-125 | The fail-fast loop computes the serial fold for any worker, with its contract errors. |
| Preprocessing.AssembleDisclosures | src/disclosure_preprocessing.rs:660-700 | Sort, validate and fold compute the specification for any jobs and outcomes. |
| Preprocessing.AssembleIgnoresOrder | src/disclosure_preprocessing.rs:660-759 | For arbitrary, even malformed, outcome lists every permutation gives the same result or the same error. |
| Preprocessing.AssembleRefinesSerial | src/disclosure_preprocessing.rs:74-125 | Honest outcomes in any order give the serial result: both mappings, ordered digests, or the same error. |
| OutcomeContract.ContractExactly | src/disclosure_preprocessing.rs:702-759 | For arbitrary jobs and outcomes: validation passes exactly when the jobs are numbered by position and the outcomes are, as a bag of ordinals and texts, the jobs. |
| OutcomeContract.ValidationExact | src/disclosure_preprocessing.rs:702-759 | Outcomes processed from jobs of any kind pass validation exactly as a permutation of the plan's own outcomes. |
| OutcomeContract.AssembledExactly | src/disclosure_preprocessing.rs:660-759 | For arbitrary jobs and outcomes: assembly succeeds exactly when also every outcome has a result and a digest of its own, and publishes exactly these in job order. |
| OutcomeContract.SerialExactly | src/disclosure_preprocessing.rs:74-125 | With any worker: the serial form succeeds exactly when every job is answered as its own with digests that differ, and publishes exactly these. |
| Batch.NewPlan | src/batch.rs:259-326 | The plan lists all credentials' jobs in caller order, or reports the first limit passed. |
| Batch.PlannedIffAffordable | src/batch.rs:259-300 | A batch is planned exactly when credentials, disclosures, each size and the total size are within the limits. |
| Batch.ValidationExact | src/batch.rs:379-413 | A list of genuine outcomes, of whatever plans, passes validation iff it is a permutation of the plan's own jobs processed, and is then sorted into job order. |
| Batch.AssembleOutcomes | src/batch.rs:333-377 | Sorting, validating and slicing by credential compute the specification. |
| Batch.BatchSplits | src/batch.rs:333-413 | The plan's outcomes in any order assemble to each credential's own serial result in caller order, or to the first error. |
| Batch.AssembleIgnoresOrder | src/batch.rs:333-413 | For any outcomes, missing, repeated and foreign ones included, every permutation gives the same mappings or the same contract error, provided that equal job identities of this plan mean equal outcomes. |
| Batch.ProcessedIsCoherent | src/batch.rs:108-148 | Outcomes of this plan that were processed from its own jobs meet that proviso, whatever other outcomes stand beside them. |
| Batch.ExecuteBatch | src/batch.rs:177-207 | The serial executor's loop, clearing its observed digests between credentials, computes the specification. |
| Batch.ExecuteIsOneByOne | src/batch.rs:177-207 | The serial executor succeeds exactly when every credential does on its own, and otherwise fails with the same first error. |
| Batch.PreprocessBatch | src/batch.rs:421-444 | A planned batch gives the mappings of its credentials one by one, errors included; otherwise the planning error. |
| Batch.FirstErrorOfCredential | src/disclosure_preprocessing.rs:74-125 | Preprocessing fails iff a disclosure is malformed or repeats a digest, with the error of the lowest such ordinal. |
| Batch.FirstErrorOfBatch | src/batch.rs:333-413 | A batch fails with the error least in (credential, ordinal) order, and duplicates are local to a credential. |
| Choosing.SelectChooses | src/holder.rs:431-511 | The holder's walk over signed claims and digests selects exactly what the request asks for on the claim tree, in that order, with the same errors. |
| Choosing.DigestFound | src/holder.rs:436-449 | Looking a claim name up among the digests finds the hidden claim of that name and nothing else, decoys included. |
| SelectionMeaning.SelectionMeans | src/holder.rs:431-577 | On a fully held credential: selection succeeds exactly when every name asked for, at any depth, can be answered, and selects exactly the disclosures of the places asked for, a member by anything but `false` and null, an element by `true` or a value of its own kind. |
| HolderLaw.ChooseSound | src/holder.rs:431-577 | Whatever is asked for, the chosen disclosures are different, belong to the object, and come with every disclosure enclosing them, through nested objects and arrays. |
| HolderLaw.FullHolding | src/lib.rs:391-409 | Preprocessing all disclosures of a credential, in any order, gives the holder each disclosure under its digest. |
| HolderLaw.SelectionIsAccepted | src/holder.rs:431-577 | On a fully held credential, unless a hidden top-level `_sd_alg` claim hides something inside, every successful selection is duplicate-free, issued and parent-closed, hence accepted by the verifier where it fits, which reads the claims without the hidden ones not selected. |
| ShadowedClaim.KeepsParentsExactly | src/holder.rs:450-506 | On a fully held credential every successful selection, whatever is asked for, is parent-closed if and only if no top-level `_sd_alg` claim is hidden with something hidden inside. |
| ShadowedClaim.HiddenAlgClaimLosesParent | src/holder.rs:478-506 | Issuing `{"_sd_alg": {"a": "x"}}` with every level hidden gives a credential on which some request selects what is inside without the claim itself. |
| FullRequest.FullRequestSelectsAll | src/holder.rs:450-577 | Asking for the claims themselves, arrays included, selects every disclosure in the issuer's order if and only if no hidden member is `false` or null and every hidden array element is `true` or a container that hides nothing. |
| Holder.SDJWTHolder.SelectDisclosures | src/holder.rs:431-511 | The loop over the request computes the specification for any claims and mappings. |
| Holder.SDJWTHolder.SelectDisclosuresFromDisclosedList | src/holder.rs:513-577 | The loop over requests and elements side by side computes the specification. |
| Holder.SDJWTHolder.CreatePresentation | src/holder.rs:346-355 | Resets the key-binding fields, stores the selection, and renders it; on an error the earlier selection stays. |
| Holder.SDJWTHolder.PrepareKeyBindingPresentation | src/holder.rs:278-343 | Computes the specification, and leaves the fields as they are at the step reached. |
| Holder.PreparedExactly | src/holder.rs:278-343 | A presentation is prepared exactly when selection succeeds, the algorithm asked for (or `ES256`) is known, and `cnf.jwk` is public and usable; the claims to sign are `nonce`, `aud`, `iat` and `sd_hash` of the presentation, and nothing else. |
| Holder.CompletedIsBound | src/verifier.rs:248-268 | From the text of a completed presentation alone, its key-binding JWT reading as it was printed, the verifier recomputes the holder's `sd_hash`, whatever the signature. |
| Holder.BoundToOneList | src/verifier.rs:239-242 | A key-binding JWT made for one JWT and list of disclosures passes the digest check with exactly these, in this order, short of a hash collision. |
| Holder.Build | src/holder.rs:198-273 | A holder keeps payload, JWT and mappings of the parsed text, refusing one with a key-binding JWT. |
| Holder.KeptExactly | src/holder.rs:198-273 | A text is kept exactly when it parses, ends with a tilde, and its disclosures can be mapped. |
| Presenting.PresentationIsAccepted | src/holder.rs:346-394 | From the issuer's text to the verifier's claims: whatever is requested, a presentation that is made parses and, where it fits, is read without the hidden claims that were not selected. |
| Presenting.BoundPresentationIsAccepted | src/holder.rs:77-93 | The same for a prepared presentation completed with any signature: it parses with its key-binding JWT, is read in the same way, and passes the digest check. |
| Presenting.FullPresentationIsCredential | src/holder.rs:1003-1042 | Presenting the claims themselves gives the issued text back exactly, under the same if-and-only-if as `FullRequestSelectsAll`. |
| Presenting.SelectionParses | src/lib.rs:548-581 | If the credential's text is within the parser's limits, so is that of any duplicate-free selection, and with a key-binding JWT as long as the text stays within the size limit. |
| Compact.ParseExact | src/lib.rs:454-499 | A text parses to given parts exactly when it is the rendering of these separator-free parts within the limits and its JWT carries the payload. |
| Compact.JoinSplit | src/lib.rs:454-470 | Joining the parts of any text gives the text back. |
| Compact.RenderedInPlainText | src/holder.rs:357-394 | Every part after the JWT has one tilde before it. |
| Compact.CredentialIsPresentation | src/issuer.rs:510-526 | The issuer's form is the holder's form without a key-binding JWT. |
| Compact.KeyBindingAgrees | src/verifier.rs:248-268 | From any rendered presentation the verifier hashes the same text as the holder. |
| Compact.KeyBindingBinds | src/holder.rs:614-627 | The hashed text determines the JWT and the disclosures, in order. |
| Chunks.ChunksAreSlices | src/disclosure_preprocessing.rs:217-221 | Chunks are the consecutive slices of the rounded-up size, and as many as it takes. |
| Chunks.ChunksConcat | src/disclosure_preprocessing.rs:321-370 | The chunks concatenate to the original list. |
| Chunks.AtMostWorkers | src/issuer/issuance_plan.rs:885-889 | Chunks of the rounded-up quotient are at most as many as the workers. |
| Chunks.ExecuteNative | src/disclosure_preprocessing.rs:321-370 | Joining workers in spawn order gives all outcomes in job order, unless one is not started (reported first) or panics; no more workers than allowed are spawned. |
| Chunks.BoundedWorkers | src/disclosure_preprocessing.rs:563-569 | No workers with fewer than two threads or disclosures; otherwise two to four, the most that threads and disclosures allow. |
| Chunks.SelectBalanced | src/disclosure_preprocessing.rs:572-616 | Native mode is chosen exactly when there are two workers or more, as many lengths as announced, and no chunk with more than half of the bytes, rounded up; the 128-bit sums never saturate. |
| Adaptive.EligibleTotal | src/disclosure_preprocessing.rs:536-561 | Gives the exact total exactly for enough disclosures of enough bytes. |
| Adaptive.PreprocessDisclosures | src/disclosure_preprocessing.rs:396-455 | Whatever threads and budget answer, the mappings are the serial ones, unless native mode is taken and a worker fails. |
| Adaptive.ExecuteIssuance | src/issuer/issuance_plan.rs:893-947 | The native issuance executor returns the processed jobs in order, unless a worker is not started or panics. |
| WorkerBudget.RunIsSafe | src/disclosure_preprocessing.rs:227-300 | In every state of every interleaving, the counter plus the live leases is the capacity. |
| WorkerBudget.ThreadsNeverExceedCapacity | src/disclosure_preprocessing.rs:330-383 | Threads running under all leases never exceed the capacity less what is available. |
| WorkerBudget.ReleaseNeverOverflows | src/issuer/issuance_plan.rs:1209-1221 | A release never takes the counter past the capacity, so the addition never wraps. |
| WorkerBudget.QuiescenceRestoresCapacity | src/issuer/issuance_plan.rs:1393-1405 | Whenever no lease is live the full capacity is available. |
| WorkerBudget.RefusalMeansContention | src/disclosure_preprocessing.rs:241-267 | A caller finds too few permits only while another holds a lease. |
| WorkerBudget.SwapTakesWhatIsThere | src/issuer/issuance_plan.rs:1155-1183 | A successful swap moves exactly its permits from the counter to a lease, even if the counter changed in between. |
| WorkEstimate.EstimateExact | src/issuer/issuance_plan.rs:799-844 | The checked estimate is the true cost, or none exactly when that does not fit a machine word. |
| WorkEstimate.EstimateIsTextLength | src/issuer/issuance_plan.rs:799-844 | The estimate of a job is the length of the text that is hashed for it, as long as nothing in it needs an escape. |
| WorkEstimate.ChunkEstimates | src/issuer/issuance_plan.rs:1270-1285 | If a batch can be estimated, each chunk can, and the chunk estimates add up to the batch's. |
| Trace.ExecutionTrace.RecordReadyBatch | src/issuer/issuance_plan.rs:1232-1306 | Appends the record of the decision made for the batch, chunk by chunk. |
| Trace.ExecutionTrace.Summary | src/issuer/issuance_plan.rs:349-377 | Counts native and fallback batches and finds the most workers leased. |
| Trace.NativeStaticChunksAreValid | src/issuer/issuance_benchmark.rs:827-905 | The checked loop accepts exactly the chunk lists that are the static partition and account for all jobs and all work. |
| Trace.TraceIsAccepted | src/issuer/issuance_benchmark.rs:1053-1185 | For any non-empty batches and budget answers, the recorded trace and its summary are accepted by the route validator. |
| Trace.AcceptedIsRecorded | src/issuer/issuance_benchmark.rs:907-1051 | An accepted batch record with honest work figures is the one that is recorded for its jobs. |
| PathStrategy.DecidesListed | src/issuer.rs:130-159 | For a path on which no name after the first reads as the start of an index, names with dots included, a node is chosen exactly when its rendered path is listed, `a[0]` and `a.[0]` alike, whatever else is listed. |
| PathStrategy.ByListingExactly | src/issuer.rs:130-159 | Choosing is listing, for every list, if and only if no name after the first starts with `[` or is empty before an index. |
| PathStrategy.ChosenUnlisted | src/issuer.rs:130-159 | Listing `a[b` also chooses the member `[b` of `a`, and listing `a[0]` also chooses element 0 of the member of `a` with the empty name; neither path is listed. |
| PathStrategy.RenderInjective | src/issuer.rs:130-150 | A text renders only one path of non-empty names without `.` or `[`; with empty names `.a` renders two (`EmptyNameIsAmbiguous`). |
| PathStrategy.HiddenWhereDecided | src/issuer/issuance_plan.rs:541-636 | In a planned tree a node is hidden exactly when the strategy decides so on its path. |
| PathStrategy.AmbiguousExactly | src/issuer.rs:130-150 | Listing a member's name alone chooses some path other than that member if and only if the name has a dot or a bracket. |
| TaggedClaims.PathList.Generate | generate/src/utils/generate.rs:9-69 | Pushes the paths of a tagged value in order onto the shared list. |
| TaggedClaims.GenerateTagged | generate/src/utils/generate.rs:9-69 | The generated paths are exactly the rendered locations of the tagged nodes. |
| TaggedClaims.UntaggedExactly | generate/src/types/specification.rs:144-174 | Removing the tags gives the same scalars, elements and members in the same order, and nothing else. |
| TaggedClaims.TaggedIsHidden | generate/src/types/specification.rs:144-174 | Issuing the untagged claims with the generated paths hides exactly the tagged nodes. |
| Escape.EscapeUnicodeChars | src/disclosure.rs:62-79 | The loop prints every character beyond ASCII as the escapes of its UTF-16 units. |
| Escape.AsciiUntouched | src/disclosure.rs:44-47 | ASCII text is left as it is. |
| Escape.ReadPrinted | src/disclosure.rs:62-79 | A printed character reads as itself, surrogate pairs included. |
| Escape.PrintedForm | src/disclosure.rs:62-79 | A printed unit is `\u` with four lower-case hexadecimal digits. |
| Escape.UnescapeUndoesEscape | src/disclosure.rs:37-79 | For every well-formed JSON string body the escaped form is ASCII and unescapes to the same characters. |

## Left out

- Signatures, algorithm policies, key formats, `exp` and `nbf`: decisions of one branch or calls into other libraries; the signed payload is taken as given, and what the holder asks of keys is the `Signing` parameter.
- SHA-256, base64url and JSON text: the `Codec` parameter; a collision-free set of digests and faithful decoding are hypotheses of the laws, not facts about SHA-256.
- Flattened and General JSON serialization: they rest on JSON text; the compact form carries the round trip.
- Machine-width job and location ids, reservation failures and the process-wide plan counter: ids are unbounded numbers and the plan id is a parameter.
- The slots of an assembler after an error: the source drops the assembler, so the methods specify them on success only.
- Text of error messages and the redaction of debug output.
- Memory ordering and real threads: the budget is modelled with one step at a time, and starting or panicking of a worker is an answer of the surroundings.
- Production routing of issuance: no thresholds are configured, so it is the serial path; the selection is modelled with the benchmark's thresholds.
- Trace.TraceIsAccepted: records are typed values, so the shape checks on JSON fields, the serial-oracle record and the whole-target fallback record are not modelled.
- HolderLaw.SelectionIsAccepted: where a hidden `_sd_alg` claim hides something, nothing is said of single selections; `ShadowedClaim.KeepsParentsExactly` says that some of them then lose a parent.
- FullRequest.FullRequestSelectsAll: claims with a top-level `_sd_alg`, or with `cnf` when a holder key is given, are excluded: the payload has the issuer's own member in their place.
- CredentialLaw.IssuedCredential: refusing private `cnf` claims and holder keys that are not public is not modelled; it is a check of key formats before anything is planned.
- Holder.Build: the check of the issuer's signature in a verified build is left out, with all signatures.
- Holder.SDJWTHolder.PrepareKeyBindingPresentation: the time is a parameter, so the failure of a clock set before 1970 is left out.
- Presenting.BoundPresentationIsAccepted: the signature, header type, nonce, audience and time checks on the key-binding JWT are left out; its size is a condition, since the parser limits the whole text.
- TaggedClaims.TaggedIsHidden: null keys are passed over by the generator and excluded here, as are keys that are neither text nor tagged text, and tags on tags, whose inner tags the generator does not reach.
- Strings in `Compact` and `WorkEstimate` have one character per byte; `Escape` works on Unicode scalar values.
- The interop command line, file loading, fixtures, manifests and the rewriting of salts for fixed test vectors.
