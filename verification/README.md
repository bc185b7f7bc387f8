# Call pipeline: a verified model

A Dafny model of the parts of the call-insight pipeline where a mistake would leak or lose data: redaction and its
repair loop, the key stores and key rotation, the stage runner, the historical backfill, the daily cost ledger, the
redact stage's writes, the NER aligner and the knowledge export. `dafny verify dfyconfig.toml` checks everything.

## What is modelled

**Redaction.** Detections are merged into disjoint spans, replaced by per-call tokens, and repaired: the loop rebuilds
the text as the residual scanner would see it, runs offset-producing finders over it, maps hits back and merges again.
The finders (`MirrorFinders`) and the scanner (`ResidualScan`) are two separately written implementations;
`ScanParity` proves each pair equivalent and `Repair.Dominance` concludes that an iteration finds nothing exactly when
the scan of the same output finds nothing. The regular expressions are values of a small expression type (`Regex`)
with their own matching relation; the patterns the two sides share are in `Patterns`.

**Keys.** `KeyStoreSpec` is the store both implementations refine. `Rotation` runs the rotation command, workers with
cached active versions, crashes, exceptions, re-runs and the finalizer as one event system; `KeyDestruction` does the
same for revocation, with `Finalizer` and `LaunchGate` on top of it. Wrapping and encryption are ideal: a ciphertext
opens under the same key and associated data and under nothing else.

**Runner, backfill, ledger.** Event systems in which every event is one transaction, so that every interleaving and
every crash is a sequence of events; the loops themselves are methods proved to produce such sequences.

## Where the code does not do what is promised of it

* `advanceStage` guards on the stage only, not on `status = 'processing'` (src/db/repositories/call-state-repo.ts:176-187),
  while `skipCall` and `holdCall` guard on both. Held, skipped and completed are therefore not absorbing under
  concurrent runners. `PipelineRunner.GoodRunIff` gives the exact condition, `PipelineRunner.TurnsAreGood` the usual
  sufficient one, `PipelineRunner.GuardedRunsAreGood` what the missing guard would give, and
  `PipelineRunner.HeldCallCompletes` and `PipelineRunner.FinalStageLoggedTwice` the failures.
* The repair loop's dominance claim (src/redaction/repair.ts:16-41) needs an input without literal tokens outside the
  spans. `Repair.EffectiveIsStrippedOutput` shows that this is exactly when the loop and the scanner look at the same
  text, `DominanceCondition.DominanceIff` gives the exact condition under which they agree on every deny list, and
  `LiteralTokens.LiteralTokenBreaksDominance` a family of texts on which the loop reports convergence and the scanner
  hits.
* The ledger rounds every amount to six decimals (src/db/repositories/daily-cost-usage-repo.ts:45 and 80),
  so the day's total equals what is owed only up to a micro-dollar per attempt. `Ledger.CapHoldsIff` says for which caps the total never passes the cap, and
  `Ledger.UndercountIff` for which rates the total can fall below what was billed.
* A finalizer run after a crash between the swap and the store request only starts the recovery window, however late
  it comes (`Finalizer.FirstVisitStartsWindow`). `Finalizer.FinalizeDekIff` and `Finalizer.FinalizeKekIff` give the
  exact condition for a visit to finish; a second run one window later does
  (`Finalizer.SecondVisitFinishesDek`, `Finalizer.KeyAdmin.FinalizeTwice`).
* An exception between the swap and the settle-wait resumes the queue at once; `Rotation.ExceptionSkipsSettle` gives
  the stale write that follows, and `Rotation.StoppedPastCommitIff` the exact bound on when the queue may run again.
* A redact run on other detections that dies between two vault rows can give a token of the older, still readable clean
  row another plaintext (src/pipeline/redact.ts:205-211, src/db/restricted/token-vault-repo.ts:43).
  `RedactStage.BackedThroughoutIff` gives the exact condition for the older row to stay restorable at every such point,
  and `RedactStage.RerunAgrees` shows that a re-run on the same transcript and detections meets it.

## Model

| member | source | states |
|---|---|---|
| Repair.Dominance | src/redaction/repair.ts:116-198 | an iteration adds nothing if and only if the independent residual scan of the same output has no hit in any category; no additions also means no vaulted value can be read back |
| Repair.EffectiveIsStrippedOutput | src/redaction/repair.ts:72-92 | the blanked text the loop scans equals the tokenized output with tokens stripped to a space if and only if no uncovered stretch holds a literal token |
| DominanceCondition.DominanceIff | src/redaction/repair.ts:16-41 | for all deny lists an iteration adds nothing exactly when the scan has no hit, if and only if the gaps hold no literal token, or both fire without deny terms, or both are silent without them and the collapsed effective text has fewer than three characters |
| DominanceCondition.OutputIsShorter | src/redaction/repair.ts:72-92 | the stripped output never has more alphanumeric characters than the text the loop scans, and has fewer whenever a gap holds a literal token |
| Repair.RepairConverges | src/redaction/repair.ts:116-198 | any iteration cap above the number of uncovered characters ends with convergence |
| Repair.RepairSound | src/redaction/repair.ts:190-198 | convergence is never reported while the residual scan of the output would hit, whatever the cap |
| Repair.RepairNeutral | src/redaction/repair.ts:131-195 | spans whose output the residual scan already passes come back untouched after one iteration |
| Repair.RepairKeepsCoverage | src/redaction/repair.ts:116-198 | no character covered before the loop is uncovered after it |
| Repair.IterationCoversMore | src/redaction/repair.ts:131-195 | every firing iteration keeps all coverage and covers at least one more character |
| Repair.NothingDiscarded | src/redaction/repair.ts:95-114 | every finder hit maps back to a non-empty span that starts on an uncovered character, so the covered test never drops one |
| Repair.FinderParity | src/redaction/repair.ts:135-170 | each finder of the loop is silent exactly when its residual sub-scan is |
| Repair.NoCandidatesIffClean | src/redaction/repair.ts:135-170 | all seven finders together are silent exactly when the text is clean for the scanner |
| RepairAdditions.AdditionsIff | src/redaction/repair.ts:125-188 | a span is added by an iteration if and only if it is the mapped-back place of a hit of one of the seven finders over the effective text, with that finder's type and layer; for a vaulted value the type is that of the value's own finding |
| RepairAdditions.PassCorrect | src/redaction/repair.ts:175-195 | a pass covers exactly what was covered and what was added, each span typed after its highest-priority member, and reports disagreement if and only if two of these of different types share a character |
| RepairAdditions.RepairHistory | src/redaction/repair.ts:116-198 | the loop's result is the last of a chain of passes that each added something; disagreement if and only if one of them had a conflict, convergence if and only if it stopped by itself below the cap with no vaulted value readable, and the exact number of passes |
| RepairAdditions.ComposeHistory | src/redaction/compose.ts:36-57 | the composition is the merged detections followed by at most ten such passes, fewer only when one adds nothing; disagreement if and only if the detections or a pass had a conflict; tokenization and scan are those of the last span set |
| RepairAdditions.RepeatSharesToken | src/redaction/repair.ts:125-173 | a vaulted value found again is added with that value's type, and where its text normalizes like the vaulted one it shares the value's token in every span set that holds both |
| RepairAdditions.UncutRepeatNormalizes | src/redaction/mirror-finders.ts:240-269 | a value of at least eight kept characters found again in one piece always normalizes like the vaulted one |
| Repair.RepairToResidualClean | src/redaction/repair.ts:116-198 | the loop with its reassigned spans, tokenization and disagreement computes the repair the lemmas speak of |
| Repair.CollectAdditions | src/redaction/repair.ts:175-188 | the filtering loop keeps exactly the mapped-back hits that no span contains |
| Repair.CollectCandidates | src/redaction/repair.ts:135-170 | the finders, run one after the other as the loop runs them, return together the candidates the lemmas speak of |
| Repair.ComposeCorrect | src/redaction/compose.ts:36-57 | no character any detector flagged survives; the residual is empty exactly when no finder fires on the final text; detector conflicts are reported; clean input spans are tokenized as merged |
| EffectiveText.BuildEffective | src/redaction/repair.ts:72-92 | the two arrays filled with a moving position are the blanked text and its offset map |
| EffectiveText.EffectiveMaps | src/redaction/repair.ts:72-92 | the offset map is increasing and points only at uncovered, equal characters |
| EffectiveText.EffectiveReaches | src/redaction/repair.ts:72-92 | no uncovered character is left out of the map |
| EffectiveText.MapToOriginal | src/redaction/repair.ts:95-114 | scanning in from both ends finds the first and the last original offset of a hit |
| EffectiveText.SolidHitMapsBack | src/redaction/repair.ts:95-114 | a hit that starts and ends on a non-blank maps to its outer offsets, non-empty and starting uncovered |
| EffectiveText.StrippedIsEffective | src/redaction/tokenize.ts:59-66 | for any tokens, right-to-left splicing then stripping equals left-to-right blanking if and only if the gaps hold no literal token, and is strictly shorter otherwise |
| LiteralTokens.LiteralTokenBreaksDominance | src/redaction/repair.ts:16-41 | digits split around a literal token: the loop converges at once and the residual scan of its output hits |
| ScanParity.DigitParity | src/redaction/mirror-finders.ts:77-84 | the long-digit-run finder is silent exactly when the scanner counts no long run |
| ScanParity.SpelledParity | src/redaction/mirror-finders.ts:116-153 | the spelled-digit finder with run starts and ends is silent exactly when the counting scan is |
| ScanParity.EmailParity | src/redaction/mirror-finders.ts:183-192 | the email finder is silent exactly when neither email scan matches; the model has one value for the two identical copies of each pattern, so this and the keyword list agree by construction |
| ScanParity.GreetingParity | src/redaction/mirror-finders.ts:166-176 | the greedy greeting finder is silent exactly when the scanner's shorter patterns do not match |
| ScanParity.AddressParity | src/redaction/mirror-finders.ts:284-309 | some digit run overlaps a keyword window exactly when some keyword has a digit near it |
| ScanParity.DenyParity | src/redaction/mirror-finders.ts:219-228 | the deny-term finder is silent exactly when no term's collapsed form is in the collapsed text |
| ScanParity.VaultParity | src/redaction/mirror-finders.ts:240-269 | the vault-value finder is silent exactly when the scanner's reintroduction test is false |
| MirrorFinders.AggressiveShadow | src/redaction/mirror-finders.ts:32-46 | the collapsed text with the origin of each kept character |
| MirrorFinders.FindLongDigitRuns | src/redaction/mirror-finders.ts:77-84 | the loop returns the long runs of the collapsed text as spans of the original, each starting and ending on a non-blank |
| MirrorFinders.FindSpelledDigitRuns | src/redaction/mirror-finders.ts:116-153 | the word loop with run, pending multiplier and run ends returns the spelled runs as such spans |
| MirrorFinders.FindDenyTermOccurrences | src/redaction/mirror-finders.ts:219-228 | every collapsed occurrence of every long enough term, as such spans |
| MirrorFinders.FindVaultOccurrences | src/redaction/mirror-finders.ts:240-269 | every collapsed or word-sequence occurrence of a vaulted value, as such spans |
| MirrorFinders.FindAddressWindowDigits | src/redaction/mirror-finders.ts:284-309 | the digit runs that overlap a keyword window, as such spans |
| MirrorFinders.GreetingNames | src/redaction/mirror-finders.ts:166-176 | captured names start and end on a non-blank inside the text |
| MirrorFinders.EmailLike | src/redaction/mirror-finders.ts:183-192 | matches start and end on a non-blank inside the text |
| FinderHits.LongDigitRunsIff | src/redaction/mirror-finders.ts:77-84 | the hits are exactly the maximal runs of at least seven digits of the collapsed text, each marked from its first digit to its last |
| FinderHits.SpelledHitsIff | src/redaction/mirror-finders.ts:116-153 | the hits are exactly the maximal stretches of digit words and multipliers that stand for at least seven digits, marked from the first word to the last digit word |
| FinderHits.DenyTermHitsIff | src/redaction/mirror-finders.ts:219-228 | the hits are exactly those of the terms with at least three kept characters |
| FinderHits.TermHitsMark | src/redaction/mirror-finders.ts:194-228 | each of these marks a stretch that collapses to its term, and no occurrence of the term in the collapsed text goes untouched |
| FinderHits.VaultHitsAre | src/redaction/mirror-finders.ts:240-269 | a value of eight or more kept characters is marked wherever the collapsed text holds it, one of three to seven wherever its words stand in a row, a shorter one nowhere; every hit is such an occurrence and none goes untouched |
| FinderHits.AddressHitsIff | src/redaction/mirror-finders.ts:284-309 | the hits are exactly the maximal digit runs within forty characters of a keyword |
| FinderHits.GreetingHitsAre | src/redaction/mirror-finders.ts:166-176 | every hit is a name that follows right after a greeting cue |
| FinderHits.EmailHitsAre | src/redaction/mirror-finders.ts:183-192 | every hit matches one of the two email shapes |
| ResidualScan.NoHitsIffClean | src/redaction/residual-scan.ts:190-252 | the hit list is empty exactly when every sub-scan condition is false of the stripped text |
| ResidualScan.CountsAre | src/redaction/residual-scan.ts:190-252 | each category is counted exactly as often as it is due: the vaulted values that can be read back, the long digit runs, the spelled runs, both email shapes, the keywords with a digit near, the names after a cue, the deny terms present |
| ResidualScan.HitsAre | src/redaction/residual-scan.ts:248-252 | the hits hold each category exactly as often as it is counted |
| ResidualScan.ContainsWordSequence | src/redaction/residual-scan.ts:64-77 | true exactly when the needle's words stand consecutively in the haystack |
| ResidualScan.SpelledOutDigitRuns | src/redaction/residual-scan.ts:134-158 | the counting loop computes the number of spelled runs |
| Regex.CapturesFire | src/redaction/mirror-finders.ts:162-176 | captures are found exactly when the cue followed by the body matches somewhere |
| Spans.MergeDetections | src/redaction/spans.ts:46-66 | the loop that overwrites the last span computes the merge |
| Spans.MergeCorrect | src/redaction/spans.ts:30-66 | sorted, disjoint, covering exactly the union; every span has the type of a highest-priority member; disagreement if and only if two detections of different types share a character |
| Spans.PairMerges | src/redaction/spans.ts:10-66 | two detections merge if and only if they overlap, or touch and have the same type; the higher priority, then the longer, then the first gives the type |
| Spans.Dedupe | src/redaction/regex-detectors.ts:128-137 | the loop computes the deduplication of the sorted detections |
| Spans.DedupeCovers | src/redaction/regex-detectors.ts:128-137 | deduplication keeps exactly the covered characters and invents no detection |
| Spans.DedupeIff | src/redaction/regex-detectors.ts:128-137 | of detections sorted by start and descending end, one is dropped if and only if an earlier one contains it |
| Spans.SuppressCovers | src/redaction/regex-detectors.ts:251-265 | dropping number spans inside a specific detection uncovers no flagged character |
| Spans.SuppressIff | src/redaction/regex-detectors.ts:251-254 | a number is dropped if and only if a specific detection contains it |
| Spans.LayersCovered | src/redaction/regex-detectors.ts:243-272 | suppression, sorting, deduplication and the merge with the other layers together cover exactly the characters some layer flagged |
| Tokenize.TokenizeSpans | src/redaction/tokenize.ts:31-67 | sorting, assigning and right-to-left splicing compute the left-to-right redaction with its vault and findings |
| Tokenize.TokenizationCorrect | src/redaction/tokenize.ts:27-57 | two spans share a token exactly when type and normalized surface agree; numbering per type is 1..n by first occurrence; the vault holds first-seen surfaces, and each finding the type and normalized surface of its first span |
| Tokenize.TokenHasType | src/redaction/tokenize.ts:27-57 | every span's token is labelled with the span's own type |
| Restoration.VaultRestoresText | src/redaction/tokenize.ts:27-67 | putting each token's vaulted plaintext back gives a text that normalizes to the original |
| RedactionTypes.LabelInjective | src/redaction/types.ts:94-99 | equal token labels have equal type and number |
| RedactionTypes.LabelIsToken | src/redaction/types.ts:94-99 | every label matches the token pattern |
| RedactionTypes.LabelText | src/redaction/types.ts:94-99 | the labels read as the upper-case type and the number in brackets |
| Chars.SameLetter | src/redaction/mirror-finders.ts:32-46 | lower-casing keeps a letter's place in the alphabet, so normalized texts tell different letters apart |
| KeyStoreSpec.RequestIsDestroyed | src/crypto/railway-secret-key-store.ts:216-232 | moving to pending and purging what has elapsed is, to a reader, the abstract destroy |
| RailwayKeyStore.RailwaySecretKeyStore.CreateKek | src/crypto/railway-secret-key-store.ts:120-128 | a fresh KEK becomes readable without deadline, nothing else changes; a read-only backend refuses |
| RailwayKeyStore.RailwaySecretKeyStore.GetKek | src/crypto/railway-secret-key-store.ts:130-145 | returns the minted bytes exactly while the KEK is readable; purging is invisible |
| RailwayKeyStore.RailwaySecretKeyStore.DestroyKek | src/crypto/railway-secret-key-store.ts:147-163 | the readable KEKs become those of the abstract destroy |
| RailwayKeyStore.RailwaySecretKeyStore.CreateDek | src/crypto/railway-secret-key-store.ts:183-203 | succeeds exactly when the KEK is readable; the new DEK is recoverable and wrapped under that KEK, nothing else changes |
| RailwayKeyStore.RailwaySecretKeyStore.UnwrapDek | src/crypto/railway-secret-key-store.ts:205-214 | cold cache: succeeds if and only if recoverable; always: the minted key, recoverable no longer than the cache lifetime ago, where the recorded moments are exactly what was readable at each operation |
| RailwayKeyStore.RailwaySecretKeyStore.DestroyDek | src/crypto/railway-secret-key-store.ts:216-232 | the readable DEKs become those of the abstract destroy |
| RailwayKeyStore.RailwaySecretKeyStore.RecoverabilityOfKek | src/crypto/railway-secret-key-store.ts:234-254 | reports exactly whether the KEK is readable, and its deadline |
| RailwayKeyStore.RailwaySecretKeyStore.RecoverabilityOfDek | src/crypto/railway-secret-key-store.ts:255-260 | reports exactly whether the DEK and its KEK are readable, and the DEK's deadline |
| RailwayKeyStore.RailwaySecretKeyStore.Script | src/crypto/railway-secret-key-store.ts:120-260 | any script of operations by any number of processes on the same documents, each with its own cache, records exactly the abstract store's history, and every key served from whichever cache is the minted one and was recoverable in that history no longer than the cache lifetime before |
| LocalKeyStore.LocalFileKeyStore.CreateKek | src/crypto/key-store.ts:127-135 | a fresh KEK becomes readable without deadline, nothing else changes |
| LocalKeyStore.LocalFileKeyStore.GetKek | src/crypto/key-store.ts:137-150 | returns the minted bytes exactly while the KEK is readable |
| LocalKeyStore.LocalFileKeyStore.DestroyKek | src/crypto/key-store.ts:152-164 | the same abstract destroy as the other store |
| LocalKeyStore.LocalFileKeyStore.CreateDek | src/crypto/key-store.ts:167-187 | succeeds exactly when the KEK is readable; the new DEK is recoverable |
| LocalKeyStore.LocalFileKeyStore.UnwrapDek | src/crypto/key-store.ts:189-203 | cold cache: succeeds if and only if recoverable; always: the minted key, recoverable no longer than the cache lifetime ago, where the recorded moments are exactly what was readable at each operation |
| LocalKeyStore.LocalFileKeyStore.DestroyDek | src/crypto/key-store.ts:205-223 | the same abstract destroy as the other store |
| LocalKeyStore.LocalFileKeyStore.RecoverabilityOfKek | src/crypto/key-store.ts:225-238 | reports exactly whether the KEK is readable, and its deadline |
| LocalKeyStore.LocalFileKeyStore.RecoverabilityOfDek | src/crypto/key-store.ts:240-252 | reports exactly whether the DEK and its KEK are readable, and the DEK's deadline |
| LocalKeyStore.LocalFileKeyStore.Script | src/crypto/key-store.ts:127-291 | the same script by the same processes leaves exactly the same abstract history, with the same promise for every key served |
| Rotation.NothingIsLost | src/key-lifecycle/rotate.ts:122-277 | through every crash, exception, re-run and interleaving that is not resumed while a cache may be stale, every row with ciphertext reads back as the text last written |
| Rotation.DestroyedOnlyWhenEmpty | src/key-lifecycle/rotate.ts:211-238 | whenever a version is about to be destroyed, is requested or is destroyed, no row with ciphertext is left under it |
| Rotation.SettleCoversCacheIff | src/key-lifecycle/rotate.ts:265-274 | no job ever takes a retired version in any run not otherwise resumed early, if and only if the settle time is at least the cache lifetime; whatever the tables hold |
| Rotation.StoppedPastCommitIff | src/key-lifecycle/rotate.ts:220-274 | the command throws, or dies and is resumed by the operator, at any point past the commit: no worker takes the retired version in any continuation if and only if the queue runs again no earlier than the cache lifetime after the swap |
| Rotation.NoStaleWrites | src/crypto/key-store-provider.ts:45-51 | with a long enough settle time every job in flight holds the active version, however the caches were filled |
| Rotation.WorkerWrites | src/crypto/key-store-provider.ts:45-51 | while the queue runs a worker's write reads back as written, under the active version |
| Rotation.ExceptionSkipsSettle | src/key-lifecycle/rotate.ts:236-274 | in particular a concrete run in which an exception right after the store request leads a worker to the retired version |
| Rotation.RunKeepsInv | src/key-lifecycle/rotate.ts:122-277 | the invariant behind these: rows sit under the active or the incoming version, both alive in the store; workers run only when no cache can hold the version retired last |
| Rotation.BeginsIff | src/key-lifecycle/rotate.ts:133-176 | a rotation begins if and only if no destruction is pending and there is an interrupted rotation or an active KEK; resuming changes nothing, a fresh start adds the version after the highest with the given key wrapped under the given KEK |
| Rotation.RotationCommand.RunRotation | src/key-lifecycle/rotate.ts:122-277 | the command, sweeping batch by batch until one comes up short, with faults anywhere, is a run of the event system; success means that the interrupted version, or else the one after the highest, is active with its key intact, the queue runs after the settle-wait, and the old version is retired or, without a recovery window, destroyed; it succeeds whenever nothing is pending, there is a rotation to resume or a KEK to start under, every row can be decrypted, no job is in flight or starts before the pause, and nothing fails |
| Rotation.RotationCommand.RunAndRetry | src/key-lifecycle/rotate.ts:147-238 | an invocation that throws or dies anywhere before its swap, then any work by the workers, then an undisturbed invocation: it finishes, on the version the first was after |
| Reencrypt.CipherTable.Reencrypt | src/key-lifecycle/reencrypt.ts:26-94 | the batch loop ends with no recoverable row at the old version, every one moved with its plaintext, all others untouched, and the exact count |
| Reencrypt.CipherTable.MoveBatch | src/key-lifecycle/reencrypt.ts:29-52 | one transaction moves as many rows as the batch allows |
| KeyDestruction.RunKeepsInv | src/key-lifecycle/finalize-destruction.ts:40-102 | in every run of rotations, revocations and finalizers, each access its own event, whatever is marked destroyed is unrecoverable |
| KeyDestruction.MarkedIsUnrecoverable | src/key-lifecycle/finalize-destruction.ts:40-102 | from a system in which nothing was created yet, after any run, whatever is marked destroyed is unrecoverable |
| LaunchGate.GateNeverFindsMaterial | src/key-lifecycle/launch-gate.ts:40-62 | after any run the gate's first check has nothing to report |
| Finalizer.SecondVisitFinishesDek | src/key-lifecycle/finalize-destruction.ts:51-75 | whatever crashed and whatever happens in between, a second visit a recovery window after the first leaves the version destroyed |
| Finalizer.SecondVisitFinishesKek | src/key-lifecycle/finalize-destruction.ts:77-99 | the same for a KEK |
| Finalizer.FinalizeDekIff | src/key-lifecycle/finalize-destruction.ts:51-75 | a visit marks a version if and only if it can no longer be recovered, or it has no deadline yet and there is no recovery window |
| Finalizer.FinalizeKekIff | src/key-lifecycle/finalize-destruction.ts:77-99 | the same for a KEK |
| Finalizer.FirstVisitStartsWindow | src/key-lifecycle/finalize-destruction.ts:58-67 | after a swap and a crash before the store request, however late the first visit comes, it leaves the version recoverable for one more window |
| Finalizer.KeyAdmin.FinalizeUnderLock | src/key-lifecycle/finalize-destruction.ts:40-102 | the loops are a run of the event system; each visited row ends on exactly one list, pending if and only if it is not marked; what is left goes within a window; a run after all windows have elapsed leaves nothing pending |
| Finalizer.KeyAdmin.FinalizeTwice | src/key-lifecycle/finalize-destruction.ts:40-102 | two runs with any events between: if the second begins a window after the first ended, everything the first visited is marked and none of it pending |
| LaunchGate.CheckLaunchGate | src/key-lifecycle/launch-gate.ts:27-100 | the failure list holds exactly the complaints that are due |
| PipelineRunner.GoodRunIff | src/db/repositories/call-state-repo.ts:173-217 | log rows are exactly once and terminal states absorbing throughout a run if and only if no continue is committed after the row left processing |
| PipelineRunner.GuardedRunsAreGood | src/db/repositories/call-state-repo.ts:176-187 | with the status in the guard of the advance too, every run has exactly-once rows and absorbing terminal states |
| PipelineRunner.TurnsAreGood | src/pipeline/state-machine.ts:110-337 | crashing and retried runners that take turns always give such a run |
| PipelineRunner.RunKeepsInv | src/pipeline/state-machine.ts:110-337 | in every interleaving: completed rows are the earlier stages in order, once each, then the final stage once per completion; held has its review row; no runner is ahead of the database |
| PipelineRunner.RunnerTerminates | src/pipeline/state-machine.ts:197-335 | every step of a runner uses up fuel that nobody else's step restores, and its index strictly grows, through stale recovery too |
| PipelineRunner.RestartIsNoOp | src/pipeline/state-machine.ts:124-189 | after any run without late advances whose handlers drop only at skip stages, starting on a row that left processing returns normally, calls no handler and writes nothing |
| PipelineRunner.World.RunPipeline | src/pipeline/state-machine.ts:110-337 | the loop ends, and what it did between the other runners' events is exactly the script that its handlers' results call for, with the outcome it returns; a row that is not processing is left alone |
| PipelineRunner.UndisturbedEnds | src/pipeline/state-machine.ts:197-335 | a runner nobody disturbs logs every stage before i as done and then: a drop leaves the call skipped at i with its drop reason and a dropped row, a hold leaves it held with its review and a parked row, a deferral or a throw leaves row and log as they are, and continuing through the final stage completes it |
| PipelineRunner.StaleWriteResolves | src/pipeline/state-machine.ts:56-88 | after a stale write: a continue goes on at the row's stage while it is processing, returns when completed, fails otherwise; a drop returns on a skipped or completed row, a hold on any that left processing |
| PipelineRunner.UndisturbedCompletes | src/pipeline/state-machine.ts:197-335 | from any processing row with exactly-once log rows, that script with handlers that all continue and no other runner ends with the call completed and each of the nine stages logged once, in order |
| PipelineRunner.HeldCallCompletes | src/db/repositories/call-state-repo.ts:176-187 | a run in which a call held for review is driven to completed with its review row open |
| PipelineRunner.FinalStageLoggedTwice | src/db/repositories/call-state-repo.ts:176-187 | two runners at the final stage always log it twice |
| Backfill.Run.Invocations | src/backfill/run.ts:106-295 | any sequence of crashed, resumed and restarted invocations: whatever is tracked or enqueued was wanted and was seen outside the pipeline by the access before its ingest; once one completes, every included call of the listing was in the pipeline in the tables some access really saw, or is tracked, was enqueued and was terminal at the drain's last access |
| Backfill.Run.RunBackfill | src/backfill/run.ts:106-295 | one invocation keeps that invariant and the recorded history of accesses true; what it seeds, tracks and enqueues are only wanted calls that the watermark does not hide and an access saw outside the pipeline, and the seeded total grows by exactly their number, or to the number tracked; exactly a completed run or another window is refused, untouched; otherwise it finishes unless the process dies, the pages are not a complete dated listing, or a tracked call is in flight at every poll allowed |
| Backfill.Run.Sweep | src/backfill/run.ts:304-372 | wherever it stops the persisted watermark hides no call that is neither ingested nor seen in the pipeline; it ingests only wanted calls the watermark does not hide that the access before saw outside the pipeline, and counts exactly these; reaching the last page leaves none out and the watermark at the oldest record; it does reach it unless the process dies, a call is undated, a cursor repeats or no page is the last |
| Backfill.Run.Drain | src/backfill/run.ts:375-409 | it reports done only when one access saw every tracked call terminal, and fails to only when the process died or every poll saw one in flight |
| Backfill.Run.IngestGap | src/backfill/ingest.ts:65-76 | seed, track, enqueue: surviving means tracked and enqueued, dying loses nothing tracked before |
| Backfill.WatermarkSafe | src/backfill/checkpoint.ts:58-75 | moving the watermark to a handled page's oldest record hides no unhandled call, equal timestamps included |
| Backfill.PageStartedAtFailure | src/backfill/checkpoint.ts:83-88 | finds the first undated call, none exactly when all are dated |
| Backfill.PageMin | src/backfill/checkpoint.ts:67-75 | a lower bound of the page's start times that one of them attains |
| Backfill.IncludedIff | src/backfill/window.ts:42-50 | an ended call belongs to the window if and only if it ended inside it, one under way never, any other if and only if it began no later than the window ends |
| Backfill.WindowsSplit | src/backfill/window.ts:42-50 | windows that follow on one another split the ended calls: each belongs to exactly one |
| Ledger.RunKeepsInv | src/model/cost.ts:108-170 | in every interleaving with crashes the day's total is the sum of what its attempts have booked, the token columns are the settled usage, and the total is at most the rounded cap |
| Ledger.CapHoldsIff | src/model/cost.ts:108-138 | the total never passes the cap in any run if and only if the cap does not round up to the table's precision |
| Ledger.NeverRejected | src/db/repositories/daily-cost-usage-repo.ts:66-90 | no settle or release of an outstanding reservation is rejected for going negative |
| Ledger.TotalIsOwed | src/model/cost.ts:140-170 | the total is settled actuals plus outstanding and kept reservations up to one micro-dollar per settled and half of one per open attempt |
| Ledger.TotalCoversBills | src/pipeline/model-stage-shared.ts:269-326 | the total is below what was really billed by at most one micro-dollar per attempt |
| Ledger.WholeRatesAreExact | src/model/cost.ts:46-55 | with whole-dollar rates per million tokens the total is exactly what is owed and never below what was billed |
| Ledger.UndercountIff | src/db/repositories/daily-cost-usage-repo.ts:66-90 | in every run at the given rates, under every cap, each day's total is at least what was billed, if and only if both rates are whole dollars per million tokens |
| Ledger.ReserveIff | src/model/cost.ts:108-138 | in any run a request is taken on if and only if it fits under the cap on top of what the day's attempts have booked; then all of it is booked, otherwise nothing changes |
| Ledger.NotBilledReleases | src/pipeline/model-stage-shared.ts:269-326 | an attempt that was not billed is released and its whole reservation comes off the day |
| Ledger.UsageSettles | src/pipeline/model-stage-shared.ts:269-326 | an attempt that reports usage is settled: the usage on the token columns, the rounded difference on the total |
| Ledger.UnknownBillKeeps | src/pipeline/model-stage-shared.ts:269-326 | an attempt whose bill is unknown keeps its reservation on the books through every continuation |
| Ledger.CostTable.ReserveModelBudget | src/model/cost.ts:108-138 | refused exactly when the request does not fit under the cap; otherwise all of it is booked; the warning is the level test |
| Ledger.CostTable.SettleModelUsage | src/model/cost.ts:143-159 | books the actual usage and the signed difference, or changes nothing when the guard rejects |
| Ledger.CostTable.ReleaseModelReservation | src/model/cost.ts:163-170 | takes the reservation off, or changes nothing when the guard rejects |
| Ledger.CostTable.AdjustDailyCost | src/db/repositories/daily-cost-usage-repo.ts:66-90 | rejected exactly when the day is missing or would go negative |
| Ledger.CostTable.UpsertDailyCost | src/db/repositories/daily-cost-usage-repo.ts:30-53 | adds the rounded amount to the day, creating it when absent |
| RedactStage.Store.Redact | src/pipeline/redact.ts:127-311 | wherever a run dies, findings refer only to vaulted tokens and a readable clean row is the composition of its transcript, without residual hits and with every token that occurs in it vaulted; a run that does not die holds exactly for a missing transcript, a residual hit or a risk that holds, and continues otherwise, for exactly the reasons triggered; its text is readable exactly when there is no hit and either no hold or a safe output, and then the vault restores it; a restorable row stays so wherever the run dies when the run's entries agree with its own, in particular on the same transcript and detections |
| RedactStage.Store.Persist | src/pipeline/redact.ts:198-311 | the ordered writes keep that invariant at every point and store exactly the composition's vault entries and findings; the outcome and whether the row is readable are exactly as the hits, the hold and the safety of the output decide |
| RedactStage.Store.Runs | src/pipeline/redact.ts:127-311 | the invariant survives any sequence of runs, and when they all work from the same transcript and detections the readable row can be restored after each of them |
| RedactStage.CompositionIsSound | src/redaction/compose.ts:36-57 | every token that occurs in the composed text and every finding's token is in the vault entries, and no residual hit means a clean text |
| RedactStage.StoredRowRestores | src/pipeline/redact.ts:198-250 | putting the stored plaintexts back into the composed text gives one that normalizes to the transcript, whatever older entries the vault holds |
| RedactStage.BackedThroughoutIff | src/pipeline/redact.ts:198-250 | vault rows written one by one leave an older row restorable at every point between two writes if and only if they agree with its entries on the tokens they share |
| RedactStage.RerunAgrees | src/redaction/compose.ts:36-57 | the entries of a re-run on the same transcript and detections agree with those of the first run |
| RedactStage.BackedRowRestores | src/redaction/tokenize.ts:27-67 | as long as the vault holds what the composition's entries say, putting its plaintexts back gives a text that normalizes to the transcript |
| RedactStage.CleanRowIsClean | src/pipeline/redact.ts:233-250 | a readable clean row is clean to every sub-scan, vaulted values included |
| RedactStage.MoreReasonsHold | src/redaction/risk.ts:23-41 | adding a risk reason never lifts a hold |
| RedactStage.HoldsIff | src/redaction/risk.ts:23-41 | a call is held if and only if a forcing reason is present or the capped sum of the distinct reasons' weights, added in any order, reaches the threshold; without a reason and with a positive threshold it is not |
| RedactStage.SafeReasonsPass | src/redaction/risk-reasons.ts:22-66 | reasons that leave the output safe never hold a call at a threshold above 0.3 |
| RedactStage.DeriveSpanSignals | src/redaction/risk.ts:44-78 | raises exactly the reasons the text's length, the disagreement, a deny-list span and the span density call for |
| NerAlignment.ChunkStarts | src/redaction/ner-detector.ts:230-238 | starts one step apart from zero, the last chunk alone reaching the end |
| NerAlignment.OverlapIff | src/redaction/ner-detector.ts:230-238 | with more than one chunk, every stretch of a given width lies inside one chunk if and only if it is at most one longer than the overlap |
| NerAlignment.AlignTokens | src/redaction/ner-detector.ts:148-226 | fails exactly when an entity piece cannot be found; the spans are exactly those of the maximal runs of joined pieces of one type, widened to whole words with their mean score; every found piece is inside one |
| NerAlignment.NoWordIsSplit | src/redaction/ner-detector.ts:164-178 | no span's end falls inside a word |
| NerAlignment.ItemsInOrder | src/redaction/ner-detector.ts:180-202 | the cursor places pieces in reading order without overlap |
| NerAlignment.LocateIff | src/redaction/ner-detector.ts:180-200 | a piece is placed at its first occurrence at or after the cursor, ignoring case and without the continuation marks; an unknown or empty one nowhere |
| NerAlignment.LabelTypes | src/redaction/ner-detector.ts:65-70 | the tag after the first hyphen decides the type, whatever stands before it |
| KnowledgeCsv.CsvRoundTrip | src/knowledge/csv.ts:36-63 | reading the export by section 2 of RFC 4180, with a line feed between records, gives the header and exactly the guarded cells |
| KnowledgeCsv.NoDangerousCell | src/knowledge/csv.ts:33-51 | no data cell read back starts with a tab, CR, LF, or spaces and a formula character |
| KnowledgeCsv.DangerousIff | src/knowledge/csv.ts:28-33 | a cell is guarded if and only if it starts with a tab, CR or LF, or with spaces and a formula character |
| KnowledgeCsv.GuardRoundTripIff | src/knowledge/csv.ts:46-51 | the guard can be undone if and only if the cell does not itself look guarded |
| KnowledgeCsv.PlainReads | src/knowledge/csv.ts:36-45 | a text is written as it is, a missing value as nothing, and a list of items without semicolons so that they can be read back |
| KnowledgeCsv.ToCsvCell | src/knowledge/csv.ts:36-57 | the stepwise rewriting guards, then quotes |

## Left out

- Case folding and blanks outside ASCII, and backtracking order: patterns are matched leftmost and longest.
- The scanner and the finders each declare their own copies of the shared patterns and word lists; the model has one copy of those that are identical in both.
- `createRegexDetector`'s individual patterns, the deny-list detector, NER scoping and score gating: detections are arbitrary inputs to the merge.
- The classifier, the model providers, the telephony client, the queue, Redis and the secret backend: only their outcomes are modelled.
- AES-GCM, HKDF and random bytes: an ideal wrapping that opens under the same key and associated data only.
- File-level atomicity of the local key store: a key file and its metadata file are one entry and each public method is one step; reading the clock happens once per call.
- Reuse of a key or KEK version name: creation requires a fresh name, so the stores' duplicate checks do not appear.
- A crash between creating a DEK and inserting its `rotating` row: the two are one event in `Rotation`.
- KEK rotation and revocation in `Rotation`: its KEKs stay active; `KeyDestruction` covers revocation without the row data.
- `review_closed`, operator review actions and a row that disappears mid-run in `PipelineRunner`.
- Backfill runs other than the one being resumed, the `interrupted` status, and pages that change between invocations: the listing is fixed, its paging is not.
- Backfill.Run.Drain: polls a bounded number of times, the bound being when the process is stopped.
- Floating point: dollar amounts and scores are exact reals; the six-decimal rounding of the table is modelled.
- KnowledgeCsv.CsvRoundTrip: the column names are a parameter that needs no quoting, as the fixed lower-case names do.
- The call-level `residual_scan` finding row, value hashes, and the transcript's JSON envelope in the redact stage; which signals the detectors raise is an input.
- Alerts, logging, heartbeats, HTTP surfaces, retention purge, evaluation and review loops: no deep invariant of their own.
