# Verification of the request, payment and limit cores

A Dafny model of the stateful cores of the repository, with proofs of what they promise. Each module follows one
component; operations that change state are methods of a class proved against functions, and the results below are
lemmas about those functions over all inputs, runs or interleavings.

| module | models |
|---|---|
| `RequestKey`, `Guards`, `Admission` | replay and nonce guards: the key of a request, one request at a time, and any number of requests interleaved step by step with a clock, a mutex per key and a cache that expires |
| `CreditValidation`, `QrCodeRace`, `CreditValidationEvents` | the decision on an incoming credit with its verdict cache and its single-use QR marks, executions of one code at the same time, and the pending, ready and failed observers under duplicated, reordered and concurrent delivery |
| `QrCodeStatic`, `DoubleHex`, `Bits` | the QR code id, its flags, value, due date and check letter, and the base-32 integers it is written in |
| `LimitTracker`, `PageOneLoop`, `Nighttime` | the script that rebuilds the user limit trackers, its loop over page 1 of a shrinking list, and its night interval |
| `IntervalSync` | the job that takes expired operations out of interval limits |
| `EventOutbox` | events buffered per request and sent in chunks after the commit |
| `RpcCache` | the response cache in front of message handlers |
| `CryptoReport` | monthly rows and total of a crypto report |
| `KafkaTopics` | creation of topics and partitions |
| `Pagination`, `Windows`, `Division` | page requests and the OFFSET loop of a fill script |
| `Wrappers` | optional values and results |

## Findings

What the code does is modelled as written. Where that is less than a reader would expect, the exact extent is proved:

- Executions one after the other give a QR code that can be paid once a second valid verdict exactly when one checks the
  expiry before the due date and looks the code up after the mark of every earlier payment has ended, which is at the due
  date at the earliest (`CreditValidation.SingleUseExactly`, `StraddlingPaysTwice`); there is never a third. Of executions
  at the same time exactly those accept the code that look it up before the first mark is written, as long as none
  passes the due date between its check and its look-up (`QrCodeRace.PassesExactly`, `RaceAcceptsTwice`).
- The verdict cache is keyed by the account number alone. It gives a payload the verdict it would get by itself exactly
  if that payload and what is known of the account are interchangeable with those the entry was made from
  (`TransparentExactly`); other people's documents can pass (`VerdictCacheIsNotTransparent`), and a holder who was
  switched off in the meantime (`VerdictsGoStale`).
- A request that fails after its own time to live can delete a later request's entry, which lets a third one in
  (`Admission.LateFailureAdmitsTwo`); entries of others are deleted exactly if one is deleted that late
  (`TheftExactlyIfLate`), and an admission is unprotected exactly if its entry was deleted and not replaced
  (`ProtectedUnlessDeleted`). Nonces have no such gap, since nothing deletes their entries.
- The check letter of a QR code id only notices a change to another block of 32 character codes, and never one of the
  first letter (`QrCodeStatic.CheckDetectsBlockChange`).
- The script's night test gives up when both times are well formed, so regular night limits are never counted
  (`Nighttime.IsInNighttimeInterval`). The limit entity has the same arithmetic with the guard the other way round.
- The interval job turns pages forward while its list shrinks, so after each page it passes over as many operations as
  the page lost (`IntervalSync.SweepLeaves`, `LeftExactly`): where every tracker is stored, every second page keeps its
  expired tag (`EverySecondPageIsLeft`). One run is complete exactly for at most one page, all of whose trackers are
  stored (`CompleteExactly`).
- Among distinct events the emitter's log lines are right exactly for the first chunk (`EventOutbox.LineIsRightExactly`);
  with 101 events the last line names the first (`FireOneTooMany`).
- If the database library runs the hooks of a commit that failed, events of a request that did not commit are sent; the
  outbox promise holds exactly if that never meets a request with events (`EventOutbox.OnlyTheCommittedExactly`).
- A handler result with a truthy `__is_null__` is answered as null from the cache (`RpcCache.OthersAreNot`); results that
  are false, zero or the empty string are cached but never served from the cache.

## Model

| member | source | states |
|---|---|---|
| RequestKey.NormaliseIdempotent | libs/common/src/guards/replay.guard.ts:50-58 | moving the two query fields into the headers twice is moving them once |
| RequestKey.PlacementIrrelevant | libs/common/src/guards/replay.guard.ts:50-78 | a transaction id or nonce gives the same key whether it came as a header or in the query |
| RequestKey.TransferIgnoresNonce | libs/common/src/guards/replay.guard.ts:69-78 | on an identified peer-to-peer transfer no nonce changes the key |
| RequestKey.TransfersToldApart | libs/common/src/guards/replay.guard.ts:69-78 | two transfers that differ in the transaction header share a key exactly if the ids are equal |
| RequestKey.NonceToldApart | libs/common/src/guards/replay.guard.ts:69-78 | elsewhere two nonces share a key exactly if the guard is set up not to use them |
| RequestKey.SameKeyExactly | libs/common/src/guards/replay.guard.ts:50-84 | two requests share a key if and only if method, parameters, path, body and user are equal, their queries are equal but for the two moved fields, and both bring the same transaction id, or the same nonce, or neither |
| RequestKey.SameQueryExactly | libs/common/src/guards/replay.guard.ts:50-58 | the hashed queries are equal if and only if the sent ones have the same fields with the same values, a transaction id or nonce aside that is moved to a header still free |
| RequestKey.IncludesExactly | libs/common/src/guards/replay.guard.ts:69-72 | a path includes the name of transfers if and only if it has it at some place |
| Guards.ReplayGuard.MoveToHeaders | libs/common/src/guards/replay.guard.ts:50-58 | the request's fields become their normal form and nothing else changes |
| Guards.ReplayGuard.RequestData | libs/common/src/guards/replay.guard.ts:60-78 | the hashed object is the one determined by the target and the normalised fields, which SameKeyExactly describes |
| Guards.ReplayGuard.CanActivate | libs/common/src/guards/replay.guard.ts:29-103 | without a time to live nothing happens; otherwise a live entry under the request's key refuses it and changes nothing, and without one the request is entered for the time to live and owns the key |
| Guards.ReplayInterceptor.Intercept | libs/common/src/interceptors/replay.interceptor.ts:26-42 | an error deletes the owned entry and clears the ownership, success changes nothing, and the outcome passes through |
| Guards.ExceptionFilter.Catch | libs/common/src/filters/exception.filter.ts:42-60 | an HTTP error deletes the entry the request still owns; a message error is answered with the exception, its own stack pushed onto its causes, and touches no entry |
| Guards.ExceptionFilter.CatchHttpException | libs/common/src/filters/exception.filter.ts:293-304 | an exception of the HTTP framework deletes the entry the request still owns |
| Guards.NonceGuard.CanActivate | libs/common/src/guards/nonce.guard.ts:39-78 | no nonce passes, a malformed one is refused, any other takes one look-up and leaves no ownership |
| Guards.FailThenRetry | libs/common/src/interceptors/replay.interceptor.ts:31-40 | whichever error path a first request takes, an equal request is admitted at once exactly if no older entry stands in the way, and then owns the entry |
| Guards.TwoRequests | libs/common/src/guards/replay.guard.ts:50-99 | of two requests at one moment the second passes if and only if no older live entry has its key and it differs from the first in method, parameters, path, body, user, query, transaction id or nonce |
| Admission.MutualExclusion | libs/common/src/modules/redis.module.ts:185-196 | in every interleaving at most one request is between acquiring and releasing the mutex of a key, and only such a request holds it |
| Admission.MutexIsReleased | libs/common/src/modules/redis.module.ts:185-196 | in every run the holder of a mutex is at most three of its own steps from releasing it: it always has one to take, each one it takes lowers the number, read and write errors included, the mutex is free exactly when the number is zero, and no step of others or of the clock changes either |
| Admission.EntryUnlessDeleted | libs/common/src/guards/replay.guard.ts:86-99 | an unfailed admission inside its time to live has its own entry in the cache if and only if nobody deleted that entry |
| Admission.TheftExactlyIfLate | libs/common/src/interceptors/replay.interceptor.ts:31-40 | in every run some request deleted the entry of another if and only if one did so after its own entry had expired |
| Admission.TimelyMeansNoTheft | libs/common/src/interceptors/replay.interceptor.ts:31-40 | if every deletion so far came before its actor's own entry expired, none hit the entry of another request |
| Admission.AtMostOneAdmitted | libs/common/src/guards/replay.guard.ts:86-99 | in every run in which no request deleted another's entry after its own had expired, at most one unfailed request per key is inside its time to live |
| Admission.DeletionDiscipline | libs/common/src/interceptors/replay.interceptor.ts:31-40 | every deletion is by a request that was admitted for that key, at most one per request and one per entry, and hits a foreign entry only after its actor's entry expired or was itself deleted |
| Admission.RefusedNeverOwns | libs/common/src/filters/exception.filter.ts:57-60 | a request that is waiting, inside or refused by the guard owns nothing, so its error path deletes nothing |
| Admission.FailureClears | libs/common/src/interceptors/replay.interceptor.ts:31-40 | in every run, once a failed request went through the interceptor, the filter or both, its key has no entry |
| Admission.RetryIsAdmitted | libs/common/src/interceptors/replay.interceptor.ts:31-40 | in every run an equal new request that goes through the guard right after that is admitted, if the mutex is free |
| Admission.ReadmittedExactly | libs/common/src/guards/replay.guard.ts:86-99 | with nothing else in between, an equal request after an admitted one is admitted if and only if the time to live has passed |
| Admission.AdmissionsAreSpaced | libs/common/src/guards/replay.guard.ts:86-99 | of two admissions on one key the later follows the expiry or the deletion of the earlier |
| Admission.NoncesAreSpaced | libs/common/src/guards/nonce.guard.ts:61-74 | in every run two admissions with one nonce are at least the time to live apart |
| Admission.ProtectedUnlessDeleted | libs/common/src/guards/replay.guard.ts:86-99 | beside an unfailed admission inside its time to live an equal request is admitted if and only if the entry was deleted and no other has been written, and then both are protected at once |
| Admission.PassGuardAlone | libs/common/src/guards/replay.guard.ts:86-99 | the five steps of an undisturbed request do to the state what the guard's body does when read top to bottom |
| Admission.LateFailureAdmitsTwo | libs/common/src/interceptors/replay.interceptor.ts:31-40 | a concrete run in which a failure after the time to live admits a third request beside a second: the condition is needed |
| DoubleHex.IntToDhex | libs/common/src/utils/double_hex.util.ts:3-11 | the loop writes the base-32 digits of a positive value and nothing for others |
| DoubleHex.DhexToInt | libs/common/src/utils/double_hex.util.ts:13-21 | the shift-and-or loop computes the positional value of every digit string |
| DoubleHex.FoldIsPositional | libs/common/src/utils/double_hex.util.ts:13-21 | shifting by five and or-ing a digit is multiplying by 32 and adding it, over whole digit strings |
| DoubleHex.DecodeEncode | libs/common/src/utils/double_hex.util.ts:3-21 | decoding undoes encoding for every natural number |
| DoubleHex.EncodeCanonical | libs/common/src/utils/double_hex.util.ts:3-11 | the encoder writes digits only, never a leading zero, and nothing exactly for zero |
| DoubleHex.EncodeDecode | libs/common/src/utils/double_hex.util.ts:3-21 | encoding undoes decoding up to leading zeros for every digit string |
| DoubleHex.EncodeLength | libs/common/src/utils/double_hex.util.ts:3-11 | a value takes at most k digits if and only if it is below 32^k |
| DoubleHex.DigitsAre | libs/common/src/utils/double_hex.util.ts:3-11 | the k-th letter from the right is the k-th base-32 digit of the value: 0 to 9 for those below ten, then a to v |
| Bits.OrDigits | libs/common/src/utils/double_hex.util.ts:13-21 | the or of the decoder, on integers of any size and sign, has a binary digit one exactly if one of the two has |
| QrCodeStatic.CreatedTxIdIsValid | apps/pix-payments/src/domain/entities/qr_code_static.entity.ts:89-179 | for every code a created id gives back the three flags it was made with, and it passes its own check if it has 25 letters and fails it if it has fewer |
| QrCodeStatic.UsualWidths | apps/pix-payments/src/domain/entities/qr_code_static.entity.ts:107-128 | the date takes its nine letters if and only if it lies in 32^8 to 32^9, and the value its eight if and only if it is below 32^8 |
| QrCodeStatic.DueDateRoundTrip | apps/pix-payments/src/domain/entities/qr_code_static.entity.ts:192-198 | the due date read from a created id is the one written if and only if it is written with nine letters |
| QrCodeStatic.ValueRoundTrip | apps/pix-payments/src/domain/entities/qr_code_static.entity.ts:181-190 | with a due date of nine letters or none, the value read from a created id is the one written if and only if it is positive and fits eight letters |
| QrCodeStatic.CheckDetectsBlockChange | apps/pix-payments/src/domain/entities/qr_code_static.entity.ts:200-237 | replacing one letter of a valid id goes unnoticed if and only if the new letter is in the same block of 32 codes; replacing the first letter always does, since an id that leaves the fast format is not checked, and replacing the check letter never does |
| Bits.XorDigits | apps/pix-payments/src/domain/entities/qr_code_static.entity.ts:228-233 | the exclusive or of the check letter has a binary digit one exactly if the two differ in it |
| QrCodeStatic.CheckLetterExactly | apps/pix-payments/src/domain/entities/qr_code_static.entity.ts:205-237 | the check letter is 4, 5, 6 or 7, by whether the letters before it hold an odd number of letters from the upper half of ASCII and an odd number from its odd blocks of 32 |
| QrCodeStatic.LayoutExactly | apps/pix-payments/src/domain/entities/qr_code_static.entity.ts:107-179 | a created id of usual widths counts its flags 4, 2 and 1 back from Z, and has the date in letters 1 to 9, the value padded with zeros in 10 to 17, six random letters and the check letter; date and value are read from there |
| CreditValidation.CreateNotifyCreditValidation.Execute | apps/api-jdpi/src/application/usecases/create_notify_credit_validation.usecase.ts:49-213 | one execution decides, changes both caches and emits as the decision and transition functions say, whose every answer the results below describe |
| CreditValidation.CreateNotifyCreditValidation.CheckAccount | apps/api-jdpi/src/application/usecases/create_notify_credit_validation.usecase.ts:127-213 | the verdict cache and the services behind it, in their order of precedence |
| CreditValidation.CreateNotifyCreditValidation.HandleValidCredit | apps/api-jdpi/src/application/usecases/create_notify_credit_validation.usecase.ts:215-242 | a valid verdict is cached if a key is given and told once, as pending for grouped payloads and ready for others |
| CreditValidation.CreateNotifyCreditValidation.HandleInvalidCredit | apps/api-jdpi/src/application/usecases/create_notify_credit_validation.usecase.ts:244-273 | an invalid verdict is cached if a key is given and told once, as pending for grouped payloads and error for others |
| CreditValidation.CreateNotifyCreditValidation.CheckQrCodeStaticWithDueDate | apps/api-jdpi/src/application/usecases/create_notify_credit_validation.usecase.ts:275-315 | expiry, payable many times, already paid, failure to store, and the mark with its time to live |
| CreditValidation.RouteExactly | apps/api-jdpi/src/application/usecases/create_notify_credit_validation.usecase.ts:64-125 | a payload is refused with DS04 exactly without own ISPB, account or document, with AG03 exactly for another account type, with BE17 exactly for a fast-format id that fails its check or whose value is not the amount; else it goes to its due date if the id has one, and to the account if not |
| CreditValidation.RefusalsExactly | apps/api-jdpi/src/application/usecases/create_notify_credit_validation.usecase.ts:64-125 | DS04 and AG03 are answered exactly in these cases, BE17 in its case and otherwise for a due date only, and a valid answer means that none of them applies |
| CreditValidation.RunCachesAssessments | apps/api-jdpi/src/application/usecases/create_notify_credit_validation.usecase.ts:127-213 | in every run the verdict cache holds none of those refusals, which is what RefusalsExactly asks of it |
| CreditValidation.OtherAmountIsRefused | apps/api-jdpi/src/application/usecases/create_notify_credit_validation.usecase.ts:107-118 | for an id made with a value of at most eight letters, a payment is refused for its amount if and only if it is another one |
| CreditValidation.DueDateExactly | apps/api-jdpi/src/application/usecases/create_notify_credit_validation.usecase.ts:275-315 | with a good id that has a due date, exactly when it is answered VALID, BE17 or not at all, and exactly which mark is written with which end |
| CreditValidation.AssessExactly | apps/api-jdpi/src/application/usecases/create_notify_credit_validation.usecase.ts:152-213 | exactly which facts about onboarding, user, document, activity and original payment give which verdict |
| CreditValidation.NoVerdictNoTrace | apps/api-jdpi/src/application/usecases/create_notify_credit_validation.usecase.ts:275-315 | an execution without an answer leaves both caches and the events as they were |
| CreditValidation.SingleUseExactly | apps/api-jdpi/src/application/usecases/create_notify_credit_validation.usecase.ts:275-315 | in every serialised run an execution that presents a single-use code accepts it if and only if its expiry check precedes the due date and its lookup comes after the end of the mark of every earlier payment |
| CreditValidation.PaidAtMostOnce | apps/api-jdpi/src/application/usecases/create_notify_credit_validation.usecase.ts:275-315 | if no execution passes the due date between its expiry check and its lookup, a single-use code gets at most one valid verdict ever |
| CreditValidation.SecondPaymentStraddles | apps/api-jdpi/src/application/usecases/create_notify_credit_validation.usecase.ts:280-307 | a second valid verdict comes only from an execution that passes the due date between its check and its lookup |
| CreditValidation.NeverPaidThrice | apps/api-jdpi/src/application/usecases/create_notify_credit_validation.usecase.ts:275-315 | after two valid verdicts every further execution is refused, whatever the clock does |
| CreditValidation.StraddlingPaysTwice | apps/api-jdpi/src/application/usecases/create_notify_credit_validation.usecase.ts:280-307 | for every single-use code a concrete pair of serialised executions that both accept it |
| QrCodeRace.LookUpExactly | apps/api-jdpi/src/application/usecases/create_notify_credit_validation.usecase.ts:296-312 | in every interleaving of executions of one code a look-up before the due date finds no mark if and only if none was written before it |
| QrCodeRace.PassesExactly | apps/api-jdpi/src/application/usecases/create_notify_credit_validation.usecase.ts:275-315 | in every interleaving without passing the due date between check and look-up, exactly the executions that look up before the first mark is written accept the code |
| QrCodeRace.TwiceExactly | apps/api-jdpi/src/application/usecases/create_notify_credit_validation.usecase.ts:275-315 | then a code is accepted more than once if and only if two executions look up before the first mark is written |
| QrCodeRace.RaceAcceptsTwice | apps/api-jdpi/src/application/usecases/create_notify_credit_validation.usecase.ts:296-312 | for every code and every moment before it is due, two executions at once that both accept it |
| QrCodeRace.AloneIsExecution | apps/api-jdpi/src/application/usecases/create_notify_credit_validation.usecase.ts:275-315 | the three steps with nothing in between do what one execution does |
| CreditValidation.VerdictOfTheCreator | apps/api-jdpi/src/application/usecases/create_notify_credit_validation.usecase.ts:127-151 | every payload that reaches the verdict cache is answered with the assessment of the payload that made the live entry, or with its own if none lives |
| CreditValidation.OneSourcePerLifetime | apps/api-jdpi/src/application/usecases/create_notify_credit_validation.usecase.ts:127-151 | for ten minutes after an entry is made all executions for its account answer from that entry: cached paths do not rewrite it |
| CreditValidation.TransparentExactly | apps/api-jdpi/src/application/usecases/create_notify_credit_validation.usecase.ts:127-213 | the cache gives a payload its own assessment if and only if it and what the services say are interchangeable with those the live entry was made from: holders known or unknown alike, documents fitting or not alike, active alike, and equally good payments given back, a missing holder being told as a missing payment |
| CreditValidation.VerdictsGoStale | apps/api-jdpi/src/application/usecases/create_notify_credit_validation.usecase.ts:127-151 | a payload is still answered valid after its holder was switched off, though its own assessment is then invalid |
| CreditValidation.VerdictCacheIsNotTransparent | apps/api-jdpi/src/application/usecases/create_notify_credit_validation.usecase.ts:127-151 | a payload whose own assessment is a document mismatch is answered valid after a valid one for the same account number |
| CreditValidation.EventsFollowVerdicts | apps/api-jdpi/src/application/usecases/create_notify_credit_validation.usecase.ts:215-273 | over every run the events are the verdicts given, one each and in order, routed by group and verdict |
| CreditValidationEvents.Repository.Create | apps/api-jdpi/src/infrastructure/sequelize/repositories/notify_credit_validation.repository.ts:18-30 | a row is added unless the primary key refuses it |
| CreditValidationEvents.PendingObserver.Execute | apps/api-jdpi/src/application/usecases/handle_pending_notify_credit_validation_event.usecase.ts:31-91 | an incomplete message is refused with exactly the names of what it lacks, each once, and nothing is emitted; for a complete one exactly one event is added with the same payload and response, ready if and only if it is valid and the PSP verified it, and an error otherwise |
| CreditValidationEvents.StoringObserver.Execute | apps/api-jdpi/src/application/usecases/handle_ready_notify_credit_validation_event.usecase.ts:28-52 | a message with an id is stored in the observer's state unless one with that id is stored, and the stored one is answered |
| CreditValidationEvents.StoredOnceAndSound | apps/api-jdpi/src/application/usecases/handle_ready_notify_credit_validation_event.usecase.ts:35-51 | under any duplicated, reordered and concurrent delivery each id has at most one row, which says what the use case said of it; a ready row is valid, and a failed row is invalid or was grouped |
| CreditValidationEvents.RowsOnlyGrow | apps/api-jdpi/src/application/usecases/handle_failed_notify_credit_validation_event.usecase.ts:35-51 | a stored validation is never changed or removed |
| CreditValidationEvents.FoundStaysFound | apps/api-jdpi/src/application/usecases/handle_failed_notify_credit_validation_event.usecase.ts:35-51 | what is found under an id is found under it ever after |
| CreditValidationEvents.DeliveryStores | apps/api-jdpi/src/application/usecases/handle_ready_notify_credit_validation_event.usecase.ts:35-51 | a delivery with an id leaves a validation stored once its observer is done, whatever others did in between |
| CreditValidationEvents.AloneIsInsert | apps/api-jdpi/src/application/usecases/handle_ready_notify_credit_validation_event.usecase.ts:35-51 | undisturbed, the read step and the create step do what the observer's method does |
| CreditValidationEvents.EmittedMayBePublished | apps/api-jdpi/src/application/usecases/create_notify_credit_validation.usecase.ts:235-270 | every event of every run of the use case satisfies what the event machine asks of a published event |
| CreditValidationEvents.PendingIsEmitted | apps/api-jdpi/src/application/usecases/handle_pending_notify_credit_validation_event.usecase.ts:76-90 | in every run a published message that is pending was emitted by the use case: no observer sends one back to wait |
| CreditValidationEvents.VerifiedIsStored | apps/api-jdpi/src/application/usecases/handle_pending_notify_credit_validation_event.usecase.ts:69-90 | in every run, once a complete message was verified, any free observer can read its outcome, and that followed by creating its row leaves one under its id, in the state of the outcome if it is the first |
| CreditValidationEvents.ReadThenCreate | apps/api-jdpi/src/application/usecases/handle_ready_notify_credit_validation_event.usecase.ts:35-51 | a free observer that reads a message with an id and creates its row leaves one stored, its own if none was |
| CreditValidationEvents.FirstAnswerCounts | apps/api-jdpi/src/application/usecases/handle_pending_notify_credit_validation_event.usecase.ts:69-90 | a valid grouped credit whose verification is delivered twice with different outcomes is stored as ready or as failed by the order of the observers alone |
| PageOneLoop.TerminatesExactly | scripts/update-user-limit-tracker/src/main.ts:187-260 | the loop on page 1 ends if and only if fewer operations than a page are without a limit, or exactly a page of them with none to do after the last |
| PageOneLoop.FetchesWhenNothingIsStuck | scripts/update-user-limit-tracker/src/main.ts:187-260 | with nothing stuck it makes max(1, ceil(n / page size)) fetches |
| PageOneLoop.FetchKeepsStuck | scripts/update-user-limit-tracker/src/main.ts:213-254 | a fetch keeps the stuck members in order, and the last of the list if that is beyond the page |
| PageOneLoop.FetchRemovesExactly | scripts/update-user-limit-tracker/src/main.ts:213-254 | a member survives a fetch if and only if it is stuck or beyond the page |
| LimitTracker.TrackerScript.GetUserLimit | scripts/update-user-limit-tracker/src/main.ts:553-583 | the user is the owner, the beneficiary or whichever there is, as the limit type says; the limit is found, or created from a global limit and only then, and there is none exactly without a user or without both limits |
| LimitTracker.KeyIsTheParty | scripts/update-user-limit-tracker/src/main.ts:553-583 | an operation counts for a limit if and only if it is of its type, for the party of the operation the type checks, and found or global |
| LimitTracker.MatchesExactly | scripts/update-user-limit-tracker/src/main.ts:504-525 | exactly which operations a query selects: type, currency, state, untagged and untracked, created on a day of the range |
| LimitTracker.ShareExactly | scripts/update-user-limit-tracker/src/main.ts:275-358 | exactly what a newly marked operation adds to each counter of its limit |
| LimitTracker.TrackerScript.UpdateUserLimitTracker | scripts/update-user-limit-tracker/src/main.ts:268-369 | exactly the counters whose window holds the operation grow by its value, and the operation is marked with the matching tags |
| LimitTracker.TrackerScript.CountByDate | scripts/update-user-limit-tracker/src/main.ts:291-316 | calendar day, month, year and night, each counted by its own test |
| LimitTracker.TrackerScript.CountByInterval | scripts/update-user-limit-tracker/src/main.ts:324-358 | rolling day, month and year each leave their tag, the night none |
| LimitTracker.TrackerScript.ProcessOperation | scripts/update-user-limit-tracker/src/main.ts:213-254 | one operation is skipped for want of a limit, or marked and added to its limit's counters and no others |
| LimitTracker.TrackerScript.ProcessPage | scripts/update-user-limit-tracker/src/main.ts:213-254 | after a page the result list is what the page-1 loop theory says, and the counters have grown by what was newly marked |
| LimitTracker.TrackerScript.UpdateByTypeAndDateRange | scripts/update-user-limit-tracker/src/main.ts:167-261 | it terminates; exactly the matching operations with a limit are marked, every counter has grown by the sum of their values in its window, each once, and the number of fetches is the predicted one |
| LimitTracker.TrackerScript.Execute | scripts/update-user-limit-tracker/src/main.ts:103-157 | whenever its loops end, monthly passes and then annual passes over all types come to marking exactly what annual passes select, with every counter grown by the sum of the newly marked; no counter grows of a user who is not the checked party of a newly marked operation |
| LimitTracker.OutsidersKeepTheirCounters | scripts/update-user-limit-tracker/src/main.ts:553-583 | over any run the counters stay as they were of every user who is not the party checked on some newly marked operation |
| LimitTracker.TrackerScript.ExecuteTwice | scripts/update-user-limit-tracker/src/main.ts:103-157 | running the script twice at one moment is running it once |
| LimitTracker.RunEndsExactly | scripts/update-user-limit-tracker/src/main.ts:187-260 | all loops of a run end if and only if each monthly list, and what it leaves of each annual list, has fewer stuck operations than a page, or exactly a page with nothing to do after the last |
| LimitTracker.FewStuckDrain | scripts/update-user-limit-tracker/src/main.ts:187-260 | fewer stuck operations than a page in every annual window are few enough for the whole run |
| LimitTracker.SecondRunChangesNothing | scripts/update-user-limit-tracker/src/main.ts:504-525 | after a complete run another at the same moment marks nothing and adds nothing |
| LimitTracker.MonthlyThenAnnual | scripts/update-user-limit-tracker/src/main.ts:112-156 | monthly passes followed by annual passes mark what annual passes alone mark |
| LimitTracker.OrderIrrelevant | scripts/update-user-limit-tracker/src/main.ts:112-156 | two runs over the same types in any order give every operation the same tags and every counter the same growth |
| LimitTracker.PassedOneMore | scripts/update-user-limit-tracker/src/main.ts:504-525 | what an earlier pass marked no later query finds, so each pass adds exactly what it newly selects |
| LimitTracker.PassesDrain | scripts/update-user-limit-tracker/src/main.ts:504-525 | if the initial table lets all loops end, every pass finds a list it drains, whatever was marked and created before it |
| LimitTracker.TagsNested | scripts/update-user-limit-tracker/src/main.ts:328-348 | an operation tagged for the day is tagged for the month, and one tagged for the month for the year |
| LimitTracker.GrowthByTag | scripts/update-user-limit-tracker/src/main.ts:324-348 | each counter of an interval limit grows by the sum of the newly marked operations that carry its tag |
| LimitTracker.GrowthOrdered | scripts/update-user-limit-tracker/src/main.ts:275-348 | with non-negative values daily growth is at most monthly growth and that at most annual growth |
| IntervalSync.SyncJob.Handle | apps/operations/src/application/usecases/user_limit_tracker/sync_update_user_limit_tracker_by_interval.usecase.ts:91-168 | one operation is an error without a tracker id, is skipped if its tracker is not found, and otherwise loses its tag and is taken out of its counter, clamped at zero |
| IntervalSync.SyncJob.HandlePage | apps/operations/src/application/usecases/user_limit_tracker/sync_update_user_limit_tracker_by_interval.usecase.ts:91-169 | a page is handled up to the first operation without a tracker id; without one, the operations whose tracker is not found stay and the others go |
| IntervalSync.SyncJob.FetchPage | apps/operations/src/application/usecases/user_limit_tracker/sync_update_user_limit_tracker_by_interval.usecase.ts:74-174 | the window of the page is handled, and there is a next page if the list fetched had more pages |
| IntervalSync.SyncJob.Execute | apps/operations/src/application/usecases/user_limit_tracker/sync_update_user_limit_tracker_by_interval.usecase.ts:58-176 | for one tag and any counters the list and the counters become what the forward sweep says, and it fails exactly if it fetches an operation without a tracker id |
| IntervalSync.SweepLeaves | apps/operations/src/application/usecases/user_limit_tracker/sync_update_user_limit_tracker_by_interval.usecase.ts:72-174 | for every list and every set of trackers a run leaves, of each page handled, what has no stored tracker, and after each page as many operations untouched as it lost |
| IntervalSync.LeftExactly | apps/operations/src/application/usecases/user_limit_tracker/sync_update_user_limit_tracker_by_interval.usecase.ts:91-174 | an operation keeps its expired tag if and only if its tracker is not stored or a run passes over it |
| IntervalSync.EverySecondPageIsLeft | apps/operations/src/application/usecases/user_limit_tracker/sync_update_user_limit_tracker_by_interval.usecase.ts:171-173 | where every tracker is stored, exactly the second, fourth and every other even page is passed over |
| IntervalSync.CompleteExactly | apps/operations/src/application/usecases/user_limit_tracker/sync_update_user_limit_tracker_by_interval.usecase.ts:72-174 | one run clears all that expired if and only if it fits one page of 100 and every tracker is stored |
| IntervalSync.OnePage | apps/operations/src/application/usecases/user_limit_tracker/sync_update_user_limit_tracker_by_interval.usecase.ts:91-117 | of at most one page exactly the operations whose tracker is not stored are left |
| IntervalSync.AtLeastHalved | apps/operations/src/application/usecases/user_limit_tracker/sync_update_user_limit_tracker_by_interval.usecase.ts:72-174 | every run clears at least half of the operations whose tracker is stored, and none of the others |
| IntervalSync.ClampLosesNothingExactly | apps/operations/src/application/usecases/user_limit_tracker/sync_update_user_limit_tracker_by_interval.usecase.ts:119-154 | without negative values a counter ends as itself less what is taken out, at least zero: nothing is lost if and only if it held that much |
| IntervalSync.RunKeepsBalance | apps/operations/src/application/usecases/user_limit_tracker/sync_update_user_limit_tracker_by_interval.usecase.ts:119-168 | if every counter is the sum of its tagged operations before a run, it is so after it, trackers missing or not |
| Nighttime.IsBetweenShifted | scripts/update-user-limit-tracker/src/main.ts:441-454 | the shifts decide circular membership for every base less than a day from the start, and refuse every other base |
| Nighttime.LimitIsInNighttimeInterval | apps/operations/src/domain/entities/user_limit.entity.ts:163-191 | for two well-formed times and a base of any day the test is circular membership less than a day from the start; any other texts give false |
| Nighttime.WellFormedExactly | libs/common/src/utils/validate_hour_time_format.util.ts:6-9 | the well-formed texts are exactly those that write an hour below 24, with or without a leading zero, a colon and a minute below 60 in two digits |
| Nighttime.NightFromMidnightToMidnight | scripts/update-user-limit-tracker/src/main.ts:433-454 | a night from 00:00 to 24:00 is the whole day and passes the guard, since its end is no well-formed time; from 00:00 to 00:00 there is none |
| Nighttime.IsInNighttimeInterval | scripts/update-user-limit-tracker/src/main.ts:432-455 | with its guard as written the script's test is false for every pair of well-formed times, and circular membership for other pairs that can be read |
| Nighttime.SpanIsCircular | scripts/update-user-limit-tracker/src/main.ts:441-454 | for times within the day membership is (base - start) mod 24h < (end - start) mod 24h |
| Nighttime.ComplementaryArcs | scripts/update-user-limit-tracker/src/main.ts:441-454 | an interval and its complement split the day: every moment is in exactly one of them |
| EventOutbox.ChunksPartition | libs/common/src/interceptors/kafka_event.interceptor.ts:56-61 | the chunks are the events in order, none of them empty or longer than 100, and all but the last of 100 |
| EventOutbox.KafkaEventEmitter.FireEvents | libs/common/src/interceptors/kafka_event.interceptor.ts:50-88 | every event is attempted once and in order whatever becomes of each attempt; the k-th log line has the outcome of the k-th attempt |
| EventOutbox.KafkaEventEmitter.SendAll | libs/common/src/interceptors/kafka_event.interceptor.ts:69-73 | all events of a chunk are attempted in order, with one outcome each |
| EventOutbox.LineIsRightExactly | libs/common/src/interceptors/kafka_event.interceptor.ts:75-84 | the k-th log line has the k-th outcome and the name of event k modulo 100, which among distinct events is its own if and only if it is one of the first 100 |
| EventOutbox.LogIsRightExactly | libs/common/src/interceptors/kafka_event.interceptor.ts:75-84 | a whole log is right if and only if every event from the 101st on equals the one 100 places before it |
| EventOutbox.FireOneTooMany | libs/common/src/interceptors/kafka_event.interceptor.ts:75-84 | firing 101 distinct events logs the first event in the last line |
| EventOutbox.Outbox | libs/common/src/interceptors/kafka_event.interceptor.ts:146-149 | in every interleaving of requests the events attempted for one are a prefix of what it buffered before its commit, all of it when it is done, and none unless the hooks of a commit ran |
| EventOutbox.GoesOnExactly | libs/common/src/interceptors/kafka_event.interceptor.ts:50-88 | in every run a request whose hooks ran can go on sending if and only if not all of its events were attempted |
| EventOutbox.NextHundred | libs/common/src/interceptors/kafka_event.interceptor.ts:56-73 | each time it attempts the next 100 of its events, or those that are left, and nothing of any other request |
| EventOutbox.FiresToTheEnd | libs/common/src/interceptors/kafka_event.interceptor.ts:50-88 | from every state of every run a firing request gets all of its events attempted by going on alone |
| EventOutbox.AllCanBeFired | libs/common/src/interceptors/kafka_event.interceptor.ts:146-149 | for every list of events there is a run that emits, commits and attempts exactly it |
| EventOutbox.NothingUnasked | libs/common/src/interceptors/kafka_event.interceptor.ts:146-149 | every attempt belongs to a request whose commit hooks ran |
| EventOutbox.FiredIsFixedAtCommit | libs/common/src/interceptors/kafka_event.interceptor.ts:146-149 | what a request fires is what it had emitted when it committed; later emissions are never sent |
| EventOutbox.ExactlyTheCommitted | libs/common/src/interceptors/transaction.interceptor.ts:43-59 | when all firing is done the attempts of each request are exactly its emissions before the commit whose hooks ran, and none if there was none, as after a rollback |
| EventOutbox.FailedNeverFires | libs/common/src/interceptors/transaction.interceptor.ts:43-59 | in every run a request whose handler failed never commits, and none of its events is ever attempted |
| EventOutbox.OnlyTheCommittedExactly | libs/common/src/interceptors/transaction.interceptor.ts:49-53 | when all firing is done only events of committed requests were attempted if and only if no hooks ran after a failed commit of a request that had emitted something |
| RpcCache.CacheInterceptor.InterceptRpc | libs/common/src/interceptors/cache.interceptor.ts:81-123 | the reply is the uncached one up to undefined and null if the answer does not look like the null marker, and the cache keeps only true answers |
| RpcCache.CacheInterceptor.InterceptHttp | libs/common/src/interceptors/cache.interceptor.ts:132-171 | the data is always what the handler would give, a truthy entry is kept, and otherwise an answer is stored |
| RpcCache.UnwrapWrap | libs/common/src/interceptors/cache.interceptor.ts:104-118 | wrapping and unwrapping keeps a value if and only if it has no truthy null marker |
| RpcCache.NullMarkerExactly | libs/common/src/interceptors/cache.interceptor.ts:104-118 | a null marker is an object whose field __is_null__ is truthy, and nothing else |
| RpcCache.FalsyExactly | libs/common/src/interceptors/cache.interceptor.ts:102-110 | entries that are not served are exactly undefined, null, false, zero and the empty string |
| RpcCache.RepliesAsUncached | libs/common/src/interceptors/kafka_service.interceptor.ts:47-55 | in every interleaving with any expiry every reply to a cacheable request has the current key and headers and what the handler gives for its topic and value, null, zero, false and empty included |
| RpcCache.OthersAreNot | libs/common/src/interceptors/cache.interceptor.ts:102-110 | for every handler whose answer carries the marker a run of two requests whose second reply differs |
| RpcCache.MissAlone | libs/common/src/interceptors/cache.interceptor.ts:112-122 | undisturbed, the steps of a miss do what the method does: the uncached reply, and the wrapped value in the cache if the handler answered |
| RpcCache.HitsAreNotRun | libs/common/src/interceptors/cache.interceptor.ts:102-110 | a live entry saves the call of the handler if and only if the answer is truthy, undefined or null |
| CryptoReport.GenerateCryptoReportResults | apps/otc/assets/utils/generate_crypto_report_results.util.ts:38-148 | the in-place fold gives one row per maximal month run and then the total, and no report without transactions |
| CryptoReport.GroupsAreAGrouping | apps/otc/assets/utils/generate_crypto_report_results.util.ts:80-128 | the groups put together are the input, each is of one month, and neighbours are not |
| CryptoReport.GroupingIsUnique | apps/otc/assets/utils/generate_crypto_report_results.util.ts:80-128 | there is only one such grouping, so it is the reference the rows are held to |
| CryptoReport.MonthsAddUp | apps/otc/assets/utils/generate_crypto_report_results.util.ts:130-134 | the monthly rows add up to the total in sales, profit and loss |
| CryptoReport.RowExactly | apps/otc/assets/utils/generate_crypto_report_results.util.ts:47-128 | a row has the sum of what went out, of the profits and of the losses of its transactions, and their percentage |
| CryptoReport.PercentageExactly | apps/otc/assets/utils/generate_crypto_report_results.util.ts:130-147 | the percentage is profit over loss in hundredths of a percent, rounded half up, and zero if either is zero |
| CryptoReport.SplitAtMonthChange | apps/otc/assets/utils/generate_crypto_report_results.util.ts:90-134 | splitting the input splits the rows if and only if the month changes there; the totals always add |
| CryptoReport.OneRowPerMonth | apps/otc/assets/utils/generate_crypto_report_results.util.ts:80-128 | in order of time every month has one row and the rows are in order of months |
| CryptoReport.RoundsHalfUp | libs/common/src/utils/format_value_from_float_to_int.util.ts:10-20 | the result is the only integer more than half a unit below and at most half a unit above the scaled value |
| KafkaTopics.KafkaService.CreateTopics | libs/common/src/modules/kafka.module.ts:320-406 | the broker's topics become their reconciliation with all requested topics, and nothing happens for none |
| KafkaTopics.KafkaService.Subscribe | libs/common/src/modules/kafka.module.ts:277-285 | the list grows by what was not known, so no known topic is repeated |
| KafkaTopics.KafkaService.CreateEvents | libs/common/src/modules/kafka.module.ts:299-307 | the same for the events to create |
| KafkaTopics.RequestedAre | libs/common/src/modules/kafka.module.ts:332-339 | requested are exactly the patterns, the patterns with .reply after them and the events, each behind the prefix and a dot if there is a prefix |
| KafkaTopics.PrefixHidesNothing | libs/common/src/modules/kafka.module.ts:347-351 | every requested topic passes the prefix filter, so none that exists is taken for missing |
| KafkaTopics.ReconciledIsEnough | libs/common/src/modules/kafka.module.ts:357-396 | requested topics exist with the larger of what they had and what is asked, missing ones with what is asked, and no other topic is touched |
| KafkaTopics.NothingToDo | libs/common/src/modules/kafka.module.ts:357-396 | reconciling changes nothing if and only if every requested topic already has enough partitions |
| KafkaTopics.SecondRunChangesNothing | libs/common/src/modules/kafka.module.ts:357-396 | a second run changes nothing |
| KafkaTopics.ServicesCommute | libs/common/src/modules/kafka.module.ts:357-396 | two services reach the same topics in either order, whatever topics and partition numbers they share |
| KafkaTopics.TwoStepsReconcile | libs/common/src/modules/kafka.module.ts:357-396 | creating the missing topics and then raising the short ones is reconciling |
| Pagination.ReadingAllPages | libs/common/src/pagination/core.pagination.ts:145-168 | the pages 1 to pageTotal of any result list are the list in order |
| Pagination.PageHoldsSomething | libs/common/src/pagination/core.pagination.ts:145-168 | a response names its page, page size and total; a page holds something if and only if it is not beyond pageTotal, at most a page size, and exactly that before the last |
| Pagination.CryptoReports.Fill | apps/otc/assets/script/fill_crypto_reports_table.js:60-114 | the OFFSET loop inserts every row of a fixed result once and in order, with ceil(n / take) + 1 queries, and nothing for a page size of zero |

## Left out

- Admission: the Redis mutex is plain mutual exclusion, without its lock timeout and refresh; a deletion from the cache does not fail.
- RequestKey: the sha1 hash is taken to be injective, so the hashed data is the key; so are the hashes of the two response caches.
- Guards.ExceptionFilter.Catch: models the deletion of the owned entry and the record of causes, not the status codes, translations and messages of the reply.
- Admission.AtMostOneAdmitted: needs that no request deletes another's entry after its own expired; without that it is false, as the counterexample shows.
- CreditValidation: the services of users, onboardings and payments are functions given to each execution; errors they throw, and times at which Redis fails, are not modelled.
- CreditValidation.SingleUseExactly: of executions one after the other; those of one code at the same time are in `QrCodeRace`, and those that race for the verdict cache are not modelled.
- QrCodeStatic: ids are sequences of Dafny characters, not of UTF-16 units; the digits of a due date are a number, and turning them into a moment is a function of the configuration.
- QrCodeStatic.ValueRoundTrip: with a due date outside the years 110 to 3518 the value is looked for in the wrong place and comes back by coincidence at most, which is not described.
- CreditValidationEvents.PendingObserver.Execute: the emitter does not fail; validation of emitted events and the content of the PSP request are not modelled.
- LimitTracker.TrackerScript.Execute: one moment for the whole run, as if the script took no time; tracker ids are fresh numbers, and the transaction types are given.
- LimitTracker.TrackerScript.UpdateByTypeAndDateRange: the table is in order of creation, and operations of equal creation time keep one order throughout.
- LimitTracker.TrackerScript.UpdateUserLimitTracker: whether a limit is inside its night at the moment of the run is given, since the night test is modelled in its own module.
- Nighttime.IsInNighttimeInterval: how a text is read as a time of day is a function given to the tests; it reads every well-formed time, and 24:00 as the end of the day. Days have 24 hours, without changes of the clock.
- IntervalSync.SyncJob.Execute: one tag at a time, on the list of operations that carry it and expired; what a transaction takes back after an error is not modelled.
- EventOutbox: the hooks run after every commit that succeeds, and may run after one that fails; rollbacks do not fail, and the pause between chunks is not modelled.
- RpcCache.CacheInterceptor.InterceptRpc: handlers are functions of topic and value; storing a value does not change it.
- CryptoReport.GenerateCryptoReportResults: exact reals instead of floating point, and all amounts are numbers; the month of a moment is a function given to the report.
- KafkaTopics.KafkaService.CreateTopics: replication, leader election, timeouts and broker errors; the number of partitions is natural, and metadata has one entry per topic.
- Pagination.CryptoReports.Fill: the result of the query does not change while it is copied, and the row ids that are generated are left out.
- Pagination: the sort order of a request, which the database applies.
- Websocket gateways, controllers, validation of DTOs, translation, logging, telemetry and configuration.
- PDF and spreadsheet generation and the front-end applications: presentation.
- Deposit and devolution notification handlers, and the reset of an admin's password.
