# wrest: verified models of its protocols and algorithms

wrest drives WinHTTP, but it runs several protocols and algorithms of its own.
These files model the ones where an error would be hard to see from any single
function, and prove what each is for. Operating-system calls appear as
contracts: their answers are parameters of a step or a script of outcomes, so
every statement holds for all of them. `dafny verify dfyconfig.toml` checks the
whole project.

| file | about |
|---|---|
| `RequestState.dfy` | the state shared by a request and its callbacks: the callback count, sticky abort, redirect origin tracking |
| `CloseDrain.dfy` | the close and drain protocol between drop, callback threads, HANDLE_CLOSING and the future, as a state machine over all interleavings |
| `Redirect.dfy` | what a whole chain of redirects leaves of the origin, the headers and the abort flag |
| `RetryBudget.dfy` | the sliding-window retry budget: ring to queue to generations to time windows |
| `RetryLoop.dfy` | `Client::execute`: the attempts of one call and what it does to the budget |
| `Overlap.dfy` | calls of one client under every interleaving, cancelled or not: their accounts and the retry rate a client is promised |
| `Chunked.dfy`, `Upload.dfy` | chunked framing with a decoder after section 4.1.3 of RFC 7230, and the write loop that sends it |
| `Utf16.dfy` | UTF-16 decoding against the state machine of section 14.2.1 of the WHATWG Encoding Standard |
| `Signal.dfy`, `Response.dfy` | one-shot completion signals, and why each body read gets its own completion |
| `Delay.dfy` | the threadpool timer's shared state and its lifetime |
| `Headers.dfy`, `NoProxy.dfy` | the header merge of `build()` and its fixed point; NO_PROXY matching by labels |
| `Fingerprint.dfy`, `Gb18030.dfy` | the encoding-parity tool's hashed stream and its GB18030 sample grid |
| `Prelude.dfy` | Option, Result, flattening, ASCII lower case |

## How the models are built

Code that updates an object in place is a class here (`RequestState`, `Budget`,
`Client`, `CompletionSignal`, `Response`), and code that loops is a method with
a loop. Each method is proved against a function or predicate on values, and
the lemmas are about that function.

In the state machines (`CloseDrain`, `Delays`, `Overlap`, `Signals`, the routing half
of `Responses`)
a step is one critical section or one operating-system call, with its
nondeterminism as parameters, so a run is a list of steps. A theorem about all
runs quantifies over all lists.

The budget's additions are clamped at both ends of the machine range, and the
order of a clamped sum matters. So each theorem rules out only the clamping that
could break it (`Side` is the end in question): that withdrawals are covered
needs no clamping at the bottom, that refusals are justified none at the top.
`RunErrs` is the common core: in a run that never clamps at one end, every
slot is the net of its generation, that is, of the operations granted while that
slot was the writer, or errs toward that end. `CountedIsAWindow` bounds the age
of what is and is not counted: counted operations are younger than 11 slots and
forgotten ones older than 5.

## Where the code and its comments differ

- `src/winhttp.rs:373-377` says that once the handle's drop returns no callback
  can run. That fails when a callback aborts after drop has read the abort flag
  and before it closes: the callback's close wins, drop's own close returns
  false, and drop does not wait (`CloseDrain.RacingAbortSkipsTheWait`).
  `CloseDrain.DropSafeExactly` gives the exact condition: drop's own close
  succeeds, or the request is drained already.
- The same run can go on until the last reference to the request state is gone
  while the callback is still running and its guard still has to count itself
  out (`CloseDrain.RacingAbortOutlivesState`). `CloseDrain.DropKeepsStateExactly`
  gives the exact condition at drop's close for this never to happen: that close
  succeeds, or no callback is running and none can start, or the handle is open
  and the callbacks' only close of it has failed, so that no close can succeed
  any more. `CloseDrain.NeverFreedInUse` says for each state exactly when a
  participant finds the state alive.
- `src/winhttp.rs:318-320` says that a failing close in an abort does not
  matter. It does not matter to the awaiter, but drop then waits for a
  HANDLE_CLOSING that nobody has caused (`CloseDrain.FailedAbortCloseHangs`).
  `CloseDrain.CloseDecides` gives the exact condition at the callback's close for
  drop to end: it works, or the handle was closed before, or drop is about to
  close the handle itself, or has given up waiting. `CloseDrain.DropFinishes`
  states the same for whole runs.
- `src/retry.rs:380-381` and `src/retry.rs:391-394` have the two clamping
  directions the wrong way round. Clamping at the maximum cannot make the budget
  grant too much (`RetryBudget.GrantedWithinRate` allows it) but can make it
  refuse too much (`RetryBudget.TopClampRefuses`). Clamping at the minimum cannot
  make it refuse too much (`RetryBudget.RefusedOnlyWhenShort` allows it) but can
  make it grant too much (`RetryBudget.BottomClampGrants`). Both examples use the
  amounts that an extra load of 1e-20 gives a budget, whose cost and reserve
  saturate; `RetryBudget.FewCallsNeverSaturate` and `RetryBudget.SlowCallsNeverSaturate`
  say what keeps clear of both ends.
- A failed upload looks unfinished to its receiver unless the write that was
  refused was the terminator's and the system had sent all of the terminator
  before it refused: `Upload.UploadStream` has the exact condition,
  `Upload.SwallowedLooksFinished` an upload that meets it, and `Upload.UploadLarge`
  the counterpart for the last piece of a large body.
- `src/response.rs:193-238` releases the handle at the end of the body and on a
  timeout, not when a caller drops a read. A read that is started while the
  operation of a dropped one is outstanding can be answered by that operation
  (`Responses.AbandonedReadCrosses`); `Responses.ReadIsRoutedExactly` shows that
  this is the only way.

## Model

| member | source | states |
|---|---|---|
| RequestStates.RequestState.EnterCallback | src/winhttp.rs:282-293 | The count of running callbacks goes up by one; the call panics, and changes nothing, exactly when the count is the largest integer. |
| RequestStates.RequestState.ExitCallback | src/winhttp.rs:353-364 | Ends one callback; waiters are notified exactly when that leaves the request closed and idle. |
| RequestStates.RequestState.MarkFinalCallbackSeen | src/winhttp.rs:295-301 | Closes the request for good; waiters are notified exactly when it is already idle. |
| RequestStates.RequestState.StashAbort | src/winhttp.rs:307-321 | The first abort stores its reason and obliges its caller to close the handle; later aborts change nothing. |
| RequestStates.RequestState.TakeReason | src/winhttp.rs:240-254 | The reason is handed out once; the aborted flag stays. |
| RequestStates.RequestState.OnRedirect | src/winhttp.rs:557-587 | One redirect in place is one step of the redirect view, whose branches the lemmas of Redirects pin down; the handle is to be closed exactly when this redirect is the first to abort. |
| RequestStates.DroppingTwice | src/winhttp.rs:740-754 | Removing the listed headers one name at a time is removing them all at once. |
| RequestStates.OriginIsSite | src/winhttp.rs:675-701 | Two URLs have one origin exactly when their schemes and hosts agree, ASCII case aside, and their ports. |
| CloseDrain.StepKeepsInv | src/winhttp.rs:282-335 | Every step of every participant keeps the protocol's invariant on counter, ownership, phases, abort and waiter. |
| CloseDrain.ReachableInv | src/winhttp.rs:282-335 | The invariant holds in every state that any interleaving reaches. |
| CloseDrain.GuardsNeverUnderflow | src/winhttp.rs:353-364 | The counter is the number of live guards, so a guard's exit never meets a zero counter and the underflow branch is dead. |
| CloseDrain.CallbackMayEnter | src/winhttp.rs:288-291 | Until HANDLE_CLOSING no callback is turned away: as many can run at once as the counter can count. |
| CloseDrain.SleeperIsWoken | src/winhttp.rs:323-335 | No lost wake-up: a sleeper never sleeps on a drained request, and the step that drains it wakes the sleeper, whose next test returns. |
| CloseDrain.DropEndsCallbacks | src/winhttp.rs:395-418 | Once drop is over, its own close not having failed, the request is drained and in every continuation no callback touches the state, but for the end of HANDLE_CLOSING's own clone. |
| CloseDrain.DropDrainsRequest | src/winhttp.rs:367-378 | The same over whole runs from the start of a request: what the handle's documentation promises. |
| CloseDrain.DropSafeExactly | src/winhttp.rs:409-415 | At the moment drop closes the handle, it is certain to end drained if and only if the close succeeds or the request is drained already. |
| CloseDrain.RacingAbortSkipsTheWait | src/winhttp.rs:373-377 | A reachable state that the documentation excludes: drop has returned while a callback is running. |
| CloseDrain.CountIsOwners | src/callback.rs:51-136 | In every reachable state the strong count is the number of live owners; the retained reference is given back at most once, exactly when the option call failed or HANDLE_CLOSING has dropped it, and never without a successful close. |
| CloseDrain.NeverFreedInUse | src/winhttp.rs:483-496 | Whoever can take a step finds a live reference, and a callback still has one when its step ends, exactly unless drop skipped its wait and the future, the handle and HANDLE_CLOSING have all let go. |
| CloseDrain.FreedUnderCallbackExactly | src/callback.rs:51-136 | In every reachable state with a callback running: the strong count is zero exactly under that condition. |
| CloseDrain.DropKeepsStateExactly | src/winhttp.rs:409-415 | At the moment drop closes the handle: no callback will ever run on a freed state if and only if the close succeeds, or no callback is left, or no close can succeed any more. |
| CloseDrain.RacingAbortOutlivesState | src/winhttp.rs:483-496 | A reachable state in which the last reference is gone and a callback, with its exit still to come, is running. |
| CloseDrain.AbortFollowsRun | src/winhttp.rs:240-254 | The abort state after a run is that of the run's first abort, its reason gone if it was taken since. |
| CloseDrain.FirstAbortWins | src/winhttp.rs:307-321 | From the start of a request: aborted exactly when some callback aborted, only the first reason is ever stored, and callbacks make at most one close, only after an abort. |
| CloseDrain.ProgressShrinksWork | src/winhttp.rs:323-335 | Every step of somebody with work left lowers a measure, so no participant can keep the others busy for ever. |
| CloseDrain.QuietMeansOver | src/winhttp.rs:395-418 | In a state without possible progress no callback and no future is left; drop is over if and only if the handle was closed or drop gave up waiting, and asleep if and only if nobody can close the handle any more; and the owners that are left are named. |
| CloseDrain.DropFinishes | src/winhttp.rs:395-418 | Under any schedule progress ends within a bound known beforehand; then no callback is left, and drop has returned if and only if no callback close in the whole run failed on a handle that drop would not close itself; and then (its own close not having failed) everything is freed. |
| CloseDrain.CloseDecides | src/winhttp.rs:317-320 | At the close in an abort: every state without possible progress that follows has drop over if and only if the close worked, or the handle was closed before, or drop was about to close it, or had given up waiting. |
| CloseDrain.FailedAbortCloseHangs | src/winhttp.rs:317-320 | A reachable state in which the condition fails: drop sleeps and nobody can make progress. |
| Redirects.AbortIsFirstBadHop | src/winhttp.rs:557-587 | A chain aborts if and only if some hop is the first that cannot be classified or stripped, and the stored reason is that hop's. |
| Redirects.SafeAfterChain | src/winhttp.rs:666-757 | A chain that was not aborted ends at its last target's origin, and if any hop crossed origins none of the six sensitive headers is left. |
| Redirects.OtherHeadersStay | src/winhttp.rs:740-754 | Aborted or not, no chain takes away or reorders any other header. |
| Redirects.SameSiteKeepsAll | src/winhttp.rs:736-738 | Redirects that stay at the first URL's scheme, host and port change neither the origin nor any header. |
| Redirects.OtherSiteStrips | src/winhttp.rs:740-756 | A redirect elsewhere moves the origin and takes away the headers of the six names, in any letter case, and no others. |
| Redirects.BadHopStays | src/winhttp.rs:557-587 | A redirect that cannot be classified or stripped aborts with its reason and leaves the origin; the headers removed before the failure are gone, and no others. |
| RetryBudget.Budget.constructor | src/retry.rs:362-374 | A new budget with the given amounts is the empty run. |
| RetryBudget.Budget.Sum | src/retry.rs:403-409 | The fold over the array is the balance function, saturation and order included. |
| RetryBudget.Budget.Advance | src/retry.rs:411-445 | Advancing in place is the ring function, its break and its cap included. |
| RetryBudget.Budget.Deposit | src/retry.rs:377-383 | Keeps the object equal to the run of all its calls; every deposit is in the log. |
| RetryBudget.Budget.Withdraw | src/retry.rs:385-400 | Keeps the object equal to the run of all its calls; a withdrawal is in the log exactly when it was granted. |
| RetryBudget.AdvanceShiftsQueue | src/retry.rs:411-445 | Read from the index round, the ring is a ten-place queue: advancing shifts in the writer and then one zero for every further slot begun, at most the cap. |
| RetryBudget.GenerationLastsASlot | src/retry.rs:411-429 | Within a slot of the generation's beginning, or when the clock has run backwards, nothing moves; from then on a new generation begins at the reading. |
| RetryBudget.SkippedIsCeiling | src/retry.rs:430-444 | The number of further slots begun is the ceiling of elapsed over slot, less one. |
| RetryBudget.AdvanceMovesIndex | src/retry.rs:430-444 | Where the index ends up, in terms of the slots begun and the cap. |
| RetryBudget.CapIsInvisible | src/retry.rs:430-444 | With any larger cap the same calls are granted for ever, and the queues stay the same, as long as neither run clamps. |
| RetryBudget.CapNeverMatters | src/retry.rs:430-444 | Against a loop whose cap is not below any clock reading, and with nothing assumed of either run but room for its calls: the same calls are granted and the same queue is left. |
| RetryBudget.UncappedLoop | src/retry.rs:430-444 | A cap that is not below the elapsed time is no cap: all such loops do the same. |
| RetryBudget.CapMovesTheIndex | src/retry.rs:430-444 | The index itself does depend on the cap: a concrete reading where it differs. |
| RetryBudget.RunRefines | src/retry.rs:377-445 | Over every run that does not clamp, each slot balance is the net of one generation, and the generations are a suffix of the granted operations, in order, nothing lost or counted twice. |
| RetryBudget.RunErrs | src/retry.rs:377-409 | Over every run that does not clamp at one end, each slot balance is the net of its generation or errs toward that end. |
| RetryBudget.RunKeepsLog | src/retry.rs:377-445 | Over every run, clamping or not, the generations are a suffix of the granted operations, in order, nothing lost or counted twice. |
| RetryBudget.RunKeepsAges | src/retry.rs:411-445 | For every monotone clock, bounds on the age of each generation's operations by its place in the queue. |
| RetryBudget.CountedIsAWindow | src/retry.rs:411-445 | What is still counted is younger than eleven slots, and what is not is older than five. |
| RetryBudget.GrantedWithinRate | src/retry.rs:385-409 | At every granted withdrawal of a run that does not clamp at the bottom, withdrawals in the current and the ten latest generations, this one included, cost at most the reserve plus what deposits of those generations brought; and so do the last five slots' withdrawals against the last eleven slots' deposits. |
| RetryBudget.RefusedOnlyWhenShort | src/retry.rs:385-409 | In a run that does not clamp at the top a refusal means that one more would overdraw, even counting only the last five slots' deposits against all the withdrawals of the last eleven. |
| RetryBudget.FewCallsNeverSaturate | src/retry.rs:377-409 | Counting is enough to rule out clamping: at the bottom by the cost of all withdrawals, at the top by the worth of all deposits and the reserve. |
| RetryBudget.SlowCallsNeverSaturate | src/retry.rs:377-445 | For a monotone clock it is enough to count the calls of any eleven slots in a row. |
| RetryBudget.BottomClampGrants | src/retry.rs:385-394 | With amounts a budget can have, a run in which a charge clamps at the bottom: a third withdrawal is granted and the rate is exceeded, the opposite of what the comment says. |
| RetryBudget.TopClampRefuses | src/retry.rs:377-383 | With the same amounts, a run in which deposits clamp at the top: a withdrawal that they cover is refused, the opposite of what the comment says. |
| RetryLoop.BodyToSend | src/client.rs:205-248 | Every attempt gets the caller's body; it is kept for another exactly when a retry remains and the body can be replayed. |
| RetryLoop.Client.Loop | src/client.rs:200-248 | The loop is a course as defined by `Executed`, with one granted withdrawal for every retry. |
| RetryLoop.Client.Attempts | src/client.rs:190-248 | The shortcut for no retries and the loop satisfy the same description of a course. |
| RetryLoop.Client.Execute | src/client.rs:165-248 | The reply is the last attempt's, every attempt carries the same body, and a call that nothing overlaps makes its granted withdrawals and then one deposit, so that attempts are requests plus granted withdrawals. |
| RetryLoop.CourseIsDetermined | src/client.rs:192-198 | At most one course fits that description, so the shortcut can only do what the loop would. |
| RetryLoop.AttemptsAreBounded | src/retry.rs:207-243 | At most one attempt more than the retries, exactly one for a stream or outside the scope, and one question to the budget for every attempt but the last, whose question, if any, was refused. |
| RetryLoop.RetriesAreJustified | src/retry.rs:207-243 | An attempt is followed by another exactly when the body is no stream, the target is in scope and can be represented, the classifier accepts the reply, retries are left, and the budget, if there is one, grants it. |
| RetryLoop.WithdrawalTimes | src/client.rs:234-243 | Each question to the budget is asked at its own reading of the clock. |
| RetryLoop.CallTotals | src/client.rs:165-171 | What one call adds to the log: one deposit and as many withdrawals as retries. |
| Overlap.StepKeepsBalance | src/client.rs:165-248 | Every step of any call, and its end at any moment, keeps the accounts of attempts, deposits, withdrawals and refusals. |
| Overlap.OverlappingTotals | src/client.rs:165-248 | Under every interleaving of calls, cancelled or not: over all calls attempts are requests plus granted withdrawals, deposits are the calls that have ended, every question to the budget was granted or is its call's one refusal, no call exceeds its retries and a stream is sent once. |
| Overlap.ExecuteIsARun | src/client.rs:165-248 | The course of a call that nothing overlaps is one of these interleavings, and leaves the same retries, refusal and budget. |
| Overlap.TimesAreLogged | src/retry.rs:234-243 | The same for any window of time: the retries and the ends of all calls in it are the withdrawals and the deposits in it. |
| Overlap.ClientRetryRate | src/retry.rs:377-409 | What a client is promised: at every granted retry the retries of all calls in the last five slots cost at most the reserve and what the calls that ended in the last eleven have paid in. |
| Overlap.ClientRefusal | src/retry.rs:385-409 | A retry is refused only if one more would overdraw, even counting only the calls that ended in the last five slots against all the retries of the last eleven. |
| Chunked.EncodeDecodes | src/winhttp.rs:1113-1153 | Whatever the chunks contain, their chunked form decodes to their concatenation and leaves what follows on the connection. |
| Chunked.HexIsCanonical | src/winhttp.rs:1126-1129 | Sizes are written in lower case without leading zeros. |
| Chunked.DecodeStable | src/winhttp.rs:1113-1153 | Once the decoder has decided, more bytes do not change the decision. |
| Chunked.StrictPrefixIsIncomplete | src/winhttp.rs:1113-1153 | A chunked body cut at any byte decodes as incomplete. |
| Upload.WriteData | src/winhttp.rs:1411-1466 | The write loop succeeds exactly when non-empty completions add up to the buffer; each error names the outcome that caused it, and what has been sent is exactly what the outcomes say, even for a refused write that had sent all. |
| Upload.OffsetAdvances | src/winhttp.rs:1440-1466 | The offset moves forward by what was written, never past the end; a write of nothing and one of too much are told apart. |
| Upload.UploadStream | src/winhttp.rs:1113-1153 | What has gone out is the chunked form of the stream, without its empty chunks, as far as the completed writes and the failed one add up to: on success all of it, on a stream error the frames so far; after a failed write it is strictly less than the whole if and only if that write was not the terminator's refused with all of it sent; and the upload fails only for a cause. |
| Upload.SuccessDecodes | src/winhttp.rs:1113-1153 | A receiver of a successful upload decodes exactly the stream's bytes, whatever follows. |
| Upload.FailureLooksIncomplete | src/winhttp.rs:1113-1153 | What has been sent, cut at any byte, decodes as incomplete if and only if something of the chunked form is missing. |
| Upload.SwallowedLooksFinished | src/winhttp.rs:1143-1153 | An upload in which something does look finished: the terminator of an empty stream is refused after all of it went out. |
| Upload.UploadLarge | src/winhttp.rs:1222-1248 | What has gone out is the body as far as the outcomes add up to, on success all of it; a failure leaves its announced length unreached if and only if the refused write was not the last piece's with all of it sent. |
| Utf16.MachineIsPatched | src/encoding.rs:572-588 | The standard's machine, from any state between two units, gives the patched decoding of what is pending and what is left. |
| Utf16.DecodeIsStandard | src/encoding.rs:572-588 | On every byte string and in both byte orders the shortcut equals the standard's byte-at-a-time decoder. |
| Utf16.EncodedDecodes | src/encoding.rs:572-588 | Every string of scalar values, encoded in either byte order, decodes to itself. |
| Utf16.MarkedTextReadsBack | src/encoding.rs:82-121 | A body with a UTF-16 byte-order mark decodes to its text, whatever charset the response declares. |
| Utf16.MarkedUtf8 | src/encoding.rs:89-93 | What follows a UTF-8 mark is UTF-8, whatever charset the response declares. |
| Utf16.DeclaredCharsetDecides | src/encoding.rs:89-121 | A body without a mark is decoded as its declared charset says: UTF-16 of either order, UTF-8, any other known label by its back end, an unknown one as UTF-8. |
| Utf16.LabelIsRead | src/encoding.rs:317-321 | ASCII white space around a label and the case of its letters do not matter. |
| Utf16.StandardLabels | src/encoding.rs:324-334 | The labels of UTF-8 and UTF-16. |
| Utf16.DeclaredUtf16ReadsBack | src/encoding.rs:82-121 | Text sent as UTF-16 and declared as such arrives, unless its first characters are a mark. |
| Utf16.ErrorsAreReplaced | src/encoding.rs:572-588 | A lead surrogate cut off before an odd byte is one U+FFFD, and so is a trail surrogate alone. |
| Signals.CompletionSignal.Listen | src/callback.rs:185-194 | Creates the newest future and cancels the one still waiting for a signal, if any; the object stays equal to its history. |
| Signals.CompletionSignal.Signal | src/callback.rs:200-209 | With nothing between its two halves: completes the waiting future, if any, and no other. |
| Signals.CompletionSignal.TakeSender | src/callback.rs:200-205 | The locked half of a signal: nobody is listening any more, and no future has changed yet. |
| Signals.CompletionSignal.SendTaken | src/callback.rs:206-208 | The other half, after any other events: the future whose sender was taken gets the value, and no other. |
| Signals.CompletionSignal.Poll | src/callback.rs:221-228 | Ready with v exactly when the signal of v was the first to come after the future's listen, with no other listen between, and has been sent; ready with an error exactly when another listen came first. |
| Signals.AfterIsFates | src/callback.rs:185-209 | From any state of the slot, what each future becomes under any sequence of events, takes and sends apart. |
| Signals.EveryFutureMeetsItsFate | src/callback.rs:185-209 | There is one future for each listen; the k-th gets v exactly when the first event after its listen that touches the slot is the take of the signal of v and that signal has been sent, and is cancelled exactly when that event is another listen or the end of the signal. |
| Responses.Response.Chunk | src/response.rs:185-238 | The handle is let go at the end of the body and on a timeout, and only then; later reads say that the body is consumed. |
| Responses.Response.CollectBody | src/response.rs:394-428 | The whole body in order, or the reason why there is none, for every sequence of read outcomes and with the length limit. |
| Responses.MoveKeepsRouted | src/callback.rs:246-255 | Every move but abandoning a read keeps at most the newest operation outstanding, with its own sender installed. |
| Responses.AwaitGetsItsOwnEvent | src/response.rs:193-238 | As long as no operation starts with another outstanding, an await that becomes ready has its own operation's event and is not cancelled, whatever was abandoned in between. |
| Responses.DrivenReadsStartClean | src/response.rs:193-238 | Driving every read to its end or to a timeout is enough for that. |
| Responses.ReadIsRoutedExactly | src/callback.rs:246-255 | At the start of a read, after any run: its await is certain to be answered by its own event if and only if no operation is outstanding. |
| Responses.AbandonedReadCrosses | src/response.rs:193-238 | A run in which one is: after an abandoned read the next await is answered by the old operation. |
| Responses.EndsRelease | src/response.rs:185-238 | The end of the body and a timeout let go of the handle. |
| Responses.ReleasedForGood | src/response.rs:185-238 | After that no operation is ever started. |
| Delays.StepKeepsInv | src/timer.rs:189-296 | Every step of the owner, the callback and the threadpool keeps the timer's accounting. |
| Delays.CallbackNeverSeesFreedState | src/timer.rs:267-296 | A running callback is always covered by the retained reference; after drop's body none runs or can start; the state is freed exactly with the last field. |
| Delays.ReadyMeansFired | src/timer.rs:245-264 | A poll is ready exactly when the callback has signalled; a timer that could not be created never is. |
| Delays.LiveTimerFires | src/timer.rs:208-219 | A live delay has a timer exactly when its creation succeeded; such a timer can fire, and the next poll is ready then. |
| Delays.DropCanFinish | src/timer.rs:267-296 | From every live state the drop can be carried through, a running callback included, and frees the state. |
| Headers.WidenedNarrows | src/util.rs:131-147 | Widening makes each byte the character of that number, so that narrowing loses nothing. |
| Headers.KeptDefaults | src/request.rs:459-531 | The defaults that stay are those whose name no header of the builder has, in any case. |
| Headers.AppendOwn | src/request.rs:459-531 | The builder's headers follow under each name in order, or the first unacceptable one is the error. |
| Headers.Build | src/request.rs:459-531 | The request that `build()` promises: first error in the code's order, or per name the builder's values, else the defaults, else what is filled in. |
| Headers.UserInfoIsSent | src/request.rs:508-524 | A URL's user information is sent as Basic credentials, where nothing else authorizes, from which the server reads back exactly the user name and the password. |
| Headers.OwnHeadersWin | src/request.rs:473-504 | The precedence of values: the builder's own in order, else the defaults, else `*`/`*` for Accept and nothing for the others. |
| Headers.ErrorsComeInOrder | src/request.rs:459-528 | Of several errors the URL's is reported, else the first bad header's, its name before its value, else the method's. |
| Headers.HeadersStayInLine | src/request.rs:491-500 | No header of a built request can break out of its line. |
| Headers.RebuildIsFixedPoint | src/request.rs:550-563 | A built request taken apart and built again has the same method, URL, body, timeout and per-name values, byte for byte; no default is added twice. |
| NoProxy.SuffixIsLabelTail | src/proxy.rs:345-355 | The string test is a test on whole labels, for all hosts and suffixes. |
| NoProxy.SplitIsExact | src/proxy.rs:359-361 | No entry holds a comma, and the entries with commas between them are the list. |
| NoProxy.TrimIsExact | src/proxy.rs:361 | White space goes from both ends of an entry, and only that. |
| NoProxy.PaddingIsIgnored | src/proxy.rs:359-380 | Blanks around the entries do not matter. |
| NoProxy.DirectExactly | src/proxy.rs:321-380 | The proxy is bypassed exactly when some entry is `*`, is the host, or has a dot and its labels end the host's; otherwise the scheme's proxy decides. |
| Fingerprint.Feed | tools/encoding-parity/src/main.rs:142-153 | What the hash is fed is the length-prefixed stream. |
| Fingerprint.PrefixIsLength | tools/encoding-parity/src/main.rs:145-148 | Each input follows its length, eight digits to the base 256, lowest first. |
| Fingerprint.StreamInjective | tools/encoding-parity/src/main.rs:142-153 | Equal streams come only from equal lists of inputs, as long as each length fits 64 bits. |
| Gb18030.FormHasItsPointer | tools/encoding-parity/src/corpus.rs:168-188 | The four bytes made from a pointer are a legal form, and the pointer formula of section 10.2.1 of the Encoding Standard gives it back. |
| Gb18030.SampleIsSpread | tools/encoding-parity/src/corpus.rs:168-188 | A sample of any size from two up is legal, strictly increasing and runs from the first to the last pointer; the full size lists every pointer once. |
| Gb18030.SampleIsEven | tools/encoding-parity/src/corpus.rs:170-179 | Each sample is the last pointer at or before its exact share of the way. |
| Gb18030.SmallSamples | tools/encoding-parity/src/corpus.rs:168-188 | No samples, and the first form alone. |

## Left out

- RetryBudget.RunRefines: holds for runs in which nothing clamps, and so does CapIsInvisible, because a clamped fold depends on the order of its terms; FewCallsNeverSaturate, SlowCallsNeverSaturate and CapNeverMatters say what guarantees it.
- RetryBudget.GrantedWithinRate: holds for runs that do not clamp at the bottom; BottomClampGrants shows that it can fail otherwise.
- RetryBudget.RefusedOnlyWhenShort: holds for runs that do not clamp at the top; TopClampRefuses shows that it can fail otherwise.
- RetryBudget.Budget.constructor: the scaling of a retry percentage to amounts by 32-bit floating point is not modelled; amounts and reserve are parameters.
- RetryLoop.Client.Execute: is about a call that no other overlaps and that runs to its end; what holds of overlapping and cancelled calls is in Overlap, for a client with a budget. What an attempt returns and what the clock shows are parameters.
- Upload.UploadStream: a write that claims more bytes than it was given is taken to have sent its buffer; what is really on the connection then is not known.
- Responses.MoveKeepsRouted: the take and the send of a completion are one move there, as they are one step in Delays.
- Responses.Response.Chunk: which of the read and the deadline wins the race is given as the outcome.
- Blocking itself: the wait in drop and the whole timer are steps of state machines and not class methods, so update in place is not captured there.
- Mutex poisoning and the debug checks against re-entry: locks are atomic sections.
- Operating-system contracts are hypotheses: closing a closed handle returns false, HANDLE_CLOSING comes at most once, after a successful close, and no callback starts after it, a completion of n bytes means the first n were accepted, the timer drain waits for callbacks.
- URL parsing and IDNA: hosts, ports and origins are given.
- UTF-8 replacement decoding, the ICU and NLS charsets and their label tables: parameters of the decoder choice.
- Base64 of credentials is a parameter; length limits of header names and the capacity of header maps.
- The hash function behind the fingerprint, and the rest of the encoding-parity tool.
- The retry without a client certificate after a certificate request, the body sent inline with the request, and the pointer arithmetic check of the write loop.
- Builder setters, JSON and forms, error display, tracing and the runtime glue.
