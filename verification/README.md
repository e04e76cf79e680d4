# Models of Basilisp's concurrency, caching and data kernels

This project models the parts of Basilisp whose correctness depends on several
functions together, and proves what they are for. Every theorem is about all
inputs, all schedules or all reachable states of the model. `dafny verify
dfyconfig.toml` checks everything.

The models keep the program's own form. What the program updates in place is a
class with the same fields, or a method with the same loop, proved to do exactly
what a function says; the laws are then proved of that function, or of whole runs
of it. What the program computes as a value is a function.

| files | what they model |
|---|---|
| `StmLog`, `StmRuns`, `StmProgress`, `StmUpdates`, `StmLocks`, `StmTransaction` | Optimistic software transactional memory: the transaction log, every interleaving of transactions, retries and progress, `commit` split into single lock steps, and the `Ref` and `_Transaction` objects |
| `Channel`, `ChannelRuns`, `ChannelSteps`, `ChannelOrder`, `ChannelAnswers`, `ChannelObjects` | Channels with fixed, sliding and dropping buffers, one-shot selections (`put`, `take`, `offer`, `poll`, `alts`), closing and cancellation |
| `Pipeline` | The ordered parallel pipeline |
| `Agent`, `AgentFailures` | Agents: lock sections interleaved with an arbitrary executor, and the failure an agent stands on |
| `Decimals`, `Hashing`, `HashBits`, `HashNumbers`, `HashValues`, `ExactDecimal` | Portable hashing against language equality, its collisions and reference values; exact decimal arithmetic |
| `LazySeq` | Memoizing lazy sequences and their iterators |
| `LruCache`, `TtlCache` | Cache policies against reference policies |
| `StreamReader`, `SyntaxQuote` | The reader's character stream; syntax quote as a compiler |
| `XmlEvents`, `Base64` | Explicit-stack XML flattening and rebuilding; base64 against section 4 of RFC 4648 |
| `MultiFn` | Multimethod dispatch and its cache |

## How to read the models

* **Transactions.** The body of a transaction is any function from what its
  operations have returned to its next move. The serial reference applies the
  operations directly to a plain store. A Ref that is only commuted and not
  ensured is exempt from validation, as in the program: what the body saw of it
  is not part of the serial claim, its new value is. In `StmLocks` other
  transactions move between any two lock acquisitions, assignments and releases.
* **Channels.** Code between two awaits is one step. A delivery is the moment a
  waiter is resolved. `put`, `take`, `offer` and `poll` are selections with one
  port; the order in which `alts` tries its ports is the order of the list given,
  which stands for any shuffle. `arrived`, `entered`, `delivered` and `removed`
  are history variables.
* **Agents.** Each section that holds the agent's lock is one step of one thread.
  The executor may refuse a task, start it late, or drop it before it starts.
  Nothing is assumed about error modes: they may change at any step.
* **Hashing.** A JVM int is its residue modulo 2^32. Sets and maps are the
  sequences their iteration yields, in any order.
* **Lazy sequences.** A generator pulls from a single-use iterator, or gives an
  element before more, or returns another lazy sequence; any nesting of these.
  For an iterator that never ends, a run is given any number of its first
  elements, at least as many as it asks for.
* **Pipeline.** The destination takes its first `room` values and refuses the
  rest. An item that a transducer or an error handler gives may be nil, which
  raises when it is emitted or put.
* **Syntax quote.** Code, expansions and values are one datatype. Evaluation of
  the forms that the expansion uses is defined; all other evaluation is a
  parameter.

## Findings

* `XmlEvents.RoundTrip`: an element without `:attrs` does not survive
  flattening and rebuilding (`XmlEvents.AttrsAppear`); it comes back with an empty
  attribute map, because a persistent map is true in a boolean test even when
  empty. Empty `:content`, nested sequences and scalars also change. The lemma
  says exactly which trees come back unchanged.
* `MultiFn.DominatorMissed`: dispatch can fail as ambiguous although one
  matching key precedes all others: with `m` preferred to `a` and to `b`, it
  fails in the order `a, b, m` and finds `m` in the order `m, a, b`.
  `MultiFn.AnswersInEveryOrder` says exactly when no order fails,
  `MultiFn.AnswersInSomeOrder` when not all orders do, and
  `MultiFn.SearchSucceeds` which orders succeed.
* `MultiFn.NotTransitive`: with `b` preferred to `a` and `c` to `b`, dispatch may
  choose `c`, which nothing puts ahead of `a`. `MultiFn.ChoicePrecedesAll`: the
  key chosen for a value always precedes every matching key exactly when
  precedence is transitive among the keys that the value is an instance of.
  For one table `MultiFn.TableNeverMisleads` gives the exact condition.
* `MultiFn.ParentAndChild`: of two methods dispatch finds the more specific one in
  both orders, but a preference of the parent over the child leaves the choice to
  the order of the method map. `MultiFn.OrderMattersIff`: the order makes no
  difference exactly when only one key precedes all the others.
* `HashNumbers.OrderMatters`: exchanging two neighbours of a sequence leaves its
  hash the same exactly when their own hashes agree in their lower 31 bits.
* `TtlCache`: an entry whose age is exactly the ttl is no longer visible but is
  not pruned either; visibility compares with `<`, pruning with `>`.
* `StreamReader`: pushback before the first character is not refused by
  `pushback` itself but by the next `peek`.

## Model

| member | source | states |
|---|---|---|
| `StmLog.LogOfOk` | src/basilisp/lang/stm.py:163-212 | After any operations every written, commuted or ensured Ref has a recorded read, and staged commute values are the fold of the recorded functions |
| `StmLog.DecidePublish` | src/basilisp/lang/stm.py:226-252 | A commit that publishes found no conflict on a protected Ref, changes exactly the touched Refs to their new values, and every validator accepted |
| `StmLog.CommitIsReplay` | src/basilisp/lang/stm.py:226-257 | A published commit equals the direct serial replay of the body's operations on the committed store, and every protected observation is what that replay sees |
| `StmRuns.VersionGrows` | src/basilisp/lang/stm.py:253-256 | Between two points of a run a version never falls, an equal version means an equal value, and a greater one means a commit changed the Ref in between |
| `StmRuns.ConflictWitness` | src/basilisp/lang/stm.py:235-243 | A conflict found at commit proves that another transaction committed to that Ref during the attempt |
| `StmRuns.ExecInv` | src/basilisp/lang/stm.py:163-303 | The whole invariant holds after every run |
| `StmRuns.Serializable` | src/basilisp/lang/stm.py:163-257 | In every interleaving the committed values are those of replaying the committed transactions one at a time in commit order, and each saw serially what it saw of its protected Refs |
| `StmRuns.CommittedBodyRanAlone` | src/basilisp/lang/stm.py:283-303 | A committed transaction without commute-only Refs leaves the store and returns the result that its body gives when run alone after the earlier commits |
| `StmRuns.VersionCountsCommits` | src/basilisp/lang/stm.py:253-256 | A Ref's version is the number of commits that changed it |
| `StmRuns.OneCommitEach` | src/basilisp/lang/stm.py:226-257 | In every run the history holds exactly one commit of each transaction that is done, with its result, and no other |
| `StmRuns.RetriesCostCommits` | src/basilisp/lang/stm.py:283-296 | Each retry, and a final conflict error, is paid for by a commit of some other transaction since the start |
| `StmProgress.DecideExactly` | src/basilisp/lang/stm.py:226-252 | A commit finds a conflict, raises or publishes, each exactly when it should: a read and protected Ref with another version, else a raising commute or a refusing validator, else neither |
| `StmProgress.AttemptEnds` | src/basilisp/lang/stm.py:283-303 | How an attempt whose body returns ends: started over, given up, raised, or done with exactly the touched Refs assigned |
| `StmProgress.ConflictRetries` | src/basilisp/lang/stm.py:292-296 | A conflict with attempts left, or without a limit, starts the same body again with an empty log and one more attempt, and changes no Ref |
| `StmProgress.GivesUpAtTheLimit` | src/basilisp/lang/stm.py:283-296 | In every run a transaction runs and commits the body it was begun with; it gives up only if begun with a limit, after exactly that many attempts, and never without one |
| `StmProgress.LeftAloneItCommits` | src/basilisp/lang/stm.py:280-303 | From every reachable state a transaction with an attempt left, or without a limit, that the others leave alone commits after at most one more attempt, if its body returns and no update function or validator refuses |
| `StmUpdates.NoUpdateLost` | src/basilisp/lang/stm.py:163-303 | When every transaction does the same one operation on one Ref, the value after any interleaving is that of doing it once for each commit, and each commit returns the value it left |
| `StmUpdates.SeesItsOwn` | src/basilisp/lang/stm.py:163-212 | An operation sees what the attempt wrote, commuted or first read there, whatever others commit meanwhile; writing after a commute is refused |
| `StmUpdates.ProtectedStops` | src/basilisp/lang/stm.py:208-243 | A Ref read, written or ensured stops the commit once another transaction has committed to it |
| `StmLocks.StepOk` | src/basilisp/lang/stm.py:232-257 | Taking a lock, deciding, assigning one Ref and releasing one lock each keep the lock invariant and are one atomic step or none |
| `StmLocks.FineRefines` | src/basilisp/lang/stm.py:226-257 | Every run of single lock steps is a run of one-step commits with the same committed values, statuses and history, so each single read is of a state between whole commits |
| `StmLocks.QuietMemory` | src/basilisp/lang/stm.py:232-257 | With no lock held the memory holds whole commits only |
| `StmLocks.NoWaitingCycle` | src/basilisp/lang/stm.py:229-234 | No reachable state has committers waiting for one another in a cycle |
| `StmLocks.CommitterCanStep` | src/basilisp/lang/stm.py:229-257 | While a transaction is committing, some committing transaction can take a step |
| `StmTransaction.MakeRef` | src/basilisp/lang/stm.py:60-83 | A Ref starts at version 0 with its value, and a value its validator refuses makes no Ref |
| `StmTransaction.OneOperation` | src/basilisp/lang/stm.py:163-212 | Changing the dictionaries at one Ref as an operation does is that operation on the log |
| `StmTransaction.Transaction.Read` | src/basilisp/lang/stm.py:163-172 | A read returns the staged or first-read value and records the read once |
| `StmTransaction.Transaction.Alter` | src/basilisp/lang/stm.py:174-179 | `alter` stages its result, and raises after a commute without changing anything staged |
| `StmTransaction.Transaction.RefSet` | src/basilisp/lang/stm.py:181-186 | `ref-set` reads and stages, and raises after a commute |
| `StmTransaction.Transaction.Commute` | src/basilisp/lang/stm.py:188-206 | `commute` records the function for replay and stages its result where a write or commute value is staged |
| `StmTransaction.Transaction.Ensure` | src/basilisp/lang/stm.py:208-212 | `ensure` reads the Ref and protects it |
| `StmTransaction.Transaction.Conflicting` | src/basilisp/lang/stm.py:228-240 | The conflicts are exactly the protected Refs whose version is not the one read |
| `StmTransaction.Transaction.Commit` | src/basilisp/lang/stm.py:226-257 | The objects decide as the log does, and either all touched Refs get their new value and next version or no Ref changes, in particular when a validator or a replayed function raises |
| `Channel.TryPutOk` | src/basilisp/concurrent_channel.py:136-157 | A put keeps every channel promise; it is refused exactly when closed, and it blocks only on an open full fixed channel without a live take, changing nothing |
| `Channel.TryTakeOk` | src/basilisp/concurrent_channel.py:158-171 | A take keeps every channel promise, and is not ready only on an open empty channel without a live put, changing nothing |
| `Channel.FillOk` | src/basilisp/concurrent_channel.py:181-186 | Refilling the buffer from waiting puts keeps every promise and wins each future at most once |
| `Channel.CloseOk` | src/basilisp/concurrent_channel.py:92-103 | Closing keeps every promise and the buffer, and leaves no live operation on the channel |
| `Channel.TryPutInTurn` | src/basilisp/concurrent_channel.py:136-144 | A put is handed to the take that has waited longest of those that can still win |
| `Channel.TryTakeInTurn` | src/basilisp/concurrent_channel.py:158-186 | A take is served by, and makes room for, exactly the puts that have waited longest of those that can still win |
| `ChannelRuns.StepOk` | src/basilisp/concurrent_channel.py:92-192 | Every event on any set of channels keeps the whole invariant and changes no future that is done |
| `ChannelRuns.WonOnce` | src/basilisp/concurrent_channel.py:21-66 | In every run each selection is won at most once, by one of its own operations, exactly that operation moved a value, and nothing changes it later |
| `ChannelRuns.WaitingIsBlocked` | src/basilisp/concurrent_channel.py:228-280 | A waiting selection has lost none of its operations and none of them could proceed: takes face an open empty channel without another's live put, puts an open full fixed channel without another's live take |
| `ChannelRuns.ChannelConserves` | src/basilisp/concurrent_channel.py:136-186 | Capacity is never exceeded; fixed: accepted equals delivered then buffered; sliding: the buffer is the latest accepted values; dropping: only values that met a full buffer are missing; and accepted and delivered values are exactly those of the successful puts and takes |
| `ChannelRuns.NothingInvented` | src/basilisp/concurrent_channel.py:136-186 | No value is taken from a channel more often than it was successfully put there |
| `ChannelSteps.TryTakeDoes` | src/basilisp/concurrent_channel.py:158-186 | A take gets the first of the buffered values and the longest waiting put, which moves up; it is not ready exactly on an open empty channel without a live put |
| `ChannelSteps.TryPutDoes` | src/basilisp/concurrent_channel.py:136-156 | A put goes to the longest waiting take, else into the buffer; only a full sliding buffer drops its oldest value and only a full dropping one the new value; it blocks exactly on an open full fixed channel without a live take |
| `ChannelSteps.SelectInRun` | src/basilisp/concurrent_channel.py:105-134 | In every run a `put`, `take`, `offer` or `poll` takes effect at once exactly when it is not blocked; an `offer` or `poll` gives up exactly when it is |
| `ChannelSteps.SelectDoes` | src/basilisp/concurrent_channel.py:255-275 | `alts` takes the first of its operations that is not blocked, on that channel only; exactly when all are blocked it moves no value, and gives up or waits as it was asked |
| `ChannelSteps.ShutDoes` | src/basilisp/concurrent_channel.py:92-103 | Closing answers false to every put that waits on the channel and nil to every other take, and touches nothing else |
| `ChannelSteps.CancelledForGood` | src/basilisp/concurrent_channel.py:26-66 | A waiting selection that is cancelled never moves a value, and its cancelling changes nothing else |
| `ChannelOrder.ServedByAge` | src/basilisp/concurrent_channel.py:115-186 | In every run the operation in turn belongs to the selection that started first of those that can still win |
| `ChannelOrder.KeepsWhatItWasOpenedWith` | src/basilisp/concurrent_channel.py:69-90 | In every run a channel has the capacity and policy it was first opened with, and there are no others |
| `ChannelAnswers.StepAnswers` | src/basilisp/concurrent_channel.py:92-186 | Every event keeps all answers given so far true |
| `ChannelAnswers.AnswersStayTrue` | src/basilisp/concurrent_channel.py:92-186 | In every run a take answered with nil names a closed channel with nothing left, and a put answered with false a closed channel, from the answer on |
| `ChannelObjects.EventLoop.Resolve` | src/basilisp/concurrent_channel.py:21-66 | Only the first winner of a future succeeds |
| `ChannelObjects.MakeChannel` | src/basilisp/concurrent_channel.py:72-90 | Construction fails exactly for a negative capacity or an unbuffered sliding or dropping channel |
| `ChannelObjects.ChannelObject.DiscardInactive` | src/basilisp/concurrent_channel.py:188-192 | Exactly the waiters still pending remain, in order |
| `ChannelObjects.ChannelObject.FillBuffer` | src/basilisp/concurrent_channel.py:181-186 | The loop over the deques is the refill function |
| `ChannelObjects.ChannelObject.TryTake` | src/basilisp/concurrent_channel.py:158-171 | The in-place take does to deques and futures what the take function says |
| `ChannelObjects.ChannelObject.TryPut` | src/basilisp/concurrent_channel.py:136-157 | The in-place put does to deques and futures what the put function says |
| `ChannelObjects.ChannelObject.Close` | src/basilisp/concurrent_channel.py:92-103 | The in-place close does to deques and futures what the close function says |
| `ChannelObjects.Select` | src/basilisp/concurrent_channel.py:239-275 | `alts` over channel objects, up to its await, is one selection step of the runs |
| `Pipeline.Run` | src/basilisp/concurrent_channel.py:341-405 | For every completion order the output is a prefix of the per-input results in input order; at most `parallelism` tasks are in flight; it finishes exactly when every input emits, no result is nil and the destination takes them all, with the whole output; otherwise it stops for a failing input, at the first nil, or where the destination closed; exactly the tasks taken and neither emitted, held back nor to blame are cancelled, and the destination is closed if asked |
| `Pipeline.EmittedMeans` | src/basilisp/concurrent_channel.py:287-317 | An input contributes the items its transducer emits, or what the handler gives instead of a failure, nil items included; it fails with the exception raised when there is no handler, or with the handler's own |
| `Pipeline.Admit` | src/basilisp/concurrent_channel.py:358-369 | Inputs are taken only while fewer than `parallelism` tasks are in flight, and pending and completed indexes stay the window between output and input |
| `Pipeline.Collect` | src/basilisp/concurrent_channel.py:378-390 | Finished tasks move to the completed results with their own result or the handler's replacement, or the first unhandled failure stops |
| `Pipeline.Flush` | src/basilisp/concurrent_channel.py:392-396 | Results are emitted strictly in input order, up to the first one missing, the first nil or the first refused put, whichever comes first |
| `Agent.StepOk` | src/basilisp/lang/agent.py:109-315 | Every lock section of every thread keeps the whole invariant |
| `Agent.OneAtATime` | src/basilisp/lang/agent.py:200-315 | In every run the active flag is set exactly while one thread works for the agent, never two do, and a started thread always finds its action |
| `Agent.SubmissionOrder` | src/basilisp/lang/agent.py:109-129 | Accepted actions leave the queue in submission order, each once, whatever the executor refuses or drops and whatever restarts clear |
| `Agent.SerialState` | src/basilisp/lang/agent.py:236-315 | The state is the fold of the successful actions, in starting order, over the last initial or restart value |
| `Agent.NoForgottenWork` | src/basilisp/lang/agent.py:162-188 | Queued work waits without a thread only after a failure was left standing in fail mode |
| `AgentFailures.ErrorIsLastFailure` | src/basilisp/lang/agent.py:109-315 | In every run the error is that of the last failure that began to be handled, unless it was cleared, the agent restarted or its handler returned in continue mode since |
| `AgentFailures.ModeIsAsked` | src/basilisp/lang/agent.py:190-194 | In every run the error mode is the one last asked for |
| `AgentFailures.SubmissionAccepted` | src/basilisp/lang/agent.py:109-129 | A submission is refused, changing nothing, exactly by an agent with an error in fail mode |
| `AgentFailures.FailedAgentRefuses` | src/basilisp/lang/agent.py:109-117 | From a failure in fail mode until it is cleared, the agent restarted or its mode changed, no submission is accepted and none changes anything |
| `AgentFailures.FailedAgentRests` | src/basilisp/lang/agent.py:286-315 | Once a failure is handled in fail mode, state, queue and threads stay as they are until then |
| `AgentFailures.HandlerEnds` | src/basilisp/lang/agent.py:286-309 | In continue mode a handler that returns leaves no error and one that raises leaves it, and work goes on; in fail mode the error stands and nothing begins |
| `AgentFailures.ActionEnds` | src/basilisp/lang/agent.py:236-284 | An action that returns sets the state and lets the next one begin; one that raises changes nothing and is handled as a failure |
| `AgentFailures.RestartDoes` | src/basilisp/lang/agent.py:162-188 | A restart is accepted exactly while nothing runs and the new state is valid; it then sets the state, forgets the error, and clears or resumes the queue |
| `AgentFailures.SubmissionGoesOn` | src/basilisp/lang/agent.py:117-129 | An action submitted to an idle agent begins at once, one submitted to a busy agent waits behind the others |
| `Agent.AgentObject.SubmitAction` | src/basilisp/lang/agent.py:109-129 | The lock section of `submit` on the object's fields, including the refusal by a failed agent |
| `Agent.AgentObject.RestartAgent` | src/basilisp/lang/agent.py:162-188 | The lock section of `restart`: refused while active or for an invalid state, else state, error and queue are reset and the next action scheduled |
| `Agent.AgentObject.TakeAction` | src/basilisp/lang/agent.py:236-244 | The first section of `_run_one` |
| `Agent.AgentObject.PublishState` | src/basilisp/lang/agent.py:261-277 | The last section of `_run_one` |
| `Agent.AgentObject.FinishFailure` | src/basilisp/lang/agent.py:297-309 | The last section of `_handle_failure`, in both error modes and for a raising handler |
| `Agent.AgentObject.DropUnstartedAction` | src/basilisp/lang/agent.py:219-234 | The section that removes an action whose task never started |
| `Hashing.DecimalHashCanonical` | src/basilisp/lang/hashing.py:109-135 | Decimals equal as numbers reduce to one coefficient and scale, so they hash alike |
| `Hashing.SumPermuted` | src/basilisp/lang/hashing.py:202-210 | The wrapped sum does not depend on the order of the members |
| `Hashing.Equivalence` | src/basilisp/lang/equality.py:40-48 | Language equality is symmetric and transitive on nested values although set and map equality look for one side's members in the other |
| `Hashing.EqualHash` | src/basilisp/lang/hashing.py:219-268 | Equal values hash equally, for any nesting of integers, ratios, decimals, strings, sequences, sets and maps in any iteration order |
| `Hashing.HashOrdered` | src/basilisp/lang/hashing.py:191-199 | The loop computes the hash of the sequence |
| `Hashing.HashUnordered` | src/basilisp/lang/hashing.py:202-210 | The loop computes the hash of the set |
| `Hashing.HashMapping` | src/basilisp/lang/hashing.py:255-264 | The map loop computes the hash of the map |
| `Hashing.BigIntegerHashLoop` | src/basilisp/lang/hashing.py:75-88 | Splitting into words and folding them back is the recursive 31-based hash of the magnitude, with the sign |
| `Hashing.DecimalHashLoop` | src/basilisp/lang/hashing.py:109-135 | Both digit loops together compute the canonical decimal hash |
| `Hashing.AnyOrder` | src/basilisp/lang/equality.py:40-48 | Sets with the same members and maps with the same entries are equal in whatever order |
| `Hashing.NumbersEqual` | src/basilisp/lang/equality.py:20-37 | 1 equals 1/1 but not 1.0, which equals 1.00 |
| `HashNumbers.FoldIsPolynomial` | src/basilisp/lang/hashing.py:191-199 | The fold of a sequence is a polynomial in 31 over its members' hashes, wrapped to 32 bits |
| `HashNumbers.MixInjective` | src/basilisp/lang/hashing.py:213-216 | The final mix loses nothing: collections of one size collide only when their folds do |
| `HashNumbers.SequencesCollide` | src/basilisp/lang/hashing.py:191-216 | Two sequences of one length hash alike exactly when their polynomials agree modulo 2^32 |
| `HashNumbers.SetsCollide` | src/basilisp/lang/hashing.py:202-216 | Two sets of one size hash alike exactly when the wrapped sums of their members' hashes agree |
| `HashNumbers.OrderMatters` | src/basilisp/lang/hashing.py:191-216 | Exchanging two neighbours leaves the hash of a sequence the same exactly when their hashes differ by a multiple of 2^31 |
| `HashValues.HashOfOne` | src/basilisp/lang/hashing.py:64-70 | The hash of 1 is 1392991556 |
| `HashValues.HashOfString` | src/basilisp/lang/hashing.py:143-160 | The hash of the string abc is 74834163 |
| `HashValues.HashOfDecimals` | src/basilisp/lang/hashing.py:109-135 | The hashes of the decimals 1.5 and -1 are 466 and -31 |
| `HashValues.HashOfBigIntegers` | src/basilisp/lang/hashing.py:73-94 | The hashes of 2^63, 2^64 and -2^64, just beyond 64 bits, are -2^31, 961 and -961 |
| `HashValues.HashOfOneTwoThree` | src/basilisp/lang/hashing.py:191-216 | The hashes of the sequence and of the set of 1, 2 and 3 are 736442005 and 439094965 |
| `HashValues.EntryAsSequence` | src/basilisp/lang/hashing.py:252-264 | An entry of a map hashes as the sequence of its key and its value |
| `Decimals.Canonical` | src/basilisp/lang/hashing.py:118-131 | Two writings of one nonzero number differ only in trailing zeros |
| `ExactDecimal.Divide` | src/basilisp/lang/numbers.py:84-117 | The quotient is exact, has the fewest extra decimal places, and Inexact is raised exactly when there is no finite expansion; both factor-stripping loops end |
| `ExactDecimal.QuotientTimesDivisor` | src/basilisp/lang/numbers.py:71-117 | Quotient times divisor is the dividend as a number |
| `ExactDecimal.ProductOverFactor` | src/basilisp/lang/numbers.py:71-117 | Dividing a product by a nonzero factor always succeeds and gives the other factor back, digit for digit |
| `ExactDecimal.QuotientUnique` | src/basilisp/lang/numbers.py:84-117 | The quotient is determined by its specification |
| `ExactDecimal.AddThenSubtract` | src/basilisp/lang/numbers.py:53-68 | Subtracting what was added gives the first decimal back as a number |
| `ExactDecimal.AddValue` | src/basilisp/lang/numbers.py:52-68 | A sum or a difference is worth the sum or the difference of its operands, to any smaller unit, and is written down to the smaller exponent |
| `ExactDecimal.MultiplyValue` | src/basilisp/lang/numbers.py:71-81 | A product is worth the product of its operands |
| `ExactDecimal.OperationsOnNumbers` | src/basilisp/lang/numbers.py:52-81 | Equal numbers, however written, give equal sums, differences and products |
| `ExactDecimal.MultiplyDistributes` | src/basilisp/lang/numbers.py:52-81 | A product of a sum or difference is the sum or difference of the products, digit for digit |
| `LazySeq.Chain.Generate` | rust/src/basilisp_native/seq.rs:147-159 | Calling a cell's generator once creates at most one new cell and pulls at most one element |
| `LazySeq.Chain.ComputeSeq` | rust/src/basilisp_native/seq.rs:471-517 | The generator runs at the first call only; later calls return the memoized value |
| `LazySeq.Chain.Seq` | rust/src/basilisp_native/seq.rs:519-562 | `seq` looks through delegated lazy sequences, realizes the cell to its final value, changes no realized cell, and produces at most the one element asked for |
| `LazySeq.Walker.Next` | rust/src/basilisp_native/seq.rs:199-222 | An iterator yields the next element of the whole sequence or ends at its end, pulling no more than that needs |
| `LazySeq.Interleave` | rust/src/basilisp_native/seq.rs:199-222 | Any interleaving of walkers over one single-use iterator, ending or not: each sees all elements in order, each cell calls its generator at most once, the iterator is never ahead of the furthest walker, and a realized cell never changes |
| `LruCache.OldestIsFront` | src/basilisp/core_cache.py:258-261 | The victim of the tick table is the front of the recency queue, ties included |
| `LruCache.HitRefines` | src/basilisp/core_cache.py:247-252 | A hit moves a present key to the end of the queue and changes no entry |
| `LruCache.MissRefines` | src/basilisp/core_cache.py:254-265 | A miss drops the front of a full queue, or refreshes a present key, and stores the value |
| `LruCache.EvictRefines` | src/basilisp/core_cache.py:267-274 | An eviction removes the key from cache and queue |
| `LruCache.SeedRefines` | src/basilisp/core_cache.py:276-278 | Seeded keys queue in insertion order |
| `LruCache.KeepsMostRecent` | src/basilisp/core_cache.py:654-674 | From an empty cache under through accesses, a key is present exactly when fewer than `limit` other keys were used since its last use, with the value of the access that last found it absent, whatever the value functions give over time |
| `LruCache.LargerIncludesSmaller` | src/basilisp/core_cache.py:247-265 | On one trace of keys a larger cache always includes a smaller one, whatever the values, and no cache exceeds its limit |
| `LruCache.WrappedCache.ThroughCache` | src/basilisp/core_cache.py:654-674 | The atom takes the hit or miss transition; a raising value function leaves it unchanged |
| `LruCache.WrappedCache.LookupOrMiss` | src/basilisp/core_cache.py:627-651 | A present value is returned without computing or counting a use; an absent one is computed once and stored; a raising value function leaves the atom unchanged |
| `TtlCache.Prune` | src/basilisp/core_cache.py:329-337 | The loop drops exactly the expired front of the queue and collects the keys whose current generation is in it |
| `TtlCache.StaleIsOld` | src/basilisp/core_cache.py:329-337 | A key is pruned exactly when its own entry is older than the ttl, never because of an older record |
| `TtlCache.MissDropsOld` | src/basilisp/core_cache.py:339-353 | A miss keeps the queue invariant and leaves exactly the entries not older than the ttl, plus its own |
| `TtlCache.EvictValid` | src/basilisp/core_cache.py:355-366 | An eviction keeps the queue invariant |
| `TtlCache.SeedValid` | src/basilisp/core_cache.py:368-379 | A seed keeps the queue invariant |
| `TtlCache.LookupIsLastWrite` | src/basilisp/core_cache.py:319-379 | After any run of misses, evictions and seeds a lookup finds the last write to its key exactly while that is younger than the ttl |
| `StreamReader.LocMeans` | src/basilisp/lang/reader.py:293-303 | The line counts the line ends before a position and the column the characters since the last one, so both are functions of the position |
| `StreamReader.CrLfEndsOnce` | src/basilisp/lang/reader.py:296-300 | CR LF ends one line |
| `StreamReader.OneCharacter` | src/basilisp/lang/reader.py:293-303 | A line feed, or a carriage return without one, starts a new line at column 0; any other character moves one column on |
| `StreamReader.StreamReader.constructor` | src/basilisp/lang/reader.py:245-266 | A new reader is the cursor at position 0 |
| `StreamReader.StreamReader.UpdateLoc` | src/basilisp/lang/reader.py:293-303 | The location deques stay the locations of the buffered characters |
| `StreamReader.StreamReader.Peek` | src/basilisp/lang/reader.py:305-307 | `peek` is the character at the cursor, or an IndexError before the text |
| `StreamReader.StreamReader.Location` | src/basilisp/lang/reader.py:272-286 | Line and column are those of the cursor's position |
| `StreamReader.StreamReader.Pushback` | src/basilisp/lang/reader.py:309-313 | Pushback moves the cursor back by one exactly while the depth allows it |
| `StreamReader.StreamReader.NextChar` | src/basilisp/lang/reader.py:325-334 | The cursor moves on by one, and the stream is read only at the front |
| `StreamReader.StreamReader.Advance` | src/basilisp/lang/reader.py:315-323 | `advance` returns the character the cursor was on |
| `StreamReader.StreamReader.UnreadCount` | src/basilisp/lang/reader.py:288-291 | The stream's position minus the unread count is the cursor's position in the text |
| `StreamReader.StreamReader.SourceRead` | src/basilisp/lang/reader.py:2133-2136 | The source cut out is exactly the text the cursor has passed |
| `SyntaxQuote.ProcessGrows` | src/basilisp/lang/reader.py:1469-1523 | Processing succeeds exactly for templates whose unquotes have a form and whose splices stand inside a collection; each new `x#` gets a number never used before |
| `SyntaxQuote.ProcessMeans` | src/basilisp/lang/reader.py:1442-1523 | Evaluating the expansion gives the template with unquotes replaced and splices inlined, at any depth, with every use of one `x#` the same symbol |
| `SyntaxQuote.GeneratedDiffer` | src/basilisp/lang/util.py:271-274 | Different numbers give different generated symbols whatever the names |
| `SyntaxQuote.QuoteMeans` | src/basilisp/lang/reader.py:1526-1532 | A whole syntax quote: accepted exactly when quotable, means the filled-in template, different `x#` differ and differ from all symbols generated before |
| `SyntaxQuote.MapFilled` | src/basilisp/lang/reader.py:1508-1510 | A map template without splices becomes the map with every key and value filled in in place |
| `SyntaxQuote.CollectionBuilt` | src/basilisp/lang/reader.py:1502-1510 | An empty list template is nil, a set has each part once, a map each key once with its last value, and a key without a value raises |
| `SyntaxQuote.SpliceContributes` | src/basilisp/lang/reader.py:1462-1463 | A splice contributes the items of a sequence, the entries of a map, the characters of a string, and nothing for nil; a symbol raises |
| `SyntaxQuote.GeneratedName` | src/basilisp/lang/util.py:271-274 | A generated symbol is the name without its mark, an underscore and the number in decimal |
| `SyntaxQuote.RefusedFor` | src/basilisp/lang/reader.py:1497-1501 | A refused quote is a splice that stands alone, or else has an unquote or a splice without a form |
| `SyntaxQuote.ReaderContext.ProcessForm` | src/basilisp/lang/reader.py:1469-1523 | The reader's method with its in-place gensym dictionary returns the same code, environment and errors |
| `SyntaxQuote.ReaderContext.ExpandForms` | src/basilisp/lang/reader.py:1442-1466 | The expansion loop returns the codes of the elements in order, or the first error |
| `XmlEvents.FlattenElements` | src/basilisp/data_xml.py:451-513 | The explicit-stack flattener ends and yields exactly the events of the recursive depth-first flattening, failing at the same point |
| `XmlEvents.FlatFails` | src/basilisp/data_xml.py:488-492 | Flattening raises exactly when the tree contains a map that is not an element |
| `XmlEvents.EventTree` | src/basilisp/data_xml.py:516-542 | The stack-based builder returns the first tree, or the error, and has consumed nothing after it |
| `XmlEvents.BuilderStops` | src/basilisp/data_xml.py:516-542 | The builder stops at the end of the first element, where ends first balance starts, or after a whole node; it fails exactly on a first event that ends an element and on an element never closed |
| `XmlEvents.RoundTrip` | src/basilisp/data_xml.py:451-556 | Rebuilding a flattened tree takes none of the events that follow and gives its normal form, which is the tree itself exactly when every element has an attribute map, no content is empty, and there are no scalars or nested sequences |
| `XmlEvents.AttrsAppear` | src/basilisp/data_xml.py:544-556 | The failing instance: an element made without attributes comes back with an empty attribute map |
| `XmlEvents.EventsRoundTrip` | src/basilisp/data_xml.py:451-542 | The tree built from events is canonical, and flattening it gives back the events used up exactly when every end has its start's tag and does not follow it at once; otherwise it gives them with these two repaired |
| `Base64.DecodeBytes` | src/basilisp/data_codec_base64.py:99-127 | The loop over the output buffer decodes every whole group and fails exactly on a lone pad, a negative length or a byte beyond the table |
| `Base64.RoundTrip` | src/basilisp/data_codec_base64.py:18-32 | Decoding an encoding gives the bytes back for every byte string, and `enc_length`, `dec_length` and `pad_length` are exact |
| `Base64.AlphabetTable` | src/basilisp/data_codec_base64.py:9-15 | Encoder and decoder use the alphabet of table 1 of RFC 4648 |
| `Base64.QuadIsNumber` | src/basilisp/data_codec_base64.py:35-50 | Four letters write three bytes as a number in base 64, the highest digit first |
| `Base64.TestVectors` | src/basilisp/data_codec_base64.py:35-50 | The test vectors of section 10 of RFC 4648 |
| `Base64.DecodesOrRaises` | src/basilisp/data_codec_base64.py:22-32 | The decoder raises exactly on a single pad, a pad without a group and a byte beyond the letter z in a whole group; all else decodes to three bytes a group less one for each pad |
| `Base64.EncodeAppend` | src/basilisp/data_codec_base64.py:83-88 | Encoding distributes over whole groups of three bytes |
| `Base64.ReadFully` | src/basilisp/data_codec_base64.py:130-140 | Whatever short reads the stream makes, the result is the next `size` bytes or all that are left |
| `Base64.EncodingTransfer` | src/basilisp/data_codec_base64.py:83-88 | For every positive multiple of 3 the output is the encoding of the whole input; size 0 writes nothing; other sizes are refused |
| `Base64.DecodingTransfer` | src/basilisp/data_codec_base64.py:91-96 | The output is the chunk-by-chunk decoding up to the first error; sizes that are not multiples of 4 are refused |
| `Base64.ChunksInvert` | src/basilisp/data_codec_base64.py:91-96 | Chunked decoding inverts encoding for every positive multiple of 4 |
| `MultiFn.BestDominates` | src/basilisp/lang/multifn.py:113-127 | When precedence is transitive among the keys that match, the key found precedes all of them |
| `MultiFn.Misled` | src/basilisp/lang/multifn.py:118-127 | Every failure of transitivity among three keys gives an order in which the key found does not precede all of them |
| `MultiFn.DominatesIffTransitive` | src/basilisp/lang/multifn.py:118-127 | Whatever keys of a family match, the key found precedes all of them, exactly when precedence is transitive in the family |
| `MultiFn.SearchSucceeds` | src/basilisp/lang/multifn.py:118-127 | The search succeeds in an order exactly when every prefix of the matching keys has a key that precedes the whole prefix |
| `MultiFn.OrderIndependent` | src/basilisp/lang/multifn.py:118-127 | Two successful searches over the same keys in different orders find keys that precede each other |
| `MultiFn.AnswerChooses` | src/basilisp/lang/multifn.py:113-135 | The uncached answer is the method of a matching key ahead of all matching keys, or the default when none matches, or an error when some match |
| `MultiFn.MostSpecificWins` | src/basilisp/lang/multifn.py:101-135 | Without preferences the method found is that of the key that `isa?` puts below all other matching keys, and dispatch fails only when two of them are unrelated |
| `MultiFn.NoneMoreSpecific` | src/basilisp/lang/multifn.py:101-135 | With preferences every other matching key is above the chosen one or outranked by one of its preferences, so none below it goes unanswered |
| `MultiFn.FailsOnIncomparable` | src/basilisp/lang/multifn.py:118-127 | A dispatch that fails has met two matching keys that neither `isa?` nor a preference puts in order |
| `MultiFn.OrderMattersIff` | src/basilisp/lang/multifn.py:113-135 | When matching keys are comparable the order of the methods makes no difference exactly when one key alone precedes all the others |
| `MultiFn.ChoicePrecedesAll` | src/basilisp/lang/multifn.py:101-127 | For one dispatch value, the key chosen precedes every matching key whatever the methods and their order, exactly when precedence is transitive among the keys it is an instance of |
| `MultiFn.TableCanChoose` | src/basilisp/lang/multifn.py:113-135 | For one table, the keys that some order of the method map makes dispatch choose are exactly the last of the possible chains of leads |
| `MultiFn.TableNeverMisleads` | src/basilisp/lang/multifn.py:113-135 | For one table, the key chosen precedes every matching key in every order exactly when every possible chain of leads ends in such a key |
| `MultiFn.AnswersInEveryOrder` | src/basilisp/lang/multifn.py:113-135 | A value is dispatched whatever the order of the method map exactly when any two matching keys are comparable |
| `MultiFn.AnswersInSomeOrder` | src/basilisp/lang/multifn.py:113-135 | A value is dispatched in some order exactly when no key matches or one precedes all that match |
| `MultiFn.DominatorMissed` | src/basilisp/lang/multifn.py:118-127 | A table with two preferences whose preferred key is missed in one order of the methods and found in another |
| `MultiFn.ParentAndChild` | src/basilisp/lang/multifn.py:101-124 | The method of a rectangle wins over that of a shape in both orders; a preference for the shape leaves the choice to the order |
| `MultiFn.NotTransitive` | src/basilisp/lang/multifn.py:101-127 | A table with two preferences for which the method of a key that does not precede every matching key is chosen, and no key does |
| `MultiFn.MultiFunction.AddMethod` | src/basilisp/lang/multifn.py:106-111 | Adding a method keeps the cache coherent |
| `MultiFn.MultiFunction.PreferMethod` | src/basilisp/lang/multifn.py:149-164 | A preference is refused exactly when the opposite one exists, so no two keys are preferred to each other; the cache stays coherent |
| `MultiFn.MultiFunction.RemoveMethod` | src/basilisp/lang/multifn.py:171-178 | Removing a method returns it and keeps the cache coherent |
| `MultiFn.MultiFunction.RemoveAllMethods` | src/basilisp/lang/multifn.py:180-185 | Methods and preferences are cleared together |
| `MultiFn.MultiFunction.FindBest` | src/basilisp/lang/multifn.py:115-127 | The search loop is the search over the matching keys in enumeration order |
| `MultiFn.MultiFunction.GetMethod` | src/basilisp/lang/multifn.py:137-147 | After any additions, removals, preferences, hierarchy changes and lookups the answer equals the uncached one |

## Left out

- StmTransaction.Transaction: the retry loop of `run_transaction` is a step of `StmRuns`, not a method, because other transactions move between its iterations.
- Impure commute functions and validators that read other Refs, watches and after-commit actions that raise, ref history controls, and nested `run_transaction` calls.
- ChannelObjects.Select: stops where `alts` awaits; waking up only discards inactive waiters, which is an event of `ChannelRuns` at any later time.
- Timeout channels, the binding of a channel to one event loop, `pipe`, and a value lost when a task is cancelled after its future was resolved; nil values are excluded by the type of channel values.
- Pipeline.Run: worker tasks and the error handler are total functions to a result or an exception; a transducer that catches the refusal of a nil it emits, and cancelling the pipeline task itself, are not modelled.
- Agent.AgentObject: an executor that runs a submitted action inside its own `submit` call, watch callbacks that raise, and `await_completion` are not modelled; actions and validators are functions of the state.
- Agent.NoForgottenWork: the history flag `halted` is set when a failure handler ends in fail mode and cleared by the next scheduling or restart; clearing the error alone does not resume the queue, as in the program.
- Hashing.EqualHash: floats, NaN and infinities, characters, symbols, keywords, records and host objects are not modelled; membership in a set or map is equality with some member, without the host's hash buckets.
- Hashing.HashMapping: the persistent map underneath is any finite sequence of entries with distinct keys.
- ExactDecimal.Divide: infinities, NaN and a zero divisor are handed to Python's decimal division, and the context-limited `quotient`, `remainder` and `modulus` are not modelled.
- LazySeq.Chain: a cell leads only to a new cell of its own chain, so a generator that returns a lazy sequence that is already shared is not modelled.
- LazySeq.Chain.ComputeSeq: generators that raise, and a cell that is asked for while it is being computed (cyclic sequences), are not modelled; one reentrant lock per cell makes each call one step.
- LruCache.MissRefines: the cache key is one abstract type with one equality; numeric keys of different families are not distinguished.
- The FIFO, LU and LIRS policies, soft caches, and `assoc` on caches outside the through discipline.
- TtlCache.LookupIsLastWrite: the clock does not go back; its first reading is any time, negative or not.
- StreamReader.StreamReader: a pushback depth of one is not modelled; newline translation and the trimming of the source text are not modelled.
- SyntaxQuote.ProcessMeans: symbol resolution, metadata of generated symbols, and side effects of unquoted code during evaluation are not modelled; sets and maps are built by structural equality of forms.
- Reading of literals, tagged literals, reader conditionals and comments.
- XmlEvents.FlattenElements: namespace environments, qualified names, raw events and keyword nodes among the elements, bytes decoding, laziness of the generator, and iterables other than finite sequences are not modelled.
- ElementTree and SAX parsing, and XML output.
- Base64.DecodingTransfer: sources that are not bytes, destination buffers, and offsets are not modelled.
- MultiFn.MultiFunction.GetMethod: one step; a hierarchy that changes between the check and the search, or nil dispatch values, are not modelled.
