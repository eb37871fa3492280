# Gas measurement harness — a Dafny model

`test/gas/index.js` is a mocha suite that measures the gas cost of the
Synthetix operations (minting, exchanging and burning; claiming is disabled)
against a live local chain. The system is made to hold 1, 2, …, 10 synths in
turn, and at each level three rounds of operations are measured. The suite
keeps a report `data` that maps `"<N>_synths"` to four category records
`{ measurements, avg }`.

This project models the logic of that harness and leaves the chain out:

- **decimal.dfy** (`Decimal`): how a template literal renders a number in
  decimal (`${numSynths}`), with a parser that is its inverse.
- **stats.dfy** (`GasStats`): the `reduce` sum and the average.
- **recorder.dfy** (`Recorder`): `measureGas` as a method of a mutable
  `Category` record. The record keeps the invariant `avg == Sum / count`.
- **schedule.dfy** (`Schedule`): a pure description of the submissions of a
  level and of the samples they leave. Each submission has an outcome:
  - rejected, which ends the test body;
  - sent, followed by a receipt or a failed `wait()`.
- **level.dfy** (`Level`): the level entry `{ minting, burning, exchanging,
  claiming }` as a class, and the 'take measurements' loop as methods proved
  against `Schedule`.
- **synths.dfy** (`Synths`):
  - the 'remove all synths' filter;
  - the 'add synths' escalation;
  - the settings and rates hooks.

  The remote system is a `Chain` object. It holds the synth keys and the
  log of transactions the harness sent it.
- **session.dfy** (`Session`): the whole suite. It runs the baseline hooks,
  then for each level it prepares a fresh entry under `"<N>_synths"`,
  escalates, and measures.

Transaction outcomes are inputs, one `Round` per iteration. `Round` has one
field for each submission an iteration makes.

Two consequences of the code shape what the model records:

- **Which failures are recorded.** Only a failure inside `tx.wait()` or in
  `toNumber()` records 9000000 (test/gas/index.js:165-170). A rejected
  `await Synthetix.<op>(...)` (test/gas/index.js:183, 191, 199, 223) throws
  before `measureGas` runs and ends that level's test body; mocha goes on
  with the next level. So the model records the sent submissions up to the
  first rejected one.
- **Number of exchanging samples.** From level 2 on, a level whose
  submissions are all accepted records six exchanging samples: two per
  iteration over three iterations (test/gas/index.js:180-206,
  `Schedule.LevelSampleCounts`).

## Model

| member | source | states |
|---|---|---|
| Recorder.GasOf | test/gas/index.js:165-170 | the value `measureGas` pushes for one receipt; its cases are stated by `Recorder.GasOfCases` |
| Recorder.GasOfCases | test/gas/index.js:165-170 | the recorded value is the receipt's cumulative gas when it was mined and fits a JavaScript number, and exactly 9000000 in every other case |
| Recorder.Category.constructor | test/gas/index.js:101-104 | a fresh category has no measurements and average 0, which is its mean |
| Recorder.Category.MeasureGas | test/gas/index.js:163-175 | measurements grow by exactly the recorded value, appended last; avg is again the mean of all measurements; avg equals the running-mean update of the previous average |
| GasStats.Sum | test/gas/index.js:174 | the `reduce` sum of the measurements; stated by `GasStats.SumAppend`, `GasStats.SumBounds` and `GasStats.ElementAtMostSum` |
| GasStats.Mean | test/gas/index.js:173-174 | sum / length, 0 for no samples; stated by `GasStats.MeanBounds`, `GasStats.SampleLiftsMean` and `GasStats.MeanAfterAppend` |
| GasStats.SumAppend | test/gas/index.js:174 | the left-fold sum is additive over concatenation |
| GasStats.SumBounds | test/gas/index.js:174 | when every sample lies in [lo, hi], the sum lies in [count * lo, count * hi] |
| GasStats.ElementAtMostSum | test/gas/index.js:174 | no sample exceeds the sum |
| GasStats.MeanAfterAppend | test/gas/index.js:171-174 | recomputing sum / count after a push equals updating the old average incrementally |
| GasStats.MeanBounds | test/gas/index.js:173-174 | the average of a non-empty category lies between any lower and upper bound of its samples |
| GasStats.SampleLiftsMean | test/gas/index.js:169-174 | every sample, a sentinel included, contributes at least its share sample / count to the average |
| Schedule.RoundSteps | test/gas/index.js:181-225 | the submissions of one loop iteration; their counts and order are stated by `Schedule.RoundStepsCounts` and `Schedule.StepsBlock` |
| Schedule.Steps | test/gas/index.js:180-226 | the submissions of a level, iteration after iteration; stated by `Schedule.StepsCounts`, `Schedule.StepsBlock` and `Schedule.StepsConcat` |
| Schedule.StepsConcat | test/gas/index.js:180-226 | the submissions for the rounds `a` then `b` are those of `a` followed by those of `b`, so each iteration only appends to the level's submissions |
| Schedule.Recorded | test/gas/index.js:182-225 | the samples the level leaves: stated by `Schedule.RecordedIsSentPrefix`, `Schedule.CompletesRecordsAll` and `Schedule.SubmitRejected` |
| Schedule.RecordedIsSentPrefix | test/gas/index.js:182-225 | the recorded samples are, in order, the sent submissions before the first rejected one, each with its receipt's value and category; if fewer are recorded than submitted, the next submission was rejected |
| Schedule.CompletesRecordsAll | test/gas/index.js:165-171 | when no submission is rejected, every submission leaves exactly one sample (failures in wait included) |
| Schedule.SubmitSent | test/gas/index.js:182-185 | a sent submission adds its value to its own category and to no other |
| Schedule.SubmitRejected | test/gas/index.js:183 | a rejected submission records nothing, and nothing after it is recorded |
| Schedule.RoundStepsCounts | test/gas/index.js:181-225 | one iteration submits one mint, two exchanges from level 2 on (none at level 1), one burn and no claim |
| Schedule.StepsCounts | test/gas/index.js:180-226 | over all iterations: one mint and one burn per iteration, two exchanges per iteration from level 2 on, no claim |
| Schedule.StepsBlock | test/gas/index.js:180-226 | iteration i occupies its own contiguous block of submissions, in iteration order: mint first, then the exchanges, burn last |
| Schedule.NeverRecorded | test/gas/index.js:187-219 | claiming never receives a sample, and neither does exchanging at level 1, whatever the outcomes |
| Schedule.LevelSampleCounts | test/gas/index.js:180-226 | with no rejected submission a level ends with 3 minting, 3 burning, 6 exchanging (0 at level 1) and 0 claiming samples |
| Level.LevelEntry.constructor | test/gas/index.js:100-105 | a fresh entry has four distinct empty categories with average 0 |
| Level.MeasureSubmission | test/gas/index.js:182-185 | a sent submission is measured into category k only; a rejected one changes nothing; the entry stays valid |
| Level.MeasureExchanges | test/gas/index.js:188-206 | the two exchanges append what the schedule records for them to exchanging; completion iff neither is rejected |
| Level.MeasureOpening | test/gas/index.js:181-206 | the mint and, from level 2 on, the two exchanges add exactly the samples the schedule records for them; completion iff none is rejected |
| Level.MeasureIteration | test/gas/index.js:181-225 | one pass of the loop body adds exactly the samples the schedule records for that iteration; completion iff no submission is rejected |
| Level.TakeMeasurements | test/gas/index.js:162-227 | after the loop the entry holds exactly the samples recorded for the level's submissions, every avg is its mean, and completion iff no submission is rejected |
| Synths.SynthsToRemove | test/gas/index.js:63-65 | the removal list holds every key except sUSD, each as often as in the input, and sUSD never |
| Synths.RemovalKeepsOrder | test/gas/index.js:63-65 | the removal list keeps the order of the system's key list |
| Synths.BaselineLeavesOnlySUSD | test/gas/index.js:61-78 | an empty removal list means only sUSD is present, and after removal only sUSD is left |
| Synths.RemoveAllSynths | test/gas/index.js:61-78 | a removal is sent iff the removal list is non-empty, and it is sent with exactly that list; otherwise nothing is sent; afterwards only sUSD remains |
| Synths.TweakSettings | test/gas/index.js:50-59 | sends minimum stake time 0, waiting period 0 and rate stale period 1000000000000000, in that order; synths unchanged |
| Synths.SetInitialRates | test/gas/index.js:80-90 | prices SNX and ETH, then takes a debt snapshot; synths unchanged |
| Synths.AddSynths | test/gas/index.js:111-141 | a synth is added iff the system has fewer synths than the level; then exactly one synth `s{N-1}` is added, priced and snapshotted, and these three transactions are appended to the chain's log; otherwise nothing is sent |
| Synths.SynthName | test/gas/index.js:117 | the currency `s{N-1}` of level N; stated by `Synths.SynthNameInjective` and `Synths.SynthNameNotSUSD` |
| Synths.Escalate | test/gas/index.js:116-124 | the keys after one 'add synths' hook; stated by `Synths.EscalateEnsuresAtLeast` and `Synths.EscalateIdempotent` |
| Synths.EscalateThrough | test/gas/index.js:92-141 | the keys after the hooks of levels 1..L in turn; stated by `Synths.EscalateThroughNames` and `Synths.EscalatedNamesDistinct` |
| Synths.EscalateEnsuresAtLeast | test/gas/index.js:116-124 | escalation keeps every existing synth in place, adds at most one, and reaches the level when the system was at most one short |
| Synths.EscalateIdempotent | test/gas/index.js:116-124 | a second escalation at the same level changes nothing when the system was at most one synth short before the first; two or more short, the one-step branch adds `s{N-1}` again |
| Synths.EscalateThroughNames | test/gas/index.js:92-141 | after levels 1..L the system has max(initial, L) synths: the initial ones, then `s{j}` at each position j it lacked |
| Synths.EscalatedNamesDistinct | test/gas/index.js:117 | synths provisioned by different levels have different names |
| Synths.EscalationTxs | test/gas/index.js:116-137 | the transactions one 'add synths' hook sends; stated by `Synths.AddSynths` |
| Synths.EscalationLog | test/gas/index.js:92-141 | the transactions the hooks of levels 1..L send in turn; stated by `Synths.EscalationLogShape` |
| Synths.ProvisionLog | test/gas/index.js:116-137 | an independent reference: levels lo+1..hi each add, price and snapshot `s{N-1}`, in level order; length by `Synths.ProvisionLogLength`, equal to the escalation log by `Synths.EscalationLogShape` |
| Synths.EscalationLogShape | test/gas/index.js:92-141 | starting from k synths, levels 1..L send nothing for levels up to k, then for each level N above k the add, the rate and the snapshot for `s{N-1}`, in level order |
| Synths.ProvisionLogLength | test/gas/index.js:116-137 | the escalation from k synths to level L > k sends exactly 3 * (L - k) transactions, and none when L <= k |
| Synths.BaselineTxs | test/gas/index.js:50-90 | the transactions the session-wide hooks send; stated by `Session.EstablishBaseline` |
| Synths.SynthNameInjective | test/gas/index.js:117 | different levels derive different currency names |
| Synths.SynthNameNotSUSD | test/gas/index.js:117 | a provisioned currency name is never sUSD |
| Decimal.NatToString | test/gas/index.js:117 | the rendering is all decimal digits, with more than one digit iff the number is at least 10 |
| Decimal.ParseRender | test/gas/index.js:117 | parsing the rendered decimal gives the number back |
| Decimal.RenderInjective | test/gas/index.js:100 | different numbers render differently |
| Session.LevelKey | test/gas/index.js:100 | the report key `${numSynths}_synths`; stated by `Session.LevelKeyInjective` and `Session.LevelKeysGrow` |
| Session.LevelKeyInjective | test/gas/index.js:100 | different levels get different report keys |
| Session.LevelKeysGrow | test/gas/index.js:92-100 | level N+1's key is new, and the key set grows by exactly that key |
| Session.Report.constructor | test/gas/index.js:22 | the report starts empty |
| Session.Report.PrepareLevel | test/gas/index.js:99-106 | the level's key maps to a fresh, valid, empty entry, and every other key is unchanged |
| Session.RecordedEntryShape | test/gas/index.js:99-227 | in a recorded entry claiming is empty with avg 0, and so is exchanging at level 1; with no rejection, minting and burning hold 3 samples and exchanging holds 6 from level 2 on |
| Session.EstablishBaseline | test/gas/index.js:50-90 | after the baseline hooks the system holds the input keys minus the removal list, and only sUSD; the transactions sent are the three settings, then the removal only when the removal list is non-empty, then the SNX/ETH rates and a debt snapshot, in that order |
| Session.RunLevel | test/gas/index.js:93-228 | a level adds only its own key, bound to an entry holding exactly what the schedule records for its outcomes; other levels' entries and samples are unchanged; the chain is escalated to the level, and the add, rate and snapshot transactions are sent only when the system had fewer synths than the level |
| Session.AdvanceSession | test/gas/index.js:92-228 | running the next level keeps every earlier level as recorded and adds the new one; the chain is escalated once more, and the log grows by exactly that level's escalation transactions |
| Session.RunSession | test/gas/index.js:15-230 | the report has exactly the keys `1_synths`..`10_synths`; level N's entry holds what its outcomes record; the chain ends at the baseline escalated through level 10; the log holds the baseline transactions followed by the escalation transactions of levels 1..10, in order |

## Left out

- The JSON-RPC provider, the signer and the `ethers` contract objects
  (test/gas/index.js:25-45). They are network clients. Each transaction is
  reduced to its outcome, which the model takes as an input.
- Synth deployment and wiring in `_deploySynth` (test/gas/index.js:120-123,
  232-268). This is remote work with no local logic. Together with
  `addSynth` it is one `AddSynth` transaction.
- How the chain reacts to `removeSynths` and `addSynth`. The model assumes
  the system drops exactly the listed keys and appends the new synth. Every
  baseline and escalation transaction is assumed to succeed. In mocha, a
  failing `before` hook would skip the rest of the suite or of the level.
- Manifest reading (`_getDeploymentFile`), the removal and writing of
  `measurements.json` (test/gas/index.js:18-20, 159), and all `chalk`
  console output. The output includes the `Math.ceil(avg)` printing in the
  'print data' hook (test/gas/index.js:146-157). All of this is I/O.
- The bytes32 encoding of currency keys (`formatBytes32String` /
  `parseBytes32String`). Keys are modelled by their decoded text, so the
  filter compares decoded strings, as the code does.
- Recorder.Category.MeasureGas: the average is an exact rational, not an
  IEEE double. Rounding of a JavaScript sum above 2^53 and of the division
  is not modelled.
- Recorder.GasOfCases: `toNumber()` is assumed to throw exactly for values
  above 2^53 - 1. That is the documented behaviour of `ethers`, whose code is
  not part of this model.
- The operation arguments: 100 to issue, 1 for each exchange leg, 50 to
  burn, and the sUSD/`s{N-1}` exchange pair; and, for `UpdateRates`, the
  `parseEther('1')` rates and the `getBlock()` timestamp
  (test/gas/index.js:81-85, 128-133). They only shape the remote call, whose
  outcome is an input; `UpdateRates` records only the currencies.
- Async/await and mocha hook ordering. The harness runs strictly
  sequentially, so the model runs the hooks and tests as sequential method
  calls in the order mocha runs them.
- The commented-out claiming flow (test/gas/index.js:208-219). It is dead
  code, so claiming stays empty.
