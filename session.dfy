/** The whole measurement session (test/gas/index.js:15-230): a fresh report,
    the baseline hooks, then for each level N = 1..MAX_SYNTHS a fresh entry
    under the key `N_synths`, the escalation step and the measurement loop. */
module Session {
  import opened Decimal
  import opened Schedule
  import opened Level
  import opened Synths

  /** The report key of level `numSynths`: `${numSynths}_synths`. */
  function LevelKey(numSynths: nat): string
  {
    NatToString(numSynths) + "_synths"
  }

  /** Different levels never share a report entry. */
  lemma LevelKeyInjective(m: nat, n: nat)
    ensures LevelKey(m) == LevelKey(n) ==> m == n
  {
    if LevelKey(m) == LevelKey(n) {
      var a, b := NatToString(m), NatToString(n);
      assert |a| == |b|;
      assert a == LevelKey(m)[..|a|];
      assert b == LevelKey(n)[..|b|];
      RenderInjective(m, n);
    }
  }

  /** The keys of levels 1..`level`. */
  function LevelKeys(level: nat): set<string>
  {
    set n | 1 <= n <= level :: LevelKey(n)
  }

  /** Level `level + 1` adds a key that no earlier level used. */
  lemma LevelKeysGrow(level: nat)
    ensures LevelKey(level + 1) !in LevelKeys(level)
    ensures LevelKeys(level + 1) == LevelKeys(level) + {LevelKey(level + 1)}
  {
    forall n | 1 <= n <= level ensures LevelKey(n) != LevelKey(level + 1) {
      LevelKeyInjective(n, level + 1);
    }
  }

  /** The in-memory `data` object that the harness writes out. */
  class Report {
    var data: map<string, LevelEntry>

    /** 'prepare data file': `data = {}` (the file removal is not modelled). */
    constructor ()
      ensures data == map[]
    {
      data := map[];
    }

    /** 'prepare data': `target = data[`${numSynths}_synths`] = { ... }`. */
    method PrepareLevel(numSynths: nat) returns (target: LevelEntry)
      modifies this
      ensures fresh(target) && fresh(target.Repr())
      ensures target.Valid() && target.Samples() == EmptyTally
      ensures data == old(data)[LevelKey(numSynths) := target]
    {
      target := new LevelEntry();
      data := data[LevelKey(numSynths) := target];
    }
  }

  /** What level `numSynths`'s entry holds once its test body has run on
      `rounds`: the samples recorded into four empty categories. */
  ghost predicate LevelRecorded(entry: LevelEntry, numSynths: nat, rounds: seq<Round>)
    reads entry.Repr()
  {
    entry.Valid() && entry.Samples() == EmptyTally.Extend(Recorded(Steps(numSynths, rounds)))
  }

  /** What a recorded level entry looks like in the written report: claiming
      stays `{ measurements: [], avg: 0 }`, so does exchanging at level 1, and
      a level whose submissions were all accepted holds NUM_MEASUREMENTS
      minting and burning samples and 2 * NUM_MEASUREMENTS exchanging samples
      from level 2 on. */
  lemma RecordedEntryShape(entry: LevelEntry, numSynths: nat, rounds: seq<Round>)
    requires |rounds| == NUM_MEASUREMENTS
    requires LevelRecorded(entry, numSynths, rounds)
    ensures entry.claiming.measurements == [] && entry.claiming.avg == 0.0
    ensures numSynths < 2 ==> entry.exchanging.measurements == [] && entry.exchanging.avg == 0.0
    ensures Completes(Steps(numSynths, rounds)) ==>
      |entry.minting.measurements| == NUM_MEASUREMENTS &&
      |entry.burning.measurements| == NUM_MEASUREMENTS &&
      |entry.exchanging.measurements| == if numSynths >= 2 then 2 * NUM_MEASUREMENTS else 0
  {
    var samples := Recorded(Steps(numSynths, rounds));
    assert entry.Samples().Get(Claiming) == Values(samples, Claiming);
    NeverRecorded(numSynths, rounds, Claiming);
    if numSynths < 2 {
      assert entry.Samples().Get(Exchanging) == Values(samples, Exchanging);
      NeverRecorded(numSynths, rounds, Exchanging);
    }
    if Completes(Steps(numSynths, rounds)) {
      LevelSampleCounts(numSynths, rounds);
      assert entry.Samples().Get(Minting) == Values(samples, Minting);
      assert entry.Samples().Get(Burning) == Values(samples, Burning);
      assert entry.Samples().Get(Exchanging) == Values(samples, Exchanging);
    }
  }

  /** The session-wide `before` hooks: settings, removal of every synth but
      sUSD, initial rates and debt snapshot. */
  method EstablishBaseline(chain: Chain)
    modifies chain
    ensures chain.synths == Retain(old(chain.synths), SynthsToRemove(old(chain.synths)))
    ensures forall k :: k in chain.synths ==> k == SUSD
    ensures chain.txs == old(chain.txs) + BaselineTxs(old(chain.synths))
  {
    TweakSettings(chain);
    var removed := RemoveAllSynths(chain);
    SetInitialRates(chain);
    if !removed {
      RetainNothing(old(chain.synths));
    }
  }

  /** The `describe` block of level `numSynths`: 'prepare data', 'add
      synths', then 'take measurements' with submission outcomes `rounds`.
      Nothing but the report, the chain and the new entry changes. */
  method RunLevel(report: Report, chain: Chain, numSynths: nat, rounds: seq<Round>) returns (completed: bool)
    requires |rounds| == NUM_MEASUREMENTS
    requires forall key :: key in report.data ==> key != LevelKey(numSynths) && report.data[key].Valid()
    modifies report, chain
    ensures forall key :: key in old(report.data) ==> (key in report.data &&
      report.data[key] == old(report.data[key]) && report.data[key].Valid()
      && report.data[key].Samples() == old(report.data[key].Samples()))
    ensures LevelKey(numSynths) in report.data
    ensures report.data == old(report.data)[LevelKey(numSynths) := report.data[LevelKey(numSynths)]]
    ensures fresh(report.data[LevelKey(numSynths)].Repr())
    ensures LevelRecorded(report.data[LevelKey(numSynths)], numSynths, rounds)
    ensures completed == Completes(Steps(numSynths, rounds))
    ensures chain.synths == Escalate(old(chain.synths), numSynths)
    ensures chain.txs == old(chain.txs) + EscalationTxs(old(chain.synths), numSynths)
  {
    ghost var entries := report.data;
    var target := report.PrepareLevel(numSynths);
    var added := AddSynths(chain, numSynths);
    completed := TakeMeasurements(target, numSynths, rounds);
    forall key | key in entries
      ensures entries[key].Valid() && entries[key].Samples() == old(entries[key].Samples())
    {
      var entry := entries[key];
      assert old(allocated(entry));
      assert unchanged(entry.minting, entry.burning, entry.exchanging, entry.claiming);
    }
  }

  /** The session: baseline hooks on `chain`, then the ten levels, level N
      measured with the submission outcomes `outcomes[N - 1]`. A level whose
      test body fails on a rejected submission keeps what it recorded so far,
      and the next level still runs. */
  method RunSession(chain: Chain, outcomes: seq<seq<Round>>) returns (report: Report)
    requires |outcomes| == MAX_SYNTHS
    requires forall n :: 0 <= n < MAX_SYNTHS ==> |outcomes[n]| == NUM_MEASUREMENTS
    modifies chain
    ensures fresh(report)
    ensures report.data.Keys == LevelKeys(MAX_SYNTHS)
    ensures forall n :: 1 <= n <= MAX_SYNTHS ==> LevelRecorded(report.data[LevelKey(n)], n, outcomes[n - 1])
    ensures chain.synths == EscalateThrough(Retain(old(chain.synths), SynthsToRemove(old(chain.synths))), MAX_SYNTHS)
    ensures chain.txs == old(chain.txs) + BaselineTxs(old(chain.synths))
      + EscalationLog(Retain(old(chain.synths), SynthsToRemove(old(chain.synths))), MAX_SYNTHS)
  {
    report := new Report();

    EstablishBaseline(chain);
    ghost var baseline := chain.synths;
    ghost var sent := chain.txs;
    assert report.data.Keys == LevelKeys(0);

    for numSynths := 1 to MAX_SYNTHS + 1
      invariant report.data.Keys == LevelKeys(numSynths - 1)
      invariant forall n :: 1 <= n < numSynths ==> LevelRecorded(report.data[LevelKey(n)], n, outcomes[n - 1])
      invariant chain.synths == EscalateThrough(baseline, numSynths - 1)
      invariant chain.txs == sent + EscalationLog(baseline, numSynths - 1)
    {
      AdvanceSession(report, chain, numSynths, outcomes);
      assert chain.txs == sent + (EscalationLog(baseline, numSynths - 1)
        + EscalationTxs(EscalateThrough(baseline, numSynths - 1), numSynths));
    }
  }

  /** One pass of the session's level loop: runs level `numSynths` on a
      report that holds levels 1..numSynths-1, which stay as recorded. */
  method AdvanceSession(report: Report, chain: Chain, numSynths: nat, outcomes: seq<seq<Round>>)
    requires 1 <= numSynths <= |outcomes|
    requires |outcomes[numSynths - 1]| == NUM_MEASUREMENTS
    requires report.data.Keys == LevelKeys(numSynths - 1)
    requires forall n :: 1 <= n < numSynths ==> LevelRecorded(report.data[LevelKey(n)], n, outcomes[n - 1])
    modifies report, chain
    ensures report.data.Keys == LevelKeys(numSynths)
    ensures forall n :: 1 <= n <= numSynths ==> LevelRecorded(report.data[LevelKey(n)], n, outcomes[n - 1])
    ensures chain.synths == Escalate(old(chain.synths), numSynths)
    ensures chain.txs == old(chain.txs) + EscalationTxs(old(chain.synths), numSynths)
  {
    LevelKeysGrow(numSynths - 1);
    forall key | key in report.data
      ensures key != LevelKey(numSynths) && report.data[key].Valid()
    {
      var n :| 1 <= n < numSynths && key == LevelKey(n);
    }
    label measured:
    var _ := RunLevel(report, chain, numSynths, outcomes[numSynths - 1]);
    forall n | 1 <= n < numSynths
      ensures LevelRecorded(report.data[LevelKey(n)], n, outcomes[n - 1])
    {
      var entry := report.data[LevelKey(n)];
      assert LevelKey(n) in old@measured(report.data);
      assert entry.Samples() == old@measured(entry.Samples());
    }
  }

  lemma {:induction false} RetainNothing(keys: seq<string>)
    ensures Retain(keys, []) == keys
  {
    if keys != [] {
      RetainNothing(keys[1..]);
    }
  }
}
