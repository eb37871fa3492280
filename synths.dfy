/** The synth set of the remote system as the harness drives it: the baseline
    removal of every synth but sUSD ('remove all synths',
    test/gas/index.js:61-78) and the one-synth-per-level escalation ('add
    synths', test/gas/index.js:111-141). Currency keys are modelled by their
    decoded text. */
module Synths {
  import opened Decimal

  /** The base currency that is never removed. */
  const SUSD: string := "sUSD"

  // ---------------------------------------------------------------------------
  // Baseline removal

  /** `currencyKeys.filter(key => parseBytes32String(key) !== 'sUSD')`. */
  function SynthsToRemove(keys: seq<string>): (r: seq<string>)
    ensures forall k :: multiset(r)[k] == if k == SUSD then 0 else multiset(keys)[k]
  {
    if keys == [] then []
    else
      assert keys == [keys[0]] + keys[1..];
      (if keys[0] != SUSD then [keys[0]] else []) + SynthsToRemove(keys[1..])
  }

  /** `a` is `b` with some elements left out, the rest in their order. */
  predicate IsSubsequence(a: seq<string>, b: seq<string>)
  {
    if a == [] then true
    else if b == [] then false
    else if a[0] == b[0] then IsSubsequence(a[1..], b[1..])
    else IsSubsequence(a, b[1..])
  }

  /** The removal list keeps the order of the system's key list. */
  lemma {:induction false} RemovalKeepsOrder(keys: seq<string>)
    ensures IsSubsequence(SynthsToRemove(keys), keys)
  {
    if keys != [] {
      RemovalKeepsOrder(keys[1..]);
      var rest := SynthsToRemove(keys[1..]);
      if keys[0] != SUSD {
        assert SynthsToRemove(keys) == [keys[0]] + rest;
        assert ([keys[0]] + rest)[1..] == rest;
      } else {
        assert SynthsToRemove(keys) == rest;
        SubsequenceDropHead(rest, keys);
      }
    }
  }

  lemma SubsequenceDropHead(a: seq<string>, b: seq<string>)
    requires b != [] && IsSubsequence(a, b[1..])
    ensures IsSubsequence(a, b)
  {
    if a != [] && a[0] == b[0] {
      SubsequenceTail(a, b[1..]);
    }
  }

  lemma {:induction false} SubsequenceTail(a: seq<string>, b: seq<string>)
    requires a != [] && IsSubsequence(a, b)
    ensures IsSubsequence(a[1..], b)
  {
    if a[0] == b[0] {
      if a[1..] != [] {
        SubsequenceDropHead(a[1..], b);
      }
    } else {
      SubsequenceTail(a, b[1..]);
      if a[1..] != [] {
        SubsequenceDropHead(a[1..], b);
      }
    }
  }

  /** The keys left by `removeSynths(removed)`: the system's effect of the
      removal call, part of the environment rather than of the harness. */
  function Retain(keys: seq<string>, removed: seq<string>): (r: seq<string>)
    ensures forall k :: k in r <==> k in keys && k !in removed
  {
    if keys == [] then []
    else (if keys[0] in removed then [] else [keys[0]]) + Retain(keys[1..], removed)
  }

  /** Whether the removal branch runs or not, afterwards only sUSD is left. */
  lemma BaselineLeavesOnlySUSD(keys: seq<string>)
    ensures SynthsToRemove(keys) == [] ==> forall k :: k in keys ==> k == SUSD
    ensures forall k :: k in Retain(keys, SynthsToRemove(keys)) ==> k == SUSD
  {
    forall k | k in keys && k != SUSD ensures k in SynthsToRemove(keys) {
      assert multiset(keys)[k] > 0;
    }
  }

  // ---------------------------------------------------------------------------
  // Escalation

  /** The currency given to the synth added for level `index + 1`:
      `s${numSynths - 1}`. */
  function SynthName(index: nat): string
  {
    "s" + NatToString(index)
  }

  lemma SynthNameInjective(i: nat, j: nat)
    ensures SynthName(i) == SynthName(j) ==> i == j
  {
    if SynthName(i) == SynthName(j) {
      assert NatToString(i) == SynthName(i)[1..];
      assert NatToString(j) == SynthName(j)[1..];
      RenderInjective(i, j);
    }
  }

  /** A provisioned synth never clashes with the base currency. */
  lemma SynthNameNotSUSD(i: nat)
    ensures SynthName(i) != SUSD
  {
    var d := NatToString(i);
    assert SynthName(i)[1] == d[0];
    assert IsDigit(d[0]);
  }

  /** The synth list after the 'add synths' step of level `numSynths`. */
  function Escalate(synths: seq<string>, numSynths: nat): seq<string>
  {
    if |synths| < numSynths then synths + [SynthName(numSynths - 1)] else synths
  }

  /** Escalation never removes or reorders a synth, adds at most one, and
      reaches the level when the system was at most one synth short. */
  lemma EscalateEnsuresAtLeast(synths: seq<string>, numSynths: nat)
    ensures Escalate(synths, numSynths)[..|synths|] == synths
    ensures |synths| <= |Escalate(synths, numSynths)| <= |synths| + 1
    ensures |synths| + 1 >= numSynths ==> |Escalate(synths, numSynths)| >= numSynths
  {
  }

  /** Running the step again at the same level changes nothing when the
      system was at most one synth short before the first run; two or more
      short, the one-step branch adds `s{numSynths-1}` a second time. */
  lemma EscalateIdempotent(synths: seq<string>, numSynths: nat)
    ensures |synths| + 1 >= numSynths ==>
      Escalate(Escalate(synths, numSynths), numSynths) == Escalate(synths, numSynths)
    ensures |synths| + 2 <= numSynths ==>
      Escalate(Escalate(synths, numSynths), numSynths) == synths + [SynthName(numSynths - 1), SynthName(numSynths - 1)]
  {
  }

  /** The synth list after the 'add synths' steps of levels 1 to `level`. */
  function EscalateThrough(synths: seq<string>, level: nat): seq<string>
  {
    if level == 0 then synths else Escalate(EscalateThrough(synths, level - 1), level)
  }

  /** After levels 1..`level` the system has `max(|synths|, level)` synths:
      the original ones, then `s{j}` at each position `j` it lacked. */
  lemma {:induction false} EscalateThroughNames(synths: seq<string>, level: nat)
    ensures |EscalateThrough(synths, level)| == if |synths| < level then level else |synths|
    ensures EscalateThrough(synths, level)[..|synths|] == synths
    ensures forall j :: |synths| <= j < level ==> EscalateThrough(synths, level)[j] == SynthName(j)
  {
    if level > 0 {
      EscalateThroughNames(synths, level - 1);
      var before := EscalateThrough(synths, level - 1);
      if |before| < level {
        assert EscalateThrough(synths, level) == before + [SynthName(level - 1)];
      }
    }
  }

  /** Escalating from the baseline, every provisioned synth has its own name. */
  lemma EscalatedNamesDistinct(synths: seq<string>, level: nat, i: nat, j: nat)
    requires |synths| <= i < j < level
    ensures |EscalateThrough(synths, level)| == level
    ensures EscalateThrough(synths, level)[i] != EscalateThrough(synths, level)[j]
  {
    EscalateThroughNames(synths, level);
    SynthNameInjective(i, j);
  }

  // ---------------------------------------------------------------------------
  // The remote system

  /** The transactions the harness sends that change the synth set or its
      prices; deployment and wiring of a new synth are folded into AddSynth. */
  datatype Tx =
    | SetMinimumStakeTime(seconds: nat)
    | SetWaitingPeriodSecs(seconds: nat)
    | SetRateStalePeriod(seconds: nat)
    | RemoveSynths(keys: seq<string>)
    | AddSynth(currency: string)
    | UpdateRates(currencies: seq<string>)
    | TakeDebtSnapshot

  /** The remote system: its synth keys (`availableCurrencyKeys`) and the
      transactions it has received from the harness. */
  class Chain {
    var synths: seq<string>
    var txs: seq<Tx>

    constructor (initial: seq<string>)
      ensures synths == initial && txs == []
    {
      synths := initial;
      txs := [];
    }

    /** `availableSynthCount()` */
    function AvailableSynthCount(): nat
      reads this
    {
      |synths|
    }

    /** Submits `tx` and waits for it; the system applies it to its synths. */
    method Send(tx: Tx)
      modifies this
      ensures txs == old(txs) + [tx]
      ensures synths == match tx
        case RemoveSynths(keys) => Retain(old(synths), keys)
        case AddSynth(currency) => old(synths) + [currency]
        case _ => old(synths)
    {
      txs := txs + [tx];
      match tx {
        case RemoveSynths(keys) => synths := Retain(synths, keys);
        case AddSynth(currency) => synths := synths + [currency];
        case _ =>
      }
    }
  }

  /** 'tweak system settings': no stake or waiting delays, rates never stale. */
  method TweakSettings(chain: Chain)
    modifies chain
    ensures chain.synths == old(chain.synths)
    ensures chain.txs == old(chain.txs)
      + [SetMinimumStakeTime(0), SetWaitingPeriodSecs(0), SetRateStalePeriod(1000000000000000)]
  {
    chain.Send(SetMinimumStakeTime(0));
    chain.Send(SetWaitingPeriodSecs(0));
    chain.Send(SetRateStalePeriod(1000000000000000));
  }

  /** 'remove all synths': removes every key but sUSD in one call, and sends
      nothing when there is none to remove. */
  method RemoveAllSynths(chain: Chain) returns (removed: bool)
    modifies chain
    ensures removed <==> SynthsToRemove(old(chain.synths)) != []
    ensures removed ==> (chain.synths == Retain(old(chain.synths), SynthsToRemove(old(chain.synths)))
      && chain.txs == old(chain.txs) + [RemoveSynths(SynthsToRemove(old(chain.synths)))])
    ensures !removed ==> chain.synths == old(chain.synths) && chain.txs == old(chain.txs)
    ensures forall k :: k in chain.synths ==> k == SUSD
  {
    var currencyKeys := chain.synths;
    var synthsToRemove := SynthsToRemove(currencyKeys);
    BaselineLeavesOnlySUSD(currencyKeys);
    removed := |synthsToRemove| > 0;
    if removed {
      chain.Send(RemoveSynths(synthsToRemove));
    }
  }

  /** 'set initial rates and debt cache': SNX and ETH priced at 1, then a
      debt snapshot. */
  method SetInitialRates(chain: Chain)
    modifies chain
    ensures chain.synths == old(chain.synths)
    ensures chain.txs == old(chain.txs) + [UpdateRates(["SNX", "ETH"]), TakeDebtSnapshot]
  {
    chain.Send(UpdateRates(["SNX", "ETH"]));
    chain.Send(TakeDebtSnapshot);
  }

  /** 'add synths' for level `numSynths`: when the system has fewer synths
      than the level, provisions exactly one, named `s{numSynths-1}`, prices
      it and takes a debt snapshot; otherwise sends nothing. */
  method AddSynths(chain: Chain, numSynths: nat) returns (added: bool)
    modifies chain
    ensures added <==> old(chain.AvailableSynthCount()) < numSynths
    ensures chain.synths == Escalate(old(chain.synths), numSynths)
    ensures added ==> (chain.txs == old(chain.txs)
      + [AddSynth(SynthName(numSynths - 1)), UpdateRates([SynthName(numSynths - 1)]), TakeDebtSnapshot])
    ensures !added ==> chain.txs == old(chain.txs)
    ensures chain.txs == old(chain.txs) + EscalationTxs(old(chain.synths), numSynths)
  {
    var activeSynths := chain.AvailableSynthCount();
    added := activeSynths < numSynths;
    if added {
      var currency := SynthName(numSynths - 1);
      chain.Send(AddSynth(currency));
      chain.Send(UpdateRates([currency]));
      chain.Send(TakeDebtSnapshot);
    }
  }

  // ---------------------------------------------------------------------------
  // Transaction logs

  /** What 'add synths' sends for a new synth: the synth itself, its rate,
      then a debt snapshot. */
  function ProvisionTxs(currency: string): seq<Tx>
  {
    [AddSynth(currency), UpdateRates([currency]), TakeDebtSnapshot]
  }

  /** What 'add synths' of level `numSynths` sends to a system holding
      `synths`. */
  function EscalationTxs(synths: seq<string>, numSynths: nat): seq<Tx>
  {
    if |synths| < numSynths then ProvisionTxs(SynthName(numSynths - 1)) else []
  }

  /** What the 'add synths' steps of levels 1 to `level` send, starting from
      `synths`. */
  function EscalationLog(synths: seq<string>, level: nat): seq<Tx>
  {
    if level == 0 then []
    else EscalationLog(synths, level - 1) + EscalationTxs(EscalateThrough(synths, level - 1), level)
  }

  /** What the session-wide `before` hooks send to a system holding `keys`. */
  function BaselineTxs(keys: seq<string>): seq<Tx>
  {
    [SetMinimumStakeTime(0), SetWaitingPeriodSecs(0), SetRateStalePeriod(1000000000000000)]
      + (if SynthsToRemove(keys) != [] then [RemoveSynths(SynthsToRemove(keys))] else [])
      + [UpdateRates(["SNX", "ETH"]), TakeDebtSnapshot]
  }

  /** Provisioning triples for `s{lo}`, ..., `s{hi-1}`, in that order. */
  function ProvisionLog(lo: nat, hi: nat): seq<Tx>
    decreases hi
  {
    if hi <= lo then [] else ProvisionLog(lo, hi - 1) + ProvisionTxs(SynthName(hi - 1))
  }

  /** Levels 1..`level` send nothing while the system already has enough
      synths, then one provisioning triple per missing synth, in level
      order: `s{|synths|}` first, `s{level-1}` last. */
  lemma {:induction false} EscalationLogShape(synths: seq<string>, level: nat)
    ensures EscalationLog(synths, level) == ProvisionLog(|synths|, level)
  {
    if level > 0 {
      EscalationLogShape(synths, level - 1);
      EscalateThroughNames(synths, level - 1);
      if |synths| >= level {
        assert ProvisionLog(|synths|, level - 1) == [];
      }
    }
  }

  /** Every provisioning triple is three transactions. */
  lemma {:induction false} ProvisionLogLength(lo: nat, hi: nat)
    ensures |ProvisionLog(lo, hi)| == if lo < hi then 3 * (hi - lo) else 0
    decreases hi
  {
    if hi > lo {
      ProvisionLogLength(lo, hi - 1);
    }
  }
}
