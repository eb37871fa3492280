/** The measurement sequence of one level (test/gas/index.js:180-226) seen as
    data: which transactions are submitted, in which order, to which category,
    and which of them end up recorded. The chain is abstracted to one outcome
    per submission. */
module Schedule {
  import opened Recorder

  /** Number of iterations per level (`NUM_MEASUREMENTS`). */
  const NUM_MEASUREMENTS: nat := 3
  /** Highest level (`MAX_SYNTHS`). */
  const MAX_SYNTHS: nat := 10

  datatype Kind = Minting | Burning | Exchanging | Claiming

  /** What happens to one `await Synthetix.<operation>(...)`: the submission
      itself is rejected (the error escapes `measureGas` and ends the test
      body), or the transaction is sent and its `wait()` gives a receipt. */
  datatype Submission = Rejected | Sent(receipt: Receipt)

  /** The outcomes of the four transactions one iteration may submit:
      issueSynths(100), exchange(sUSD -> target, 1), exchange(target -> sUSD, 1)
      and burnSynths(50). The two exchange outcomes are unused at level 1. */
  datatype Round = Round(mint: Submission, exchangeOut: Submission, exchangeBack: Submission, burn: Submission)

  /** A submission together with the category its gas is recorded under. */
  datatype Step = Step(kind: Kind, submission: Submission)

  /** A recorded value and the category it went to. */
  datatype Sample = Sample(kind: Kind, gas: nat)

  /** The samples of the four categories of one level entry. */
  datatype Tally = Tally(minting: seq<nat>, burning: seq<nat>, exchanging: seq<nat>, claiming: seq<nat>)
  {
    function Get(k: Kind): seq<nat>
    {
      match k
      case Minting => minting
      case Burning => burning
      case Exchanging => exchanging
      case Claiming => claiming
    }

    /** This tally with `v` appended to category `k` only. */
    function Append(k: Kind, v: seq<nat>): (t: Tally)
      ensures forall c :: t.Get(c) == Get(c) + if c == k then v else []
    {
      match k
      case Minting => this.(minting := minting + v)
      case Burning => this.(burning := burning + v)
      case Exchanging => this.(exchanging := exchanging + v)
      case Claiming => this.(claiming := claiming + v)
    }

    /** This tally with every sample of `samples` appended to its category. */
    function Extend(samples: seq<Sample>): (t: Tally)
    {
      Tally(minting + Values(samples, Minting), burning + Values(samples, Burning),
            exchanging + Values(samples, Exchanging), claiming + Values(samples, Claiming))
    }
  }

  const EmptyTally := Tally([], [], [], [])

  /** The submissions of one iteration at level `numSynths`, in order. */
  function RoundSteps(numSynths: nat, r: Round): seq<Step>
  {
    [Step(Minting, r.mint)] + (if numSynths >= 2 then ExchangeSteps(r) else []) + [Step(Burning, r.burn)]
  }

  /** The submissions of one iteration before burning: the mint, then the
      exchanges from level 2 on. */
  function OpeningSteps(numSynths: nat, r: Round): seq<Step>
  {
    [Step(Minting, r.mint)] + (if numSynths >= 2 then ExchangeSteps(r) else [])
  }

  /** The two exchanges of one iteration: sUSD to the newest synth and back. */
  function ExchangeSteps(r: Round): seq<Step>
  {
    [Step(Exchanging, r.exchangeOut), Step(Exchanging, r.exchangeBack)]
  }

  /** Submissions per iteration. */
  function Width(numSynths: nat): nat
  {
    if numSynths >= 2 then 4 else 2
  }

  /** The submissions of all iterations, in order. */
  function Steps(numSynths: nat, rounds: seq<Round>): seq<Step>
  {
    if rounds == [] then [] else Steps(numSynths, rounds[..|rounds| - 1]) + RoundSteps(numSynths, rounds[|rounds| - 1])
  }

  /** No submission in `steps` is rejected. */
  predicate Completes(steps: seq<Step>)
  {
    forall i :: 0 <= i < |steps| ==> steps[i].submission.Sent?
  }

  /** The samples `measureGas` records when `steps` are submitted in order:
      one per sent transaction, until the first rejected submission aborts the
      rest of the test body. */
  function Recorded(steps: seq<Step>): seq<Sample>
  {
    if steps == [] || steps[0].submission.Rejected? then []
    else [Sample(steps[0].kind, GasOf(steps[0].submission.receipt))] + Recorded(steps[1..])
  }

  /** The values of `samples` that went to category `k`, in order. */
  function Values(samples: seq<Sample>, k: Kind): seq<nat>
  {
    if samples == [] then []
    else (if samples[0].kind == k then [samples[0].gas] else []) + Values(samples[1..], k)
  }

  /** Number of steps of `steps` in category `k`. */
  function CountKind(steps: seq<Step>, k: Kind): nat
  {
    if steps == [] then 0 else (if steps[0].kind == k then 1 else 0) + CountKind(steps[1..], k)
  }

  // ---------------------------------------------------------------------------
  // What is recorded

  /** The recorded samples are exactly the sent submissions before the first
      rejected one, each with its receipt's gas or the failure sentinel. */
  lemma {:induction false} RecordedIsSentPrefix(steps: seq<Step>)
    ensures |Recorded(steps)| <= |steps|
    ensures forall i :: 0 <= i < |Recorded(steps)| ==>
      steps[i].submission.Sent? && Recorded(steps)[i] == Sample(steps[i].kind, GasOf(steps[i].submission.receipt))
    ensures |Recorded(steps)| < |steps| ==> steps[|Recorded(steps)|].submission.Rejected?
  {
    if steps != [] && steps[0].submission.Sent? {
      RecordedIsSentPrefix(steps[1..]);
    }
  }

  /** Submitting one more step after `done` were all sent: a sent step adds
      one value to its own category and to no other. */
  lemma SubmitSent(t: Tally, done: seq<Step>, step: Step)
    requires Completes(done) && step.submission.Sent?
    ensures Completes(done + [step])
    ensures t.Extend(Recorded(done + [step])) == t.Extend(Recorded(done)).Append(step.kind, [GasOf(step.submission.receipt)])
  {
    RecordedAppend(done, [step]);
    var sample := Sample(step.kind, GasOf(step.submission.receipt));
    assert [step][1..] == [];
    assert Recorded([step]) == [sample] + Recorded([]);
    assert Recorded(done + [step]) == Recorded(done) + [sample];
    assert [sample][1..] == [];
    var after := t.Extend(Recorded(done + [step]));
    var before := t.Extend(Recorded(done)).Append(step.kind, [sample.gas]);
    forall k: Kind ensures after.Get(k) == before.Get(k) {
      ExtendGet(t, Recorded(done + [step]), k);
      ExtendGet(t, Recorded(done), k);
      ValuesAppend(Recorded(done), [sample], k);
      assert Values([sample], k) == (if step.kind == k then [sample.gas] else []) + Values([], k);
    }
    TallyEquality(after, before);
  }

  lemma ExtendGet(t: Tally, samples: seq<Sample>, k: Kind)
    ensures t.Extend(samples).Get(k) == t.Get(k) + Values(samples, k)
  {
  }

  /** Two tallies with the same samples in every category are equal. */
  lemma TallyEquality(a: Tally, b: Tally)
    requires forall k :: a.Get(k) == b.Get(k)
    ensures a == b
  {
    assert a.Get(Minting) == b.Get(Minting) && a.Get(Burning) == b.Get(Burning);
    assert a.Get(Exchanging) == b.Get(Exchanging) && a.Get(Claiming) == b.Get(Claiming);
  }

  /** A rejected step after `done` were all sent ends the recording: nothing
      from it on is recorded. */
  lemma SubmitRejected(done: seq<Step>, rest: seq<Step>)
    requires Completes(done) && rest != [] && rest[0].submission.Rejected?
    ensures Recorded(done + rest) == Recorded(done)
    ensures !Completes(done + rest)
  {
    RecordedAppend(done, rest);
    assert Recorded(rest) == [];
    assert (done + rest)[|done|] == rest[0];
  }

  lemma CompletesConcat(a: seq<Step>, b: seq<Step>)
    ensures Completes(a + b) <==> Completes(a) && Completes(b)
  {
    if Completes(a) && Completes(b) {
      forall i | 0 <= i < |a + b| ensures (a + b)[i].submission.Sent? {
        if i >= |a| {
          assert (a + b)[i] == b[i - |a|];
        }
      }
    }
    if Completes(a + b) {
      forall i | 0 <= i < |a| ensures a[i].submission.Sent? {
        assert (a + b)[i] == a[i];
      }
      forall i | 0 <= i < |b| ensures b[i].submission.Sent? {
        assert (a + b)[|a| + i] == b[i];
      }
    }
  }

  /** The submissions of consecutive runs of iterations are the runs'
      submissions one after the other. */
  lemma {:induction false} StepsConcat(numSynths: nat, a: seq<Round>, b: seq<Round>)
    ensures Steps(numSynths, a + b) == Steps(numSynths, a) + Steps(numSynths, b)
  {
    if b == [] {
      assert a + b == a;
    } else {
      var b' := b[..|b| - 1];
      var last := RoundSteps(numSynths, b[|b| - 1]);
      StepsConcat(numSynths, a, b');
      assert (a + b)[..|a + b| - 1] == a + b';
      assert (a + b)[|a + b| - 1] == b[|b| - 1];
      assert Steps(numSynths, a + b) == Steps(numSynths, a + b') + last;
      assert Steps(numSynths, b) == Steps(numSynths, b') + last;
    }
  }

  /** One more iteration after the all-sent first `i` iterations extends a
      tally by what that iteration records, and the first `i + 1` iterations
      complete exactly when it does. */
  lemma NextRound(t: Tally, numSynths: nat, rounds: seq<Round>, i: nat)
    requires i < |rounds| && Completes(Steps(numSynths, rounds[..i]))
    ensures t.Extend(Recorded(Steps(numSynths, rounds[..i + 1])))
      == t.Extend(Recorded(Steps(numSynths, rounds[..i]))).Extend(Recorded(RoundSteps(numSynths, rounds[i])))
    ensures Completes(Steps(numSynths, rounds[..i + 1])) == Completes(RoundSteps(numSynths, rounds[i]))
  {
    var prefix := Steps(numSynths, rounds[..i]);
    var round := RoundSteps(numSynths, rounds[i]);
    assert rounds[..i + 1][..i] == rounds[..i];
    assert Steps(numSynths, rounds[..i + 1]) == prefix + round;
    RecordedAppend(prefix, round);
    ExtendTwice(t, Recorded(prefix), Recorded(round));
    CompletesConcat(prefix, round);
  }

  /** Once the first `j` iterations contain a rejection, the later ones
      record nothing and the level does not complete. */
  lemma IncompletePrefix(numSynths: nat, rounds: seq<Round>, j: nat)
    requires j <= |rounds| && !Completes(Steps(numSynths, rounds[..j]))
    ensures Recorded(Steps(numSynths, rounds)) == Recorded(Steps(numSynths, rounds[..j]))
    ensures !Completes(Steps(numSynths, rounds))
  {
    assert rounds == rounds[..j] + rounds[j..];
    StepsConcat(numSynths, rounds[..j], rounds[j..]);
    RecordedAppend(Steps(numSynths, rounds[..j]), Steps(numSynths, rounds[j..]));
    CompletesConcat(Steps(numSynths, rounds[..j]), Steps(numSynths, rounds[j..]));
  }

  /** Running `block` after the all-sent `done` extends a tally by what
      `block` records; if `block` stops at a rejection, nothing after it
      counts. */
  lemma ExtendBlock(t: Tally, done: seq<Step>, block: seq<Step>, rest: seq<Step>)
    requires Completes(done)
    ensures t.Extend(Recorded(done + block)) == t.Extend(Recorded(done)).Extend(Recorded(block))
    ensures Completes(done + block) == Completes(block)
    ensures !Completes(block) ==> Recorded(done + block + rest) == Recorded(done + block)
    ensures !Completes(block) ==> !Completes(done + block + rest)
  {
    RecordedAppend(done, block);
    ExtendTwice(t, Recorded(done), Recorded(block));
    CompletesConcat(done, block);
    RecordedAppend(done + block, rest);
    CompletesConcat(done + block, rest);
  }

  /** Extending by two sample sequences one after the other is extending by
      their concatenation. */
  lemma ExtendTwice(t: Tally, a: seq<Sample>, b: seq<Sample>)
    ensures t.Extend(a).Extend(b) == t.Extend(a + b)
  {
    forall k: Kind {
      ValuesAppend(a, b, k);
    }
  }

  /** Without a rejected submission every step is recorded: a failed wait is
      never dropped. */
  lemma CompletesRecordsAll(steps: seq<Step>)
    requires Completes(steps)
    ensures |Recorded(steps)| == |steps|
  {
    RecordedIsSentPrefix(steps);
  }

  lemma {:induction false} RecordedAppend(a: seq<Step>, b: seq<Step>)
    ensures Completes(a) ==> Recorded(a + b) == Recorded(a) + Recorded(b)
    ensures !Completes(a) ==> Recorded(a + b) == Recorded(a)
  {
    if a == [] {
      assert a + b == b;
    } else {
      assert (a + b)[1..] == a[1..] + b;
      assert (a + b)[0] == a[0];
      if a[0].submission.Sent? {
        RecordedAppend(a[1..], b);
        assert Completes(a) ==> Completes(a[1..]);
        assert !Completes(a) ==> !Completes(a[1..]) by {
          if !Completes(a) {
            var i :| 0 <= i < |a| && !a[i].submission.Sent?;
            assert a[1..][i - 1] == a[i];
          }
        }
      }
    }
  }

  lemma {:induction false} ValuesAppend(a: seq<Sample>, b: seq<Sample>, k: Kind)
    ensures Values(a + b, k) == Values(a, k) + Values(b, k)
  {
    if a == [] {
      assert a + b == b;
    } else {
      var head := if a[0].kind == k then [a[0].gas] else [];
      assert (a + b)[1..] == a[1..] + b;
      assert (a + b)[0] == a[0];
      ValuesAppend(a[1..], b, k);
      assert Values(a + b, k) == head + Values(a[1..] + b, k);
      assert Values(a, k) == head + Values(a[1..], k);
    }
  }

  lemma {:induction false} CountKindAppend(a: seq<Step>, b: seq<Step>, k: Kind)
    ensures CountKind(a + b, k) == CountKind(a, k) + CountKind(b, k)
  {
    if a == [] {
      assert a + b == b;
    } else {
      assert (a + b)[1..] == a[1..] + b;
      CountKindAppend(a[1..], b, k);
    }
  }

  /** Every step of a category that gets recorded gives one value of that
      category, so a completed sequence records exactly `CountKind` values. */
  lemma {:induction false} CompletesValuesCount(steps: seq<Step>, k: Kind)
    requires Completes(steps)
    ensures |Values(Recorded(steps), k)| == CountKind(steps, k)
  {
    if steps != [] {
      assert Completes(steps[1..]) by {
        forall i | 0 <= i < |steps[1..]| ensures steps[1..][i].submission.Sent? {
          assert steps[1..][i] == steps[i + 1];
        }
      }
      CompletesValuesCount(steps[1..], k);
      assert steps[0].submission.Sent?;
      var head := Sample(steps[0].kind, GasOf(steps[0].submission.receipt));
      assert Recorded(steps) == [head] + Recorded(steps[1..]);
      ValuesAppend([head], Recorded(steps[1..]), k);
    }
  }

  /** Recorded values of a category never exceed its submissions. */
  lemma {:induction false} ValuesCountAtMost(steps: seq<Step>, k: Kind)
    ensures |Values(Recorded(steps), k)| <= CountKind(steps, k)
  {
    if steps != [] && steps[0].submission.Sent? {
      ValuesCountAtMost(steps[1..], k);
      var head := Sample(steps[0].kind, GasOf(steps[0].submission.receipt));
      ValuesAppend([head], Recorded(steps[1..]), k);
    }
  }

  // ---------------------------------------------------------------------------
  // Shape of a level's sequence

  lemma RoundStepsCounts(numSynths: nat, r: Round)
    ensures |RoundSteps(numSynths, r)| == Width(numSynths)
    ensures CountKind(RoundSteps(numSynths, r), Minting) == 1
    ensures CountKind(RoundSteps(numSynths, r), Burning) == 1
    ensures CountKind(RoundSteps(numSynths, r), Exchanging) == if numSynths >= 2 then 2 else 0
    ensures CountKind(RoundSteps(numSynths, r), Claiming) == 0
  {
    var first, last := Step(Minting, r.mint), Step(Burning, r.burn);
    var mid := if numSynths >= 2 then ExchangeSteps(r) else [];
    forall k: Kind
      ensures CountKind(RoundSteps(numSynths, r), k)
        == (if k == Minting then 1 else 0) + (if k == Burning then 1 else 0) + CountKind(mid, k)
    {
      CountKindAppend([first], mid, k);
      CountKindAppend([first] + mid, [last], k);
      CountSingle(first, k);
      CountSingle(last, k);
    }
    if numSynths >= 2 {
      forall k: Kind ensures CountKind(mid, k) == if k == Exchanging then 2 else 0 {
        assert mid == [mid[0]] + [mid[1]];
        CountKindAppend([mid[0]], [mid[1]], k);
        CountSingle(mid[0], k);
        CountSingle(mid[1], k);
      }
    }
  }

  lemma CountSingle(step: Step, k: Kind)
    ensures CountKind([step], k) == if step.kind == k then 1 else 0
  {
    assert [step][1..] == [];
  }

  /** Each category's number of submissions at a level: minting and burning
      one per iteration, exchanging two per iteration from level 2 on and
      none at level 1, claiming none. */
  lemma {:induction false} StepsCounts(numSynths: nat, rounds: seq<Round>)
    ensures |Steps(numSynths, rounds)| == |rounds| * Width(numSynths)
    ensures CountKind(Steps(numSynths, rounds), Minting) == |rounds|
    ensures CountKind(Steps(numSynths, rounds), Burning) == |rounds|
    ensures CountKind(Steps(numSynths, rounds), Exchanging) == if numSynths >= 2 then 2 * |rounds| else 0
    ensures CountKind(Steps(numSynths, rounds), Claiming) == 0
  {
    if rounds != [] {
      var init := rounds[..|rounds| - 1];
      var last := rounds[|rounds| - 1];
      StepsCounts(numSynths, init);
      RoundStepsCounts(numSynths, last);
      forall k: Kind {
        CountKindAppend(Steps(numSynths, init), RoundSteps(numSynths, last), k);
      }
    }
  }

  /** Iteration `i` occupies its own block of `Width(numSynths)` consecutive
      submissions, in iteration order: minting first, then the exchanges,
      burning last. */
  lemma {:induction false} StepsBlock(numSynths: nat, rounds: seq<Round>, i: nat)
    requires i < |rounds|
    ensures |Steps(numSynths, rounds)| == |rounds| * Width(numSynths)
    ensures Steps(numSynths, rounds)[i * Width(numSynths) .. (i + 1) * Width(numSynths)] == RoundSteps(numSynths, rounds[i])
  {
    var w := Width(numSynths);
    var n := |rounds|;
    var init := rounds[..n - 1];
    var prefix := Steps(numSynths, init);
    var last := RoundSteps(numSynths, rounds[n - 1]);
    assert Steps(numSynths, rounds) == prefix + last;
    StepsLength(numSynths, rounds);
    StepsLength(numSynths, init);
    var lo, hi := i * w, (i + 1) * w;
    assert hi == lo + w;
    if i < n - 1 {
      StepsBlock(numSynths, init, i);
      MultiplyMonotone(i + 1, n - 1, w);
      SliceOfPrefix(prefix, last, lo, hi);
      assert init[i] == rounds[i];
    } else {
      assert lo == |prefix|;
      SliceOfSuffix(prefix, last);
    }
  }

  /** Every iteration contributes `Width(numSynths)` submissions. */
  lemma {:induction false} StepsLength(numSynths: nat, rounds: seq<Round>)
    ensures |Steps(numSynths, rounds)| == |rounds| * Width(numSynths)
  {
    if rounds != [] {
      StepsLength(numSynths, rounds[..|rounds| - 1]);
      assert |RoundSteps(numSynths, rounds[|rounds| - 1])| == Width(numSynths);
    }
  }

  lemma SliceOfPrefix<T>(a: seq<T>, b: seq<T>, lo: nat, hi: nat)
    requires lo <= hi <= |a|
    ensures (a + b)[lo..hi] == a[lo..hi]
  {
  }

  lemma SliceOfSuffix<T>(a: seq<T>, b: seq<T>)
    ensures (a + b)[|a|..|a| + |b|] == b
  {
  }

  lemma MultiplyMonotone(a: nat, b: nat, c: nat)
    requires a <= b
    ensures a * c <= b * c
  {
  }

  /** At level 1 the exchanging category never receives a sample, and the
      claiming category never does at any level. */
  lemma {:induction false} NeverRecorded(numSynths: nat, rounds: seq<Round>, k: Kind)
    requires k == Claiming || (k == Exchanging && numSynths < 2)
    ensures Values(Recorded(Steps(numSynths, rounds)), k) == []
  {
    StepsCounts(numSynths, rounds);
    ValuesCountAtMost(Steps(numSynths, rounds), k);
  }

  /** A level whose submissions are all accepted ends with exactly
      NUM_MEASUREMENTS minting and burning samples, 2 * NUM_MEASUREMENTS
      exchanging samples from level 2 on (none at level 1) and no claiming
      sample. */
  lemma LevelSampleCounts(numSynths: nat, rounds: seq<Round>)
    requires |rounds| == NUM_MEASUREMENTS
    requires Completes(Steps(numSynths, rounds))
    ensures |Values(Recorded(Steps(numSynths, rounds)), Minting)| == NUM_MEASUREMENTS
    ensures |Values(Recorded(Steps(numSynths, rounds)), Burning)| == NUM_MEASUREMENTS
    ensures |Values(Recorded(Steps(numSynths, rounds)), Exchanging)| == if numSynths >= 2 then 2 * NUM_MEASUREMENTS else 0
    ensures |Values(Recorded(Steps(numSynths, rounds)), Claiming)| == 0
  {
    StepsCounts(numSynths, rounds);
    forall k: Kind {
      CompletesValuesCount(Steps(numSynths, rounds), k);
    }
  }
}
