/** One level's entry `{ minting, burning, exchanging, claiming }` and the
    measurement loop of the 'take measurements' test (test/gas/index.js:99-106,
    162-227). */
module Level {
  import opened Recorder
  import opened Schedule

  class LevelEntry {
    const minting: Category
    const burning: Category
    const exchanging: Category
    const claiming: Category

    /** The record of category `k`. */
    function Of(k: Kind): Category
    {
      match k
      case Minting => minting
      case Burning => burning
      case Exchanging => exchanging
      case Claiming => claiming
    }

    ghost function Repr(): set<object>
    {
      {minting, burning, exchanging, claiming}
    }

    /** Four distinct records, each keeping its average equal to its mean. */
    ghost predicate Valid()
      reads Repr()
    {
      minting != burning && minting != exchanging && minting != claiming &&
      burning != exchanging && burning != claiming && exchanging != claiming &&
      minting.Valid() && burning.Valid() && exchanging.Valid() && claiming.Valid()
    }

    /** The samples currently held by the four records. */
    ghost function Samples(): Tally
      reads Repr()
    {
      Tally(minting.measurements, burning.measurements, exchanging.measurements, claiming.measurements)
    }

    /** The 'prepare data' entry: four empty records with average 0. */
    constructor ()
      ensures Valid() && fresh(Repr())
      ensures Samples() == EmptyTally
      ensures forall k :: Of(k).avg == 0.0
    {
      minting := new Category();
      burning := new Category();
      exchanging := new Category();
      claiming := new Category();
    }
  }

  /** `await measureGas({ tx: await <submission>, target: entry[k] })`: a
      rejected submission throws before `measureGas` runs; a sent one is
      measured into category `k` and no other. */
  method MeasureSubmission(entry: LevelEntry, k: Kind, submission: Submission) returns (sent: bool)
    requires entry.Valid()
    modifies entry.Of(k)
    ensures entry.Valid()
    ensures sent == submission.Sent?
    ensures entry.Samples() == if sent then old(entry.Samples()).Append(k, [GasOf(submission.receipt)])
                               else old(entry.Samples())
  {
    match submission {
      case Rejected =>
        sent := false;
      case Sent(receipt) =>
        entry.Of(k).MeasureGas(receipt);
        sent := true;
    }
  }

  /** The `numSynths >= 2` block of the loop body: the exchange from sUSD to
      the newest synth and the exchange back, both recorded as exchanging. */
  method MeasureExchanges(entry: LevelEntry, r: Round) returns (completed: bool)
    requires entry.Valid()
    modifies entry.Repr()
    ensures entry.Valid()
    ensures completed == Completes(ExchangeSteps(r))
    ensures entry.Samples() == old(entry.Samples()).Extend(Recorded(ExchangeSteps(r)))
  {
    ghost var start := entry.Samples();
    ghost var out, back := Step(Exchanging, r.exchangeOut), Step(Exchanging, r.exchangeBack);
    assert ExchangeSteps(r) == [out] + [back];
    assert start.Extend(Recorded([])) == start;

    completed := MeasureSubmission(entry, Exchanging, r.exchangeOut);
    if !completed {
      SubmitRejected([], ExchangeSteps(r));
      return;
    }
    SubmitSent(start, [], out);
    assert [] + [out] == [out];
    assert entry.Samples() == start.Extend(Recorded([out]));

    completed := MeasureSubmission(entry, Exchanging, r.exchangeBack);
    if !completed {
      SubmitRejected([out], [back]);
      return;
    }
    SubmitSent(start, [out], back);
  }

  /** The part of the loop body before burning: mint, then the two exchanges
      when the level has at least two synths. */
  method MeasureOpening(entry: LevelEntry, numSynths: nat, r: Round) returns (completed: bool)
    requires entry.Valid()
    modifies entry.Repr()
    ensures entry.Valid()
    ensures completed == Completes(OpeningSteps(numSynths, r))
    ensures entry.Samples() == old(entry.Samples()).Extend(Recorded(OpeningSteps(numSynths, r)))
  {
    ghost var start := entry.Samples();
    ghost var mint := Step(Minting, r.mint);
    ghost var mid := if numSynths >= 2 then ExchangeSteps(r) else [];
    assert start.Extend(Recorded([])) == start;

    completed := MeasureSubmission(entry, Minting, r.mint);
    if !completed {
      SubmitRejected([], OpeningSteps(numSynths, r));
      return;
    }
    SubmitSent(start, [], mint);
    if numSynths >= 2 {
      assert entry.Samples() == start.Extend(Recorded([mint]));
      completed := MeasureExchanges(entry, r);
      ExtendBlock(start, [mint], mid, []);
    } else {
      assert [mint] + mid == [mint];
    }
  }

  /** One pass of the loop body: mint, the two exchanges when the level has at
      least two synths, then burn. Returns false when a submission is
      rejected, which ends the test body at that point. */
  method MeasureIteration(entry: LevelEntry, numSynths: nat, r: Round) returns (completed: bool)
    requires entry.Valid()
    modifies entry.Repr()
    ensures entry.Valid()
    ensures completed == Completes(RoundSteps(numSynths, r))
    ensures entry.Samples() == old(entry.Samples()).Extend(Recorded(RoundSteps(numSynths, r)))
  {
    ghost var start := entry.Samples();
    ghost var opening, burn := OpeningSteps(numSynths, r), Step(Burning, r.burn);
    assert RoundSteps(numSynths, r) == opening + [burn];

    completed := MeasureOpening(entry, numSynths, r);
    if !completed {
      RecordedAppend(opening, [burn]);
      CompletesConcat(opening, [burn]);
      return;
    }

    completed := MeasureSubmission(entry, Burning, r.burn);
    if !completed {
      SubmitRejected(opening, [burn]);
      return;
    }
    SubmitSent(start, opening, burn);
  }

  /** The 'take measurements' test body: NUM_MEASUREMENTS iterations, one
      `Round` of submission outcomes each. Returns false when the body ended
      early on a rejected submission. */
  method TakeMeasurements(entry: LevelEntry, numSynths: nat, rounds: seq<Round>) returns (completed: bool)
    requires entry.Valid()
    requires |rounds| == NUM_MEASUREMENTS
    modifies entry.Repr()
    ensures entry.Valid()
    ensures completed == Completes(Steps(numSynths, rounds))
    ensures entry.Samples() == old(entry.Samples()).Extend(Recorded(Steps(numSynths, rounds)))
  {
    ghost var start := entry.Samples();
    assert rounds[..0] == [];
    assert start.Extend([]) == start;
    for i := 0 to NUM_MEASUREMENTS
      invariant entry.Valid()
      invariant Completes(Steps(numSynths, rounds[..i]))
      invariant entry.Samples() == start.Extend(Recorded(Steps(numSynths, rounds[..i])))
    {
      NextRound(start, numSynths, rounds, i);
      var ok := MeasureIteration(entry, numSynths, rounds[i]);
      if !ok {
        IncompletePrefix(numSynths, rounds, i + 1);
        completed := false;
        return;
      }
    }
    assert rounds[..NUM_MEASUREMENTS] == rounds;
    completed := true;
  }
}
