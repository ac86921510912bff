/** The dialog that copies every bet of an earlier round of the same lottery
    into the current round, each with a new pending payment of the current
    round's bet value. */
module CopyBetsDialog {
  import opened Lottery
  import opened Store

  const RoundsError: string := "Erro ao carregar rodadas"
  const PreviewError: string := "Erro ao carregar apostas"
  const CopyError: string := "Erro ao copiar apostas. Tente novamente."

  /** `.eq("lottery_type", lotteryType).neq("id", currentRoundId)`. */
  function EligibleSourceRounds(rounds: seq<Round>, lotteryType: LotteryType, currentRoundId: Id): (r: seq<Round>)
    ensures |r| <= |rounds|
    ensures forall x :: x in r <==> x in rounds && x.lotteryType == lotteryType && x.id != currentRoundId
  {
    if rounds == [] then []
    else
      var x := rounds[0];
      (if x.lotteryType == lotteryType && x.id != currentRoundId then [x] else [])
        + EligibleSourceRounds(rounds[1..], lotteryType, currentRoundId)
  }

  /** `betsToInsert`, with `ids` the keys the store gives the inserted rows. */
  function CopiedBets(preview: seq<Bet>, roundId: Id, ids: seq<Id>): (r: seq<Bet>)
    requires |ids| == |preview|
    ensures |r| == |preview|
    ensures forall i :: 0 <= i < |r| ==>
      && r[i].roundId == roundId && r[i].id == ids[i]
      && r[i].playerId == preview[i].playerId && r[i].numbers == preview[i].numbers
  {
    seq(|preview|, i requires 0 <= i < |preview| => Bet(ids[i], roundId, preview[i].playerId, preview[i].numbers))
  }

  /** `paymentsToInsert`: one pending, undated payment of `amount` per inserted bet. */
  function CopiedPayments(inserted: seq<Bet>, amount: Cents, ids: seq<Id>): (r: seq<Payment>)
    requires |ids| == |inserted|
    ensures |r| == |inserted|
    ensures forall i :: 0 <= i < |r| ==>
      && r[i].id == ids[i] && r[i].betId == inserted[i].id && r[i].amount == amount
      && r[i].status == Pending && r[i].paymentDate.None?
  {
    seq(|inserted|, i requires 0 <= i < |inserted| => Payment(ids[i], inserted[i].id, amount, None, Pending))
  }

  /** Selecting bets by round distributes over concatenation. */
  lemma {:induction false} BetsOfRoundAppend(a: seq<Bet>, b: seq<Bet>, roundId: Id)
    ensures BetsOfRound(a + b, roundId) == BetsOfRound(a, roundId) + BetsOfRound(b, roundId)
  {
    if a == [] {
      assert a + b == b;
    } else {
      var rest := a[1..];
      var head := if a[0].roundId == roundId then [a[0]] else [];
      assert a + b != [] && (a + b)[0] == a[0] && (a + b)[1..] == rest + b;
      calc {
        BetsOfRound(a + b, roundId);
        head + BetsOfRound(rest + b, roundId);
        { BetsOfRoundAppend(rest, b, roundId); }
        head + (BetsOfRound(rest, roundId) + BetsOfRound(b, roundId));
        (head + BetsOfRound(rest, roundId)) + BetsOfRound(b, roundId);
        BetsOfRound(a, roundId) + BetsOfRound(b, roundId);
      }
    }
  }

  lemma {:induction false} BetsOfRoundAll(bets: seq<Bet>, roundId: Id)
    requires forall b :: b in bets ==> b.roundId == roundId
    ensures BetsOfRound(bets, roundId) == bets
  {
    if bets != [] {
      assert bets[0] in bets;
      BetsOfRoundAll(bets[1..], roundId);
    }
  }

  lemma {:induction false} BetsOfRoundNone(bets: seq<Bet>, roundId: Id)
    requires forall b :: b in bets ==> b.roundId != roundId
    ensures BetsOfRound(bets, roundId) == []
  {
    if bets != [] {
      assert bets[0] in bets;
      BetsOfRoundNone(bets[1..], roundId);
    }
  }

  /** After a copy the current round holds its earlier bets followed by the
      copies, in preview order, and every other round, the source included,
      holds exactly what it held. */
  lemma CopyAddsToCurrentRoundOnly(bets: seq<Bet>, preview: seq<Bet>, current: Id, ids: seq<Id>, other: Id)
    requires |ids| == |preview| && other != current
    ensures BetsOfRound(bets + CopiedBets(preview, current, ids), current)
            == BetsOfRound(bets, current) + CopiedBets(preview, current, ids)
    ensures BetsOfRound(bets + CopiedBets(preview, current, ids), other) == BetsOfRound(bets, other)
  {
    var c := CopiedBets(preview, current, ids);
    BetsOfRoundAppend(bets, c, current);
    BetsOfRoundAppend(bets, c, other);
    BetsOfRoundAll(c, current);
    BetsOfRoundNone(c, other);
    assert BetsOfRound(bets, other) + [] == BetsOfRound(bets, other);
  }

  datatype Outcome = NothingToCopy | CheckFailed | Declined | InsertFailed | Copied(count: nat)

  class CopyBetsForm {
    const currentRoundId: Id
    const lotteryType: LotteryType
    var open: bool
    var selectedRoundId: Option<Id>
    var rounds: seq<Round>
    var betsPreview: seq<Bet>
    var error: Option<string>
    var betValue: Cents

    constructor(currentRoundId: Id, lotteryType: LotteryType)
      ensures this.currentRoundId == currentRoundId && this.lotteryType == lotteryType
      ensures !open && selectedRoundId.None? && rounds == [] && betsPreview == []
      ensures error.None? && betValue == DefaultBetValue
    {
      this.currentRoundId := currentRoundId;
      this.lotteryType := lotteryType;
      open := false;
      selectedRoundId := None;
      rounds := [];
      betsPreview := [];
      error := None;
      betValue := DefaultBetValue;
    }

    /** `handleOpenChange`. Opening loads the eligible rounds (`roundsOk`
        says whether that query succeeds) and reads the current round's
        `bet_value` (`storedValue`, None when missing or unreadable), which
        replaces the dialog's value only when truthy. Closing clears the
        selection, the preview and the error. */
    method OpenChange(isOpen: bool, allRounds: seq<Round>, roundsOk: bool, storedValue: Option<Cents>)
      modifies this
      ensures open == isOpen
      ensures isOpen ==>
        && rounds == (if roundsOk then EligibleSourceRounds(allRounds, lotteryType, currentRoundId) else old(rounds))
        && error == (if roundsOk then None else Some(RoundsError))
        && betValue == (if storedValue.Some? && storedValue.value != 0 then storedValue.value else old(betValue))
        && selectedRoundId == old(selectedRoundId) && betsPreview == old(betsPreview)
      ensures !isOpen ==>
        && selectedRoundId.None? && betsPreview == [] && error.None?
        && rounds == old(rounds) && betValue == old(betValue)
    {
      open := isOpen;
      if isOpen {
        error := None;
        if roundsOk {
          rounds := EligibleSourceRounds(allRounds, lotteryType, currentRoundId);
        } else {
          error := Some(RoundsError);
        }
        if storedValue.Some? && storedValue.value != 0 {
          betValue := storedValue.value;
        }
      } else {
        selectedRoundId := None;
        betsPreview := [];
        error := None;
      }
    }

    /** `handleRoundSelect` with `loadBetsPreview`: the source round's bets,
        or an error when the query fails. */
    method SelectRound(roundId: Id, bets: seq<Bet>, ok: bool)
      modifies this
      ensures selectedRoundId == Some(roundId)
      ensures betsPreview == if ok then BetsOfRound(bets, roundId) else old(betsPreview)
      ensures error == if ok then None else Some(PreviewError)
      ensures open == old(open) && rounds == old(rounds) && betValue == old(betValue)
    {
      selectedRoundId := Some(roundId);
      error := None;
      if ok {
        betsPreview := BetsOfRound(bets, roundId);
      } else {
        error := Some(PreviewError);
      }
    }

    /** `handleCopyBets`. `checkOk`, `insertOk` and `paymentsOk` say whether
        the existing-bets query and the two inserts succeed, `confirmed` is
        the answer to the overwrite question (asked only when the current
        round already has bets), and `betIds`/`paymentIds` are the keys the
        store gives the new rows. A failed payment insert is only logged. */
    method CopyBets(db: Database, checkOk: bool, confirmed: bool, insertOk: bool, paymentsOk: bool,
                    betIds: seq<Id>, paymentIds: seq<Id>)
      returns (outcome: Outcome)
      requires |betIds| == |betsPreview| && |paymentIds| == |betsPreview|
      modifies this, db
      ensures db.rounds == old(db.rounds) && db.players == old(db.players)
      ensures db.draws == old(db.draws) && db.results == old(db.results)
      ensures outcome == NothingToCopy <==> old(selectedRoundId).None? || old(betsPreview) == []
      ensures outcome == Declined <==>
        outcome != NothingToCopy && checkOk && BetsOfRound(old(db.bets), currentRoundId) != [] && !confirmed
      ensures var copied := CopiedBets(old(betsPreview), currentRoundId, betIds);
        && db.bets == (if outcome.Copied? then old(db.bets) + copied else old(db.bets))
        && db.payments == (if outcome.Copied? && paymentsOk
                           then old(db.payments) + CopiedPayments(copied, old(betValue), paymentIds)
                           else old(db.payments))
      ensures outcome.Copied? ==> outcome.count == |old(betsPreview)| && !open
      ensures outcome.Copied? <==>
        outcome != NothingToCopy && checkOk && insertOk
        && (BetsOfRound(old(db.bets), currentRoundId) != [] ==> confirmed)
      ensures outcome in {CheckFailed, InsertFailed} ==> error == Some(CopyError) && open == old(open)
      ensures outcome == NothingToCopy ==> error == old(error) && open == old(open)
      ensures outcome == Declined ==> error.None? && open == old(open)
      ensures selectedRoundId == old(selectedRoundId) && betsPreview == old(betsPreview)
      ensures rounds == old(rounds) && betValue == old(betValue)
    {
      if selectedRoundId.None? || |betsPreview| == 0 {
        return NothingToCopy;
      }
      error := None;
      if !checkOk {
        error := Some(CopyError);
        return CheckFailed;
      }
      var existing := BetsOfRound(db.bets, currentRoundId);
      if |existing| > 0 && !confirmed {
        return Declined;
      }
      var toInsert := CopiedBets(betsPreview, currentRoundId, betIds);
      if !insertOk {
        error := Some(CopyError);
        return InsertFailed;
      }
      db.bets := db.bets + toInsert;
      if paymentsOk {
        db.payments := db.payments + CopiedPayments(toInsert, betValue, paymentIds);
      }
      open := false;
      return Copied(|toInsert|);
    }
  }
}
