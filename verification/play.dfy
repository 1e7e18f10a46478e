/** Whole hands: what every processed action keeps, when a hand fails, and that it ends. */
module Play {
  import opened Util
  import opened Players
  import opened PotLayers
  import opened Tables
  import opened Betting
  import opened Rounds
  import opened Decks
  import opened Hands
  import opened Showdowns

  /** A hand in progress, waiting for a player -- or for nobody, when the blinds left no one able to act. */
  ghost predicate Live(e: Engine) {
    && e.running
    && Sound(e.table)
    && CardsLaid(e.table, e.deck)
    && StreetsLeft(e.table.phase) >= 1
    && |InHand(e.table.seats)| >= 2
    && (Awaiting(e.table) || (e.table.toAct == None && !SomeoneCanAct(e.table.seats)))
  }

  /**
   * A running engine whose showdown has thrown: no street is left to close, and someone is still to act or everyone
   * able has acted.
   */
  ghost predicate Stuck(e: Engine) {
    && e.running
    && Sound(e.table)
    && CardsLaid(e.table, e.deck)
    && e.table.phase == Showdown
    && TurnKept(e.table)
  }

  // ----- closing rounds -----

  /** The round is over, and so is the betting on all later streets: the hand goes straight to its showdown. */
  ghost predicate ReachesShowdown(t: Table) {
    |InHand(t.seats)| >= 2 && (t.phase == River || !SomeoneCanAct(t.seats))
  }

  ghost predicate Unbet(seats: seq<Seat>) {
    forall k :: 0 <= k < |seats| ==> seats[k].bet == 0
  }

  /** The same hand on sound cards and chips, a new round just begun and an able player awaited if there is one. */
  ghost predicate NewRound(before: Engine, after: Engine) {
    && after.running
    && Sound(after.table)
    && CardsLaid(after.table, after.deck)
    && ChipsInPlay(after.table) == ChipsInPlay(before.table)
    && SameStakes(before.table.seats, after.table.seats)
    && Unbet(after.table.seats)
    && SomeoneCanAct(after.table.seats) == SomeoneCanAct(before.table.seats)
    && after.table.seats != []
    && (SomeoneCanAct(after.table.seats) ==> Awaiting(after.table))
    && (SomeoneCanAct(after.table.seats) ==> TurnFrom(after.table, StreetOpener(after.table)))
    && after.table.dealer == before.table.dealer && after.table.bigBlind == before.table.bigBlind
    && after.table.minimumRaise == after.table.lastRaise == after.table.bigBlind
  }

  /** The next street of the same hand. */
  ghost predicate LaterStreet(before: Engine, after: Engine) {
    && NewRound(before, after) && StreetsLeft(after.table.phase) >= 1
    && after.table.phase == NextPhase(before.table.phase) && before.table.phase != HandComplete
  }

  /** What a throw leaves: every chip, every contribution, and an engine that is stuck. */
  ghost predicate Thrown(before: Engine, after: Engine) {
    && Stuck(after)
    && ChipsInPlay(after.table) == ChipsInPlay(before.table)
    && SameStakes(before.table.seats, after.table.seats)
  }

  lemma StreetIsDealt(e: Engine)
    requires e.running && Sound(e.table) && Settled(e.table.seats) && CardsLaid(e.table, e.deck)
    requires StreetsLeft(e.table.phase) >= 2
    ensures StreetCards(e.table.phase) + 1 <= |e.deck.cards|
    ensures var settled := e.(table := CreateSidePots(e.table));
            LaterStreet(e, DealStreet(settled, StreetCards(e.table.phase)))
  {
    hide SetNext, SidePots, SeatsSound, Settled, CardsLaid, Awaiting, TurnFrom, SomeoneCanAct, LedgerSound;
    SidePotsKeepSound(e.table);
    var settled := e.(table := CreateSidePots(e.table));
    CardsIgnoreLedger(e.table, settled.table, e.deck);
    StreetsAreDealt(settled);
    var dealt := settled.table.(board := settled.table.board + Top(e.deck.cards, StreetCards(e.table.phase) + 1)[1..]);
    AdvanceKeepsSound(dealt);
    NewRoundKeepsAble(e.table.seats);
    SoundIsUnique(AdvancePhase(dealt));
  }

  lemma NobodyAbleIsComplete(seats: seq<Seat>)
    requires !SomeoneCanAct(seats)
    ensures RoundComplete(seats)
  {
  }

  lemma CompleteIsSettled(t: Table)
    requires Sound(t) && RoundComplete(t.seats)
    ensures Settled(t.seats)
  {
    CompleteRoundIsSettled(t.seats);
  }

  /**
   * Closing a round deals the remaining streets as long as nobody can act. It throws at a showdown where a folded
   * player's chips are out of everyone's reach, and whenever it is called after such a throw; otherwise the hand
   * goes on or is paid in full. No throw loses a chip.
   */
  lemma {:induction false} RoundCloses(e: Engine)
    requires e.running && Sound(e.table) && RoundComplete(e.table.seats) && CardsLaid(e.table, e.deck)
    requires e.table.phase != HandComplete && (StreetsLeft(e.table.phase) >= 1 ==> InHand(e.table.seats) != [])
    ensures var (after, outcome) := CompleteRound(e);
            && (outcome.Failed? <==> e.table.phase == Showdown || (ReachesShowdown(e.table) && Stranded(e.table.seats)))
            && (outcome.Failed? ==> Thrown(e, after) && (outcome.failure == InvalidPhase <==> e.table.phase == Showdown))
            && (outcome.Failed? && e.table.phase != Showdown ==> NewRound(e, after))
            && (!outcome.Failed? ==> outcome == Accepted)
            && (!outcome.Failed? && after.running ==> LaterStreet(e, after) && !ReachesShowdown(e.table))
            && (!outcome.Failed? && !after.running ==>
                  Ended(after, ChipsInPlay(e.table)) && (|InHand(e.table.seats)| <= 1 || ReachesShowdown(e.table)))
    decreases StreetsLeft(e.table.phase)
  {
    hide SidePots, Sound, Settled, CardsLaid, Awaiting, SomeoneCanAct, InHand, Stranded, StartShowdown, DealStreet, Ended,
         RoundComplete, SameStakes, Unbet, ChipsInPlay;
    CompleteIsSettled(e.table);
    if e.table.phase == Showdown {
      ShowdownCannotClose(e);
    } else if e.table.phase == River {
      RiverCloses(e);
    } else {
      StreetIsDealt(e);
      StreetThenRest(e);
      var next := DealStreet(e.(table := CreateSidePots(e.table)), StreetCards(e.table.phase));
      SameInHand(e.table.seats, next.table.seats);
      SameStranded(e.table.seats, next.table.seats);
      if !SomeoneCanAct(next.table.seats) && !HandOver(next.table) {
        NobodyAbleIsComplete(next.table.seats);
        RoundCloses(next);
        LaterIsTransitive(e, next, CompleteRound(next).0);
      }
    }
  }

  lemma StreetThenRest(e: Engine)
    requires e.running && CardsLaid(e.table, e.deck) && StreetsLeft(e.table.phase) >= 2
    ensures StreetCards(e.table.phase) + 1 <= |e.deck.cards|
    ensures var next := DealStreet(e.(table := CreateSidePots(e.table)), StreetCards(e.table.phase));
            && CardsLaid(next.table, next.deck) && next.running
            && CompleteRound(e)
               == if !SomeoneCanAct(next.table.seats) && !HandOver(next.table) then CompleteRound(next) else (next, Accepted)
  {
    hide CardsLaid, SidePots, SomeoneCanAct, InHand, AdvancePhase, StartShowdown;
    var settled := e.(table := CreateSidePots(e.table));
    CardsIgnoreLedger(e.table, settled.table, e.deck);
    StreetsAreDealt(settled);
  }

  lemma LaterIsTransitive(a: Engine, b: Engine, c: Engine)
    requires LaterStreet(a, b)
    ensures NewRound(b, c) ==> NewRound(a, c)
    ensures Thrown(b, c) ==> Thrown(a, c)
  {
    hide Sound, CardsLaid, Awaiting, SomeoneCanAct, Stuck;
  }

  /** After the showdown phase has been reached, closing a round only rebuilds the pots and throws. */
  lemma ShowdownCannotClose(e: Engine)
    requires e.running && Sound(e.table) && RoundComplete(e.table.seats) && CardsLaid(e.table, e.deck)
    requires e.table.phase == Showdown
    ensures CompleteRound(e) == (e.(table := CreateSidePots(e.table)), Failed(InvalidPhase))
    ensures Thrown(e, e.(table := CreateSidePots(e.table)))
  {
    hide SidePots, SeatsSound, LedgerSound, RoundComplete, Awaiting;
    SidePotsKeepSound(e.table);
    CardsIgnoreLedger(e.table, CreateSidePots(e.table), e.deck);
  }

  lemma RiverCloses(e: Engine)
    requires e.running && Sound(e.table) && Settled(e.table.seats) && CardsLaid(e.table, e.deck)
    requires e.table.phase == River && InHand(e.table.seats) != []
    ensures var (after, outcome) := CompleteRound(e);
            && (outcome.Failed? <==> |InHand(e.table.seats)| >= 2 && Stranded(e.table.seats))
            && (outcome.Failed? ==> outcome.failure.PotWithoutRecipient? && Thrown(e, after) && NewRound(e, after))
            && (!outcome.Failed? ==> outcome == Accepted && !after.running && Ended(after, ChipsInPlay(e.table)))
  {
    hide SidePots, CardsLaid, InHand, Stranded, StartShowdown, SeatsSound, LedgerSound, Thrown, NewRound, Settled;
    var settled := e.(table := CreateSidePots(e.table));
    SidePotsKeepSound(e.table);
    SoundIsUnique(e.table);
    CardsIgnoreLedger(e.table, settled.table, e.deck);
    RiverPays(settled);
    RiverShown(e);
  }

  /** The table as the showdown begins, which is what a throw leaves. */
  lemma RiverShown(e: Engine)
    requires e.running && Sound(e.table) && Settled(e.table.seats) && CardsLaid(e.table, e.deck)
    requires e.table.phase == River
    ensures var settled := e.(table := CreateSidePots(e.table));
            && CanEvaluate(AdvancePhase(settled.table))
            && Thrown(e, Shown(settled)) && NewRound(e, Shown(settled))
  {
    hide SetNext, SidePots, SeatsSound, Settled, CardsLaid, Awaiting, TurnFrom, SomeoneCanAct, LedgerSound, Evaluations, CanEvaluate,
         AdvancePhase, RoundComplete;
    var settled := e.(table := CreateSidePots(e.table));
    SidePotsKeepSound(e.table);
    CardsIgnoreLedger(e.table, settled.table, e.deck);
    RiverCanBeEvaluated(settled);
    AdvanceKeepsSound(settled.table);
    NewRoundKeepsAble(e.table.seats);
    SoundIsUnique(AdvancePhase(settled.table));
    var seats := AdvancePhase(settled.table).seats;
    if !SomeoneCanAct(seats) {
      NobodyAbleIsComplete(seats);
    }
  }

  // ----- one action -----

  lemma {:induction false} InHandAfterFold(seats: seq<Seat>, i: nat)
    requires i < |seats| && !seats[i].folded
    ensures |InHand(seats[i := AfterFold(seats[i])])| == |InHand(seats)| - 1
  {
    var after := seats[i := AfterFold(seats[i])];
    if i == 0 {
      assert after[1..] == seats[1..];
    } else {
      assert after[1..] == seats[1..][i - 1 := AfterFold(seats[i])];
      InHandAfterFold(seats[1..], i - 1);
    }
  }

  lemma {:induction false} InHandByFolds(seats: seq<Seat>, other: seq<Seat>)
    requires |seats| == |other|
    requires forall k :: 0 <= k < |seats| ==> seats[k].folded == other[k].folded
    ensures |InHand(seats)| == |InHand(other)|
  {
    if seats != [] {
      InHandByFolds(seats[1..], other[1..]);
    }
  }

  /** An action costs the hand at most one player. */
  lemma InHandAfterAction(t: Table, a: Action)
    requires t.ledger.pots != [] && Validate(t, a) == None
    ensures |InHand(Act(t, a).seats)| == |InHand(t.seats)| - if a.kind == Fold then 1 else 0
  {
    hide SeatsAfterBet, AddBet, HighestBet, SetNext, InHand;
    var i := SeatOf(t.seats, a.player);
    var after := Applied(t, a);
    SetNextChangesTurnOnly(after);
    if a.kind == Fold {
      InHandAfterFold(t.seats, i);
    } else {
      if a.kind != Check {
        AcceptedWager(t, i, a);
        OthersAfterBet(t.seats, i, Wager(t, t.seats[i], a));
      }
      InHandByFolds(after.seats, t.seats);
    }
  }

  /** The action closes the round and with it the betting of the whole hand. */
  ghost predicate ForcesShowdown(t: Table, a: Action)
    requires t.ledger.pots != [] && Validate(t, a) == None
  {
    RoundComplete(Act(t, a).seats) && ReachesShowdown(Act(t, a))
  }

  /** A live hand that some player is to continue. */
  ghost predicate Continues(before: Engine, after: Engine) {
    && Live(after) && Awaiting(after.table)
    && ChipsInPlay(after.table) == ChipsInPlay(before.table)
    && |after.table.seats| == |before.table.seats|
  }

  /** The table an accepted action leaves is sound, its cards laid out, and somebody is still in the hand. */
  lemma ActedIsSound(e: Engine, a: Action)
    requires Live(e) && Validate(e.table, a) == None
    ensures var t := Act(e.table, a);
            && Sound(t) && UniqueIds(t.seats) && |t.seats| <= 10 && t.ledger.pots != []
            && CardsLaid(t, e.deck) && t.phase == e.table.phase && |t.seats| == |e.table.seats|
            && ChipsInPlay(t) == ChipsInPlay(e.table)
            && (RoundComplete(t.seats) ==> Settled(t.seats))
            && (!RoundComplete(t.seats) ==> Awaiting(t))
            && 1 <= |InHand(t.seats)| <= |InHand(e.table.seats)|
  {
    hide Sound, Settled, CardsLaid, Awaiting, SomeoneCanAct, InHand, Act, Validate, RoundComplete, ChipsInPlay;
    LiveHasPots(e);
    var t := Act(e.table, a);
    LiveIsAwaiting(e, a);
    AcceptedActionKeepsPlay(e.table, a);
    SoundIsUnique(e.table);
    InHandAfterAction(e.table, a);
    ActKeepsCards(e.table, e.deck, a);
    ActKeepsPhase(e.table, a);
    SoundIsUnique(t);
    AtMostTen(t, e.deck);
    if RoundComplete(t.seats) {
      SoundSeats(t);
      CompleteRoundIsSettled(t.seats);
    }
  }

  /** An action that leaves someone to act: the street goes on, or the last player takes the pots. */
  lemma OpenStep(e: Engine, a: Action)
    requires Live(e) && Validate(e.table, a) == None && !RoundComplete(Act(e.table, a).seats)
    ensures var (after, outcome) := ProcessAction(e, a);
            && outcome == Accepted
            && (after.running ==> Continues(e, after) && after == e.(table := Act(e.table, a)))
            && (!after.running ==> Ended(after, ChipsInPlay(e.table)) && |InHand(Act(e.table, a).seats)| == 1)
  {
    hide Sound, CardsLaid, Awaiting, SomeoneCanAct, InHand, Ended, Act, Validate, RoundComplete, DetermineWinners,
         ChipsInPlay;
    ActedIsSound(e, a);
    SoundIsUnique(e.table);
    var acted := e.(table := Act(e.table, a));
    if |InHand(acted.table.seats)| == 1 {
      LastPlayerTakesAll(acted);
      EndedIsStopped(DetermineWinners(acted).0, ChipsInPlay(e.table));
    }
  }

  lemma EndedIsStopped(e: Engine, chips: nat)
    requires Ended(e, chips)
    ensures !e.running
  {
  }

  /** An action that closes the round: a later street, a paid hand, or a showdown that cannot pay. */
  lemma ClosingStep(e: Engine, a: Action)
    requires Live(e) && Validate(e.table, a) == None && RoundComplete(Act(e.table, a).seats)
    ensures var acted, (after, outcome) := e.(table := Act(e.table, a)), ProcessAction(e, a);
            && (outcome.Failed? <==> ReachesShowdown(acted.table) && Stranded(acted.table.seats))
            && (outcome.Failed? ==> outcome.failure.PotWithoutRecipient? && Thrown(acted, after) && NewRound(acted, after))
            && (!outcome.Failed? ==> outcome == Accepted)
            && (!outcome.Failed? && after.running ==>
                  && Continues(e, after) && StreetsLeft(after.table.phase) < StreetsLeft(e.table.phase)
                  && NewRound(acted, after) && LaterStreet(acted, after) && !ReachesShowdown(acted.table))
            && (!outcome.Failed? && !after.running ==>
                  && Ended(after, ChipsInPlay(e.table))
                  && (|InHand(acted.table.seats)| == 1 || ReachesShowdown(acted.table)))
  {
    hide Sound, Settled, CardsLaid, Awaiting, SomeoneCanAct, InHand, Stranded, Ended, Act, Validate, RoundComplete,
         DetermineWinners, ChipsInPlay, CompleteRound, Thrown;
    ActedIsSound(e, a);
    SoundIsUnique(e.table);
    var acted := e.(table := Act(e.table, a));
    RoundCloses(acted);
    var (closed, outcome) := CompleteRound(acted);
    if outcome == Accepted && closed.running {
      SameInHand(acted.table.seats, closed.table.seats);
      AtMostTen(closed.table, closed.deck);
      SoundIsUnique(closed.table);
      if |InHand(closed.table.seats)| == 1 {
        LastPlayerTakesAll(closed);
        EndedIsStopped(DetermineWinners(closed).0, ChipsInPlay(e.table));
      }
    }
  }

  /**
   * Every accepted action leaves a live hand waiting for a player, or an ended hand paid to the last chip -- or it
   * throws, exactly when it forces a showdown at which a folded player's chips are out of everyone's reach. A throw
   * keeps every chip and leaves the engine stuck.
   */
  lemma ActionStep(e: Engine, a: Action)
    requires Live(e) && Validate(e.table, a) == None
    ensures e.table.ledger.pots != []
    ensures var acted, (after, outcome) := e.(table := Act(e.table, a)), ProcessAction(e, a);
            && (outcome.Failed? <==> ForcesShowdown(e.table, a) && Stranded(acted.table.seats))
            && (outcome.Failed? ==> outcome.failure.PotWithoutRecipient? && Thrown(acted, after) && NewRound(acted, after))
            && (outcome.Failed? ==> ChipsInPlay(after.table) == ChipsInPlay(e.table))
            && (!outcome.Failed? ==> outcome == Accepted)
            && (!outcome.Failed? && after.running ==>
                  && Continues(e, after)
                  && (after == acted
                      || (NewRound(acted, after) && LaterStreet(acted, after)
                          && StreetsLeft(after.table.phase) < StreetsLeft(e.table.phase))))
            && (!outcome.Failed? && !after.running ==>
                  && Ended(after, ChipsInPlay(e.table))
                  && (|InHand(acted.table.seats)| == 1 || ForcesShowdown(e.table, a)))
  {
    hide Live, ProcessAction, Continues, Stranded, ReachesShowdown, Ended, Act, Validate, RoundComplete, ChipsInPlay,
         Stuck, NewRound, SameStakes;
    LiveHasPots(e);
    ActedIsSound(e, a);
    if RoundComplete(Act(e.table, a).seats) {
      ClosingStep(e, a);
    } else {
      OpenStep(e, a);
    }
  }

  // ----- after a throw -----

  lemma StuckActed(e: Engine, a: Action)
    requires Stuck(e) && Validate(e.table, a) == None
    ensures e.table.ledger.pots != []
    ensures var t := Act(e.table, a);
            && Sound(t) && UniqueIds(t.seats) && |t.seats| <= 10 && t.ledger.pots != []
            && CardsLaid(t, e.deck) && t.phase == Showdown && |t.seats| == |e.table.seats|
            && ChipsInPlay(t) == ChipsInPlay(e.table)
            && (RoundComplete(t.seats) || (Awaiting(t) && SomeoneCanAct(t.seats)))
  {
    hide Sound, CardsLaid, Act, Validate, RoundComplete, ChipsInPlay, InHand, TurnKept;
    SoundIsUnique(e.table);
    var t := Act(e.table, a);
    AcceptedActionKeepsPlay(e.table, a);
    ActKeepsCards(e.table, e.deck, a);
    ActKeepsPhase(e.table, a);
    SoundIsUnique(t);
    AtMostTen(t, e.deck);
  }

  lemma {:induction false} AbleIsInHand(seats: seq<Seat>)
    requires SomeoneCanAct(seats)
    ensures InHand(seats) != []
  {
    var k :| 0 <= k < |seats| && seats[k].CanAct();
    PaidUpIff(seats, 0, seats[k].id);
    assert seats[k] in seats;
  }

  /**
   * Once a showdown has thrown, an accepted action throws again exactly when it completes the round: there is no
   * street left to close. Otherwise play goes on in the showdown phase, or the last player left takes every chip.
   */
  lemma StuckStep(e: Engine, a: Action)
    requires Stuck(e) && Validate(e.table, a) == None
    ensures e.table.ledger.pots != []
    ensures var acted, (after, outcome) := e.(table := Act(e.table, a)), ProcessAction(e, a);
            && (outcome.Failed? <==> RoundComplete(acted.table.seats))
            && (outcome.Failed? ==> outcome.failure == InvalidPhase && Thrown(acted, after))
            && ((outcome.Failed? || after.running) ==> Stuck(after) && ChipsInPlay(after.table) == ChipsInPlay(e.table))
            && (!outcome.Failed? ==> outcome == Accepted)
            && (!outcome.Failed? && after.running ==> after == acted && Awaiting(after.table))
            && (!outcome.Failed? && !after.running ==>
                  |InHand(acted.table.seats)| == 1 && Ended(after, ChipsInPlay(e.table)))
  {
    hide Sound, CardsLaid, Awaiting, SomeoneCanAct, InHand, Ended, Act, Validate, RoundComplete, DetermineWinners,
         ChipsInPlay, CompleteRound, CreateSidePots, SameStakes;
    StuckActed(e, a);
    var acted := e.(table := Act(e.table, a));
    if RoundComplete(acted.table.seats) {
      ShowdownCannotClose(acted);
    } else {
      AbleIsInHand(acted.table.seats);
      if |InHand(acted.table.seats)| == 1 {
        LastPlayerTakesAll(acted);
        EndedIsStopped(DetermineWinners(acted).0, ChipsInPlay(e.table));
      }
    }
  }

  /** When nobody is able to act, a hand -- stuck or stalled -- refuses every action and never changes again. */
  lemma NobodyActsNothingHappens(e: Engine, a: Action)
    requires e.running && !SomeoneCanAct(e.table.seats)
    requires CardsLaid(e.table, e.deck) && e.table.ledger.pots != []
    ensures ProcessAction(e, a).1.Rejected? && ProcessAction(e, a).0 == e
  {
    hide CardsLaid;
  }

  lemma LiveHasPots(e: Engine)
    requires Live(e)
    ensures e.running && e.table.ledger.pots != [] && CardsLaid(e.table, e.deck) && Sound(e.table)
  {
  }

  lemma SoundSeats(t: Table)
    requires Sound(t)
    ensures SeatsSound(t.seats)
  {
  }

  lemma LiveIsAwaiting(e: Engine, a: Action)
    requires Live(e) && Validate(e.table, a) == None
    ensures Awaiting(e.table)
  {
  }

  lemma ActKeepsPhase(t: Table, a: Action)
    requires t.ledger.pots != [] && Validate(t, a) == None
    ensures Act(t, a).phase == t.phase && |Act(t, a).seats| == |t.seats|
  {
    hide Applied, SetNext;
    AppliedSeats(t, a);
    SetNextChangesTurnOnly(Applied(t, a));
  }
}
