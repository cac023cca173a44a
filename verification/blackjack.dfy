/**
 * The blackjack table as the engine mutates it: one `GameState` object whose fields the engine's
 * methods update in place.  Each method is proved to leave the object in the state the matching
 * function of `BlackjackRules` describes, and to keep the table well formed.
 */
module Blackjack {
  import opened Wrappers
  import opened Cards
  import opened BlackjackRules

  class GameState {
    var deck: seq<Card>
    var dealer: Dealer
    var players: map<PlayerId, Seat>
    var currentPlayerIndex: int
    var roundActive: bool

    /** The table as a value. */
    function Value(): State
      reads this
    {
      State(deck, dealer, players, currentPlayerIndex, roundActive)
    }

    ghost predicate Valid()
      reads this
    {
      WellFormed(Value())
    }

    /** `createInitialState`. */
    constructor()
      ensures Value() == InitialState() && Valid()
    {
      deck := [];
      dealer := Dealer([], 0, false);
      players := map[];
      currentPlayerIndex := 0;
      roundActive := false;
    }

    /** `onPlayerJoined`: the seat is written afresh, whether or not the player already sat. */
    method OnPlayerJoined(id: PlayerId, position: int)
      requires Valid()
      modifies this
      ensures Value() == Joined(old(Value()), id, position) && Valid()
    {
      players := players[id := EmptySeat(position)];
      JoinedKeepsWellFormed(old(Value()), id, position);
    }

    /** `onPlayerLeft`: the seat is deleted. */
    method OnPlayerLeft(id: PlayerId)
      requires Valid()
      modifies this
      ensures Value() == Left(old(Value()), id) && Valid()
    {
      players := players - {id};
      LeftKeepsWellFormed(old(Value()), id);
    }

    /** `drawCard`: pop the last card of the deck. */
    method DrawCard() returns (card: Card)
      requires |deck| > 0
      modifies this
      ensures card == Top(old(deck)) && deck == Popped(old(deck))
      ensures dealer == old(dealer) && players == old(players)
      ensures currentPlayerIndex == old(currentPlayerIndex) && roundActive == old(roundActive)
    {
      card := deck[|deck| - 1];
      deck := deck[..|deck| - 1];
    }

    /** `startNewRound`: each seat in `for...in` order is cleared, then the dealer, the deck and the round. */
    method StartNewRound()
      modifies this
      ensures Value() == NewRound(old(Value())) && Valid()
    {
      var ids := SortedIds(players.Keys);
      NewRoundByLoop(Value(), ids);
      ResetSeats(ids);
      dealer := Dealer([], 0, false);
      deck := [];
      roundActive := false;
      currentPlayerIndex := 0;
      NewRoundWellFormed(old(Value()));
    }

    /** The seat loop of `startNewRound`: each listed seat is cleared, in list order. */
    method ResetSeats(ids: seq<PlayerId>)
      requires forall id :: id in ids ==> id in players
      modifies this
      ensures players == ResetEach(ids, old(players))
      ensures deck == old(deck) && dealer == old(dealer)
      ensures roundActive == old(roundActive) && currentPlayerIndex == old(currentPlayerIndex)
    {
      var rest := ids;
      while rest != []
        invariant players.Keys == old(players).Keys
        invariant forall id :: id in rest ==> id in players
        invariant ResetEach(rest, players) == ResetEach(ids, old(players))
        invariant deck == old(deck) && dealer == old(dealer)
        invariant roundActive == old(roundActive) && currentPlayerIndex == old(currentPlayerIndex)
        decreases |rest|
      {
        assert forall id :: id in rest[1..] ==> id in rest;
        players := players[rest[0] := ResetSeat(players[rest[0]])];
        rest := rest[1..];
      }
    }

    /** `onBetPlaced`: the bet is recorded on the seat; once every seat has bet, a new round starts. */
    method OnBetPlaced(id: PlayerId, betId: BetId, amount: real)
      requires Valid() && id in players
      modifies this
      ensures Value() == BetPlaced(old(Value()), id, betId, amount) && Valid()
    {
      BetPlacedKeepsWellFormed(Value(), id, betId, amount);
      players := players[id := WithBet(players[id], betId, amount)];
      if AllBet(players) && |players| > 0 {
        StartNewRound();
      }
    }

    /** Two cards for the seat of `id`, then its value and its status. */
    method DealTo(id: PlayerId)
      requires id in players && |deck| >= 2
      modifies this
      ensures players == old(players)[id := DealSeat(old(players)[id], old(deck))]
      ensures deck == old(deck)[..|old(deck)| - 2]
      ensures dealer == old(dealer) && roundActive == old(roundActive)
      ensures currentPlayerIndex == old(currentPlayerIndex)
    {
      var first := DrawCard();
      var second := DrawCard();
      var hand := [first, second];
      var value := CalculateHandValue(hand);
      var status := Playing;
      if value == 21 {
        status := Blackjack;
      }
      players := players[id := players[id].(hand := hand, value := value, status := status)];
    }

    /** The seat loop of `dealInitialCards`: two cards to each listed seat, in list order. */
    method DealSeats(ids: seq<PlayerId>)
      requires 2 * |ids| <= |deck| && forall id :: id in ids ==> id in players
      modifies this
      ensures players == DealAll(ids, old(players), old(deck)).players
      ensures deck == DealAll(ids, old(players), old(deck)).deck
      ensures dealer == old(dealer) && roundActive == old(roundActive)
      ensures currentPlayerIndex == old(currentPlayerIndex)
    {
      var rest := ids;
      while rest != []
        invariant 2 * |rest| <= |deck| && forall id :: id in rest ==> id in players
        invariant DealAll(rest, players, deck) == DealAll(ids, old(players), old(deck))
        invariant dealer == old(dealer) && roundActive == old(roundActive)
        invariant currentPlayerIndex == old(currentPlayerIndex)
        decreases |rest|
      {
        assert forall id :: id in rest[1..] ==> id in rest;
        DealTo(rest[0]);
        rest := rest[1..];
      }
    }

    /** The dealer's part of `dealInitialCards`: two cards from the top, and their value. */
    method DealDealer()
      requires |deck| >= 2
      modifies this
      ensures var hand := TopPair(old(deck));
        dealer == Dealer(hand, HandValue(hand), old(dealer).isStanding)
      ensures deck == old(deck)[..|old(deck)| - 2] && players == old(players)
      ensures roundActive == old(roundActive) && currentPlayerIndex == old(currentPlayerIndex)
    {
      assert Popped(Popped(deck)) == deck[..|deck| - 2];
      var first := DrawCard();
      var second := DrawCard();
      var hand := [first, second];
      var value := CalculateHandValue(hand);
      dealer := dealer.(hand := hand, value := value);
    }

    /**
     * `dealInitialCards`: a fresh deck shuffled by `picks` (the values `Math.random` would give),
     * two cards to each seat in `for...in` order, two to the dealer, and the round starts.
     */
    method DealInitialCards(picks: seq<nat>)
      requires |picks| == 52 && 2 * |players| + 2 <= 52
      modifies this
      ensures Value() == Dealt(old(Value()), picks) && Valid()
    {
      ghost var before := Value();
      var created := CreateDeck();
      deck := ShuffleDeck(created, picks);
      DealtFromIgnoresDeck(Value(), before, deck);
      DealFromDeck();
      DealtWellFormed(before, picks);
    }

    /** The deal of `dealInitialCards` from whatever deck the table holds. */
    method DealFromDeck()
      requires 2 * |players| + 2 <= |deck|
      modifies this
      ensures Value() == DealtFrom(old(Value()), old(deck))
    {
      DealSeats(SortedIds(players.Keys));
      DealDealer();
      roundActive := true;
      currentPlayerIndex := 0;
    }

    /** `dealerTurn`: draw while the stored value is below 17, then stand. */
    method DealerTurn()
      requires Valid() && DealerCanFinish(dealer, deck)
      modifies this
      ensures Value() == DealerTurned(old(Value())) && Valid()
    {
      DealerTurnedKeepsWellFormed(Value());
      while dealer.value < 17
        invariant DealerCanFinish(dealer, deck)
        invariant DealerPlay(dealer, deck) == DealerPlay(old(dealer), old(deck))
        invariant players == old(players) && roundActive == old(roundActive)
        invariant currentPlayerIndex == old(currentPlayerIndex)
        decreases |deck|
      {
        var card := DrawCard();
        var hand := dealer.hand + [card];
        var value := CalculateHandValue(hand);
        dealer := dealer.(hand := hand, value := value);
      }
      dealer := dealer.(isStanding := true);
    }

    /** `resolveBets`: one resolution per seat that has not busted, in `for...in` order. */
    method ResolveBets() returns (resolutions: seq<Resolution>)
      ensures resolutions == ResolveAll(SortedIds(players.Keys), players, dealer)
    {
      resolutions := ResolveSeats(SortedIds(players.Keys));
    }

    /** The loop of `resolveBets` over the listed seats, in list order. */
    method ResolveSeats(ids: seq<PlayerId>) returns (resolutions: seq<Resolution>)
      requires forall id :: id in ids ==> id in players
      ensures resolutions == ResolveAll(ids, players, dealer)
    {
      resolutions := [];
      for k := 0 to |ids|
        invariant resolutions == ResolveAll(ids[..k], players, dealer)
      {
        ResolveAllStep(ids, players, dealer, k);
        var seat := players[ids[k]];
        if seat.status != Busted {
          resolutions := resolutions + [Resolution(seat.betId, Settle(seat, dealer))];
        }
      }
      assert ids[..|ids|] == ids;
    }

    /** The seat after one accepted action, the cards it drew and the resolutions it emits. */
    method PlayAction(seat: Seat, action: string) returns (after: Seat, resolutions: seq<Resolution>)
      requires seat.status == Playing && (DrawsCard(action) ==> |deck| > 0)
      modifies this
      ensures Step(after, deck, resolutions) == PlayerStep(seat, action, old(deck))
      ensures dealer == old(dealer) && players == old(players)
      ensures roundActive == old(roundActive) && currentPlayerIndex == old(currentPlayerIndex)
    {
      after, resolutions := seat, [];
      if action == "hit" {
        var card := DrawCard();
        var hand := seat.hand + [card];
        var value := CalculateHandValue(hand);
        after := seat.(hand := hand, value := value);
        if value > 21 {
          after := after.(status := Busted);
          resolutions := [Resolution(seat.betId, Outcome(Lose, 0.0, 0.0))];
        }
      } else if action == "stand" {
        after := seat.(status := Waiting);
      } else if action == "double" {
        var card := DrawCard();
        var hand := seat.hand + [card];
        var value := CalculateHandValue(hand);
        after := seat.(hand := hand, value := value, status := if value > 21 then Busted else Waiting);
      }
    }

    /** The end of `processAction`: once nobody is still playing, the dealer's turn, the settlement and the end of the round. */
    method FinishAction(report: PlayerResult, resolutions: seq<Resolution>) returns (r: Result<ActionReport, EngineError>)
      requires Valid() && (AllDone(players) ==> DealerCanFinish(dealer, deck))
      modifies this
      ensures Transition(Value(), r) == AfterStep(old(Value()), report, resolutions) && Valid()
    {
      var all := resolutions;
      if AllDone(players) {
        DealerTurn();
        var settled := ResolveBets();
        all := all + settled;
        roundActive := false;
      }
      r := Ok(ActionReport(report, all));
    }

    /**
     * `processAction`: the checks in their order, the player's move and, once nobody is still
     * playing, the dealer's turn and the settlement of every remaining bet.
     */
    method ProcessAction(id: PlayerId, action: string) returns (r: Result<ActionReport, EngineError>)
      requires Valid() && CanAct(Value(), id, action)
      modifies this
      ensures Transition(Value(), r) == Act(old(Value()), id, action) && Valid()
    {
      var error := ActionError(Value(), id, action);
      if error.Some? {
        return Err(error.value);
      }
      var seat := players[id];
      ghost var before := Value();
      StepKeepsWellFormed(before, id, action);
      var after, resolutions := PlayAction(seat, action);
      players := players[id := after];
      assert Value() == before.(deck := deck, players := before.players[id := after]);
      r := FinishAction(PlayerResult(after.hand, after.value, after.status), resolutions);
    }
  }
}
