/**
 * The blackjack table as values: the seats, the dealer, the deck and the rules the table object
 * applies to them.  Every state-changing operation of `Blackjack.GameState` is specified by one of
 * the functions here, and the lemmas of this module state what those functions promise.
 *
 * Player ids are the numeric user ids the server keys seats by; `for...in` visits such keys in
 * ascending order, which `SortedIds` makes explicit.
 */
module BlackjackRules {
  import opened Wrappers
  import opened Cards

  type PlayerId = nat
  type BetId = nat

  /** The seat states the engine writes: `"waiting"`, `"playing"`, `"busted"`, `"blackjack"`. */
  datatype SeatStatus = Waiting | Playing | Busted | Blackjack

  datatype Seat = Seat(
    position: int,
    hand: seq<Card>,
    value: int,
    bet: real,
    betId: Option<BetId>,
    status: SeatStatus,
    hasBet: bool)

  datatype Dealer = Dealer(hand: seq<Card>, value: int, isStanding: bool)

  /** One table document. */
  datatype State = State(
    deck: seq<Card>,
    dealer: Dealer,
    players: map<PlayerId, Seat>,
    currentPlayerIndex: int,
    roundActive: bool)

  /** The `BadRequestError`s the engine throws. */
  datatype EngineError =
    | PlayerNotFound
    | AlreadyBet
    | RoundInProgress
    | CannotAct
    | DoubleNeedsTwoCards
    | SplitNeedsPair
    | InvalidAction

  function Message(e: EngineError): string {
    match e
    case PlayerNotFound => "Player not found in game"
    case AlreadyBet => "Player has already placed a bet"
    case RoundInProgress => "Cannot place bets during an active round"
    case CannotAct => "Player cannot act in current state"
    case DoubleNeedsTwoCards => "Can only double on first two cards"
    case SplitNeedsPair => "Can only split with two cards of the same rank"
    case InvalidAction => "Invalid action"
  }

  /** Every check throws a message of its own, so the message alone tells which check failed. */
  lemma MessagesIdentifyErrors(a: EngineError, b: EngineError)
    ensures Message(a) == Message(b) <==> a == b
  {
  }

  datatype OutcomeStatus = Win | Push | Lose

  datatype Outcome = Outcome(status: OutcomeStatus, payout: real, multiplier: real)

  /** What the engine reports for one bet: the bet id recorded on the seat, and its outcome. */
  datatype Resolution = Resolution(betId: Option<BetId>, outcome: Outcome)

  datatype PlayerResult = PlayerResult(hand: seq<Card>, value: int, status: SeatStatus)

  datatype ActionReport = ActionReport(playerResult: PlayerResult, resolutions: seq<Resolution>)

  /** The table after an action, and what the action returned or threw. */
  datatype Transition = Transition(state: State, result: Result<ActionReport, EngineError>)

  // ---------------------------------------------------------------- deck and seat order

  /** The card `pop()` takes: the last one. */
  function Top(deck: seq<Card>): Card
    requires |deck| > 0
  {
    deck[|deck| - 1]
  }

  /** The deck once `pop()` has taken its last card. */
  function Popped(deck: seq<Card>): seq<Card>
    requires |deck| > 0
  {
    deck[..|deck| - 1]
  }

  /** Putting the drawn card back on top gives the deck it was drawn from. */
  lemma DrawTakesTop(deck: seq<Card>)
    requires |deck| > 0
    ensures Popped(deck) + [Top(deck)] == deck
    ensures |Popped(deck)| == |deck| - 1
  {
  }

  /** The `n` cards that `n` calls of `pop()` take, in the order they are taken. */
  function TopCards(deck: seq<Card>, n: nat): (cards: seq<Card>)
    requires n <= |deck|
    ensures |cards| == n
    ensures RealCards(deck) ==> RealCards(cards)
  {
    if n == 0 then [] else [Top(deck)] + TopCards(Popped(deck), n - 1)
  }

  /** The i-th card taken is the i-th from the top. */
  lemma {:induction false} TopCardsAt(deck: seq<Card>, n: nat)
    requires n <= |deck|
    ensures forall i :: 0 <= i < n ==> TopCards(deck, n)[i] == deck[|deck| - 1 - i]
  {
    if n > 0 {
      TopCardsAt(Popped(deck), n - 1);
    }
  }

  /** The two cards that two calls of `pop()` take, in the order they are taken. */
  function TopPair(deck: seq<Card>): seq<Card>
    requires |deck| >= 2
  {
    [deck[|deck| - 1], deck[|deck| - 2]]
  }

  /** Two pops take the last card and then the one before it: the pair is the first two of the top cards. */
  lemma TopTwo(deck: seq<Card>)
    requires |deck| >= 2
    ensures TopCards(deck, 2) == TopPair(deck) == [Top(deck), Top(Popped(deck))]
  {
    var popped := Popped(deck);
    assert TopCards(popped, 1) == [Top(popped)] + TopCards(Popped(popped), 0);
    assert TopCards(deck, 2) == [Top(deck)] + TopCards(popped, 1);
  }

  predicate Increasing(ids: seq<PlayerId>) {
    forall i, j :: 0 <= i < j < |ids| ==> ids[i] < ids[j]
  }

  /** `m` is the smallest of `keys`. */
  predicate IsLeast(m: PlayerId, keys: set<PlayerId>) {
    m in keys && forall k :: k in keys ==> m <= k
  }

  lemma {:induction false} LeastExists(keys: set<PlayerId>)
    requires keys != {}
    ensures exists m :: IsLeast(m, keys)
  {
    var x :| x in keys;
    if keys == {x} {
      assert IsLeast(x, keys);
    } else {
      var rest := keys - {x};
      LeastExists(rest);
      var m :| IsLeast(m, rest);
      var least := if x < m then x else m;
      forall k | k in keys ensures least <= k {
        if k != x {
          assert k in rest;
        }
      }
      assert IsLeast(least, keys);
    }
  }

  /** The order in which `for (const userId in players)` visits integer-like keys: ascending. */
  function SortedIds(keys: set<PlayerId>): (ids: seq<PlayerId>)
    ensures |ids| == |keys|
    ensures forall id :: id in ids <==> id in keys
    ensures Increasing(ids)
    decreases keys
  {
    if keys == {} then []
    else
      LeastExists(keys);
      var m :| IsLeast(m, keys);
      var rest := SortedIds(keys - {m});
      PrependLeast(m, keys, rest);
      [m] + rest
  }

  /** Putting the least key in front of the ascending list of the others gives the ascending list of all. */
  lemma PrependLeast(m: PlayerId, keys: set<PlayerId>, rest: seq<PlayerId>)
    requires IsLeast(m, keys)
    requires |rest| == |keys - {m}| && (forall id :: id in rest <==> id in keys - {m}) && Increasing(rest)
    ensures |[m] + rest| == |keys| && (forall id :: id in [m] + rest <==> id in keys) && Increasing([m] + rest)
  {
    var ids := [m] + rest;
    forall i, j | 0 <= i < j < |ids| ensures ids[i] < ids[j] {
      assert ids[j] == rest[j - 1];
      if i == 0 {
        assert ids[j] in keys - {m};
      } else {
        assert ids[i] == rest[i - 1];
      }
    }
    forall id ensures id in ids <==> id in keys {
      assert id in ids <==> id == m || id in rest;
    }
  }

  lemma DistinctTail(ids: seq<PlayerId>)
    requires Distinct(ids) && |ids| > 0
    ensures Distinct(ids[1..])
  {
    var tail := ids[1..];
    forall i, j | 0 <= i < j < |tail| ensures tail[i] != tail[j] {
      assert tail[i] == ids[i + 1] && tail[j] == ids[j + 1];
    }
  }

  lemma IncreasingIsDistinct(ids: seq<PlayerId>)
    requires Increasing(ids)
    ensures Distinct(ids)
  {
  }

  // ---------------------------------------------------------------- invariant of the table

  /** What every write to a seat keeps true: the stored value is the hand's value, and the status agrees with it. */
  predicate SeatOk(seat: Seat) {
    && RealCards(seat.hand)
    && seat.value == HandValue(seat.hand)
    && (seat.status == Busted ==> seat.value > 21)
    && (seat.status == Playing ==> seat.value <= 21)
    && (seat.status == Blackjack ==> seat.value == 21 && |seat.hand| == 2)
  }

  predicate WellFormed(s: State) {
    && RealCards(s.deck)
    && RealCards(s.dealer.hand)
    && s.dealer.value == HandValue(s.dealer.hand)
    && (forall id :: id in s.players ==> SeatOk(s.players[id]))
    && CardsApart(s.deck, s.dealer.hand, s.players)
  }

  /**
   * No card is in two places: the deck and every hand hold no card twice, and no card of the deck,
   * of the dealer's hand or of a seat's hand is in any other of them.
   */
  predicate CardsApart(deck: seq<Card>, dealerHand: seq<Card>, players: map<PlayerId, Seat>) {
    && Distinct(deck) && Distinct(dealerHand) && Disjoint(dealerHand, deck)
    && (forall id :: id in players ==>
          && Distinct(players[id].hand)
          && Disjoint(players[id].hand, deck)
          && Disjoint(players[id].hand, dealerHand))
    && (forall a, b :: a in players && b in players && a != b ==> Disjoint(players[a].hand, players[b].hand))
  }

  /** Seats whose hands are empty or as they were keep the cards apart. */
  lemma CardsApartKeptHands(deck: seq<Card>, dealerHand: seq<Card>, players: map<PlayerId, Seat>, next: map<PlayerId, Seat>)
    requires CardsApart(deck, dealerHand, players)
    requires forall id :: id in next ==> next[id].hand == [] || (id in players && next[id].hand == players[id].hand)
    ensures CardsApart(deck, dealerHand, next)
  {
  }

  /** The top card of a deck without repeats is not in the rest of it, which has no repeats either. */
  lemma TopApart(deck: seq<Card>)
    requires Distinct(deck) && |deck| > 0
    ensures Distinct(Popped(deck)) && Top(deck) in deck && Top(deck) !in Popped(deck)
    ensures forall c :: c in Popped(deck) ==> c in deck
  {
  }

  lemma AppendApart(hand: seq<Card>, c: Card)
    requires Distinct(hand) && c !in hand
    ensures Distinct(hand + [c])
  {
  }

  /** Moving the top card of the deck onto a seat's hand keeps the cards apart. */
  lemma CardsApartDrawToSeat(deck: seq<Card>, dealerHand: seq<Card>, players: map<PlayerId, Seat>, id: PlayerId, seat: Seat)
    requires CardsApart(deck, dealerHand, players) && |deck| > 0 && id in players
    requires seat.hand == players[id].hand + [Top(deck)]
    ensures CardsApart(Popped(deck), dealerHand, players[id := seat])
  {
    TopApart(deck);
    AppendApart(players[id].hand, Top(deck));
  }

  /** Moving the top card of the deck onto the dealer's hand keeps the cards apart. */
  lemma CardsApartDrawToDealer(deck: seq<Card>, dealerHand: seq<Card>, players: map<PlayerId, Seat>)
    requires CardsApart(deck, dealerHand, players) && |deck| > 0
    ensures CardsApart(Popped(deck), dealerHand + [Top(deck)], players)
  {
    TopApart(deck);
    AppendApart(dealerHand, Top(deck));
  }

  // ---------------------------------------------------------------- creation, join and leave

  /** `createInitialState`: no seats, no cards, no round. */
  function InitialState(): (r: State)
    ensures WellFormed(r) && r.players == map[] && !r.roundActive
    ensures r.deck == [] && r.dealer == Dealer([], 0, false) && r.currentPlayerIndex == 0
  {
    State([], Dealer([], 0, false), map[], 0, false)
  }

  /** The record `onPlayerJoined` writes for a seat. */
  function EmptySeat(position: int): Seat {
    Seat(position, [], 0, 0.0, None, Waiting, false)
  }

  /** `onPlayerJoined`: the player's seat is (re)written as an empty seat at `position`. */
  function Joined(s: State, id: PlayerId, position: int): (r: State)
    ensures r.players.Keys == s.players.Keys + {id}
    ensures r.players[id] == EmptySeat(position)
    ensures forall other :: other in s.players && other != id ==> r.players[other] == s.players[other]
    ensures r.deck == s.deck && r.dealer == s.dealer && r.roundActive == s.roundActive
    ensures r.currentPlayerIndex == s.currentPlayerIndex
  {
    s.(players := s.players[id := EmptySeat(position)])
  }

  /** `onPlayerLeft`: the seat is deleted. */
  function Left(s: State, id: PlayerId): (r: State)
    ensures r.players.Keys == s.players.Keys - {id}
    ensures forall other :: other in r.players ==> r.players[other] == s.players[other]
    ensures r.deck == s.deck && r.dealer == s.dealer && r.roundActive == s.roundActive
    ensures r.currentPlayerIndex == s.currentPlayerIndex
  {
    s.(players := s.players - {id})
  }

  /** Leaving undoes joining for a player who had no seat. */
  lemma LeaveUndoesJoin(s: State, id: PlayerId, position: int)
    requires id !in s.players
    ensures Left(Joined(s, id, position), id) == s
  {
    assert Left(Joined(s, id, position), id).players == s.players;
  }

  /** Joining again is not a no-op: a seat that had placed a bet loses it. */
  lemma RejoinDiscardsBet(s: State, id: PlayerId, position: int)
    requires id in s.players && s.players[id].hasBet
    ensures Joined(s, id, position) != s
    ensures !Joined(s, id, position).players[id].hasBet
    ensures Joined(s, id, position).players[id].betId == None
  {
  }

  /** Joining twice at the same position is joining once: the second join writes the same empty seat. */
  lemma JoinedTwiceIsOnce(s: State, id: PlayerId, position: int)
    ensures Joined(Joined(s, id, position), id, position) == Joined(s, id, position)
  {
  }

  lemma JoinedKeepsWellFormed(s: State, id: PlayerId, position: int)
    requires WellFormed(s)
    ensures WellFormed(Joined(s, id, position))
  {
    CardsApartKeptHands(s.deck, s.dealer.hand, s.players, Joined(s, id, position).players);
  }

  lemma LeftKeepsWellFormed(s: State, id: PlayerId)
    requires WellFormed(s)
    ensures WellFormed(Left(s, id))
  {
    CardsApartKeptHands(s.deck, s.dealer.hand, s.players, Left(s, id).players);
  }

  // ---------------------------------------------------------------- the per-viewer projection

  datatype DealerView = DealerView(hand: seq<Card>, value: Option<int>, isStanding: bool)

  datatype TableView = TableView(
    deck: seq<Card>,
    dealer: DealerView,
    players: map<PlayerId, Seat>,
    currentPlayerIndex: int,
    roundActive: bool)

  /** `getPlayerView`: while a round runs, only the dealer's first card and a hidden card are shown, and no value. */
  function PlayerView(s: State, viewer: PlayerId): (v: TableView)
    ensures v.deck == s.deck && v.players == s.players
    ensures v.currentPlayerIndex == s.currentPlayerIndex && v.roundActive == s.roundActive
    ensures v.dealer.isStanding == s.dealer.isStanding
    ensures v.dealer.value.None? <==> s.roundActive && |s.dealer.hand| > 0
    ensures v.dealer.value.Some? ==> v.dealer.value.value == s.dealer.value && v.dealer.hand == s.dealer.hand
    ensures v.dealer.value.None? ==> v.dealer.hand == [s.dealer.hand[0], Hidden]
  {
    if s.roundActive && |s.dealer.hand| > 0 then
      TableView(s.deck, DealerView([s.dealer.hand[0], Hidden], None, s.dealer.isStanding),
                s.players, s.currentPlayerIndex, s.roundActive)
    else
      TableView(s.deck, DealerView(s.dealer.hand, Some(s.dealer.value), s.dealer.isStanding),
                s.players, s.currentPlayerIndex, s.roundActive)
  }

  /** The view does not depend on who is looking. */
  lemma ViewIgnoresViewer(s: State, a: PlayerId, b: PlayerId)
    ensures PlayerView(s, a) == PlayerView(s, b)
  {
  }

  /** A masked dealer hand is worth exactly its up card: the hidden card counts nothing. */
  lemma MaskedHandShowsUpCardOnly(s: State, viewer: PlayerId)
    requires s.roundActive && |s.dealer.hand| > 0
    ensures HandValue(PlayerView(s, viewer).dealer.hand) == HandValue([s.dealer.hand[0]])
  {
    var h := [s.dealer.hand[0], Hidden];
    assert h[..1] == [s.dealer.hand[0]];
    assert HardTotal(h) == HardTotal([s.dealer.hand[0]]);
    assert AceCount(h) == AceCount([s.dealer.hand[0]]);
  }

  // ---------------------------------------------------------------- bets and the new round

  /** `validateBet`: the checks in their order; `Ok(true)` when all pass. */
  function ValidateBet(s: State, id: PlayerId): (r: Result<bool, EngineError>)
    ensures r.Ok? <==> id in s.players && !s.players[id].hasBet && !s.roundActive
    ensures r.Ok? ==> r.value
    ensures r == Err(PlayerNotFound) <==> id !in s.players
    ensures r == Err(AlreadyBet) <==> id in s.players && s.players[id].hasBet
    ensures r == Err(RoundInProgress) <==> id in s.players && !s.players[id].hasBet && s.roundActive
  {
    if id !in s.players then Err(PlayerNotFound)
    else if s.players[id].hasBet then Err(AlreadyBet)
    else if s.roundActive then Err(RoundInProgress)
    else Ok(true)
  }

  /** The fields `startNewRound` clears; the position is kept. */
  function ResetSeat(seat: Seat): Seat {
    seat.(hand := [], value := 0, bet := 0.0, betId := None, status := Waiting, hasBet := false)
  }

  /** `startNewRound`: every seat is cleared, the dealer and the deck are emptied, the round is off. */
  function NewRound(s: State): (r: State)
    ensures r.players.Keys == s.players.Keys
    ensures forall id :: id in r.players ==> r.players[id] == EmptySeat(s.players[id].position)
    ensures r.deck == [] && r.dealer == Dealer([], 0, false)
    ensures !r.roundActive && r.currentPlayerIndex == 0
  {
    State([], Dealer([], 0, false), map id | id in s.players :: ResetSeat(s.players[id]), 0, false)
  }

  /** The loop of `startNewRound` over `ids`: each listed seat is cleared in turn. */
  function ResetEach(ids: seq<PlayerId>, players: map<PlayerId, Seat>): (r: map<PlayerId, Seat>)
    ensures r.Keys == players.Keys
  {
    if ids == [] then players
    else
      var first := ids[0];
      ResetEach(ids[1..], if first in players then players[first := ResetSeat(players[first])] else players)
  }

  /** The listed seats of `after` are those of `before` cleared, and the others are untouched. */
  predicate ResetOn(ids: seq<PlayerId>, before: map<PlayerId, Seat>, after: map<PlayerId, Seat>)
    requires after.Keys == before.Keys
  {
    forall id :: id in after ==> after[id] == if id in ids then ResetSeat(before[id]) else before[id]
  }

  /** Clearing a seat twice clears it once, so the loop clears exactly the listed seats. */
  lemma {:induction false} ResetEachResets(ids: seq<PlayerId>, players: map<PlayerId, Seat>)
    ensures ResetOn(ids, players, ResetEach(ids, players))
  {
    if ids != [] {
      var first := ids[0];
      var next := if first in players then players[first := ResetSeat(players[first])] else players;
      ResetEachResets(ids[1..], next);
      forall id | id in players
        ensures ResetEach(ids, players)[id] == if id in ids then ResetSeat(players[id]) else players[id]
      {
        if id != first {
          assert id in ids <==> id in ids[1..];
        }
      }
    }
  }

  /** One turn of the `startNewRound` loop: the next listed seat is cleared. */
  lemma ResetEachStep(ids: seq<PlayerId>, players: map<PlayerId, Seat>, k: nat)
    requires k < |ids| && ids[k] in players
    ensures ResetEach(ids[k..], players) == ResetEach(ids[k + 1..], players[ids[k] := ResetSeat(players[ids[k]])])
  {
    assert ids[k..][0] == ids[k] && ids[k..][1..] == ids[k + 1..];
  }

  /** Clearing every seat one by one, in any order, gives the seats of `NewRound`. */
  lemma NewRoundByLoop(s: State, ids: seq<PlayerId>)
    requires forall id :: id in ids <==> id in s.players
    ensures ResetEach(ids, s.players) == NewRound(s).players
  {
    ResetEachResets(ids, s.players);
    var r, m := ResetEach(ids, s.players), NewRound(s).players;
    forall id | id in r ensures r[id] == m[id] {
      assert id in ids;
    }
  }

  lemma NewRoundIdempotent(s: State)
    ensures NewRound(NewRound(s)) == NewRound(s)
  {
    assert NewRound(NewRound(s)).players == NewRound(s).players;
  }

  lemma NewRoundWellFormed(s: State)
    ensures WellFormed(NewRound(s))
  {
  }

  /** The fields `onBetPlaced` writes on the betting seat. */
  function WithBet(seat: Seat, betId: BetId, amount: real): Seat {
    seat.(bet := amount, betId := Some(betId), hasBet := true, status := Waiting)
  }

  predicate AllBet(players: map<PlayerId, Seat>) {
    forall id :: id in players ==> players[id].hasBet
  }

  /** `onBetPlaced`: record the bet; once every seat has bet, start a new round. */
  function BetPlaced(s: State, id: PlayerId, betId: BetId, amount: real): (r: State)
    requires id in s.players
    ensures r.players.Keys == s.players.Keys
    ensures forall p :: p in r.players ==> r.players[p].position == s.players[p].position
    ensures r.players[id].hasBet <==> exists other :: other in s.players && other != id && !s.players[other].hasBet
    ensures r.players[id].hasBet ==> r.players[id].bet == amount && r.players[id].betId == Some(betId)
    ensures !r.players[id].hasBet ==> r == NewRound(s)
  {
    var players := s.players[id := WithBet(s.players[id], betId, amount)];
    if AllBet(players) && |players| > 0 then NewRound(s.(players := players))
    else s.(players := players)
  }

  /**
   * While some other seat has not bet, only the betting seat changes: it records the amount and the
   * bet id, has bet and waits.
   */
  lemma BetIsRecorded(s: State, id: PlayerId, betId: BetId, amount: real)
    requires id in s.players
    requires exists other :: other in s.players && other != id && !s.players[other].hasBet
    ensures var r := BetPlaced(s, id, betId, amount);
      && r.players.Keys == s.players.Keys
      && r.players[id].bet == amount && r.players[id].betId == Some(betId)
      && r.players[id].hasBet && r.players[id].status == Waiting
      && r.players[id].hand == s.players[id].hand && r.players[id].position == s.players[id].position
      && r.players[id].value == s.players[id].value
      && (forall other :: other in s.players && other != id ==> r.players[other] == s.players[other])
      && r.deck == s.deck && r.dealer == s.dealer && r.roundActive == s.roundActive
      && r.currentPlayerIndex == s.currentPlayerIndex
  {
    var other :| other in s.players && other != id && !s.players[other].hasBet;
    var players := s.players[id := WithBet(s.players[id], betId, amount)];
    assert !players[other].hasBet;
  }

  /**
   * The last bet of the table starts a new round instead of dealing: every bet, including the one
   * just placed, is wiped, and no card is dealt.
   */
  lemma LastBetWipesBets(s: State, id: PlayerId, betId: BetId, amount: real)
    requires id in s.players
    requires forall other :: other in s.players && other != id ==> s.players[other].hasBet
    ensures BetPlaced(s, id, betId, amount) == NewRound(s)
    ensures var r := BetPlaced(s, id, betId, amount);
      && (forall p :: p in r.players ==> !r.players[p].hasBet && r.players[p].bet == 0.0 && r.players[p].hand == [])
      && r.deck == [] && r.dealer.hand == [] && !r.roundActive
  {
    var players := s.players[id := WithBet(s.players[id], betId, amount)];
    assert AllBet(players);
    assert NewRound(s.(players := players)).players == NewRound(s).players;
  }

  lemma BetPlacedKeepsWellFormed(s: State, id: PlayerId, betId: BetId, amount: real)
    requires WellFormed(s) && id in s.players
    ensures WellFormed(BetPlaced(s, id, betId, amount))
  {
    var players := s.players[id := WithBet(s.players[id], betId, amount)];
    CardsApartKeptHands(s.deck, s.dealer.hand, s.players, players);
    assert WellFormed(s.(players := players));
    NewRoundWellFormed(s.(players := players));
  }

  // ---------------------------------------------------------------- the initial deal

  /** The two cards `dealInitialCards` pops for one seat, in pop order, and the status they give. */
  function DealSeat(seat: Seat, deck: seq<Card>): Seat
    requires |deck| >= 2
  {
    var hand := TopPair(deck);
    var value := HandValue(hand);
    seat.(hand := hand, value := value, status := if value == 21 then Blackjack else Playing)
  }

  datatype Deal = Deal(players: map<PlayerId, Seat>, deck: seq<Card>)

  /** Two cards to each listed seat, in list order, from the top of the deck. */
  function DealAll(ids: seq<PlayerId>, players: map<PlayerId, Seat>, deck: seq<Card>): (r: Deal)
    requires 2 * |ids| <= |deck|
    requires forall id :: id in ids ==> id in players
    ensures r.players.Keys == players.Keys
    ensures r.deck == deck[..|deck| - 2 * |ids|]
    decreases |ids|
  {
    if ids == [] then Deal(players, deck)
    else
      assert forall id :: id in ids[1..] ==> id in ids;
      DealAll(ids[1..], players[ids[0] := DealSeat(players[ids[0]], deck)], deck[..|deck| - 2])
  }

  /** A seat that is not listed is left as it was. */
  lemma {:induction false} DealAllLeaves(ids: seq<PlayerId>, players: map<PlayerId, Seat>, deck: seq<Card>, id: PlayerId)
    requires 2 * |ids| <= |deck| && forall i :: i in ids ==> i in players
    requires id in players && id !in ids
    ensures DealAll(ids, players, deck).players[id] == players[id]
    decreases |ids|
  {
    if ids != [] {
      DealAllUnfold(ids, players, deck);
      assert id !in ids[1..];
      DealAllLeaves(ids[1..], players[ids[0] := DealSeat(players[ids[0]], deck)], deck[..|deck| - 2], id);
    }
  }

  /** Dealing to a list deals its first seat from the whole deck, then the rest of the list from what remains. */
  lemma DealAllUnfold(ids: seq<PlayerId>, players: map<PlayerId, Seat>, deck: seq<Card>)
    requires 2 * |ids| <= |deck| && |ids| > 0
    requires forall id :: id in ids ==> id in players
    ensures var next := players[ids[0] := DealSeat(players[ids[0]], deck)];
      && (forall id :: id in ids[1..] ==> id in next)
      && DealAll(ids, players, deck) == DealAll(ids[1..], next, deck[..|deck| - 2])
  {
    assert forall id :: id in ids[1..] ==> id in ids;
  }

  /** The first listed seat is dealt from the whole deck, and the rest of the deal leaves it alone. */
  lemma DealAllFirst(ids: seq<PlayerId>, players: map<PlayerId, Seat>, deck: seq<Card>)
    requires 2 * |ids| <= |deck| && |ids| > 0
    requires forall id :: id in ids ==> id in players
    requires ids[0] !in ids[1..]
    ensures DealAll(ids, players, deck).players[ids[0]] == DealSeat(players[ids[0]], deck)
  {
    DealAllUnfold(ids, players, deck);
    var next := players[ids[0] := DealSeat(players[ids[0]], deck)];
    DealAllLeaves(ids[1..], next, deck[..|deck| - 2], ids[0]);
  }

  /** The k-th listed id occurs nowhere else in the list. */
  predicate OnlyAt(ids: seq<PlayerId>, k: nat)
    requires k < |ids|
  {
    ids[k] !in ids[..k] && ids[k] !in ids[k + 1..]
  }

  lemma DistinctOnlyAt(ids: seq<PlayerId>, k: nat)
    requires Distinct(ids) && k < |ids|
    ensures OnlyAt(ids, k)
  {
  }

  /** The k-th listed seat is dealt from the deck less the 2k cards popped before its turn. */
  lemma {:induction false} DealAllAt(ids: seq<PlayerId>, players: map<PlayerId, Seat>, deck: seq<Card>, k: nat)
    requires 2 * |ids| <= |deck|
    requires forall id :: id in ids ==> id in players
    requires k < |ids| && OnlyAt(ids, k)
    ensures DealAll(ids, players, deck).players[ids[k]] == DealSeat(players[ids[k]], deck[..|deck| - 2 * k])
    decreases k
  {
    if k == 0 {
      DealAllFirst(ids, players, deck);
      assert deck[..|deck| - 0] == deck;
    } else {
      DealAllUnfold(ids, players, deck);
      var tail, rest := ids[1..], deck[..|deck| - 2];
      var next := players[ids[0] := DealSeat(players[ids[0]], deck)];
      var id, sub := ids[k], rest[..|rest| - 2 * (k - 1)];
      assert tail[k - 1] == id;
      assert ids[..k] == [ids[0]] + tail[..k - 1];
      assert tail[k..] == ids[k + 1..];
      assert next[id] == players[id];
      assert sub == deck[..|deck| - 2 * k];
      DealAllAt(tail, next, rest, k - 1);
      var dealt := DealAll(tail, next, rest);
      assert dealt.players[tail[k - 1]] == DealSeat(next[tail[k - 1]], rest[..|rest| - 2 * (k - 1)]);
      assert DealAll(ids, players, deck) == dealt;
    }
  }

  /** The k-th listed seat holds the cards at depth 2k and 2k+1 from the top, in pop order. */
  lemma HandAt(ids: seq<PlayerId>, players: map<PlayerId, Seat>, deck: seq<Card>, k: nat)
    requires 2 * |ids| <= |deck|
    requires forall id :: id in ids ==> id in players
    requires Distinct(ids) && k < |ids|
    ensures DealAll(ids, players, deck).players[ids[k]].hand == [deck[|deck| - 1 - 2 * k], deck[|deck| - 2 - 2 * k]]
  {
    DistinctOnlyAt(ids, k);
    DealAllAt(ids, players, deck, k);
  }

  /** What the deal makes of a seat: two real cards, the value they give, playing or blackjack, and the bet kept. */
  predicate DealtSeat(seat: Seat, before: Seat) {
    && SeatOk(seat)
    && |seat.hand| == 2
    && seat.status in {Playing, Blackjack}
    && (seat.status == Blackjack <==> seat.value == 21)
    && seat.position == before.position
    && seat.bet == before.bet && seat.betId == before.betId && seat.hasBet == before.hasBet
  }

  /** Two real cards are worth at most 21. */
  lemma TwoCardsAtMost21(a: Card, b: Card)
    requires a.Card? && b.Card?
    ensures HandValue([a, b]) <= 21
  {
    assert [a, b][..1] == [a] && [a][..0] == [];
    assert HardTotal([a]) == HardPoints(a);
    HardPointsAtMostTen(a);
    HardPointsAtMostTen(b);
    assert HardTotal([a, b]) == HardPoints(a) + HardPoints(b);
    HandValueCharacterised([a, b]);
  }

  lemma DealSeatOk(seat: Seat, deck: seq<Card>)
    requires |deck| >= 2 && RealCards(deck)
    ensures DealtSeat(DealSeat(seat, deck), seat)
  {
    TwoCardsAtMost21(deck[|deck| - 1], deck[|deck| - 2]);
  }

  /** Every listed seat is dealt as `DealtSeat` says. */
  lemma {:induction false} DealAllSeats(ids: seq<PlayerId>, players: map<PlayerId, Seat>, deck: seq<Card>)
    requires 2 * |ids| <= |deck|
    requires forall id :: id in ids ==> id in players
    requires Distinct(ids) && RealCards(deck)
    ensures forall id :: id in ids ==> DealtSeat(DealAll(ids, players, deck).players[id], players[id])
    decreases |ids|
  {
    if ids != [] {
      var rest := deck[..|deck| - 2];
      var next := players[ids[0] := DealSeat(players[ids[0]], deck)];
      DealAllUnfold(ids, players, deck);
      DistinctTail(ids);
      DealAllSeats(ids[1..], next, rest);
      DealSeatOk(players[ids[0]], deck);
      forall id | id in ids ensures DealtSeat(DealAll(ids, players, deck).players[id], players[id]) {
        if id == ids[0] {
          DistinctOnlyAt(ids, 0);
          DealAllFirst(ids, players, deck);
        } else {
          assert id in ids[1..];
          assert next[id] == players[id];
        }
      }
    }
  }

  /** Cutting a prefix of a prefix is cutting the shorter prefix. */
  lemma PrefixOfPrefix(deck: seq<Card>, m: nat, n: nat)
    requires n <= m <= |deck|
    ensures deck[..m][..n] == deck[..n]
  {
  }

  /** `dealInitialCards` once the deck is built: two cards per seat in id order, then two for the dealer. */
  function DealtFrom(s: State, deck: seq<Card>): (r: State)
    requires 2 * |s.players| + 2 <= |deck|
    ensures r.players.Keys == s.players.Keys
    ensures |r.dealer.hand| == 2 && r.dealer.value == HandValue(r.dealer.hand)
    ensures |r.deck| == |deck| - 2 * |s.players| - 2 && r.deck == deck[..|r.deck|]
    ensures r.roundActive && r.currentPlayerIndex == 0
  {
    var ids := SortedIds(s.players.Keys);
    assert |ids| == |s.players|;
    var d := DealAll(ids, s.players, deck);
    var hand := TopPair(d.deck);
    PrefixOfPrefix(deck, |deck| - 2 * |ids|, |deck| - 2 * |ids| - 2);
    State(d.deck[..|d.deck| - 2], Dealer(hand, HandValue(hand), s.dealer.isStanding), d.players, 0, true)
  }

  /** The deal replaces the deck: what the table held in it before does not matter. */
  lemma DealtFromIgnoresDeck(s: State, t: State, deck: seq<Card>)
    requires s.players == t.players && s.dealer == t.dealer && 2 * |s.players| + 2 <= |deck|
    ensures DealtFrom(s, deck) == DealtFrom(t, deck)
  {
  }

  /** `dealInitialCards`: a fresh deck shuffled by `picks`, then the deal. */
  function Dealt(s: State, picks: seq<nat>): (r: State)
    requires |picks| == 52 && 2 * |s.players| + 2 <= 52
    ensures r.players.Keys == s.players.Keys
    ensures |r.deck| == 50 - 2 * |s.players| && |r.dealer.hand| == 2
    ensures r.roundActive && r.currentPlayerIndex == 0
  {
    DealtFrom(s, Shuffle(FullDeck(), picks))
  }

  /** Every seat is dealt as `DealtSeat` says, and no seat is added or removed. */
  lemma DealtSeats(s: State, deck: seq<Card>)
    requires 2 * |s.players| + 2 <= |deck| && RealCards(deck)
    ensures var r := DealtFrom(s, deck);
      && r.players.Keys == s.players.Keys
      && forall id :: id in r.players ==> DealtSeat(r.players[id], s.players[id])
  {
    var ids := SortedIds(s.players.Keys);
    IncreasingIsDistinct(ids);
    DealAllSeats(ids, s.players, deck);
  }

  /** The dealer holds the next two real cards and the deck has lost two cards per seat and two for the dealer. */
  lemma DealtDealer(s: State, deck: seq<Card>)
    requires 2 * |s.players| + 2 <= |deck| && RealCards(deck)
    ensures var r := DealtFrom(s, deck);
      && |r.dealer.hand| == 2 && RealCards(r.dealer.hand) && r.dealer.value == HandValue(r.dealer.hand)
      && RealCards(r.deck) && |r.deck| == |deck| - 2 * |s.players| - 2
      && r.roundActive && r.currentPlayerIndex == 0
  {
    var d := DealAll(SortedIds(s.players.Keys), s.players, deck);
    assert RealCards(d.deck);
  }

  /** The deal leaves the table well formed, whatever it held before. */
  lemma DealtWellFormed(s: State, picks: seq<nat>)
    requires |picks| == 52 && 2 * |s.players| + 2 <= 52
    ensures WellFormed(Dealt(s, picks))
  {
    DealtFacts(s, picks);
  }

  /**
   * After the deal the table is well formed whatever it held before: every seat is dealt as
   * `DealtSeat` says, the dealer holds two cards, the deck has lost two cards per seat and two for
   * the dealer, and the round is active.
   */
  lemma DealtFacts(s: State, picks: seq<nat>)
    requires |picks| == 52 && 2 * |s.players| + 2 <= 52
    ensures var r := Dealt(s, picks);
      && WellFormed(r)
      && r.players.Keys == s.players.Keys
      && (forall id :: id in r.players ==> DealtSeat(r.players[id], s.players[id]))
      && |r.dealer.hand| == 2
      && |r.deck| == 50 - 2 * |s.players|
      && r.roundActive && r.currentPlayerIndex == 0
  {
    var deck := Shuffle(FullDeck(), picks);
    ShuffledDeckFacts(picks);
    DealtSeats(s, deck);
    DealtDealer(s, deck);
    var r := DealtFrom(s, deck);
    forall id | id in r.players ensures SeatOk(r.players[id]) {
      assert DealtSeat(r.players[id], s.players[id]);
    }
    forall a | a in r.players
      ensures Distinct(r.players[a].hand) && Disjoint(r.players[a].hand, r.dealer.hand) && Disjoint(r.players[a].hand, r.deck)
    {
      DealtSeatApart(s, picks, a);
    }
    forall a, b | a in r.players && b in r.players && a != b ensures Disjoint(r.players[a].hand, r.players[b].hand) {
      DealtCardsApart(s, picks, a, b);
    }
    DealtDealerApart(s, picks);
  }

  /** Cards at different positions of a deck of distinct cards differ. */
  lemma PairsApart(deck: seq<Card>, i: nat, j: nat)
    requires Distinct(deck) && i + 1 < |deck| && j + 1 < |deck| && (i + 2 <= j || j + 2 <= i)
    ensures Disjoint([deck[i + 1], deck[i]], [deck[j + 1], deck[j]])
  {
  }

  lemma PairDistinct(deck: seq<Card>, i: nat)
    requires Distinct(deck) && i + 1 < |deck|
    ensures Distinct([deck[i + 1], deck[i]])
  {
    assert deck[i + 1] != deck[i];
  }

  /** The two cards at and above position i differ from every card below it. */
  lemma PairAboveRest(deck: seq<Card>, i: nat, n: nat)
    requires Distinct(deck) && n <= i && i + 1 < |deck|
    ensures Disjoint([deck[i + 1], deck[i]], deck[..n])
  {
  }

  /** Two different listed seats are dealt different cards. */
  lemma HandsApart(ids: seq<PlayerId>, players: map<PlayerId, Seat>, deck: seq<Card>, ka: nat, kb: nat)
    requires 2 * |ids| <= |deck|
    requires forall id :: id in ids ==> id in players
    requires Distinct(ids) && Distinct(deck)
    requires ka < |ids| && kb < |ids| && ka != kb
    ensures var d := DealAll(ids, players, deck);
      Disjoint(d.players[ids[ka]].hand, d.players[ids[kb]].hand)
  {
    HandAt(ids, players, deck, ka);
    HandAt(ids, players, deck, kb);
    PairsApart(deck, |deck| - 2 - 2 * ka, |deck| - 2 - 2 * kb);
  }

  /** After the seats, the next two cards and the rest of the deck are the cards below the seats' positions. */
  lemma DeckAfterSeats(ids: seq<PlayerId>, players: map<PlayerId, Seat>, deck: seq<Card>)
    requires 2 * |ids| + 2 <= |deck|
    requires forall id :: id in ids ==> id in players
    ensures var d, low := DealAll(ids, players, deck), |deck| - 2 - 2 * |ids|;
      && TopPair(d.deck) == [deck[low + 1], deck[low]]
      && d.deck[..|d.deck| - 2] == deck[..low]
  {
  }

  /** A listed seat's cards are neither among the two cards after the deal nor in what remains below them. */
  lemma HandApartFromRest(ids: seq<PlayerId>, players: map<PlayerId, Seat>, deck: seq<Card>, k: nat)
    requires 2 * |ids| + 2 <= |deck|
    requires forall id :: id in ids ==> id in players
    requires Distinct(ids) && Distinct(deck) && k < |ids|
    ensures var d := DealAll(ids, players, deck);
      && Distinct(d.players[ids[k]].hand)
      && Disjoint(d.players[ids[k]].hand, TopPair(d.deck))
      && Disjoint(d.players[ids[k]].hand, d.deck[..|d.deck| - 2])
  {
    var low := |deck| - 2 - 2 * |ids|;
    HandAt(ids, players, deck, k);
    PairDistinct(deck, |deck| - 2 - 2 * k);
    DeckAfterSeats(ids, players, deck);
    PairsApart(deck, |deck| - 2 - 2 * k, low);
    PairAboveRest(deck, |deck| - 2 - 2 * k, low);
  }

  /** The dealer's two cards are not among the cards left in the deck. */
  lemma DealerApartFromRest(ids: seq<PlayerId>, players: map<PlayerId, Seat>, deck: seq<Card>)
    requires 2 * |ids| + 2 <= |deck|
    requires forall id :: id in ids ==> id in players
    requires Distinct(deck)
    ensures var d := DealAll(ids, players, deck);
      Disjoint(TopPair(d.deck), d.deck[..|d.deck| - 2])
  {
    var low := |deck| - 2 - 2 * |ids|;
    DeckAfterSeats(ids, players, deck);
    PairAboveRest(deck, low, low);
  }

  /** A seat's two dealt cards differ, and neither is the dealer's or left in the deck. */
  lemma DealtSeatApart(s: State, picks: seq<nat>, a: PlayerId)
    requires |picks| == 52 && 2 * |s.players| + 2 <= 52 && a in s.players
    ensures var r := Dealt(s, picks);
      && Distinct(r.players[a].hand)
      && Disjoint(r.players[a].hand, r.dealer.hand)
      && Disjoint(r.players[a].hand, r.deck)
  {
    var ids := SortedIds(s.players.Keys);
    var deck := Shuffle(FullDeck(), picks);
    ShuffledDeckFacts(picks);
    IncreasingIsDistinct(ids);
    var k :| 0 <= k < |ids| && ids[k] == a;
    HandApartFromRest(ids, s.players, deck, k);
  }

  /** The dealer's two cards differ, and the deck left after the deal holds no card twice and neither of them. */
  lemma DealtDealerApart(s: State, picks: seq<nat>)
    requires |picks| == 52 && 2 * |s.players| + 2 <= 52
    ensures var r := Dealt(s, picks);
      Distinct(r.deck) && Distinct(r.dealer.hand) && Disjoint(r.dealer.hand, r.deck)
  {
    var ids := SortedIds(s.players.Keys);
    var deck := Shuffle(FullDeck(), picks);
    ShuffledDeckFacts(picks);
    DeckAfterSeats(ids, s.players, deck);
    DealerApartFromRest(ids, s.players, deck);
  }

  /**
   * No card is dealt twice: different seats, the dealer and the remaining deck hold different
   * cards, because each takes its own positions of a shuffled deck of distinct cards.
   */
  lemma DealtCardsApart(s: State, picks: seq<nat>, a: PlayerId, b: PlayerId)
    requires |picks| == 52 && 2 * |s.players| + 2 <= 52
    requires a in s.players && b in s.players && a != b
    ensures var r := Dealt(s, picks);
      && Disjoint(r.players[a].hand, r.players[b].hand)
      && Disjoint(r.players[a].hand, r.dealer.hand)
      && Disjoint(r.players[a].hand, r.deck)
      && Disjoint(r.dealer.hand, r.deck)
  {
    var ids := SortedIds(s.players.Keys);
    var deck := Shuffle(FullDeck(), picks);
    ShuffledDeckFacts(picks);
    IncreasingIsDistinct(ids);
    var ka :| 0 <= ka < |ids| && ids[ka] == a;
    var kb :| 0 <= kb < |ids| && ids[kb] == b;
    HandsApart(ids, s.players, deck, ka, kb);
    HandApartFromRest(ids, s.players, deck, ka);
    DealerApartFromRest(ids, s.players, deck);
  }

  // ---------------------------------------------------------------- one player's action

  /** A card's rank as `card.rank` reads it: a hidden card has none. */
  function RankOf(c: Card): Option<Rank> {
    if c.Card? then Some(c.rank) else None
  }

  predicate DrawsCard(action: string) {
    action == "hit" || action == "double"
  }

  /** The checks of `processAction`, in their order; `None` when the action may proceed. */
  function ActionError(s: State, id: PlayerId, action: string): (e: Option<EngineError>)
    ensures e.None? <==>
      && id in s.players && s.players[id].status == Playing
      && (|| action == "hit" || action == "stand"
          || (action == "double" && |s.players[id].hand| == 2)
          || (action == "split" && |s.players[id].hand| == 2 && RankOf(s.players[id].hand[0]) == RankOf(s.players[id].hand[1])))
  {
    if id !in s.players then Some(PlayerNotFound)
    else
      var seat := s.players[id];
      if seat.status != Playing then Some(CannotAct)
      else if action == "hit" || action == "stand" then None
      else if action == "double" then
        if |seat.hand| != 2 then Some(DoubleNeedsTwoCards) else None
      else if action == "split" then
        if |seat.hand| != 2 || RankOf(seat.hand[0]) != RankOf(seat.hand[1]) then Some(SplitNeedsPair) else None
      else Some(InvalidAction)
  }

  /** The seat after `hand.push(drawCard(deck))` and the recomputed value. */
  function DrawTo(seat: Seat, deck: seq<Card>): Seat
    requires |deck| > 0
  {
    var hand := seat.hand + [Top(deck)];
    seat.(hand := hand, value := HandValue(hand))
  }

  datatype Step = Step(seat: Seat, deck: seq<Card>, resolutions: seq<Resolution>)

  /** The switch of `processAction` for an action that passed its checks. */
  function PlayerStep(seat: Seat, action: string, deck: seq<Card>): (r: Step)
    requires seat.status == Playing
    requires DrawsCard(action) ==> |deck| > 0
    ensures DrawsCard(action) ==> r.seat.hand == seat.hand + [Top(deck)] && r.deck == Popped(deck)
    ensures !DrawsCard(action) ==> r.seat.hand == seat.hand && r.deck == deck
    ensures r.seat.value == (if DrawsCard(action) then HandValue(r.seat.hand) else seat.value)
    ensures r.seat.position == seat.position && r.seat.bet == seat.bet && r.seat.betId == seat.betId
    ensures r.seat.hasBet == seat.hasBet
    ensures action == "stand" ==> r.seat.status == Waiting
    ensures action == "double" ==> (r.seat.status == Busted <==> r.seat.value > 21) && r.seat.status != Playing
    ensures action == "double" && r.seat.value <= 21 ==> r.seat.status == Waiting
    ensures action == "hit" ==> (r.seat.status == Busted <==> r.seat.value > 21)
    ensures action == "hit" && r.seat.value <= 21 ==> r.seat.status == Playing
    ensures |r.resolutions| <= 1
    ensures |r.resolutions| == 1 <==> action == "hit" && r.seat.value > 21
    ensures |r.resolutions| == 1 ==> r.resolutions[0] == Resolution(seat.betId, Outcome(Lose, 0.0, 0.0))
    ensures action != "hit" && action != "stand" && action != "double" ==> r.seat == seat
  {
    if action == "hit" then
      var drawn := DrawTo(seat, deck);
      if drawn.value > 21 then
        Step(drawn.(status := Busted), Popped(deck), [Resolution(seat.betId, Outcome(Lose, 0.0, 0.0))])
      else Step(drawn, Popped(deck), [])
    else if action == "stand" then Step(seat.(status := Waiting), deck, [])
    else if action == "double" then
      var drawn := DrawTo(seat, deck);
      Step(drawn.(status := if drawn.value > 21 then Busted else Waiting), Popped(deck), [])
    else Step(seat, deck, [])
  }

  lemma PlayerStepKeepsSeatOk(seat: Seat, action: string, deck: seq<Card>)
    requires DrawsCard(action) ==> |deck| > 0
    requires SeatOk(seat) && seat.status == Playing && RealCards(deck)
    ensures SeatOk(PlayerStep(seat, action, deck).seat) && RealCards(PlayerStep(seat, action, deck).deck)
  {
  }

  predicate AllDone(players: map<PlayerId, Seat>) {
    forall id :: id in players ==> players[id].status != Playing
  }

  // ---------------------------------------------------------------- the dealer

  /** The dealer after one draw and the recomputed value. */
  function DealerHit(d: Dealer, deck: seq<Card>): Dealer
    requires |deck| > 0
  {
    var hand := d.hand + [Top(deck)];
    d.(hand := hand, value := HandValue(hand))
  }

  /** The deck holds enough cards for the dealer's loop to reach a stored value of 17 or more. */
  predicate DealerCanFinish(d: Dealer, deck: seq<Card>)
    decreases |deck|
  {
    d.value >= 17 || (|deck| > 0 && DealerCanFinish(DealerHit(d, deck), Popped(deck)))
  }

  datatype DealerDraw = DealerDraw(dealer: Dealer, deck: seq<Card>)

  /**
   * The loop of `dealerTurn`: draw while the stored value is below 17.  The dealer ends at 17 or
   * more, having taken the top cards of the deck in pop order, and a dealer who draws holds the
   * value of the hand drawn.
   */
  function DealerPlay(d: Dealer, deck: seq<Card>): (r: DealerDraw)
    requires DealerCanFinish(d, deck)
    ensures r.dealer.value >= 17
    ensures r.dealer.isStanding == d.isStanding
    ensures |r.deck| <= |deck| && r.deck == deck[..|r.deck|]
    ensures d.value >= 17 ==> r == DealerDraw(d, deck)
    ensures d.value < 17 ==> |r.deck| < |deck| && r.dealer.value == HandValue(r.dealer.hand)
    decreases |deck|
  {
    if d.value >= 17 then DealerDraw(d, deck)
    else
      DealerPlay(DealerHit(d, deck), Popped(deck))
  }

  /** The dealer's hand grows by the top cards of the deck, in pop order, one per card the deck lost. */
  lemma {:induction false} DealerTakesTopCards(d: Dealer, deck: seq<Card>)
    requires DealerCanFinish(d, deck)
    ensures var r := DealerPlay(d, deck);
      r.dealer.hand == d.hand + TopCards(deck, |deck| - |r.deck|)
    decreases |deck|
  {
    if d.value < 17 {
      var hit, rest := DealerHit(d, deck), Popped(deck);
      var r := DealerPlay(hit, rest);
      assert DealerPlay(d, deck) == r;
      DealerTakesTopCards(hit, rest);
      var n := |deck| - |r.deck|;
      assert |rest| - |r.deck| == n - 1;
      assert TopCards(deck, n) == [Top(deck)] + TopCards(rest, n - 1);
      assert r.dealer.hand == (d.hand + [Top(deck)]) + TopCards(rest, n - 1);
    }
  }

  /** Every hand from `start` up to, but not including, `hand` is worth less than 17. */
  predicate BelowSeventeenUntil(start: seq<Card>, hand: seq<Card>) {
    forall k :: |start| <= k < |hand| ==> HandValue(hand[..k]) < 17
  }

  /** The dealer stops at the first hand worth 17 or more: every hand passed through on the way is worth less. */
  lemma {:induction false} DealerStopsAtFirst17(d: Dealer, deck: seq<Card>)
    requires DealerCanFinish(d, deck) && d.value == HandValue(d.hand)
    ensures BelowSeventeenUntil(d.hand, DealerPlay(d, deck).dealer.hand)
    decreases |deck|
  {
    if d.value < 17 {
      var d1 := DealerHit(d, deck);
      var hand := DealerPlay(d1, Popped(deck)).dealer.hand;
      DealerStopsAtFirst17(d1, Popped(deck));
      DealerTakesTopCards(d1, Popped(deck));
      forall k | |d.hand| <= k < |hand| ensures HandValue(hand[..k]) < 17 {
        if k == |d.hand| {
          assert hand[..|d1.hand|] == d1.hand;
          assert hand[..k] == d.hand;
        }
      }
    }
  }

  /**
   * The loop ends before the deck runs out whenever the deck holds enough real cards: each draw
   * raises the all-aces-low total by at least one, and the value is never below that total.
   */
  lemma {:induction false} DealerFinishes(d: Dealer, deck: seq<Card>)
    requires d.value == HandValue(d.hand) && RealCards(deck)
    requires HardTotal(d.hand) + |deck| >= 17
    ensures DealerCanFinish(d, deck)
    decreases |deck|
  {
    HandValueCharacterised(d.hand);
    if d.value < 17 {
      HardTotalGrows(d.hand, Top(deck));
      DealerFinishes(DealerHit(d, deck), Popped(deck));
    }
  }

  /** Each card the dealer's loop draws moves from the top of the deck to the dealer's hand, so the cards stay apart. */
  lemma {:induction false} DealerPlayKeepsApart(d: Dealer, deck: seq<Card>, players: map<PlayerId, Seat>)
    requires DealerCanFinish(d, deck) && CardsApart(deck, d.hand, players)
    ensures CardsApart(DealerPlay(d, deck).deck, DealerPlay(d, deck).dealer.hand, players)
    decreases |deck|
  {
    if d.value < 17 {
      CardsApartDrawToDealer(deck, d.hand, players);
      DealerPlayKeepsApart(DealerHit(d, deck), Popped(deck), players);
    }
  }

  /** `dealerTurn`: the loop, then the dealer stands. */
  function DealerTurned(s: State): (r: State)
    requires DealerCanFinish(s.dealer, s.deck)
    ensures r.players == s.players && r.roundActive == s.roundActive && r.currentPlayerIndex == s.currentPlayerIndex
    ensures r.dealer.isStanding && r.dealer.value >= 17
    ensures |r.deck| <= |s.deck| && r.deck == s.deck[..|r.deck|]
  {
    var r := DealerPlay(s.dealer, s.deck);
    s.(dealer := r.dealer.(isStanding := true), deck := r.deck)
  }

  lemma DealerTurnedKeepsWellFormed(s: State)
    requires WellFormed(s) && DealerCanFinish(s.dealer, s.deck)
    ensures WellFormed(DealerTurned(s))
    ensures DealerTurned(s).dealer.isStanding && DealerTurned(s).dealer.value >= 17
    ensures DealerTurned(s).players == s.players
  {
    var r := DealerPlay(s.dealer, s.deck);
    DealerTakesTopCards(s.dealer, s.deck);
    DealerPlayKeepsApart(s.dealer, s.deck, s.players);
    var drawn := TopCards(s.deck, |s.deck| - |r.deck|);
    assert RealCards(drawn);
    assert RealCards(r.deck) by {
      forall c | c in r.deck ensures c.Card? {
        assert c in s.deck;
      }
    }
  }

  // ---------------------------------------------------------------- settling bets

  /** The payout table of `resolveBets` for one seat that has not busted. */
  function Settle(seat: Seat, dealer: Dealer): (o: Outcome)
    ensures o.payout == seat.bet * o.multiplier
    ensures o.status == Win <==> o.multiplier > 1.0
    ensures o.status == Push <==> o.multiplier == 1.0
    ensures o.status == Lose <==> o.multiplier == 0.0
    ensures seat.bet >= 0.0 ==> 0.0 <= o.payout <= 2.5 * seat.bet
  {
    if seat.status == Blackjack then
      if dealer.value == 21 && |dealer.hand| == 2 then Outcome(Push, seat.bet, 1.0)
      else Outcome(Win, seat.bet * 2.5, 2.5)
    else if dealer.value > 21 then Outcome(Win, seat.bet * 2.0, 2.0)
    else if seat.value > dealer.value then Outcome(Win, seat.bet * 2.0, 2.0)
    else if seat.value == dealer.value then Outcome(Push, seat.bet, 1.0)
    else Outcome(Lose, 0.0, 0.0)
  }

  /**
   * Who wins and who pushes: a blackjack wins 2.5 times the bet unless the dealer has a two-card 21;
   * otherwise a dealer bust or a higher value wins double, an equal value pushes, a lower value loses.
   */
  lemma SettleRules(seat: Seat, dealer: Dealer)
    ensures var o, dealerBlackjack := Settle(seat, dealer), dealer.value == 21 && |dealer.hand| == 2;
      && (o.status == Win <==>
            (seat.status == Blackjack && !dealerBlackjack)
            || (seat.status != Blackjack && (dealer.value > 21 || seat.value > dealer.value)))
      && (o.status == Push <==>
            (seat.status == Blackjack && dealerBlackjack)
            || (seat.status != Blackjack && dealer.value <= 21 && seat.value == dealer.value))
      && (o.multiplier == 2.5 <==> seat.status == Blackjack && !dealerBlackjack)
      && (o.multiplier == 2.0 <==> seat.status != Blackjack && (dealer.value > 21 || seat.value > dealer.value))
  {
  }

  lemma BelowLast(init: seq<PlayerId>, last: PlayerId)
    ensures Increasing(init + [last]) ==> Increasing(init) && forall id :: id in init ==> id < last
  {
    if Increasing(init + [last]) {
      forall id | id in init ensures id < last {
        var i :| 0 <= i < |init| && init[i] == id;
        assert (init + [last])[i] == id && (init + [last])[|init|] == last;
      }
      forall i, j | 0 <= i < j < |init| ensures init[i] < init[j] {
        assert (init + [last])[i] == init[i] && (init + [last])[j] == init[j];
      }
    }
  }

  /** The seats `resolveBets` visits and does not skip, in visiting order. */
  function Unsettled(ids: seq<PlayerId>, players: map<PlayerId, Seat>): (u: seq<PlayerId>)
    requires forall id :: id in ids ==> id in players
    ensures forall id :: id in u <==> id in ids && players[id].status != Busted
  {
    if ids == [] then []
    else
      var last := ids[|ids| - 1];
      assert forall id :: id in ids[..|ids| - 1] ==> id in ids;
      assert ids == ids[..|ids| - 1] + [last];
      Unsettled(ids[..|ids| - 1], players) + (if players[last].status == Busted then [] else [last])
  }

  /** Appending an id above every listed one keeps a list increasing. */
  lemma AppendAbove(u: seq<PlayerId>, last: PlayerId)
    requires Increasing(u) && forall id :: id in u ==> id < last
    ensures Increasing(u + [last])
  {
    forall i, j | 0 <= i < j < |u| + 1 ensures (u + [last])[i] < (u + [last])[j] {
      if j == |u| {
        assert u[i] in u;
      }
    }
  }

  /** Skipping seats keeps the visiting order. */
  lemma {:induction false} UnsettledIncreasing(ids: seq<PlayerId>, players: map<PlayerId, Seat>)
    requires forall id :: id in ids ==> id in players
    requires Increasing(ids)
    ensures Increasing(Unsettled(ids, players))
  {
    if ids != [] {
      var init, last := ids[..|ids| - 1], ids[|ids| - 1];
      assert ids == init + [last];
      BelowLast(init, last);
      UnsettledIncreasing(init, players);
      var u := Unsettled(init, players);
      if players[last].status != Busted {
        assert forall id :: id in u ==> id in init;
        AppendAbove(u, last);
        assert Unsettled(ids, players) == u + [last];
      } else {
        assert Unsettled(ids, players) == u;
      }
    }
  }

  /** The loop of `resolveBets` over `ids`: one resolution per seat that has not busted. */
  function ResolveAll(ids: seq<PlayerId>, players: map<PlayerId, Seat>, dealer: Dealer): (rs: seq<Resolution>)
    requires forall id :: id in ids ==> id in players
    ensures |rs| == |Unsettled(ids, players)|
    ensures forall i :: 0 <= i < |rs| ==>
      rs[i] == Resolution(players[Unsettled(ids, players)[i]].betId, Settle(players[Unsettled(ids, players)[i]], dealer))
  {
    if ids == [] then []
    else
      var last := ids[|ids| - 1];
      assert forall id :: id in ids[..|ids| - 1] ==> id in ids;
      var seat := players[last];
      ResolveAll(ids[..|ids| - 1], players, dealer)
        + (if seat.status == Busted then [] else [Resolution(seat.betId, Settle(seat, dealer))])
  }

  /** One more seat visited by the loop of `resolveBets`. */
  lemma ResolveAllStep(ids: seq<PlayerId>, players: map<PlayerId, Seat>, dealer: Dealer, k: nat)
    requires k < |ids| && forall id :: id in ids ==> id in players
    ensures forall id :: id in ids[..k] ==> id in players
    ensures ResolveAll(ids[..k + 1], players, dealer) == ResolveAll(ids[..k], players, dealer)
      + (if players[ids[k]].status == Busted then []
         else [Resolution(players[ids[k]].betId, Settle(players[ids[k]], dealer))])
  {
    assert ids[..k + 1][..k] == ids[..k];
    assert forall id :: id in ids[..k + 1] ==> id in ids;
  }

  /** Every seat that has not busted gets exactly one resolution, and a busted seat gets none. */
  lemma OneResolutionPerSeat(players: map<PlayerId, Seat>, dealer: Dealer, id: PlayerId)
    requires id in players
    ensures var u := Unsettled(SortedIds(players.Keys), players);
      && (id in u <==> players[id].status != Busted)
      && Distinct(u)
      && |ResolveAll(SortedIds(players.Keys), players, dealer)| == |u|
  {
    var u := Unsettled(SortedIds(players.Keys), players);
    UnsettledIncreasing(SortedIds(players.Keys), players);
    IncreasingIsDistinct(u);
  }

  /** When the dealer busts, every resolution is a win. */
  lemma DealerBustPaysEveryone(players: map<PlayerId, Seat>, dealer: Dealer)
    requires dealer.value > 21
    ensures var rs := ResolveAll(SortedIds(players.Keys), players, dealer);
      forall i :: 0 <= i < |rs| ==> rs[i].outcome.status == Win
  {
    var ids := SortedIds(players.Keys);
    var rs := ResolveAll(ids, players, dealer);
    var u := Unsettled(ids, players);
    forall i | 0 <= i < |rs| ensures rs[i].outcome.status == Win {
      assert u[i] in u;
      assert rs[i].outcome == Settle(players[u[i]], dealer);
    }
  }

  // ---------------------------------------------------------------- the whole action

  /** The deck holds every card the action and, when it ends the round, the dealer's loop draw. */
  predicate CanAct(s: State, id: PlayerId, action: string) {
    ActionError(s, id, action).None? ==>
      && (DrawsCard(action) ==> |s.deck| > 0)
      && (var st := PlayerStep(s.players[id], action, s.deck);
          AllDone(s.players[id := st.seat]) ==> DealerCanFinish(s.dealer, st.deck))
  }

  /** The end of `processAction` once the player has moved: when nobody is still playing, the dealer's turn and the settlement. */
  function AfterStep(played: State, report: PlayerResult, resolutions: seq<Resolution>): (t: Transition)
    requires AllDone(played.players) ==> DealerCanFinish(played.dealer, played.deck)
    ensures t.result.Ok? && t.state.players == played.players
    ensures t.result.value.playerResult == report
    ensures |resolutions| <= |t.result.value.resolutions|
    ensures t.result.value.resolutions[..|resolutions|] == resolutions
    ensures t.result.value.resolutions == resolutions
      + if AllDone(played.players)
        then ResolveAll(SortedIds(t.state.players.Keys), t.state.players, t.state.dealer)
        else []
  {
    if AllDone(played.players) then
      var turned := DealerTurned(played);
      var settled := ResolveAll(SortedIds(turned.players.Keys), turned.players, turned.dealer);
      Transition(turned.(roundActive := false), Ok(ActionReport(report, resolutions + settled)))
    else
      Transition(played, Ok(ActionReport(report, resolutions)))
  }

  /** `processAction`: the checks, the player's step, and, once nobody is playing, the dealer and the settlement. */
  function Act(s: State, id: PlayerId, action: string): (t: Transition)
    requires CanAct(s, id, action)
    ensures t.result.Err? <==> ActionError(s, id, action).Some?
    ensures t.result.Err? ==> t.state == s && t.result.error == ActionError(s, id, action).value
  {
    match ActionError(s, id, action)
    case Some(e) => Transition(s, Err(e))
    case None =>
      var st := PlayerStep(s.players[id], action, s.deck);
      var played := s.(deck := st.deck, players := s.players[id := st.seat]);
      AfterStep(played, PlayerResult(st.seat.hand, st.seat.value, st.seat.status), st.resolutions)
  }

  /** An accepted action changes only the acting seat, as the player's step says, and reports it. */
  lemma ActPlaysStep(s: State, id: PlayerId, action: string)
    requires CanAct(s, id, action) && ActionError(s, id, action).None?
    ensures var t, st := Act(s, id, action), PlayerStep(s.players[id], action, s.deck);
      && t.result.Ok?
      && t.state.players == s.players[id := st.seat]
      && t.result.value.playerResult == PlayerResult(st.seat.hand, st.seat.value, st.seat.status)
      && t.result.value.resolutions == st.resolutions
        + if AllDone(t.state.players)
          then ResolveAll(SortedIds(t.state.players.Keys), t.state.players, t.state.dealer)
          else []
  {
    var st := PlayerStep(s.players[id], action, s.deck);
    var played := s.(deck := st.deck, players := s.players[id := st.seat]);
    assert Act(s, id, action) == AfterStep(played, PlayerResult(st.seat.hand, st.seat.value, st.seat.status), st.resolutions);
  }

  /**
   * The round goes on, with the dealer untouched, while someone is still playing; once nobody is,
   * the dealer has stood at 17 or more and the round is over.
   */
  lemma ActEndsRound(s: State, id: PlayerId, action: string)
    requires CanAct(s, id, action) && ActionError(s, id, action).None?
    ensures var t, st := Act(s, id, action), PlayerStep(s.players[id], action, s.deck);
      && (!AllDone(t.state.players) ==>
            && t.state.dealer == s.dealer && t.state.roundActive == s.roundActive
            && t.result.value.resolutions == st.resolutions)
      && (AllDone(t.state.players) ==>
            && t.state.dealer.isStanding && t.state.dealer.value >= 17 && !t.state.roundActive
            && t.result.value.resolutions == st.resolutions + ResolveAll(SortedIds(t.state.players.Keys), t.state.players, t.state.dealer))
    ensures var st := PlayerStep(s.players[id], action, s.deck);
      var played, t := s.(deck := st.deck, players := s.players[id := st.seat]), Act(s, id, action);
      && (!AllDone(played.players) ==> t.state == played)
      && (AllDone(played.players) ==> t.state == DealerTurned(played).(roundActive := false))
  {
    var st := PlayerStep(s.players[id], action, s.deck);
    var played := s.(deck := st.deck, players := s.players[id := st.seat]);
    assert Act(s, id, action) == AfterStep(played, PlayerResult(st.seat.hand, st.seat.value, st.seat.status), st.resolutions);
  }

  /** The player's own step, before any turn of the dealer, keeps the table well formed. */
  lemma StepKeepsWellFormed(s: State, id: PlayerId, action: string)
    requires WellFormed(s) && CanAct(s, id, action) && ActionError(s, id, action).None?
    ensures var st := PlayerStep(s.players[id], action, s.deck);
      WellFormed(s.(deck := st.deck, players := s.players[id := st.seat]))
  {
    var st := PlayerStep(s.players[id], action, s.deck);
    PlayerStepKeepsSeatOk(s.players[id], action, s.deck);
    if DrawsCard(action) {
      CardsApartDrawToSeat(s.deck, s.dealer.hand, s.players, id, st.seat);
    } else {
      CardsApartKeptHands(s.deck, s.dealer.hand, s.players, s.players[id := st.seat]);
    }
  }

  lemma ActKeepsWellFormed(s: State, id: PlayerId, action: string)
    requires WellFormed(s) && CanAct(s, id, action)
    ensures WellFormed(Act(s, id, action).state)
  {
    if ActionError(s, id, action).None? {
      var st := PlayerStep(s.players[id], action, s.deck);
      StepKeepsWellFormed(s, id, action);
      var played := s.(deck := st.deck, players := s.players[id := st.seat]);
      if AllDone(played.players) {
        DealerTurnedKeepsWellFormed(played);
      }
    }
  }

  /**
   * A hit that busts reports exactly one losing resolution for the seat's bet before any
   * settlement; a double that busts reports none, and the settlement skips the busted seat, so a
   * doubled bust is never resolved.
   */
  lemma BustResolutions(s: State, id: PlayerId, action: string)
    requires CanAct(s, id, action) && ActionError(s, id, action).None?
    requires DrawsCard(action) && HandValue(s.players[id].hand + [Top(s.deck)]) > 21
    ensures var t := Act(s, id, action);
      && t.result.Ok? && t.state.players[id].status == Busted
      && id !in Unsettled(SortedIds(t.state.players.Keys), t.state.players)
      && (action == "hit" ==>
            t.result.value.resolutions[0] == Resolution(s.players[id].betId, Outcome(Lose, 0.0, 0.0)))
      && (action == "double" ==>
            t.result.value.resolutions ==
              if AllDone(t.state.players)
              then ResolveAll(SortedIds(t.state.players.Keys), t.state.players, t.state.dealer)
              else [])
  {
  }
}
