/**
 * Two decision rules of the user service: whether a user can afford a bet, and how a page of
 * the transaction history is requested and reported.  The user table is a map from user id to
 * balance; the repository query is a caller-supplied function from the query's parameters to
 * the rows it returns.
 */
module UserService {
  import opened Wrappers
  import opened ServiceErrors
  import opened Chips

  /**
   * The object `canAffordBet` returns.  An invalid amount yields only `canAfford` and `reason`;
   * the fields it leaves undefined are `None`.  A `reason` of `None` is `null`.
   */
  datatype Affordability = Affordability(
    canAfford: bool,
    balance: Option<real>,
    shortfall: Option<real>,
    reason: Option<string>)

  const InvalidAmountMessage := "Invalid bet amount"

  /** `canAffordBet`: the amount is checked first, then the user is looked up and the balance compared. */
  function CanAffordBet(balances: map<UserId, real>, userId: UserId, amount: real): (r: Result<Affordability, ServiceError>)
    ensures r.Err? <==> amount > 0.0 && userId !in balances
    ensures r.Err? ==> r.error == NotFound(UserNotFoundMessage)
    ensures amount <= 0.0 ==>
      && r.Ok? && !r.value.canAfford && r.value.reason == Some(InvalidAmountMessage)
      && r.value.balance.None? && r.value.shortfall.None?
    ensures amount > 0.0 && userId in balances ==>
      var balance := balances[userId];
      && r.Ok? && r.value.balance == Some(balance) && r.value.shortfall.Some?
      && (r.value.canAfford <==> balance >= amount)
      && (r.value.canAfford <==> r.value.shortfall.value == 0.0)
      && r.value.shortfall.value >= 0.0 && balance + r.value.shortfall.value >= amount
      && (!r.value.canAfford ==> r.value.shortfall.value == amount - balance)
      && (r.value.reason.None? <==> r.value.canAfford)
      && (!r.value.canAfford ==> r.value.reason == Some(InsufficientBalanceMessage))
  {
    if amount <= 0.0 then
      Ok(Affordability(false, None, None, Some(InvalidAmountMessage)))
    else if userId !in balances then
      Err(NotFound(UserNotFoundMessage))
    else
      var balance := balances[userId];
      var canAfford := balance >= amount;
      Ok(Affordability(canAfford, Some(balance),
        Some(if canAfford then 0.0 else amount - balance),
        if canAfford then None else Some(InsufficientBalanceMessage)))
  }

  /** A non-positive amount is refused before any lookup: the answer does not depend on the user table. */
  lemma InvalidAmountIgnoresUsers(balances: map<UserId, real>, others: map<UserId, real>, userId: UserId, amount: real)
    requires amount <= 0.0
    ensures CanAffordBet(balances, userId, amount) == CanAffordBet(others, userId, amount)
    ensures CanAffordBet(balances, userId, amount).Ok?
    ensures var a := CanAffordBet(balances, userId, amount).value;
      !a.canAfford && a.reason == Some(InvalidAmountMessage)
  {
  }

  /** For a positive amount, `canAffordBet` says yes exactly when `placeBet`'s checks pass, and fails exactly when they fail for an unknown user. */
  lemma AffordableIffBetAccepted(balances: map<UserId, real>, userId: UserId, amount: real)
    requires amount > 0.0
    ensures var r := CanAffordBet(balances, userId, amount);
      && (r.Ok? && r.value.canAfford <==> BetCheck(balances, userId, amount).None?)
      && (r.Err? <==> BetCheck(balances, userId, amount) == Some(NotFound(UserNotFoundMessage)))
  {
  }

  /** The options of `getTransactionHistory`; an option left out is `None`. */
  datatype HistoryOptions = HistoryOptions(limit: Option<int>, offset: Option<int>, kind: Option<TransactionType>)

  /** A stored transaction row: the recorded transaction with the id and the time the store gave it. */
  datatype StoredRow = StoredRow(id: nat, createdAt: int, record: Transaction)

  /** One entry of the returned history. */
  datatype HistoryEntry = HistoryEntry(
    id: nat,
    amount: real,
    kind: TransactionType,
    description: string,
    gameId: GameId,
    createdAt: int)

  datatype Pagination = Pagination(limit: int, offset: int, hasMore: bool)

  datatype History = History(transactions: seq<HistoryEntry>, pagination: Pagination)

  /** The repository query: user, limit, offset and optional type to the rows returned. */
  type Fetch = (UserId, int, int, Option<TransactionType>) -> seq<StoredRow>

  const DefaultLimit := 20
  const DefaultOffset := 0
  const MaxLimit := 100
  const LimitTooLargeMessage := "Limit cannot exceed 100"

  function ToEntry(row: StoredRow): HistoryEntry {
    HistoryEntry(row.id, row.record.amount, row.record.kind, row.record.description, row.record.gameId, row.createdAt)
  }

  /**
   * `getTransactionHistory`: an unknown user fails with NotFound; the limit defaults to 20 and
   * the offset to 0; a limit over 100 fails; otherwise the rows are fetched with those
   * parameters, each becomes one entry, and there is more exactly when a full page came back.
   */
  function TransactionHistory(balances: map<UserId, real>, userId: UserId, options: HistoryOptions, fetch: Fetch)
    : (r: Result<History, ServiceError>)
    ensures r.Err? <==> userId !in balances || options.limit.GetOr(DefaultLimit) > MaxLimit
    ensures userId !in balances ==> r == Err(NotFound(UserNotFoundMessage))
    ensures userId in balances && options.limit.GetOr(DefaultLimit) > MaxLimit ==> r == Err(Failure(LimitTooLargeMessage))
    ensures r.Ok? ==>
      && r.value.pagination.limit == options.limit.GetOr(DefaultLimit) <= MaxLimit
      && r.value.pagination.offset == options.offset.GetOr(DefaultOffset)
    ensures r.Ok? ==>
      var page := r.value.pagination;
      var rows := fetch(userId, page.limit, page.offset, options.kind);
      && |r.value.transactions| == |rows|
      && (forall i :: 0 <= i < |rows| ==> r.value.transactions[i] == ToEntry(rows[i]))
      && (page.hasMore <==> |rows| == page.limit)
  {
    if userId !in balances then Err(NotFound(UserNotFoundMessage))
    else
      var limit := options.limit.GetOr(DefaultLimit);
      var offset := options.offset.GetOr(DefaultOffset);
      if limit > MaxLimit then Err(Failure(LimitTooLargeMessage))
      else
        var rows := fetch(userId, limit, offset, options.kind);
        Ok(History(seq(|rows|, i requires 0 <= i < |rows| => ToEntry(rows[i])), Pagination(limit, offset, |rows| == limit)))
  }
}
