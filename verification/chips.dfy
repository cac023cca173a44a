/**
 * The chip ledger: every user's balance and the append-only list of transaction rows.  A bet
 * checks the user and the funds, debits the balance and records a BET row; a win credits the
 * balance and records a WIN row.  Each call is one atomic step.  The ledger's invariant is that
 * every balance equals its opening balance plus the amounts of that user's rows.
 */
module Chips {
  import opened Wrappers
  import opened ServiceErrors

  type UserId = nat
  type GameId = string
  type BetId = nat

  datatype TransactionType = Bet | Win

  /** One transaction row as the service hands it to the repository. */
  datatype Transaction = Transaction(
    userId: UserId,
    amount: real,
    kind: TransactionType,
    status: string,
    gameId: GameId,
    betId: Option<BetId>,
    description: string,
    balanceBefore: real,
    balanceAfter: real)

  /** The status both operations write, spelled as the service spells it. */
  const RecordedStatus := "completeted"

  function BetDescription(gameId: GameId): string {
    "Bet placed in game " + gameId
  }

  function WinDescription(gameId: GameId): string {
    "Winnings added from game " + gameId
  }

  /** The sum of the amounts of the rows that belong to `user`. */
  function Net(rows: seq<Transaction>, user: UserId): real {
    if rows == [] then 0.0
    else (if rows[0].userId == user then rows[0].amount else 0.0) + Net(rows[1..], user)
  }

  /** Appending a row changes its user's net amount by the row's amount and no one else's. */
  lemma {:induction false} NetAppend(rows: seq<Transaction>, row: Transaction, user: UserId)
    ensures Net(rows + [row], user) == Net(rows, user) + if row.userId == user then row.amount else 0.0
  {
    if rows == [] {
      assert [] + [row] == [row];
      assert [row][1..] == [];
    } else {
      assert (rows + [row])[0] == rows[0];
      assert (rows + [row])[1..] == rows[1..] + [row];
      NetAppend(rows[1..], row, user);
    }
  }

  /**
   * The ledger's invariant: the same users as at the opening, each balance equal to the opening
   * balance plus the user's rows, every row of a known user, and every row's after-balance equal
   * to its before-balance plus its amount.
   */
  ghost predicate Consistent(opening: map<UserId, real>, balances: map<UserId, real>, rows: seq<Transaction>) {
    && balances.Keys == opening.Keys
    && (forall u :: u in balances ==> balances[u] == opening[u] + Net(rows, u))
    && (forall i :: 0 <= i < |rows| ==> rows[i].userId in balances)
    && (forall i :: 0 <= i < |rows| ==> rows[i].balanceAfter == rows[i].balanceBefore + rows[i].amount)
  }

  /** The checks `placeBet` makes before it changes anything, in their order. */
  function BetCheck(balances: map<UserId, real>, userId: UserId, amount: real): (r: Option<ServiceError>)
    ensures r.None? <==> userId in balances && balances[userId] >= amount
    ensures userId !in balances ==> r == Some(NotFound(UserNotFoundMessage))
    ensures userId in balances && balances[userId] < amount ==> r == Some(BadRequest(InsufficientBalanceMessage))
  {
    if userId !in balances then Some(NotFound(UserNotFoundMessage))
    else if balances[userId] < amount then Some(BadRequest(InsufficientBalanceMessage))
    else None
  }

  /** Recording a row whose amount is also applied to its user's balance keeps the ledger consistent. */
  lemma RecordKeepsConsistent(opening: map<UserId, real>, balances: map<UserId, real>, rows: seq<Transaction>, row: Transaction)
    requires Consistent(opening, balances, rows)
    requires row.userId in balances && row.balanceAfter == row.balanceBefore + row.amount
    ensures Consistent(opening, balances[row.userId := balances[row.userId] + row.amount], rows + [row])
  {
    var after := balances[row.userId := balances[row.userId] + row.amount];
    forall u | u in after ensures after[u] == opening[u] + Net(rows + [row], u) {
      NetAppend(rows, row, u);
    }
  }

  class Ledger {
    var balances: map<UserId, real>
    var transactions: seq<Transaction>
    /** The balances when the ledger was opened, against which the rows account. */
    ghost var opening: map<UserId, real>

    ghost predicate Valid()
      reads this
    {
      Consistent(opening, balances, transactions)
    }

    constructor(initial: map<UserId, real>)
      ensures balances == initial && transactions == [] && opening == initial && Valid()
    {
      balances := initial;
      transactions := [];
      opening := initial;
    }

    /**
     * `placeBet`: fails with NotFound for an unknown user and with BadRequest when the balance is
     * below the amount, changing nothing; otherwise debits the amount, records one BET row of
     * minus the amount with the balances before and after, and returns the new balance.
     */
    method PlaceBet(userId: UserId, amount: real, gameId: GameId) returns (r: Result<real, ServiceError>)
      requires Valid()
      modifies this
      ensures BetCheck(old(balances), userId, amount).Some? ==>
        r == Err(BetCheck(old(balances), userId, amount).value)
        && balances == old(balances) && transactions == old(transactions)
      ensures BetCheck(old(balances), userId, amount).None? ==>
        var before := old(balances)[userId];
        && balances == old(balances)[userId := before - amount]
        && transactions == old(transactions)
          + [Transaction(userId, -amount, Bet, RecordedStatus, gameId, None, BetDescription(gameId), before, before - amount)]
        && r == Ok(before - amount)
      ensures r.Ok? ==> r.value == balances[userId] && r.value >= 0.0
      ensures opening == old(opening) && Valid()
    {
      var check := BetCheck(balances, userId, amount);
      if check.Some? {
        return Err(check.value);
      }
      var balanceBefore := balances[userId];
      var balanceAfter := balanceBefore - amount;
      var row := Transaction(userId, -amount, Bet, RecordedStatus, gameId, None, BetDescription(gameId), balanceBefore, balanceAfter);
      RecordKeepsConsistent(opening, balances, transactions, row);
      balances := balances[userId := balances[userId] - amount];
      transactions := transactions + [row];
      r := Ok(balanceAfter);
    }

    /**
     * `addBalance`: fails with NotFound for an unknown user, changing nothing; otherwise credits
     * the amount, records one WIN row carrying the amount, the game, the bet and the balances
     * before and after, and returns the new balance.
     */
    method AddBalance(userId: UserId, amount: real, gameId: GameId, betId: BetId) returns (r: Result<real, ServiceError>)
      requires Valid()
      modifies this
      ensures userId !in old(balances) ==>
        r == Err(NotFound(UserNotFoundMessage))
        && balances == old(balances) && transactions == old(transactions)
      ensures userId in old(balances) ==>
        var before := old(balances)[userId];
        && balances == old(balances)[userId := before + amount]
        && transactions == old(transactions)
          + [Transaction(userId, amount, Win, RecordedStatus, gameId, Some(betId), WinDescription(gameId), before, before + amount)]
        && r == Ok(before + amount)
      ensures r.Ok? ==> r.value == balances[userId]
      ensures opening == old(opening) && Valid()
    {
      if userId !in balances {
        return Err(NotFound(UserNotFoundMessage));
      }
      var balanceBefore := balances[userId];
      var balanceAfter := balanceBefore + amount;
      var row := Transaction(userId, amount, Win, RecordedStatus, gameId, Some(betId), WinDescription(gameId), balanceBefore, balanceAfter);
      RecordKeepsConsistent(opening, balances, transactions, row);
      balances := balances[userId := balances[userId] + amount];
      transactions := transactions + [row];
      r := Ok(balanceAfter);
    }
  }
}
