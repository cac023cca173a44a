/**
 * The generic game lifecycle shared by the game modules: a game object holding an id, a list
 * of players, a phase and a history, mutated in place by `join`, `leave`, `start` and
 * `resolveRound`.  The rules each operation applies to the player list and the phase are
 * stated as functions with lemmas; the `Game` class performs them and is proved to agree.
 */
module BaseGame {
  import opened Wrappers

  datatype Phase = Waiting | Playing | Resolving | Finished

  /**
   * What a caller hands to `join`.  A missing player is `None`; a missing (falsy) id is the
   * empty string; a missing chips field is `None`.  `details` are the other fields the object
   * carries, copied as they are.
   */
  datatype PlayerInput = PlayerInput(id: string, chips: Option<real>, details: map<string, string>)

  /** A player as stored in the game. */
  datatype Player = Player(id: string, chips: real, details: map<string, string>)

  /** The game's state as a value (what `getState` and `serialize` return). */
  datatype Snapshot = Snapshot(id: string, players: seq<Player>, phase: Phase, history: seq<HistoryEntry>)

  /** One entry of the history: when the round was resolved and the state at that moment. */
  datatype HistoryEntry = HistoryEntry(at: int, snapshot: Snapshot)

  /** A request to change the player list, for replaying any sequence of joins and leaves. */
  datatype Request = JoinRequest(player: Option<PlayerInput>) | LeaveRequest(leaving: string)

  predicate HasId(players: seq<Player>, id: string) {
    exists i :: 0 <= i < |players| && players[i].id == id
  }

  predicate DistinctIds(players: seq<Player>) {
    forall i, j :: 0 <= i < j < |players| ==> players[i].id != players[j].id
  }

  /** The stored copy of a joining player: every field kept, chips defaulting to 0 when missing. */
  function Admitted(input: PlayerInput): Player {
    Player(input.id, input.chips.GetOr(0.0), input.details)
  }

  const MissingIdMessage := "player must have id"
  const AlreadyStartedMessage := "Game already started"
  const NotImplementedMessage := "handleAction not implemented"

  /** `join` on the player list: reject a missing player or id, ignore a known id, else append. */
  function JoinPlayers(players: seq<Player>, player: Option<PlayerInput>): (r: Result<seq<Player>, string>)
    ensures r.Err? <==> player.None? || player.value.id == ""
    ensures r.Err? ==> r.error == MissingIdMessage
  {
    if player.None? || player.value.id == "" then Err(MissingIdMessage)
    else if HasId(players, player.value.id) then Ok(players)
    else Ok(players + [Admitted(player.value)])
  }

  /**
   * A successful join leaves every earlier player where it was; a new id adds exactly one entry,
   * at the end, holding the admitted copy; a known id adds nothing.
   */
  lemma JoinKeepsPlayers(players: seq<Player>, player: Option<PlayerInput>)
    requires JoinPlayers(players, player).Ok?
    ensures var r := JoinPlayers(players, player).value;
      r[..|players|] == players && HasId(r, player.value.id)
      && |r| == (if HasId(players, player.value.id) then |players| else |players| + 1)
      && (!HasId(players, player.value.id) ==> r[|players|] == Admitted(player.value))
  {
    var r := JoinPlayers(players, player).value;
    if !HasId(players, player.value.id) {
      assert r[|players|].id == player.value.id;
    }
  }

  /** Joining twice is the same as joining once. */
  lemma JoinIdempotent(players: seq<Player>, player: Option<PlayerInput>)
    requires JoinPlayers(players, player).Ok?
    ensures JoinPlayers(JoinPlayers(players, player).value, player) == JoinPlayers(players, player)
  {
    JoinKeepsPlayers(players, player);
  }

  /** Joining keeps the ids pairwise distinct. */
  lemma JoinKeepsIdsDistinct(players: seq<Player>, player: Option<PlayerInput>)
    requires DistinctIds(players) && JoinPlayers(players, player).Ok?
    ensures DistinctIds(JoinPlayers(players, player).value)
  {
    var r := JoinPlayers(players, player).value;
    if !HasId(players, player.value.id) {
      forall i, j | 0 <= i < j < |r| ensures r[i].id != r[j].id {
        if j == |players| {
          assert r[i] == players[i];
        }
      }
    }
  }

  /** `leave`: the list filtered to the players whose id differs, in their order. */
  function Without(players: seq<Player>, id: string): (r: seq<Player>)
    ensures |r| <= |players|
  {
    if players == [] then []
    else (if players[0].id == id then [] else [players[0]]) + Without(players[1..], id)
  }

  /** After `leave` no entry has the id, every remaining entry was there before, and every other entry stays. */
  lemma {:induction false} WithoutRemoves(players: seq<Player>, id: string)
    ensures !HasId(Without(players, id), id)
    ensures forall p :: p in Without(players, id) <==> p in players && p.id != id
  {
    if players != [] {
      WithoutRemoves(players[1..], id);
      var head := if players[0].id == id then [] else [players[0]];
      assert Without(players, id) == head + Without(players[1..], id);
      forall p ensures p in Without(players, id) <==> p in players && p.id != id {
        assert p in players <==> p == players[0] || p in players[1..];
      }
    }
  }

  /** Filtering distributes over concatenation: the kept entries stay in their original order. */
  lemma {:induction false} WithoutDistributes(front: seq<Player>, back: seq<Player>, id: string)
    ensures Without(front + back, id) == Without(front, id) + Without(back, id)
  {
    if front == [] {
      assert front + back == back;
    } else {
      assert (front + back)[0] == front[0];
      assert (front + back)[1..] == front[1..] + back;
      WithoutDistributes(front[1..], back, id);
    }
  }

  /** Leaving with an id nobody has changes nothing. */
  lemma {:induction false} WithoutAbsent(players: seq<Player>, id: string)
    requires !HasId(players, id)
    ensures Without(players, id) == players
  {
    if players != [] {
      assert !HasId(players[1..], id) by {
        forall i | 0 <= i < |players[1..]| ensures players[1..][i].id != id {
          assert players[1..][i] == players[i + 1];
        }
      }
      WithoutAbsent(players[1..], id);
    }
  }

  /** Leaving keeps the ids pairwise distinct. */
  lemma {:induction false} WithoutKeepsIdsDistinct(players: seq<Player>, id: string)
    requires DistinctIds(players)
    ensures DistinctIds(Without(players, id))
  {
    if players != [] {
      var tail := players[1..];
      assert DistinctIds(tail) by {
        forall i, j | 0 <= i < j < |tail| ensures tail[i].id != tail[j].id {
          assert tail[i] == players[i + 1] && tail[j] == players[j + 1];
        }
      }
      WithoutKeepsIdsDistinct(tail, id);
      WithoutRemoves(tail, id);
      if players[0].id != id {
        var rest := Without(tail, id);
        var r := [players[0]] + rest;
        assert Without(players, id) == r;
        forall i, j | 0 <= i < j < |r| ensures r[i].id != r[j].id {
          if i == 0 {
            assert r[j] in rest;
            var k :| 0 <= k < |tail| && tail[k] == r[j];
            assert players[k + 1] == r[j];
          } else {
            assert r[i] == rest[i - 1] && r[j] == rest[j - 1];
          }
        }
      }
    }
  }

  /** `leave` undoes the `join` of a player that was not yet in the game. */
  lemma LeaveUndoesJoin(players: seq<Player>, input: PlayerInput)
    requires input.id != "" && !HasId(players, input.id)
    ensures Without(JoinPlayers(players, Some(input)).value, input.id) == players
  {
    var p := Admitted(input);
    WithoutDistributes(players, [p], input.id);
    WithoutAbsent(players, input.id);
    assert Without([p], input.id) == [] by {
      assert [p][1..] == [];
    }
  }

  /** The player list after one request; a rejected join changes nothing. */
  function AfterRequest(players: seq<Player>, request: Request): seq<Player> {
    match request
    case JoinRequest(player) =>
      var joined := JoinPlayers(players, player);
      if joined.Ok? then joined.value else players
    case LeaveRequest(id) => Without(players, id)
  }

  /** The player list after a sequence of joins and leaves. */
  function Replay(players: seq<Player>, requests: seq<Request>): seq<Player>
    decreases |requests|
  {
    if requests == [] then players else Replay(AfterRequest(players, requests[0]), requests[1..])
  }

  /** Ids stay pairwise distinct across any sequence of joins and leaves. */
  lemma {:induction false} ReplayKeepsIdsDistinct(players: seq<Player>, requests: seq<Request>)
    requires DistinctIds(players)
    ensures DistinctIds(Replay(players, requests))
    decreases |requests|
  {
    if requests != [] {
      match requests[0] {
        case JoinRequest(player) =>
          if JoinPlayers(players, player).Ok? {
            JoinKeepsIdsDistinct(players, player);
          }
        case LeaveRequest(id) =>
          WithoutKeepsIdsDistinct(players, id);
      }
      ReplayKeepsIdsDistinct(AfterRequest(players, requests[0]), requests[1..]);
    }
  }

  /** `start`: only a waiting game starts, and it then plays. */
  function Started(phase: Phase): (r: Result<Phase, string>)
    ensures r.Ok? <==> phase == Waiting
    ensures r.Err? ==> r.error == AlreadyStartedMessage
  {
    if phase != Waiting then Err(AlreadyStartedMessage) else Ok(Playing)
  }

  /** A second `start` fails. */
  lemma StartOnlyOnce(phase: Phase)
    requires Started(phase).Ok?
    ensures Started(phase).value == Playing && Started(Started(phase).value).Err?
  {
  }

  /** Decimal digits of a natural number, for the generated game id. */
  function Decimal(n: nat): string {
    if n < 10 then [DigitChar(n)] else Decimal(n / 10) + [DigitChar(n % 10)]
  }

  function DigitChar(d: nat): char
    requires d < 10
  {
    "0123456789"[d]
  }

  /** The game object of `createBaseGame`; `now` stands for `Date.now()`. */
  class Game {
    var id: string
    var players: seq<Player>
    var phase: Phase
    var history: seq<HistoryEntry>

    /** `getState` and `serialize`: a copy of the game's fields, which `resolveRound` records in the history. */
    function View(): (v: Snapshot)
      reads this
      ensures v.id == id && v.players == players && v.phase == phase && v.history == history
    {
      Snapshot(id, players, phase, history)
    }

    ghost predicate Valid()
      reads this
    {
      DistinctIds(players)
    }

    /** `createBaseGame`: the requested id or one made from the clock, no players, waiting, no history. */
    constructor(requestedId: string, now: nat)
      ensures id == if requestedId != "" then requestedId else "game-" + Decimal(now)
      ensures players == [] && phase == Waiting && history == [] && Valid()
    {
      id := if requestedId != "" then requestedId else "game-" + Decimal(now);
      players := [];
      phase := Waiting;
      history := [];
    }

    /** `players.find`: the first entry with the id, if any. */
    method Find(wanted: string) returns (found: Option<nat>)
      ensures found.None? <==> !HasId(players, wanted)
      ensures found.Some? ==> found.value < |players| && players[found.value].id == wanted
      ensures found.Some? ==> forall j :: 0 <= j < found.value ==> players[j].id != wanted
    {
      var i := 0;
      while i < |players|
        invariant 0 <= i <= |players|
        invariant forall j :: 0 <= j < i ==> players[j].id != wanted
      {
        if players[i].id == wanted {
          return Some(i);
        }
        i := i + 1;
      }
      return None;
    }

    /** `join`: throws for a missing player or id; a known id is a no-op; a new player is appended. */
    method Join(player: Option<PlayerInput>) returns (r: Result<Snapshot, string>)
      modifies this
      ensures JoinPlayers(old(players), player).Err? ==>
        r == Err(MissingIdMessage) && players == old(players)
      ensures JoinPlayers(old(players), player).Ok? ==>
        players == JoinPlayers(old(players), player).value && r == Ok(View())
      ensures id == old(id) && phase == old(phase) && history == old(history)
      ensures old(Valid()) ==> Valid()
    {
      if player.None? || player.value.id == "" {
        return Err(MissingIdMessage);
      }
      var found := Find(player.value.id);
      if found.None? {
        players := players + [Admitted(player.value)];
      }
      if old(Valid()) {
        JoinKeepsIdsDistinct(old(players), player);
      }
      r := Ok(View());
    }

    /** `leave`: every entry with the id is filtered out. */
    method Leave(playerId: string) returns (r: Snapshot)
      modifies this
      ensures players == Without(old(players), playerId) && r == View()
      ensures id == old(id) && phase == old(phase) && history == old(history)
      ensures old(Valid()) ==> Valid()
    {
      if Valid() {
        WithoutKeepsIdsDistinct(players, playerId);
      }
      players := Without(players, playerId);
      r := View();
    }

    /** `start`: a waiting game moves to playing; any other phase throws. */
    method Start() returns (r: Result<Snapshot, string>)
      modifies this
      ensures Started(old(phase)).Err? ==> r == Err(AlreadyStartedMessage) && phase == old(phase)
      ensures Started(old(phase)).Ok? ==> phase == Started(old(phase)).value && r == Ok(View())
      ensures id == old(id) && players == old(players) && history == old(history)
    {
      if phase != Waiting {
        return Err(AlreadyStartedMessage);
      }
      phase := Playing;
      r := Ok(View());
    }

    /** `handleAction`: the shared default always throws; each game replaces it. */
    method HandleAction(playerId: string, action: string) returns (r: Result<Snapshot, string>)
      ensures r == Err(NotImplementedMessage)
    {
      r := Err(NotImplementedMessage);
    }

    /** `resolveRound`: the game finishes, and the finished state is recorded as one more history entry. */
    method ResolveRound(now: int) returns (r: Snapshot)
      modifies this
      ensures phase == Finished && id == old(id) && players == old(players)
      ensures history == old(history) + [HistoryEntry(now, Snapshot(id, players, Finished, old(history)))]
      ensures |history| == |old(history)| + 1 && r == View()
      ensures history[|history| - 1].snapshot == View().(history := old(history))
      ensures old(Valid()) ==> Valid()
    {
      phase := Finished;
      history := history + [HistoryEntry(now, View())];
      r := View();
    }
  }
}
