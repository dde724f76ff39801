/** Player tokens and the move rules they follow (game_pieces.py, Token; the
    message identifiers of utils.py, Messages). A token's own state is a value
    here; the manager keeps the tokens in an array and updates them in place. */
module Pieces {
  import opened Board

  datatype Option<T> = None | Some(value: T)

  /** Identifiers that describe a move. */
  datatype Message =
    | InvalidMove
    | FreeTurn
    | MoveBlocked
    | FriendlyToken
    | OpponentToken
    | ProtectedOpponent
    | DisplacedOpponent
    | TooFar
    | PathComplete
    | MoveSuccessful

  /** What the pieces report to whoever listens: a token's move_unsuccessful,
      move_successful and point_scored signals, and a die's die_clicked. */
  datatype Signal =
    | Unsuccessful(messages: seq<Message>)
    | Successful(messages: seq<Message>)
    | PointScored(player: int)
    | DieClicked

  /** A player token. `pathPosition` is -1 while the token is at home; `path`
      is None until a path is assigned. */
  datatype Token = Token(player: int, tokenId: int, path: Option<seq<int>>,
                         pathPosition: int, onPath: bool, finished: bool)

  /** The answer to "which tile is this token on": a tile index, no tile
      (Python's None), or the IndexError the lookup raises. */
  datatype Location = OnTile(tile: int) | NoTile | IndexError

  /** Python list indexing: negative indices count from the end, anything
      else outside the list raises IndexError. */
  function PyIndex(s: seq<int>, k: int): (r: Location)
    ensures r.OnTile? <==> -|s| <= k < |s|
    ensures r.OnTile? ==> r.tile in s
    ensures 0 <= k < |s| ==> r == OnTile(s[k])
    ensures -|s| <= k < 0 ==> r == OnTile(s[|s| + k])
    ensures !(-|s| <= k < |s|) ==> r == IndexError
  {
    if 0 <= k < |s| then OnTile(s[k])
    else if -|s| <= k < 0 then OnTile(s[|s| + k])
    else IndexError
  }

  /** Token.tile_location: the tile `offset` steps along the path from the
      token. A token without a path raises; a token that is finished or not
      on the path, or whose step would be -1, is on no tile. */
  function TileLocation(t: Token, offset: int): (r: Location)
    ensures r == IndexError <==>
      t.path.None? ||
      (t.onPath && !t.finished && t.pathPosition + offset != -1 &&
       !(-|t.path.value| <= t.pathPosition + offset < |t.path.value|))
    ensures r.OnTile? ==> t.path.Some? && t.onPath && !t.finished && r.tile in t.path.value
    ensures t.path.Some? && (t.finished || !t.onPath) ==> r == NoTile
    ensures t.path.Some? && t.onPath && !t.finished && t.pathPosition + offset == -1 ==> r == NoTile
    ensures t.path.Some? && t.onPath && !t.finished && 0 <= t.pathPosition + offset < |t.path.value| ==>
      r == OnTile(t.path.value[t.pathPosition + offset])
    ensures t.path.Some? && t.onPath && !t.finished && -|t.path.value| <= t.pathPosition + offset < -1 ==>
      r == OnTile(t.path.value[|t.path.value| + t.pathPosition + offset])
  {
    var target := t.pathPosition + offset;
    if t.path.None? then IndexError
    else if t.finished || !t.onPath then NoTile
    else if target == -1 then NoTile
    else PyIndex(t.path.value, target)
  }

  /** The three states a token can be in. */
  predicate AtHome(t: Token) {
    t.pathPosition == -1 && !t.onPath && !t.finished
  }

  predicate OnBoard(t: Token) {
    t.path.Some? && t.onPath && !t.finished && 0 <= t.pathPosition <= |t.path.value| - 2
  }

  predicate HasFinished(t: Token) {
    t.path.Some? && t.finished && !t.onPath && t.pathPosition == |t.path.value| - 1
  }

  /** A token as the manager creates and keeps it: it belongs to player 0 or
      1, follows that player's path, and is at home, on the board or finished. */
  predicate WellFormed(t: Token) {
    0 <= t.player < Players && t.path == Some(Paths[t.player]) &&
    (AtHome(t) || OnBoard(t) || HasFinished(t))
  }

  predicate AllWellFormed(ts: seq<Token>) {
    forall k :: 0 <= k < |ts| ==> WellFormed(ts[k])
  }

  /** The token stands on `tile`, as the collision lookup sees it. */
  predicate Occupies(t: Token, tile: int) {
    TileLocation(t, 0) == OnTile(tile)
  }

  /** No two tokens stand on the same tile. */
  ghost predicate NoSharing(ts: seq<Token>) {
    forall a, b, tile :: 0 <= a < |ts| && 0 <= b < |ts| && Occupies(ts[a], tile) && Occupies(ts[b], tile) ==> a == b
  }

  /** The first token at index `from` or later that stands on `tile`. */
  function FirstOccupant(ts: seq<Token>, tile: int, from: nat): (r: Option<nat>)
    requires from <= |ts|
    decreases |ts| - from
    ensures r.Some? ==> from <= r.value < |ts| && Occupies(ts[r.value], tile)
    ensures forall k :: from <= k < (if r.Some? then r.value else |ts|) ==> !Occupies(ts[k], tile)
  {
    if from == |ts| then None
    else if Occupies(ts[from], tile) then Some(from)
    else FirstOccupant(ts, tile, from + 1)
  }

  /** GameManager.get_position_collision, with the comparison its docstring
      describes: no tile has no occupant, otherwise the first token in list
      order that stands on the tile, if any. */
  function PositionCollision(ts: seq<Token>, tilePosition: Option<int>): (r: Option<nat>)
    ensures tilePosition.None? ==> r.None?
    ensures r.Some? ==> tilePosition.Some? && r.value < |ts| && Occupies(ts[r.value], tilePosition.value)
    ensures tilePosition.Some? ==>
      forall k :: 0 <= k < (if r.Some? then r.value else |ts|) ==> !Occupies(ts[k], tilePosition.value)
  {
    if tilePosition.None? then None else FirstOccupant(ts, tilePosition.value, 0)
  }

  /** The messages Token.check_move builds for a target tile, given the player
      of the token found there (if any) and the tile's type. */
  function Classify(collider: Option<int>, player: int, tileType: int): (r: seq<Message>)
    ensures (MoveBlocked in r) != (MoveSuccessful in r)
    ensures !(FreeTurn in r && PathComplete in r)
    ensures InvalidMove !in r && TooFar !in r
    ensures MoveBlocked in r <==> collider.Some? && (collider.value == player || tileType == TileRosetta)
    ensures FriendlyToken in r <==> collider == Some(player)
    ensures OpponentToken in r <==> collider.Some? && collider.value != player
    ensures ProtectedOpponent in r <==> collider.Some? && collider.value != player && tileType == TileRosetta
    ensures DisplacedOpponent in r <==> collider.Some? && collider.value != player && tileType != TileRosetta
    ensures FreeTurn in r <==> collider.None? && tileType == TileRosetta
    ensures PathComplete in r <==> collider.None? && tileType == TileGoal
  {
    if collider.Some? then
      if collider.value == player then [MoveBlocked, FriendlyToken]
      else if tileType == TileRosetta then [OpponentToken, MoveBlocked, ProtectedOpponent]
      else [OpponentToken, MoveSuccessful, DisplacedOpponent]
    else if tileType == TileRosetta then [MoveSuccessful, FreeTurn]
    else if tileType == TileGoal then [MoveSuccessful, PathComplete]
    else [MoveSuccessful]
  }

  /** The player of the token a lookup found, if it found one. */
  function ColliderPlayer(ts: seq<Token>, collision: Option<nat>): Option<int>
    requires collision.Some? ==> collision.value < |ts|
  {
    if collision.Some? then Some(ts[collision.value].player) else None
  }

  /** Token.check_move for `mover` and a target tile: the messages and the
      index of the token found on the tile. */
  function CheckMove(ts: seq<Token>, mover: Token, targetTile: int): (r: (seq<Message>, Option<nat>))
    requires 0 <= targetTile < |Tiles|
    ensures r.1.None? <==> forall k :: 0 <= k < |ts| ==> !Occupies(ts[k], targetTile)
    ensures r.1.Some? ==> r.1.value < |ts| && Occupies(ts[r.1.value], targetTile)
    ensures (MoveBlocked in r.0) != (MoveSuccessful in r.0)
    ensures FriendlyToken in r.0 <==> r.1.Some? && ts[r.1.value].player == mover.player
    ensures DisplacedOpponent in r.0 <==>
      r.1.Some? && ts[r.1.value].player != mover.player && Tiles[targetTile] != TileRosetta
    ensures ProtectedOpponent in r.0 <==>
      r.1.Some? && ts[r.1.value].player != mover.player && Tiles[targetTile] == TileRosetta
  {
    var collision := PositionCollision(ts, Some(targetTile));
    (Classify(ColliderPlayer(ts, collision), mover.player, Tiles[targetTile]), collision)
  }

  /** The step a move of token `i` by `rolled` aims at. */
  function Target(ts: seq<Token>, i: nat, rolled: int): int
    requires i < |ts|
  {
    ts[i].pathPosition + rolled
  }

  /** The messages Token.action decides on for token `i` and the rolled value:
      a zero roll and a move past the path's end are blocked before the target
      tile is looked at. */
  function ResolveMove(ts: seq<Token>, i: nat, rolled: int): (r: (seq<Message>, Option<nat>))
    requires i < |ts| && WellFormed(ts[i]) && rolled >= 0
    ensures (MoveBlocked in r.0) != (MoveSuccessful in r.0)
    ensures r.1.Some? ==> r.1.value < |ts|
    ensures DisplacedOpponent in r.0 ==> r.1.Some?
    ensures rolled == 0 ==> r == ([MoveBlocked, InvalidMove], None)
    ensures rolled > 0 && Target(ts, i, rolled) >= |ts[i].path.value| ==> r == ([MoveBlocked, TooFar], None)
  {
    var path := ts[i].path.value;
    var target := Target(ts, i, rolled);
    if rolled == 0 then ([MoveBlocked, InvalidMove], None)
    else if target < |path| then
      assert 0 <= path[target] < |Tiles| by { PathTiles(); }
      CheckMove(ts, ts[i], path[target])
    else ([MoveBlocked, TooFar], None)
  }

  /** The tokens after Token.action has moved token `i` by `rolled`: nothing
      changes on a blocked move; otherwise the move is applied. */
  function AfterAction(ts: seq<Token>, i: nat, rolled: int): (r: seq<Token>)
    requires i < |ts| && WellFormed(ts[i]) && rolled >= 0
    ensures |r| == |ts|
  {
    var (messages, collision) := ResolveMove(ts, i, rolled);
    if MoveBlocked in messages then ts
    else Apply(ts, i, Target(ts, i, rolled), messages, collision)
  }

  /** How Token.action applies the messages of a move that is not blocked: a
      displaced opponent goes home, a successful mover goes on the path at its
      target step, and a mover that completes its path is finished and leaves
      the path. */
  function Apply(ts: seq<Token>, i: nat, target: int, messages: seq<Message>, collision: Option<nat>): (r: seq<Token>)
    requires i < |ts|
    requires DisplacedOpponent in messages ==> collision.Some? && collision.value < |ts|
    ensures |r| == |ts|
    ensures forall k :: 0 <= k < |ts| && k != i && r[k] != ts[k] ==>
      DisplacedOpponent in messages && collision == Some(k)
    ensures forall k :: 0 <= k < |ts| ==>
      r[k].player == ts[k].player && r[k].tokenId == ts[k].tokenId && r[k].path == ts[k].path
    ensures DisplacedOpponent in messages && collision.value != i ==>
      r[collision.value] == ts[collision.value].(onPath := false, pathPosition := -1)
    ensures MoveSuccessful in messages ==>
      r[i].pathPosition == target && r[i].onPath == (PathComplete !in messages) &&
      r[i].finished == (ts[i].finished || PathComplete in messages)
  {
    var displaced :=
      if DisplacedOpponent in messages
      then ts[collision.value := ts[collision.value].(onPath := false, pathPosition := -1)]
      else ts;
    var moved :=
      if MoveSuccessful in messages
      then displaced[i := displaced[i].(onPath := true, pathPosition := target)]
      else displaced;
    if PathComplete in messages
    then moved[i := moved[i].(finished := true, onPath := false)]
    else moved
  }

  /** A well-formed token stands on a tile exactly when it is on the board,
      and then on the tile of its current step, which is never a goal tile. */
  lemma OccupiedTile(t: Token, tile: int)
    requires WellFormed(t)
    ensures Occupies(t, tile) <==> OnBoard(t) && tile == Paths[t.player][t.pathPosition]
    ensures Occupies(t, tile) ==> 0 <= tile < |Tiles| && Tiles[tile] != TileGoal
  {
    PathTiles();
  }

  /** When a positive roll stays within the path, Token.action asks
      check_move about the tile of the target step, and the token found there,
      if any, is another token on the board at that tile. */
  lemma TargetCollision(ts: seq<Token>, i: nat, rolled: int)
    requires AllWellFormed(ts) && i < |ts| && rolled > 0 && Target(ts, i, rolled) < PathLength
    ensures 0 <= Target(ts, i, rolled)
    ensures var tile := Paths[ts[i].player][Target(ts, i, rolled)];
      0 <= tile < |Tiles| &&
      ResolveMove(ts, i, rolled) == CheckMove(ts, ts[i], tile) &&
      var c := ResolveMove(ts, i, rolled).1;
      (c.Some? ==> c.value != i && OnBoard(ts[c.value]) &&
                   Paths[ts[c.value].player][ts[c.value].pathPosition] == tile)
  {
    PathTiles();
    PathsDistinct();
    var t := ts[i];
    var target := Target(ts, i, rolled);
    var tile := Paths[t.player][target];
    var c := PositionCollision(ts, Some(tile));
    if c.Some? {
      assert WellFormed(ts[c.value]);
      OccupiedTile(ts[c.value], tile);
    }
  }

  /** A move that is not blocked applies its own messages and collision at
      the target step. */
  lemma AfterActionApplies(ts: seq<Token>, i: nat, rolled: int)
    requires i < |ts| && WellFormed(ts[i]) && rolled >= 0
    requires MoveBlocked !in ResolveMove(ts, i, rolled).0
    ensures var (messages, collision) := ResolveMove(ts, i, rolled);
      AfterAction(ts, i, rolled) == Apply(ts, i, Target(ts, i, rolled), messages, collision)
  {
  }

  /** A zero roll is an invalid move and a target step past the end of the
      path is too far: both are blocked before any tile is looked at, and
      change nothing. */
  lemma BlockedBeforeLookup(ts: seq<Token>, i: nat, rolled: int)
    requires i < |ts| && WellFormed(ts[i]) && rolled >= 0
    ensures rolled == 0 ==>
      ResolveMove(ts, i, rolled).0 == [MoveBlocked, InvalidMove] && AfterAction(ts, i, rolled) == ts
    ensures Target(ts, i, rolled) >= |ts[i].path.value| && rolled > 0 ==>
      ResolveMove(ts, i, rolled).0 == [MoveBlocked, TooFar] && AfterAction(ts, i, rolled) == ts
  {
  }

  /** A finished token can never move on a positive roll: the move is too far
      and changes nothing. */
  lemma FinishedTokenNeverMoves(ts: seq<Token>, i: nat, rolled: int)
    requires AllWellFormed(ts) && i < |ts| && HasFinished(ts[i]) && rolled > 0
    ensures ResolveMove(ts, i, rolled).0 == [MoveBlocked, TooFar]
    ensures AfterAction(ts, i, rolled) == ts
  {
    PathTiles();
    BlockedBeforeLookup(ts, i, rolled);
  }

  /** A move completes the path exactly when it lands on the last step of the
      path, and a move onto the last step always succeeds. */
  lemma PathCompleteAtLastStep(ts: seq<Token>, i: nat, rolled: int)
    requires AllWellFormed(ts) && i < |ts| && rolled >= 0
    ensures PathComplete in ResolveMove(ts, i, rolled).0 ==> Target(ts, i, rolled) == PathLength - 1
    ensures rolled > 0 && Target(ts, i, rolled) == PathLength - 1 ==>
      ResolveMove(ts, i, rolled).0 == [MoveSuccessful, PathComplete]
  {
    PathTiles();
    if rolled > 0 && Target(ts, i, rolled) < PathLength {
      TargetCollision(ts, i, rolled);
      var c := ResolveMove(ts, i, rolled).1;
      if c.Some? {
        OccupiedTile(ts[c.value], Paths[ts[i].player][Target(ts, i, rolled)]);
      }
    }
  }

  /** Two players' tokens can only meet on the shared stretch of the paths. */
  lemma OpponentsMeetOnlyWhenShared(ts: seq<Token>, i: nat, rolled: int)
    requires AllWellFormed(ts) && i < |ts| && rolled >= 0
    requires OpponentToken in ResolveMove(ts, i, rolled).0
    ensures SharedFirst <= Target(ts, i, rolled) <= SharedLast
  {
    PathTiles();
    TargetCollision(ts, i, rolled);
    var c := ResolveMove(ts, i, rolled).1.value;
    PathsMeetOnlyWhenShared();
    if ts[i].player == 0 {
      assert Paths[0][Target(ts, i, rolled)] == Paths[1][ts[c].pathPosition];
    } else {
      assert Paths[0][ts[c].pathPosition] == Paths[1][Target(ts, i, rolled)];
    }
  }

  /** The mover of a successful Token.action advances by the roll and is on
      the board afterwards, or finished if it reached the last step. */
  lemma ActionMovesToken(ts: seq<Token>, i: nat, rolled: int)
    requires AllWellFormed(ts) && i < |ts| && rolled >= 0
    requires MoveSuccessful in ResolveMove(ts, i, rolled).0
    ensures var r := AfterAction(ts, i, rolled);
      r[i].pathPosition == ts[i].pathPosition + rolled && r[i] != ts[i] &&
      r[i].player == ts[i].player && r[i].tokenId == ts[i].tokenId && r[i].path == ts[i].path &&
      (Target(ts, i, rolled) == PathLength - 1 ==> HasFinished(r[i])) &&
      (Target(ts, i, rolled) < PathLength - 1 ==> OnBoard(r[i]))
  {
    PathTiles();
    TargetCollision(ts, i, rolled);
    PathCompleteAtLastStep(ts, i, rolled);
  }

  /** Only the mover and a displaced opponent change, and the displaced
      opponent, which was another player's token on the board, goes home. */
  lemma ActionFrame(ts: seq<Token>, i: nat, rolled: int)
    requires AllWellFormed(ts) && i < |ts| && rolled >= 0
    ensures var (messages, collision) := ResolveMove(ts, i, rolled);
      var r := AfterAction(ts, i, rolled);
      (MoveBlocked in messages ==> r == ts) &&
      (DisplacedOpponent in messages ==>
        collision.value != i && OnBoard(ts[collision.value]) &&
        ts[collision.value].player != ts[i].player && AtHome(r[collision.value])) &&
      (forall k :: 0 <= k < |ts| && k != i && r[k] != ts[k] ==>
        DisplacedOpponent in messages && collision == Some(k)) &&
      (forall k :: 0 <= k < |ts| ==>
        r[k].player == ts[k].player && r[k].tokenId == ts[k].tokenId && r[k].path == ts[k].path)
  {
    var (messages, collision) := ResolveMove(ts, i, rolled);
    if MoveBlocked !in messages {
      AfterActionApplies(ts, i, rolled);
      if DisplacedOpponent in messages {
        TargetCollision(ts, i, rolled);
      }
    }
  }

  /** Token.action changes the tokens exactly when the move is not blocked. */
  lemma ActionChangesIffNotBlocked(ts: seq<Token>, i: nat, rolled: int)
    requires AllWellFormed(ts) && i < |ts| && rolled >= 0
    ensures MoveBlocked !in ResolveMove(ts, i, rolled).0 <==> AfterAction(ts, i, rolled) != ts
  {
    if MoveSuccessful in ResolveMove(ts, i, rolled).0 {
      ActionMovesToken(ts, i, rolled);
    }
  }

  /** Token.action keeps every token well formed. */
  lemma ActionKeepsWellFormed(ts: seq<Token>, i: nat, rolled: int)
    requires AllWellFormed(ts) && i < |ts| && rolled >= 0
    ensures AllWellFormed(AfterAction(ts, i, rolled))
  {
    var (messages, collision) := ResolveMove(ts, i, rolled);
    var r := AfterAction(ts, i, rolled);
    ActionFrame(ts, i, rolled);
    if MoveSuccessful in messages {
      ActionMovesToken(ts, i, rolled);
      forall k | 0 <= k < |r|
        ensures WellFormed(r[k])
      {
        assert WellFormed(ts[k]);
      }
    }
  }

  /** Token.action never leaves two tokens on one tile: the mover lands on a
      tile that was free or whose occupant it sends home. */
  lemma ActionKeepsNoSharing(ts: seq<Token>, i: nat, rolled: int)
    requires AllWellFormed(ts) && NoSharing(ts) && i < |ts| && rolled >= 0
    ensures NoSharing(AfterAction(ts, i, rolled))
  {
    var (messages, collision) := ResolveMove(ts, i, rolled);
    var r := AfterAction(ts, i, rolled);
    ActionFrame(ts, i, rolled);
    if MoveSuccessful in messages {
      ActionKeepsWellFormed(ts, i, rolled);
      ActionMovesToken(ts, i, rolled);
      TargetCollision(ts, i, rolled);
      forall a, b, t | 0 <= a < |r| && 0 <= b < |r| && Occupies(r[a], t) && Occupies(r[b], t)
        ensures a == b
      {
        OccupiedTile(r[i], t);
      }
    }
  }

  /** Python's `==` between the bound method `token.tile_location` and a tile
      index: a method object is only equal to itself, never to an int. */
  predicate BoundMethodEquals(t: Token, tile: int) {
    false
  }

  /** The search of get_position_collision as written (main.py:142-144): the
      first token at index `from` or later whose bound method compares equal
      to the tile. No token ever does. */
  function FirstMatchAsWritten(ts: seq<Token>, tile: int, from: nat): (r: Option<nat>)
    requires from <= |ts|
    decreases |ts| - from
    ensures r.None?
  {
    if from == |ts| then None
    else if BoundMethodEquals(ts[from], tile) then Some(from)
    else FirstMatchAsWritten(ts, tile, from + 1)
  }

  /** get_position_collision as written: no tile gives no token, and the
      search never finds one either. */
  function PositionCollisionAsWritten(ts: seq<Token>, tilePosition: Option<int>): (r: Option<nat>)
    ensures r.None?
  {
    if tilePosition.None? then None else FirstMatchAsWritten(ts, tilePosition.value, 0)
  }

  /** check_move on top of the lookup as written: no token on the target tile
      ever blocks a move or is displaced by it. */
  function CheckMoveAsWritten(ts: seq<Token>, mover: Token, targetTile: int): (r: (seq<Message>, Option<nat>))
    requires 0 <= targetTile < |Tiles|
    ensures MoveBlocked !in r.0 && MoveSuccessful in r.0
    ensures FriendlyToken !in r.0 && DisplacedOpponent !in r.0
  {
    var collision := PositionCollisionAsWritten(ts, Some(targetTile));
    (Classify(ColliderPlayer(ts, collision), mover.player, Tiles[targetTile]), collision)
  }

  /** Player 0's token 0 stands on the first step of its path and token 1 is
      at home. A roll of 1 sends token 1 to that same tile: as written,
      check_move lets it land on its own player's token; with the intended
      lookup the move is blocked by a friendly token. */
  lemma AsWrittenLandsOnOwnToken()
    ensures var ts := [Token(0, 0, Some(Paths[0]), 0, true, false),
                       Token(0, 1, Some(Paths[0]), -1, false, false)];
      CheckMoveAsWritten(ts, ts[1], Paths[0][0]).0 == [MoveSuccessful] &&
      CheckMove(ts, ts[1], Paths[0][0]).0 == [MoveBlocked, FriendlyToken] &&
      ResolveMove(ts, 1, 1).0 == [MoveBlocked, FriendlyToken]
  {
    var ts := [Token(0, 0, Some(Paths[0]), 0, true, false),
               Token(0, 1, Some(Paths[0]), -1, false, false)];
    assert Occupies(ts[0], Paths[0][0]);
  }
}
