/** The turn and score state machine (main.py, GameManager) together with the
    token operations that change its state (game_pieces.py, Token.action and
    the token methods it calls). The manager owns the board, the paths and the
    tokens; a token is addressed by its index in `tokens`. */
module Manager {
  import opened Board
  import opened Pieces

  const TokenCount := 7
  const TargetScore := 7

  /** The two stages of a player's turn. */
  datatype Stage = Rolling | Moving

  /** What the host's selection handler passes on: nothing selected, an object
      that is not a game piece, a board tile, a die, or the token with the
      given index. */
  datatype Selection = NothingSelected | NotAPiece | TilePiece | DiePiece | TokenPiece(index: nat)

  /** Sum of the die values; each die shows 0 or 1. */
  function Total(dice: seq<int>): (r: int)
    requires forall k :: 0 <= k < |dice| ==> dice[k] == 0 || dice[k] == 1
    ensures 0 <= r <= |dice|
    ensures r == 0 <==> forall k :: 0 <= k < |dice| ==> dice[k] == 0
  {
    if dice == [] then 0 else dice[0] + Total(dice[1..])
  }

  /** The tokens in the order the manager creates them: player 0's seven
      tokens, then player 1's, each numbered 0 to 6. */
  ghost predicate Roster(ts: seq<Token>) {
    forall k :: 0 <= k < |ts| ==> ts[k].player == k / TokenCount && ts[k].tokenId == k % TokenCount
  }

  /** The manager's tokens: seven per player in player order, every token
      well formed, and no two tokens on one tile. */
  ghost predicate TokensOk(ts: seq<Token>) {
    |ts| == Players * TokenCount && Roster(ts) && AllWellFormed(ts) && NoSharing(ts)
  }

  /** Token.action moves tokens but never changes whose token is where in the
      list, and keeps the manager's tokens as they must be. */
  lemma ActionKeepsTokens(ts: seq<Token>, i: nat, rolled: int)
    requires TokensOk(ts) && i < |ts| && rolled >= 0
    ensures TokensOk(AfterAction(ts, i, rolled))
  {
    var r := AfterAction(ts, i, rolled);
    ActionFrame(ts, i, rolled);
    forall k | 0 <= k < |r|
      ensures r[k].player == k / TokenCount && r[k].tokenId == k % TokenCount
    {
      assert r[k].player == ts[k].player && r[k].tokenId == ts[k].tokenId;
    }
    ActionKeepsWellFormed(ts, i, rolled);
    ActionKeepsNoSharing(ts, i, rolled);
  }

  class GameManager {
    const board: seq<int>
    const players: int
    const paths: seq<seq<int>>
    const targetScore: int
    const tokenCount: int
    const tokens: array<Token>
    var playerScores: seq<int>
    var running: bool
    var turnStage: Stage
    var playerTurn: int
    var rolledValue: Option<int>

    /** The manager's invariant: its fixed data and tokens are consistent,
        and the rolled value is 1 to 4 whenever a token may be moved. */
    ghost predicate Valid()
      reads this, tokens
    {
      Consistent() &&
      (turnStage == Moving ==> rolledValue.Some? && 1 <= rolledValue.value <= 4)
    }

    /** The fixed board and paths, seven tokens per player in player order,
        every token well formed, no two tokens on one tile, and a player index
        and a score per player in range. */
    ghost predicate Consistent()
      reads this, tokens
    {
      board == Tiles && players == Players && paths == Paths &&
      targetScore == TargetScore && tokenCount == TokenCount &&
      TokensOk(tokens[..]) && |playerScores| == Players && 0 <= playerTurn < Players
    }

    /** A new game: both scores 0, player 0 to roll, and every token at home
        on its player's path. */
    constructor ()
      ensures Valid() && fresh(tokens)
      ensures playerScores == [0, 0] && running
      ensures playerTurn == 0 && turnStage == Rolling && rolledValue.None?
      ensures forall k :: 0 <= k < tokens.Length ==> AtHome(tokens[k])
    {
      board := Tiles;
      players := Players;
      paths := Paths;
      playerScores := [0, 0];
      targetScore := TargetScore;
      tokenCount := TokenCount;
      running := true;
      var created := new Token[Players * TokenCount];
      var p := 0;
      while p < Players
        invariant 0 <= p <= Players
        invariant forall k :: 0 <= k < p * TokenCount ==>
          created[k] == Token(k / TokenCount, k % TokenCount, Some(Paths[k / TokenCount]), -1, false, false)
      {
        var i := 0;
        while i < TokenCount
          invariant 0 <= i <= TokenCount
          invariant forall k :: 0 <= k < p * TokenCount + i ==>
            created[k] == Token(k / TokenCount, k % TokenCount, Some(Paths[k / TokenCount]), -1, false, false)
        {
          created[p * TokenCount + i] := Token(p, i, Some(Paths[p]), -1, false, false);
          i := i + 1;
        }
        p := p + 1;
      }
      tokens := created;
      playerTurn := 0;
      rolledValue := None;
      new;
      PathTiles();
      StartTurn();
    }

    /** The turn starts with rolling. */
    method StartTurn()
      requires Consistent()
      modifies this
      ensures Valid() && turnStage == Rolling
      ensures playerTurn == old(playerTurn) && rolledValue == old(rolledValue)
      ensures playerScores == old(playerScores) && running == old(running)
    {
      turnStage := Rolling;
    }

    /** Rolls the four dice, whose values are given. Only honoured while
        rolling; a total of 0 ends the turn at once, any other total lets the
        same player move. */
    method RollDice(dice: seq<int>)
      requires Valid()
      requires |dice| == 4 && forall k :: 0 <= k < |dice| ==> dice[k] == 0 || dice[k] == 1
      modifies this
      ensures Valid()
      ensures playerScores == old(playerScores) && running == old(running)
      ensures old(turnStage) != Rolling ==>
        turnStage == old(turnStage) && playerTurn == old(playerTurn) && rolledValue == old(rolledValue)
      ensures old(turnStage) == Rolling ==>
        rolledValue == Some(Total(dice)) &&
        (Total(dice) == 0 ==> turnStage == Rolling && playerTurn == (old(playerTurn) + 1) % Players) &&
        (Total(dice) != 0 ==> turnStage == Moving && playerTurn == old(playerTurn))
    {
      if turnStage != Rolling {
        return;
      }
      rolledValue := Some(Total(dice));
      turnStage := Moving;
      if rolledValue.value == 0 {
        EndTurn();
      }
    }

    /** Hands the turn to the next player, who starts by rolling. */
    method EndTurn()
      requires Consistent()
      modifies this
      ensures Valid()
      ensures turnStage == Rolling && playerTurn == (old(playerTurn) + 1) % players
      ensures rolledValue == old(rolledValue) && playerScores == old(playerScores) && running == old(running)
    {
      turnStage := Rolling;
      playerTurn := (playerTurn + 1) % players;
    }
  
    /** The same player rolls again. */
    method FreeTurn()
      requires Consistent()
      modifies this
      ensures Valid()
      ensures turnStage == Rolling && playerTurn == old(playerTurn)
      ensures rolledValue == old(rolledValue) && playerScores == old(playerScores) && running == old(running)
    {
      turnStage := Rolling;
    }

    /** Adds a point for `player`; reaching the target score wins the game. */
    method ScorePoint(player: int)
      requires Valid() && 0 <= player < players
      modifies this
      ensures Valid()
      ensures playerScores == old(playerScores)[player := old(playerScores)[player] + 1]
      ensures running == (old(running) && playerScores[player] < targetScore)
      ensures turnStage == old(turnStage) && playerTurn == old(playerTurn) && rolledValue == old(rolledValue)
    {
      playerScores := playerScores[player := playerScores[player] + 1];
      if playerScores[player] >= targetScore {
        WinGame(player);
      }
    }

    /** Ends the game: the selection handler ignores all further input. */
    method WinGame(player: int)
      requires Valid()
      modifies this
      ensures Valid() && !running
      ensures playerScores == old(playerScores)
      ensures turnStage == old(turnStage) && playerTurn == old(playerTurn) && rolledValue == old(rolledValue)
    {
      running := false;
    }
  
    /** The first token, in list order, standing on the given tile; none when
        no tile is given. main.py:143 compares `token.tile_location` without
        calling it, which never matches; this is the comparison
        with `token.tile_location()` that the docstring describes. */
    method GetPositionCollision(tilePosition: Option<int>) returns (collision: Option<nat>)
      requires Valid()
      ensures collision == PositionCollision(tokens[..], tilePosition)
    {
      if tilePosition.None? {
        return None;
      }
      var tile := tilePosition.value;
      var k := 0;
      while k < tokens.Length
        invariant 0 <= k <= tokens.Length
        invariant FirstOccupant(tokens[..], tile, k) == FirstOccupant(tokens[..], tile, 0)
      {
        if TileLocation(tokens[k], 0) == OnTile(tile) {
          return Some(k);
        }
        k := k + 1;
      }
      return None;
    }

    /** Token.check_move for token `i`: the messages describing a move to the
        target tile and the token found there. */
    method CheckMove(i: nat, targetTile: int) returns (messages: seq<Message>, collision: Option<nat>)
      requires Valid() && i < tokens.Length && 0 <= targetTile < |board|
      ensures (messages, collision) == Pieces.CheckMove(tokens[..], tokens[i], targetTile)
    {
      collision := GetPositionCollision(Some(targetTile));
      var tileType := board[targetTile];
      var colliderPlayer := if collision.Some? then Some(tokens[collision.value].player) else None;
      messages := Classify(colliderPlayer, tokens[i].player, tileType);
    }

    /** Token.can_move: changes nothing, and holds exactly when Token.action
        with this rolled value would not be blocked, that is, when it would
        change the tokens. */
    method CanMove(i: nat, distance: int) returns (possible: bool)
      requires Valid() && i < tokens.Length && distance >= 0
      ensures possible <==> MoveBlocked !in ResolveMove(tokens[..], i, distance).0
      ensures possible <==> AfterAction(tokens[..], i, distance) != tokens[..]
    {
      assert AllWellFormed(tokens[..]);
      ActionChangesIffNotBlocked(tokens[..], i, distance);
      if distance == 0 {
        return false;
      }
      var path := tokens[i].path.value;
      var targetPosition := tokens[i].pathPosition + distance;
      if targetPosition < |path| {
        PathTiles();
        TargetCollision(tokens[..], i, distance);
        var messages, collision := CheckMove(i, path[targetPosition]);
        return MoveSuccessful in messages;
      }
      return false;
    }
  
    /** Token.move: puts token `i` at the given step of its path. */
    method Move(i: nat, pathPosition: int)
      requires i < tokens.Length
      modifies tokens
      ensures tokens[..] == old(tokens[..])[i := old(tokens[i]).(pathPosition := pathPosition)]
    {
      tokens[i] := tokens[i].(pathPosition := pathPosition);
    }

    /** Token.displace: sends token `i` back home. */
    method Displace(i: nat)
      requires i < tokens.Length
      modifies tokens
      ensures tokens[..] == old(tokens[..])[i := old(tokens[i]).(onPath := false, pathPosition := -1)]
    {
      tokens[i] := tokens[i].(onPath := false, pathPosition := -1);
    }

    /** Token.end_path: token `i` is finished and leaves the path, keeping its
        last step, and a point is announced for its player. */
    method EndPath(i: nat) returns (scored: Signal)
      requires i < tokens.Length
      modifies tokens
      ensures tokens[..] == old(tokens[..])[i := old(tokens[i]).(finished := true, onPath := false)]
      ensures scored == PointScored(old(tokens[i].player))
    {
      tokens[i] := tokens[i].(finished := true, onPath := false);
      scored := PointScored(tokens[i].player);
    }

    /** Token.reset: token `i` goes back home, unfinished. */
    method Reset(i: nat)
      requires Valid() && i < tokens.Length
      modifies tokens
      ensures Valid() && AtHome(tokens[i])
      ensures tokens[..] == old(tokens[..])[i := old(tokens[i]).(pathPosition := -1, onPath := false, finished := false)]
    {
      tokens[i] := tokens[i].(pathPosition := -1, onPath := false, finished := false);
      assert forall k :: 0 <= k < tokens.Length && k != i ==> tokens[k] == old(tokens[k]);
      assert forall t :: !Occupies(tokens[i], t);
    }

    /** The check at the top of Token.action: it is the token's player's turn
        and the turn is at the moving stage. */
    predicate MayAct(i: nat): (r: bool)
      reads this, tokens
      requires i < tokens.Length
      ensures r && Valid() ==> rolledValue.Some? && 1 <= rolledValue.value <= 4
    {
      playerTurn == tokens[i].player && turnStage == Moving
    }

    /** The tokens, stage and signals after Token.action moved token `i` by
        `rolled` from the tokens `before` at stage `stageBefore`: the tokens of
        AfterAction; a free turn on a successful move with FreeTurn, the stage
        kept otherwise; and the signals move_unsuccessful, or point_scored on a
        completed path followed by move_successful. */
    ghost predicate Acted(before: seq<Token>, stageBefore: Stage, i: nat, rolled: int, signals: seq<Signal>)
      reads this, tokens
      requires i < |before| && WellFormed(before[i]) && rolled >= 0
    {
      var messages := ResolveMove(before, i, rolled).0;
      tokens[..] == AfterAction(before, i, rolled) &&
      turnStage == (if MoveBlocked !in messages && Message.FreeTurn in messages then Rolling else stageBefore) &&
      signals == (if MoveBlocked in messages then [Unsuccessful(messages)]
                  else (if PathComplete in messages then [PointScored(before[i].player)] else []) +
                       [Successful(messages)])
    }

    /** Token.action for token `i`: ignored unless it is the token's player's
        turn to move; otherwise resolves the move with the rolled value and
        applies it. A move that does not give a free turn leaves the stage and
        the player unchanged (the call that would end the turn is commented
        out in game_pieces.py:368-370). */
    method Action(i: nat) returns (signals: seq<Signal>)
      requires Valid() && i < tokens.Length
      modifies this, tokens
      ensures Valid()
      ensures playerTurn == old(playerTurn) && rolledValue == old(rolledValue)
      ensures playerScores == old(playerScores) && running == old(running)
      ensures !old(MayAct(i)) ==> tokens[..] == old(tokens[..]) && turnStage == old(turnStage) && signals == []
      ensures old(MayAct(i)) ==> Acted(old(tokens[..]), old(turnStage), i, old(rolledValue.value), signals)
    {
      if playerTurn != tokens[i].player {
        return [];
      }
      if turnStage != Moving {
        return [];
      }
      signals := MoveToken(i);
    }

    /** The body of Token.action once the turn check has passed: the move by
        the rolled value is resolved and, unless blocked, applied; a move onto
        a free rosetta gives the same player another roll. */
    method MoveToken(i: nat) returns (signals: seq<Signal>)
      requires Valid() && i < tokens.Length && MayAct(i)
      modifies this, tokens
      ensures Valid()
      ensures playerTurn == old(playerTurn) && rolledValue == old(rolledValue)
      ensures playerScores == old(playerScores) && running == old(running)
      ensures Acted(old(tokens[..]), old(turnStage), i, old(rolledValue.value), signals)
    {
      var rolled := rolledValue.value;
      var targetPosition, moveCheck, collision := MoveCheck(i, rolled);
      if MoveBlocked in moveCheck {
        return [Unsuccessful(moveCheck)];
      }
      ghost var before := tokens[..];
      ActionKeepsTokens(before, i, rolled);
      AfterActionApplies(before, i, rolled);
      signals := ApplyMove(i, targetPosition, moveCheck, collision);
      if Message.FreeTurn in moveCheck {
        FreeTurn();
      }
      signals := signals + [Successful(moveCheck)];
    }

    /** The part of Token.action that decides on the messages of a move of
        token `i` by `rolled`: a zero roll is an invalid move, a target step
        past the end of the path is too far, any other target is checked with
        check_move. Changes nothing. */
    method MoveCheck(i: nat, rolled: int) returns (targetPosition: int, moveCheck: seq<Message>, collision: Option<nat>)
      requires Valid() && i < tokens.Length && rolled >= 0
      ensures targetPosition == tokens[i].pathPosition + rolled
      ensures (moveCheck, collision) == ResolveMove(tokens[..], i, rolled)
    {
      assert WellFormed(tokens[..][i]);
      var path := tokens[i].path.value;
      targetPosition := tokens[i].pathPosition + rolled;
      if rolled == 0 {
        moveCheck, collision := [MoveBlocked, InvalidMove], None;
      } else if targetPosition < |path| {
        PathTiles();
        TargetCollision(tokens[..], i, rolled);
        moveCheck, collision := CheckMove(i, path[targetPosition]);
      } else {
        moveCheck, collision := [MoveBlocked, TooFar], None;
      }
    }

    /** The part of Token.action that applies a move that is not blocked: a
        displaced opponent goes home, a successful mover is put on the path at
        its target step, and a mover that completes its path ends it, which
        announces a point for its player. */
    method ApplyMove(i: nat, targetPosition: int, moveCheck: seq<Message>, collision: Option<nat>)
      returns (signals: seq<Signal>)
      requires i < tokens.Length
      requires DisplacedOpponent in moveCheck ==> collision.Some? && collision.value < tokens.Length
      modifies tokens
      ensures tokens[..] == Apply(old(tokens[..]), i, targetPosition, moveCheck, collision)
      ensures signals == if PathComplete in moveCheck then [PointScored(old(tokens[i].player))] else []
    {
      if DisplacedOpponent in moveCheck {
        Displace(collision.value);
      }
      if MoveSuccessful in moveCheck {
        tokens[i] := tokens[i].(onPath := true);
        Move(i, targetPosition);
      }
      signals := [];
      if PathComplete in moveCheck {
        var scored := EndPath(i);
        signals := [scored];
      }
    }

    /** The selection handler: ignores everything once the game is won;
        otherwise a selected token acts and a selected die announces that it
        was clicked. Anything else is ignored. */
    method SelectionMade(selection: Selection) returns (signals: seq<Signal>)
      requires Valid() && (selection.TokenPiece? ==> selection.index < tokens.Length)
      modifies this, tokens
      ensures Valid()
      ensures playerTurn == old(playerTurn) && rolledValue == old(rolledValue)
      ensures playerScores == old(playerScores) && running == old(running)
      ensures !(old(running) && selection.TokenPiece? && old(MayAct(selection.index))) ==>
        tokens[..] == old(tokens[..]) && turnStage == old(turnStage)
      ensures !old(running) ==> signals == []
      ensures old(running) && selection.DiePiece? ==> signals == [DieClicked]
      ensures old(running) && !selection.DiePiece? && !(selection.TokenPiece? && old(MayAct(selection.index))) ==>
        signals == []
      ensures old(running) && selection.TokenPiece? && old(MayAct(selection.index)) ==>
        Acted(old(tokens[..]), old(turnStage), selection.index, old(rolledValue.value), signals)
    {
      signals := [];
      if !running {
        return;
      }
      match selection {
        case TokenPiece(i) =>
          signals := Action(i);
        case DiePiece =>
          signals := [DieClicked];
        case _ =>
      }
    }
  }
}
