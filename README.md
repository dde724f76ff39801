# Royal Game of Ur — rules engine

A Dafny model of the rules engine of a Royal Game of Ur played inside Maya:
the player tokens and the way a move is resolved and applied
(`Token` in game_pieces.py), and the game manager's turn and score state
machine (`GameManager` in main.py).

- `board.dfy` (module `Board`): the fixed 3 x 8 board of tile types and the
  two 15-step paths, with lemmas on their shape: every tile holds a type
  0..3, every path step is a playable tile, the goal tile is the last step
  and only there, no path repeats a tile, and the two paths coincide exactly
  at steps 4..11.
- `pieces.dfy` (module `Pieces`): the message identifiers, the token record,
  `tile_location`, the occupancy lookup, `check_move`, and the whole effect
  of `Token.action` as pure functions of the token list (`ResolveMove`,
  `AfterAction`), with lemmas about them: what a move does to the mover and
  to a displaced opponent, that nothing else changes, that every token stays
  at home, on the board or finished, and that no two tokens ever share a
  tile.
- `manager.dfy` (module `Manager`): class `GameManager` with the board, the
  paths, an array of token records and the turn and score fields. Its
  methods update those fields in place and are proved against the functions
  of `Pieces`; its invariant `Valid` also records that the rolled value is
  1..4 whenever the stage is moving.

A token object of the source is a `Token` record stored in the manager's
`tokens` array, and the token methods that change a token (`reset`, `move`,
`displace`, `end_path`, `action`) are manager methods taking the token's
index. Signals that the pieces emit are returned as a list of `Signal`
values: `move_unsuccessful`, `move_successful`, `point_scored` with the
player, and the die's `die_clicked`.

The model follows the code in these places:
- The goal tiles (type 3) are on the board, at tiles 15 and 17, as the last
  steps of the two paths; `PATH_COMPLETE` is decided by the tile type.
- After a move that gives no free turn the turn is not ended: the call to
  `end_turn` is commented out in game_pieces.py:368-370, so stage and player
  stay as they were.
- The occupancy lookup is modelled with the comparison its docstring
  describes, `tile_location()`; the comparison as written never finds a
  token (see Findings).

## Model

| member | source | states |
|---|---|---|
| Board.BoardShape | main.py:30-37 | the board has 24 tiles, each of type 0..3 |
| Board.PathTiles | main.py:39-41 | two paths of 15 steps each; every step is an in-range tile that is not empty, and a step is a goal tile exactly when it is the last one |
| Board.PathsDistinct | main.py:40-41 | no path visits a tile twice |
| Board.PathsMeetOnlyWhenShared | main.py:40-41 | step j of player 0's path and step k of player 1's are the same tile exactly when j = k and 4 <= j <= 11 |
| Pieces.PyIndex | game_pieces.py:308 | Python list indexing: a tile exactly when -len <= k < len, the element itself for a non-negative k, IndexError otherwise |
| Pieces.TileLocation | game_pieces.py:293-308 | IndexError exactly when the path is unset or the on-path, unfinished target step is outside the list; no tile when finished, off the path or at step -1; otherwise the tile of the target step, counted from the end of the path for a negative step, which lies on the path |
| Pieces.FirstOccupant | main.py:142-145 | the first index from `from` on whose token stands on the tile, and none of the earlier ones does |
| Pieces.PositionCollision | main.py:134-145 | no tile gives no token; otherwise the first token in list order standing on the tile, or none when no token stands there |
| Pieces.Classify | game_pieces.py:411-437 | exactly one of MOVE_BLOCKED / MOVE_SUCCESSFULL, never FREE_TURN with PATH_COMPLETE, and each message present exactly in its case: friendly collider blocks, opponent on a rosette is protected, opponent elsewhere is displaced, empty rosette gives a free turn, empty goal completes the path |
| Pieces.CheckMove | game_pieces.py:399-437 | the collision is none exactly when no token stands on the target tile, otherwise a token standing there; exactly one of MOVE_BLOCKED / MOVE_SUCCESSFULL; FRIENDLY_TOKEN exactly for a collider of the mover's player, DISPLACED_OPPONENT exactly for an opponent off a rosette, PROTECTED_OPPONENT exactly for an opponent on a rosette |
| Pieces.ResolveMove | game_pieces.py:341-358 | a zero roll gives exactly MOVE_BLOCKED + INVALID_MOVE and a target step at or past the end of the path exactly MOVE_BLOCKED + TOO_FAR, with no collision; every result holds exactly one of MOVE_BLOCKED / MOVE_SUCCESSFULL, and a displaced opponent is always a token that was found |
| Pieces.Apply | game_pieces.py:360-367 | only the mover and a displaced collider change, and the collider goes home; no token changes player, number or path; a successful mover is at the target step, off the path and finished exactly when PATH_COMPLETE is reported, on the path otherwise |
| Pieces.AfterAction | game_pieces.py:341-367 | the tokens after Token.action keep their number; what the move does to them is stated by BlockedBeforeLookup, ActionFrame, ActionMovesToken, ActionChangesIffNotBlocked, ActionKeepsWellFormed and ActionKeepsNoSharing |
| Pieces.BlockedBeforeLookup | game_pieces.py:343-358 | a zero roll (INVALID_MOVE) and a target step past the end of the path (TOO_FAR) are blocked and change no token |
| Pieces.OccupiedTile | game_pieces.py:293-308 | a well-formed token stands on a tile exactly when it is on the board and the tile is its current step; that tile is never a goal tile |
| Pieces.TargetCollision | game_pieces.py:347-349 | a positive roll within the path checks the tile of the target step, and the token found there is another token on the board at that tile, never the mover itself |
| Pieces.FinishedTokenNeverMoves | game_pieces.py:347-358 | a finished token on a positive roll is blocked as too far and no token changes |
| Pieces.PathCompleteAtLastStep | game_pieces.py:431-433 | PATH_COMPLETE is reported only for the last step of the path, and a positive roll onto the last step always succeeds with PATH_COMPLETE |
| Pieces.OpponentsMeetOnlyWhenShared | main.py:40-41 | a move can meet an opponent's token only at steps 4..11 |
| Pieces.ActionMovesToken | game_pieces.py:363-367 | a successful move advances the mover by the roll, keeps its player, number and path, and leaves it finished at the last step and on the board otherwise |
| Pieces.ActionFrame | game_pieces.py:356-367 | a blocked move changes nothing; a displaced opponent is another player's token on the board and goes home; no token other than the mover and the displaced one changes |
| Pieces.ActionChangesIffNotBlocked | game_pieces.py:356-367 | the move changes the tokens exactly when MOVE_BLOCKED is not reported |
| Pieces.ActionKeepsWellFormed | game_pieces.py:360-367 | after a move every token is still at home, on the board or finished on its own player's path |
| Pieces.ActionKeepsNoSharing | game_pieces.py:360-367 | after a move no two tokens stand on the same tile |
| Pieces.FirstMatchAsWritten | main.py:142-145 | the search as written, comparing the bound method with the tile, never finds a token |
| Pieces.PositionCollisionAsWritten | main.py:134-145 | get_position_collision as written returns no token for any tile |
| Pieces.CheckMoveAsWritten | main.py:143 | with the lookup as written no move is ever blocked, by a friendly token or otherwise, and no opponent is displaced |
| Pieces.AsWrittenLandsOnOwnToken | main.py:143 | a move onto a tile held by the player's own token succeeds as written, and is blocked as FRIENDLY_TOKEN with the intended lookup |
| Manager.Total | main.py:120-121 | the sum of the 0/1 die values (each from game_pieces.py:239) lies in 0..4 and is 0 exactly when every die shows 0 |
| Manager.ActionKeepsTokens | game_pieces.py:356-367 | a move keeps the manager's token list as created: seven tokens per player in order, all well formed, none sharing a tile |
| Manager.GameManager.constructor | main.py:28-60 | a new game has scores [0, 0], is running, player 0 is to roll, and all seven tokens per player are at home on their player's path |
| Manager.GameManager.StartTurn | main.py:65-66 | the stage becomes rolling and nothing else changes |
| Manager.GameManager.RollDice | main.py:117-125 | ignored unless rolling; otherwise the rolled value is the dice total, a total of 0 passes the turn to the next player, any other total moves to the moving stage for the same player |
| Manager.GameManager.EndTurn | main.py:127-129 | the stage becomes rolling and the turn passes to (player + 1) mod 2 |
| Manager.GameManager.FreeTurn | main.py:131-132 | the stage becomes rolling and the same player keeps the turn |
| Manager.GameManager.ScorePoint | main.py:146-149 | the player's score goes up by exactly 1, the other stays, and the game stops running once the score reaches 7 |
| Manager.GameManager.WinGame | main.py:150-152 | the game stops running and nothing else changes |
| Manager.GameManager.GetPositionCollision | main.py:134-145 | the linear search returns exactly the first occupant of the tile in list order, or none |
| Manager.GameManager.CheckMove | game_pieces.py:399-437 | the messages and collision are those of the check_move table for the token found on the target tile |
| Manager.GameManager.CanMove | game_pieces.py:439-454 | changes nothing, and is true exactly when Token.action with that roll would not be blocked, that is, exactly when it would change the tokens |
| Manager.GameManager.Move | game_pieces.py:375-384 | only token i changes, to the given path step |
| Manager.GameManager.Displace | game_pieces.py:386-390 | only token i changes: it leaves the path and returns to step -1 |
| Manager.GameManager.EndPath | game_pieces.py:392-397 | only token i changes, to finished and off the path at its step, and a point is announced for its player |
| Manager.GameManager.Reset | game_pieces.py:287-291 | token i is at home and unfinished, no other token changes, and the manager invariant still holds |
| Manager.GameManager.MayAct | game_pieces.py:336-339 | the token's player has the turn and the stage is moving; then, under the manager invariant, the rolled value is 1..4 |
| Manager.GameManager.Action | game_pieces.py:333-373 | ignored unless it is the token's player's turn to move; otherwise the tokens, stage and signals are those of the move resolved with the rolled value, the player, roll and scores unchanged, and the invariant kept |
| Manager.GameManager.MoveToken | game_pieces.py:341-373 | the move resolved with the rolled value is applied, a free rosette gives the same player another roll, any other move keeps stage and player, and the signals are move_unsuccessful, or point_scored on a completed path followed by move_successful |
| Manager.GameManager.MoveCheck | game_pieces.py:341-354 | changes nothing; the target step is position plus roll, and the messages are INVALID_MOVE for a 0 roll, TOO_FAR past the path, the check_move result otherwise |
| Manager.GameManager.ApplyMove | game_pieces.py:360-367 | a displaced collider goes home, a successful mover goes on the path at the target step, a completed path finishes it and announces a point for its player |
| Manager.GameManager.SelectionMade | main.py:92-104 | once the game is not running every selection is ignored; a selected token acts, a selected die announces the click, and anything else, including a token that may not act, changes nothing and emits nothing |

## Left out

- Maya scene work (models, textures, materials, transforms, the floor and board tiles, `update_model_transform`) is rendering with no effect on the rules.
- `Die.roll`'s random choice is replaced by the die values passed to `RollDice`; the random placement and rotation of the dice and the jitter of token positions are left out.
- The probability stated in the die's docstring is a floating-point claim about randomness, not about the rules.
- The OpenMaya selection callback, its registration and `pm.select` are host input; `SelectionMade` receives the already resolved selection, and only the `running` gate and the dispatch to `action` are modelled.
- `print` calls only write to the console.
- The `Signal` observer dispatch (utils.py) calls arbitrary callables; emissions are returned as a list of `Signal` values instead, so the connection from `point_scored` to `ScorePoint` and from `die_clicked` to `RollDice` is left to the caller.
- Message identifiers are a datatype rather than their string values.
- Tokens are records in the manager's array rather than separate objects, so aliasing of token objects is not modelled; a token's back reference to the manager becomes the manager's own methods.
- interface.py (Qt dialog), maya_command.py and __init__.py (launcher and reload scripts) are not part of this model.
- Nothing in main.py or game_pieces.py calls `add_piece` (main.py:68), so as written `self.pieces` stays empty and `_selection_made` returns at main.py:99-100 for every selection; `SelectionMade` assumes the pieces are registered, as `add_piece` evidently intends.
- Pieces.PositionCollision: a token whose `tile_location()` would raise IndexError counts as not standing on the tile, where the intended lookup would propagate the error; a manager's tokens always have a path and stay within it (`GameManager.Valid`), so this case never arises there.
- Manager.GameManager.RollDice: requires each die value to be 0 or 1, the only values `Die.roll` returns.

## Findings

| source | as written | input that shows it | evidently intended | confidence | as-written member | corrected member |
|---|---|---|---|---|---|---|
| main.py:143 | `token.tile_location == tile_position` compares the bound method with an int, which is never equal, so `get_position_collision` never finds a token | player 0's token 0 on step 0 (tile 9), token 1 at home, roll 1: token 1 moves onto tile 9 as MOVE_SUCCESSFULL | compare `token.tile_location()`, as the docstring says, so the move is blocked with FRIENDLY_TOKEN | high (not executed) | Pieces.AsWrittenLandsOnOwnToken | Pieces.PositionCollision |
