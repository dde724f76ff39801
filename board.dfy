/** The fixed board and the two players' paths that the game manager sets up
    when it is created (main.py, GameManager). */
module Board {

  /** Tile types stored in the board list. */
  const TileNothing := 0
  const TileNormal := 1
  const TileRosetta := 2
  const TileGoal := 3

  /** The 3 x 8 board, row by row: tile `i` lies in column `i % 3`, row `i / 3`.
      The two goal tiles are placed on the board, at 15 and 17. */
  const Tiles: seq<int> := [2, 1, 2,
                            1, 1, 1,
                            1, 1, 1,
                            1, 2, 1,
                            0, 1, 0,
                            3, 1, 3,
                            2, 1, 2,
                            1, 1, 1]

  const Players := 2

  /** Each player's path as board tile indices. The last step is the goal tile:
      a token must land exactly on it to complete its path. */
  const Paths: seq<seq<int>> := [[9, 6, 3, 0, 1, 4, 7, 10, 13, 16, 19, 22, 21, 18, 15],
                                 [11, 8, 5, 2, 1, 4, 7, 10, 13, 16, 19, 22, 23, 20, 17]]

  const PathLength := 15

  /** The steps both paths run through together. */
  const SharedFirst := 4
  const SharedLast := 11

  /** Every tile holds one of the four tile types. */
  lemma BoardShape()
    ensures |Tiles| == 24
    ensures forall t :: 0 <= t < |Tiles| ==> TileNothing <= Tiles[t] <= TileGoal
  {
    forall t | 0 <= t < |Tiles|
      ensures TileNothing <= Tiles[t] <= TileGoal
    {
      assert t < 12 || 12 <= t;
    }
  }

  /** Each path has `PathLength` steps on playable tiles of the board, and the
      goal tile is met at the last step and nowhere else. */
  lemma PathTiles()
    ensures |Paths| == Players
    ensures forall p :: 0 <= p < Players ==> |Paths[p]| == PathLength
    ensures forall p, k :: 0 <= p < Players && 0 <= k < PathLength ==>
      0 <= Paths[p][k] < |Tiles| && Tiles[Paths[p][k]] != TileNothing &&
      (Tiles[Paths[p][k]] == TileGoal <==> k == PathLength - 1)
  {
    forall p, k | 0 <= p < Players && 0 <= k < PathLength
      ensures 0 <= Paths[p][k] < |Tiles| && Tiles[Paths[p][k]] != TileNothing
      ensures Tiles[Paths[p][k]] == TileGoal <==> k == PathLength - 1
    {
      assert p == 0 || p == 1;
      assert k == 0 || k == 1 || k == 2 || k == 3 || k == 4 || k == 5 || k == 6 || k == 7 ||
             k == 8 || k == 9 || k == 10 || k == 11 || k == 12 || k == 13 || k == 14;
    }
  }

  /** No path visits a tile twice. */
  lemma PathsDistinct()
    ensures forall p, j, k ::
      0 <= p < Players && 0 <= j < PathLength && 0 <= k < PathLength && Paths[p][j] == Paths[p][k] ==> j == k
  {
    forall p, j, k | 0 <= p < Players && 0 <= j < PathLength && 0 <= k < PathLength && Paths[p][j] == Paths[p][k]
      ensures j == k
    {
      assert p == 0 || p == 1;
      assert j == 0 || j == 1 || j == 2 || j == 3 || j == 4 || j == 5 || j == 6 || j == 7 ||
             j == 8 || j == 9 || j == 10 || j == 11 || j == 12 || j == 13 || j == 14;
      assert k == 0 || k == 1 || k == 2 || k == 3 || k == 4 || k == 5 || k == 6 || k == 7 ||
             k == 8 || k == 9 || k == 10 || k == 11 || k == 12 || k == 13 || k == 14;
    }
  }

  /** The two paths meet exactly at the shared steps, at the same step number,
      and nowhere else. */
  lemma PathsMeetOnlyWhenShared()
    ensures forall j, k :: 0 <= j < PathLength && 0 <= k < PathLength ==>
      (Paths[0][j] == Paths[1][k] <==> j == k && SharedFirst <= j <= SharedLast)
  {
    forall j, k | 0 <= j < PathLength && 0 <= k < PathLength
      ensures Paths[0][j] == Paths[1][k] <==> j == k && SharedFirst <= j <= SharedLast
    {
      assert j == 0 || j == 1 || j == 2 || j == 3 || j == 4 || j == 5 || j == 6 || j == 7 ||
             j == 8 || j == 9 || j == 10 || j == 11 || j == 12 || j == 13 || j == 14;
      assert k == 0 || k == 1 || k == 2 || k == 3 || k == 4 || k == 5 || k == 6 || k == 7 ||
             k == 8 || k == 9 || k == 10 || k == 11 || k == 12 || k == 13 || k == 14;
    }
  }
}
