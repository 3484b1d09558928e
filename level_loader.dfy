/** The level loader: the same tile map load as the game's, with the tiles
    drawn at z-index 0, writing the game's static map size. */
module LevelLoader {
  import opened Optional
  import opened Scene
  import opened TileMap
  import Game

  class LevelLoader {
    constructor ()
    {
    }

    /** The tile map part of `LoadLevel`: the tiles go into the registry's
        world, the map size into `Game::mapWidth` and `Game::mapHeight`. */
    method LoadLevel(game: Game.Game, lines: seq<string>) returns (loaded: bool)
      requires |lines| > 0
      modifies game
      ensures loaded <==> MapParses(lines)
      ensures (game.world, game.mapWidth, game.mapHeight, game.millisecsPreviousFrame) ==
              if loaded then
                var m := ParsedMap(lines);
                (old(game.world).(created := old(game.world).created + Tiles(m, |m|, 0)), MapSize(m).0, MapSize(m).1,
                 old(game.millisecsPreviousFrame))
              else
                old((game.world, game.mapWidth, game.mapHeight, game.millisecsPreviousFrame))
    {
      var level := LoadTiles(game.world, lines, 0);
      if level.None? {
        return false;
      }
      game.world, game.mapWidth, game.mapHeight := level.value.world, level.value.mapWidth, level.value.mapHeight;
      return true;
    }
  }
}
