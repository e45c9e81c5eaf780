/**
 * Traffic Dash's path helpers. Every path is built from the directory of the
 * helper module's own file; the absolute path of that file is a parameter,
 * `scriptPath`, since it depends on where the game is installed.
 */
module TrafficUtils {
  import opened Paths

  /** get_project_root: the directory holding the script. */
  function ProjectRoot(scriptPath: string): (root: string)
    ensures root <= scriptPath
  {
    Dirname(scriptPath)
  }

  /** get_game_path: the game's directory under the project root. */
  function GamePath(scriptPath: string, gameName: string): (r: string)
    ensures !StartsWithSep(gameName) ==> ProjectRoot(scriptPath) <= r
    ensures |gameName| <= |r| && r[|r| - |gameName|..] == gameName
  {
    JoinEndsWith(ProjectRoot(scriptPath), gameName);
    Join(ProjectRoot(scriptPath), gameName)
  }

  /** get_asset_path: the parts joined onto the script's directory. The game name
      takes no part in the result. */
  function AssetPath(scriptPath: string, gameName: string, parts: seq<string>): (r: string)
    ensures parts == [] ==> r == ProjectRoot(scriptPath)
  {
    JoinAll(ProjectRoot(scriptPath), parts)
  }

  /** Two different game names give the same asset path. */
  lemma AssetPathIgnoresGame(scriptPath: string, game1: string, game2: string, parts: seq<string>)
    ensures AssetPath(scriptPath, game1, parts) == AssetPath(scriptPath, game2, parts)
  {
  }

  /** For a root that does not end in '/' and plain names, the asset path is the
      root followed by '/' and each name, and its directory is the path of all
      names but the last. */
  lemma AssetPathLayout(scriptPath: string, gameName: string, parts: seq<string>)
    requires ProjectRoot(scriptPath) != [] && !EndsWithSep(ProjectRoot(scriptPath))
    requires forall i :: 0 <= i < |parts| ==> PlainName(parts[i])
    ensures AssetPath(scriptPath, gameName, parts) == ProjectRoot(scriptPath) + Slashed(parts)
    ensures parts != [] ==>
      Dirname(AssetPath(scriptPath, gameName, parts)) == AssetPath(scriptPath, gameName, parts[..|parts| - 1])
  {
    var root := ProjectRoot(scriptPath);
    JoinAllPlain(root, parts);
    if parts != [] {
      var init, last := parts[..|parts| - 1], parts[|parts| - 1];
      assert PlainName(last);
      JoinAllPlain(root, init);
      if init != [] {
        assert PlainName(init[|init| - 1]);
      }
      SlashedEnd(root, init);
      DirnameOfJoin(root + Slashed(init), last);
    }
  }

  /** A plain game name's directory sits directly under the project root. */
  lemma GamePathUnderRoot(scriptPath: string, gameName: string)
    requires ProjectRoot(scriptPath) != [] && !EndsWithSep(ProjectRoot(scriptPath)) && NoSep(gameName)
    ensures GamePath(scriptPath, gameName) == ProjectRoot(scriptPath) + [Sep] + gameName
    ensures Dirname(GamePath(scriptPath, gameName)) == ProjectRoot(scriptPath)
  {
    DirnameOfJoin(ProjectRoot(scriptPath), gameName);
  }
}
