/**
 * Cycle Forest's theme table and asset loader. A theme names the files for the
 * player, monster, projectile, background and music, and the scale of each
 * sprite; the loader holds the current theme and builds paths under the
 * directory of the configuration module, whose absolute file path is a
 * parameter. The file system is a predicate on paths.
 */
module AssetsConfig {
  import opened Common
  import opened Paths

  type Size = (int, int)

  datatype Theme = Theme(
    player: string, monster: string, projectile: string, background: string, music: string,
    scale: map<string, Size>)

  /** Both themes draw the sprites at the same sizes. */
  const SpriteScale: map<string, Size> := map["player" := (150, 150), "monster" := (200, 200), "projectile" := (60, 60)]

  const DefaultTheme: Theme :=
    Theme("king.png", "monster.png", "fire.png", "background.png", "time_for_adventure.mp3", SpriteScale)

  const ForestTheme: Theme :=
    Theme("forest_spirit.png", "dark_creature.png", "leaf.png", "forest_bg.png", "forest_theme.mp3", SpriteScale)

  /** THEMES, in the order of its keys. */
  const Themes: seq<(string, Theme)> := [("default", DefaultTheme), ("forest", ForestTheme)]

  const DefaultName: string := "default"

  /** The sub-directories of BASE_DIR holding the images and the music. */
  const ImageDir: string := "image"
  const MusicDir: string := "music"

  lemma DirsPlain()
    ensures ImageDir != [] && NoSep(ImageDir) && MusicDir != [] && NoSep(MusicDir)
  {
  }

  /** The keys of a theme, in the order they are listed. */
  const ThemeKeys: seq<string> := ["player", "monster", "projectile", "background", "music", "scale"]

  function Names(table: seq<(string, Theme)>): (names: seq<string>)
    ensures |names| == |table| && forall i :: 0 <= i < |table| ==> names[i] == table[i].0
  {
    if table == [] then [] else Names(table[..|table| - 1]) + [table[|table| - 1].0]
  }

  /** THEMES[name], or None where Python would find no such key. */
  function Find(table: seq<(string, Theme)>, name: string): (r: Option<Theme>)
    ensures r.Some? <==> name in Names(table)
    ensures r.Some? ==> (name, r.value) in table
  {
    if table == [] then None
    else if table[0].0 == name then Some(table[0].1)
    else
      assert Names(table) == [table[0].0] + Names(table[1..]);
      Find(table[1..], name)
  }

  /** get_available_themes: the theme names in table order. */
  function AvailableThemes(): (names: seq<string>)
    ensures names == ["default", "forest"]
  {
    assert Names(Themes) == [Themes[0].0, Themes[1].0];
    Names(Themes)
  }

  /** assets[key] for the keys whose value is a file name; "scale" (whose value is
      not a string, so join fails) and unknown keys give None. */
  function FileOf(t: Theme, key: string): Option<string>
  {
    if key == "player" then Some(t.player)
    else if key == "monster" then Some(t.monster)
    else if key == "projectile" then Some(t.projectile)
    else if key == "background" then Some(t.background)
    else if key == "music" then Some(t.music)
    else None
  }

  /** Every theme key but "scale" names a file, and nothing else does. */
  lemma FileOfKeys(t: Theme, key: string)
    ensures FileOf(t, key).Some? <==> key in ThemeKeys && key != "scale"
  {
  }

  /** No file name in a theme holds a '/'. */
  predicate PlainFiles(t: Theme)
  {
    NoSep(t.player) && NoSep(t.monster) && NoSep(t.projectile) && NoSep(t.background) && NoSep(t.music)
  }

  /** Every file named by the table is a plain name. */
  lemma ThemeFilesPlain(name: string)
    requires Find(Themes, name).Some?
    ensures PlainFiles(Find(Themes, name).value)
  {
    var t := Find(Themes, name).value;
    assert t == DefaultTheme || t == ForestTheme;
    DefaultPlain();
    ForestPlain();
  }

  lemma DefaultPlain()
    ensures PlainFiles(DefaultTheme)
  {
  }

  lemma ForestPlain()
    ensures PlainFiles(ForestTheme)
  {
  }

  /** The sprites have the same sizes in every theme, and the background has none. */
  lemma ScalesAgree(name: string)
    requires Find(Themes, name).Some?
    ensures Find(Themes, name).value.scale == SpriteScale
    ensures "background" !in SpriteScale && "music" !in SpriteScale
  {
  }

  /** os.path.join(base, dir, file). */
  function InDir(base: string, dir: string, file: string): string
  {
    Join(Join(base, dir), file)
  }

  /** The joined path ends with the file name. */
  lemma InDirEndsWithFile(base: string, dir: string, file: string)
    ensures var r := InDir(base, dir, file); |file| <= |r| && r[|r| - |file|..] == file
  {
    JoinEndsWith(Join(base, dir), file);
  }

  /** Whether the check reports the image under this key: music and scale are
      skipped, the other files must exist under the image directory. */
  predicate ImageMissing(t: Theme, key: string, baseDir: string, onDisk: string -> bool)
  {
    key != "scale" && key != "music" && FileOf(t, key).Some? && !onDisk(InDir(baseDir, ImageDir, FileOf(t, key).value))
  }

  /** The image files that the asset check finds missing, in key order, each
      reported as "Image: <file>"; the music file is checked by its own step. */
  function MissingImages(t: Theme, keys: seq<string>, baseDir: string, onDisk: string -> bool): (r: seq<string>)
    ensures |r| <= |keys|
  {
    if keys == [] then []
    else
      var earlier := MissingImages(t, keys[..|keys| - 1], baseDir, onDisk);
      var key := keys[|keys| - 1];
      if ImageMissing(t, key, baseDir, onDisk) then earlier + ["Image: " + FileOf(t, key).value] else earlier
  }

  lemma MissingImagesStep(t: Theme, keys: seq<string>, i: nat, baseDir: string, onDisk: string -> bool)
    requires i < |keys|
    ensures MissingImages(t, keys[..i + 1], baseDir, onDisk) ==
      MissingImages(t, keys[..i], baseDir, onDisk) +
      (if ImageMissing(t, keys[i], baseDir, onDisk) then ["Image: " + FileOf(t, keys[i]).value] else [])
  {
    assert keys[..i + 1][..i] == keys[..i];
  }

  lemma {:induction false} MissingImagesEmpty(t: Theme, keys: seq<string>, baseDir: string, onDisk: string -> bool)
    ensures MissingImages(t, keys, baseDir, onDisk) == [] <==>
      forall i :: 0 <= i < |keys| ==> !ImageMissing(t, keys[i], baseDir, onDisk)
  {
    if keys != [] {
      var init, last := keys[..|keys| - 1], keys[|keys| - 1];
      MissingImagesEmpty(t, init, baseDir, onDisk);
      assert forall i :: 0 <= i < |init| ==> init[i] == keys[i];
      if ImageMissing(t, last, baseDir, onDisk) {
        assert |MissingImages(t, keys, baseDir, onDisk)| == |MissingImages(t, init, baseDir, onDisk)| + 1;
        assert ImageMissing(t, keys[|keys| - 1], baseDir, onDisk);
      } else {
        assert MissingImages(t, keys, baseDir, onDisk) == MissingImages(t, init, baseDir, onDisk);
        assert (forall i :: 0 <= i < |keys| ==> !ImageMissing(t, keys[i], baseDir, onDisk)) <==>
          (forall i :: 0 <= i < |init| ==> !ImageMissing(t, init[i], baseDir, onDisk));
      }
    }
  }

  class AssetLoader {
    /** BASE_DIR: the directory holding the configuration module. */
    const baseDir: string
    var theme: string
    var assets: Theme

    predicate Valid()
      reads this
    {
      Find(Themes, theme) == Some(assets)
    }

    /** AssetLoader(theme): an unknown theme name falls back to "default". */
    constructor (scriptPath: string, name: string)
      ensures Valid() && baseDir == Dirname(scriptPath)
      ensures theme == (if name in AvailableThemes() then name else DefaultName)
    {
      baseDir := Dirname(scriptPath);
      if Find(Themes, name).Some? {
        theme := name;
        assets := Find(Themes, name).value;
      } else {
        theme := DefaultName;
        assets := DefaultTheme;
      }
    }

    /** get_image_path: <BASE_DIR>/image/<file>; None where Python raises. */
    function ImagePath(key: string): (r: Option<string>)
      reads this
      ensures r.Some? <==> FileOf(assets, key).Some?
      ensures r.Some? ==> r.value == InDir(baseDir, ImageDir, FileOf(assets, key).value)
    {
      match FileOf(assets, key)
      case None => None
      case Some(file) => Some(InDir(baseDir, ImageDir, file))
    }

    /** get_music_path: <BASE_DIR>/music/<music file>. */
    function MusicPath(): (r: string)
      reads this
    {
      InDir(baseDir, MusicDir, assets.music)
    }

    /** get_scale: the sprite's size, or None for a key the scale table lacks. */
    function Scale(key: string): (r: Option<Size>)
      reads this
      requires Valid()
      ensures r.Some? <==> key in {"player", "monster", "projectile"}
      ensures key == "player" ==> r == Some((150, 150))
      ensures key == "monster" ==> r == Some((200, 200))
      ensures key == "projectile" ==> r == Some((60, 60))
    {
      if key in assets.scale then Some(assets.scale[key]) else None
    }

    /** change_theme: switch to a known theme; an unknown name changes nothing. */
    method ChangeTheme(name: string)
      requires Valid()
      modifies this`theme, this`assets
      ensures Valid()
      ensures name in AvailableThemes() ==> theme == name
      ensures name !in AvailableThemes() ==> theme == old(theme) && assets == old(assets)
    {
      if Find(Themes, name).Some? {
        theme := name;
        assets := Find(Themes, name).value;
      }
    }

    /** The image half of verify_assets_exist: the loop over the theme's items. */
    method MissingImageFiles(onDisk: string -> bool) returns (missing: seq<string>)
      requires Valid()
      ensures missing == MissingImages(assets, ThemeKeys, baseDir, onDisk)
    {
      var keys := ThemeKeys;
      missing := [];
      var i := 0;
      while i < |keys|
        invariant 0 <= i <= |keys|
        invariant missing == MissingImages(assets, keys[..i], baseDir, onDisk)
      {
        MissingImagesStep(assets, keys, i, baseDir, onDisk);
        var key := keys[i];
        if key != "scale" && key != "music" {
          FileOfKeys(assets, key);
          var path := ImagePath(key).value;
          assert ImageMissing(assets, key, baseDir, onDisk) <==> !onDisk(path);
          if !onDisk(path) {
            missing := missing + ["Image: " + FileOf(assets, key).value];
          }
        } else {
          assert !ImageMissing(assets, key, baseDir, onDisk);
        }
        assert missing == MissingImages(assets, keys[..i + 1], baseDir, onDisk);
        i := i + 1;
      }
      assert keys[..i] == keys;
    }

    /** verify_assets_exist: every image file and the music file must exist. The
        missing files are reported in key order, images first. */
    method VerifyAssetsExist(onDisk: string -> bool) returns (ok: bool, missing: seq<string>)
      requires Valid()
      ensures missing == MissingImages(assets, ThemeKeys, baseDir, onDisk) +
        (if onDisk(MusicPath()) then [] else ["Music: " + assets.music])
      ensures ok <==> missing == []
      ensures ok <==> (forall key :: key in ThemeKeys && key != "music" && key != "scale" ==>
        onDisk(ImagePath(key).value)) && onDisk(MusicPath())
    {
      missing := MissingImageFiles(onDisk);
      if !onDisk(MusicPath()) {
        missing := missing + ["Music: " + assets.music];
      }
      ok := missing == [];
      AllImagesPresent(this, onDisk);
    }
  }

  /** No image is reported exactly when every image file of the theme exists. */
  lemma AllImagesPresent(loader: AssetLoader, onDisk: string -> bool)
    ensures MissingImages(loader.assets, ThemeKeys, loader.baseDir, onDisk) == [] <==>
      forall key :: key in ThemeKeys && key != "music" && key != "scale" ==> onDisk(loader.ImagePath(key).value)
  {
    var keys := ThemeKeys;
    MissingImagesEmpty(loader.assets, keys, loader.baseDir, onDisk);
    forall key | key in keys && key != "music" && key != "scale"
      ensures !ImageMissing(loader.assets, key, loader.baseDir, onDisk) <==> onDisk(loader.ImagePath(key).value)
    {
    }
  }

  lemma FileOfPlain(t: Theme, key: string)
    requires PlainFiles(t) && FileOf(t, key).Some?
    ensures NoSep(FileOf(t, key).value)
  {
  }

  /** A sub-directory path never ends in '/'. */
  lemma SubdirPlain(base: string, dir: string)
    requires dir != [] && NoSep(dir)
    ensures Join(base, dir) != [] && !EndsWithSep(Join(base, dir))
  {
    var r := Join(base, dir);
    assert r[|r| - 1] == r[|r| - |dir|..][|dir| - 1] == dir[|dir| - 1];
  }

  /** Image paths lie directly in the image directory under BASE_DIR, and the
      music path directly in the music directory. */
  lemma LoaderPathsUnderBase(loader: AssetLoader, key: string)
    requires loader.Valid() && loader.ImagePath(key).Some?
    ensures Dirname(loader.ImagePath(key).value) == Join(loader.baseDir, ImageDir)
    ensures Dirname(loader.MusicPath()) == Join(loader.baseDir, MusicDir)
  {
    ThemeFilesPlain(loader.theme);
    DirsPlain();
    FileOfPlain(loader.assets, key);
    SubdirPlain(loader.baseDir, ImageDir);
    SubdirPlain(loader.baseDir, MusicDir);
    DirnameOfJoin(Join(loader.baseDir, ImageDir), FileOf(loader.assets, key).value);
    DirnameOfJoin(Join(loader.baseDir, MusicDir), loader.assets.music);
  }
}
