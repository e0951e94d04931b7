/** `scene::get_scene_dir` of 19_assimpmodel.cpp: the directory part of
    the scene's path, used to find the textures next to the model file.

    The function looks for the last '/' with `find_last_of("/")`: without
    one the directory is ".", a '/' at index 0 gives the root "/", and
    otherwise the directory is everything before the last '/'. */
module SceneDir {

  /** `s.find_last_of(c)`: the index of the last `c` in `s`, or -1 for
      `std::string::npos` when there is none. */
  function FindLastOf(s: string, c: char): (r: int)
    ensures -1 <= r < |s|
    ensures r == -1 <==> c !in s
    ensures 0 <= r ==> s[r] == c
    ensures forall j :: r < j < |s| ==> s[j] != c
  {
    if |s| == 0 then -1
    else if s[|s| - 1] == c then |s| - 1
    else
      var r := FindLastOf(s[..|s| - 1], c);
      assert r == -1 ==> s == s[..|s| - 1] + [s[|s| - 1]];
      r
  }

  /** Any index holding the last `c` is the one `FindLastOf` reports. */
  lemma FindLastOfUnique(s: string, c: char, k: int)
    requires 0 <= k < |s| && s[k] == c
    requires forall j :: k < j < |s| ==> s[j] != c
    ensures FindLastOf(s, c) == k
  {
  }

  /** `get_scene_dir()` of the scene path `path`. */
  function GetSceneDir(path: string): (d: string)
    ensures |d| > 0
    ensures '/' !in path ==> d == "."
  {
    var i := FindLastOf(path, '/');
    if i == -1 then "."
    else if i == 0 then "/"
    else path[..i]
  }

  /** A path whose only '/' is the leading one lies in the root directory. */
  lemma RootDirectory(path: string)
    requires |path| > 0 && path[0] == '/'
    requires forall j :: 0 < j < |path| ==> path[j] != '/'
    ensures GetSceneDir(path) == "/"
  {
    FindLastOfUnique(path, '/', 0);
  }

  /** When the last '/' is at index `k > 0`, the directory is the part
      before it: joined with the rest of the path from that '/' on, it
      gives the path back, and it ends just before the file name. */
  lemma DirectoryAndFileName(path: string, k: int)
    requires 0 < k < |path| && path[k] == '/'
    requires forall j :: k < j < |path| ==> path[j] != '/'
    ensures GetSceneDir(path) + path[k..] == path
    ensures |GetSceneDir(path)| == k
  {
    FindLastOfUnique(path, '/', k);
    assert path[..k] + path[k..] == path;
  }

  /** The directory of a path holding a '/' is "/" or a proper prefix of the
      path that is followed by a '/'. */
  lemma DirectoryIsPrefix(path: string)
    requires '/' in path
    ensures var d := GetSceneDir(path);
      d == "/" || (|d| < |path| && d == path[..|d|] && path[|d|] == '/')
  {
  }
}
