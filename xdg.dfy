/** Where plugins live (plugin/xdg.go): the XDG base-directory rules for
    choosing a writable data directory and for finding an existing one,
    with the user's home directory as the fallback. The file system, the
    current user and the environment variables are parameters. */
module Xdg {
  import opened Wrappers
  import opened Strs

  /** The part of os.FileInfo that writable looks at: the permission bits,
      and the owner when the platform reports one. */
  datatype FileInfo = FileInfo(perm: bv32, owner: Option<(nat, nat)>)

  datatype User = User(uid: string, gid: string)

  /** os.Stat for writable: the file information, or None on any error. */
  type StatInfo = string -> Option<FileInfo>

  /** writable: world-writable, or writable by the owner who is the user,
      or writable by the group that is the user's. */
  function Writable(stat: StatInfo, path: string, user: User): (r: bool)
    ensures stat(path).None? ==> !r
    ensures stat(path).Some? && stat(path).value.perm & 0x2 != 0 ==> r
  {
    match stat(path)
    case None => false
    case Some(fd) =>
      var perms := fd.perm & 0x1ff;
      if perms & 0x2 != 0 then true
      else
        match fd.owner
        case None => false
        case Some((uid, gid)) =>
          if user.uid == NatToString(uid) && perms & 0x80 != 0 then true
          else user.gid == NatToString(gid) && perms & 0x10 != 0
  }

  /** The permission classes, one at a time. */
  lemma WritableIff(stat: StatInfo, path: string, user: User)
    ensures Writable(stat, path, user) <==>
      stat(path).Some? && (
        stat(path).value.perm & 0x2 != 0
        || (stat(path).value.owner.Some? && (
              (user.uid == NatToString(stat(path).value.owner.value.0) && stat(path).value.perm & 0x80 != 0)
              || (user.gid == NatToString(stat(path).value.owner.value.1) && stat(path).value.perm & 0x10 != 0))))
  {
    if stat(path).Some? {
      var p := stat(path).value.perm;
      assert (p & 0x1ff) & 0x2 == p & 0x2;
      assert (p & 0x1ff) & 0x80 == p & 0x80;
      assert (p & 0x1ff) & 0x10 == p & 0x10;
    }
  }

  /** The directory `path` of the application directory `p` under `base`. */
  function Under(base: string, p: string, path: string): string {
    JoinPath([base, p, path])
  }

  /** The first of `dirs` that is writable, if any. */
  function FirstWritable(stat: StatInfo, user: User, dirs: seq<string>): (r: Option<nat>)
    ensures r.Some? ==> (r.value < |dirs| && Writable(stat, dirs[r.value], user)
      && forall j :: 0 <= j < r.value ==> !Writable(stat, dirs[j], user))
    ensures r.None? ==> forall j :: 0 <= j < |dirs| ==> !Writable(stat, dirs[j], user)
  {
    if |dirs| == 0 then None
    else if Writable(stat, dirs[0], user) then Some(0)
    else match FirstWritable(stat, user, dirs[1..])
      case None => None
      case Some(k) => Some(k + 1)
  }

  /** homeDir: under the home directory, or under "" when it is unknown. */
  function HomeDir(home: Outcome<string>, p: string, path: string): string {
    Under(if home.Ok? then home.value else "", p, path)
  }

  /** The home directory's error is dropped: the path is the application
      directory under the home directory when it is known, and the same
      relative path, without a base, when it is not. */
  lemma {:induction false} HomeDirShape(home: Outcome<string>, p: string, path: string)
    requires p != "" && path != ""
    ensures home.Ok? && home.value != "" ==> HomeDir(home, p, path) == home.value + "/" + p + "/" + path
    ensures !(home.Ok? && home.value != "") ==> HomeDir(home, p, path) == p + "/" + path
  {
    var two := [p, path];
    assert NonEmptyElems([path]) == [path] by {
      assert [path][1..] == [];
    }
    assert NonEmptyElems(two) == two by {
      assert two[1..] == [path];
    }
    assert Join(two, "/") == p + "/" + path by {
      assert two[1..] == [path];
    }
    if home.Ok? && home.value != "" {
      var h := home.value;
      assert [h, p, path][1..] == two;
      assert NonEmptyElems([h, p, path]) == [h] + two;
      assert ([h] + two)[1..] == two;
      assert Join([h] + two, "/") == h + "/" + Join(two, "/");
    } else {
      assert ["", p, path][1..] == two;
      assert NonEmptyElems(["", p, path]) == two;
    }
  }

  /** The directories preferred considers, in order: XDG_DATA_HOME, then
      each directory of XDG_DATA_DIRS. */
  function Candidates(xdgDataHome: string, xdgDataDirs: string): seq<string> {
    (if xdgDataHome != "" then [xdgDataHome] else [])
    + (if xdgDataDirs != "" then Split(xdgDataDirs, ":") else [])
  }

  /** The loop over XDG_DATA_DIRS in preferred (plugin/xdg.go:38-45). */
  method PickDataDir(stat: StatInfo, user: User, dirs: seq<string>) returns (r: Option<nat>)
    ensures r == FirstWritable(stat, user, dirs)
  {
    var i := 0;
    while i < |dirs|
      invariant 0 <= i <= |dirs|
      invariant forall j :: 0 <= j < i ==> !Writable(stat, dirs[j], user)
    {
      if Writable(stat, dirs[i], user) {
        return Some(i);
      }
      i := i + 1;
    }
    return None;
  }

  /** preferred. */
  method Preferred(stat: StatInfo, currentUser: Option<User>, home: Outcome<string>,
                   p: string, path: string, xdgDataHome: string, xdgDataDirs: string) returns (dir: string)
    ensures currentUser.None? ==> dir == HomeDir(home, p, path)
    ensures currentUser.Some? ==>
      var cands := Candidates(xdgDataHome, xdgDataDirs);
      match FirstWritable(stat, currentUser.value, cands)
      case Some(k) => dir == Under(cands[k], p, path)
      case None => dir == HomeDir(home, p, path)
  {
    if currentUser.None? {
      return HomeDir(home, p, path);
    }
    var user := currentUser.value;
    var cands := Candidates(xdgDataHome, xdgDataDirs);
    if xdgDataHome != "" && Writable(stat, xdgDataHome, user) {
      assert cands[0] == xdgDataHome;
      return Under(xdgDataHome, p, path);
    }
    var dirs := if xdgDataDirs != "" then Split(xdgDataDirs, ":") else [];
    var offset := if xdgDataHome != "" then 1 else 0;
    assert cands[offset..] == dirs;
    FirstWritableSkip(stat, user, cands, offset);
    if xdgDataDirs != "" {
      var k := PickDataDir(stat, user, dirs);
      if k.Some? {
        assert cands[offset + k.value] == dirs[k.value];
        return Under(dirs[k.value], p, path);
      }
    }
    return HomeDir(home, p, path);
  }

  /** Skipping a leading candidate that is not writable. */
  lemma FirstWritableSkip(stat: StatInfo, user: User, cands: seq<string>, offset: nat)
    requires offset <= 1 && offset <= |cands|
    requires offset == 1 ==> !Writable(stat, cands[0], user)
    ensures FirstWritable(stat, user, cands) ==
      match FirstWritable(stat, user, cands[offset..])
      case None => None
      case Some(k) => Some(k + offset)
  {
    if offset == 0 {
      assert cands[0..] == cands;
    }
  }

  /** What os.Stat reports to find: the file exists, does not exist, or
      another error with its text. */
  datatype StatResult = Exists | Missing(text: string) | StatFailed(text: string)

  type StatPath = string -> StatResult

  /** The search of XDG_DATA_DIRS in find: the first existing directory, an
      error other than "does not exist", or None when all are missing. */
  function SearchDirs(stat: StatPath, p: string, path: string, dirs: seq<string>): Option<Outcome<string>> {
    if |dirs| == 0 then None
    else
      var dir := Under(dirs[0], p, path);
      match stat(dir)
      case StatFailed(e) => Some(Fail("get data dirs directory: " + e))
      case Exists => Some(Ok(dir))
      case Missing(_) => SearchDirs(stat, p, path, dirs[1..])
  }

  /** The loop over XDG_DATA_DIRS in find (plugin/xdg.go:103-114). */
  method SearchDataDirs(stat: StatPath, p: string, path: string, dirs: seq<string>) returns (r: Option<Outcome<string>>)
    ensures r == SearchDirs(stat, p, path, dirs)
  {
    var i := 0;
    while i < |dirs|
      invariant 0 <= i <= |dirs|
      invariant SearchDirs(stat, p, path, dirs) == SearchDirs(stat, p, path, dirs[i..])
    {
      var dir := Under(dirs[i], p, path);
      var st := stat(dir);
      assert dirs[i..][1..] == dirs[i + 1..];
      if st.StatFailed? {
        return Some(Fail("get data dirs directory: " + st.text));
      }
      if st.Exists? {
        return Some(Ok(dir));
      }
      i := i + 1;
    }
    return None;
  }

  /** The first of `dirs` whose directory for `path` is not reported
      missing: it exists or cannot be stat-ed. */
  function FirstPresent(stat: StatPath, p: string, path: string, dirs: seq<string>): (r: Option<nat>)
    ensures r.Some? ==> (r.value < |dirs| && !stat(Under(dirs[r.value], p, path)).Missing?
      && forall j :: 0 <= j < r.value ==> stat(Under(dirs[j], p, path)).Missing?)
    ensures r.None? ==> forall j :: 0 <= j < |dirs| ==> stat(Under(dirs[j], p, path)).Missing?
  {
    if |dirs| == 0 then None
    else if !stat(Under(dirs[0], p, path)).Missing? then Some(0)
    else match FirstPresent(stat, p, path, dirs[1..])
      case None => None
      case Some(k) => Some(k + 1)
  }

  /** The search of XDG_DATA_DIRS is decided by the first directory not
      reported missing: it is found when it exists, and its error ends the
      search otherwise; with none, nothing is found. */
  lemma {:induction false} SearchDirsFirstPresent(stat: StatPath, p: string, path: string, dirs: seq<string>)
    ensures SearchDirs(stat, p, path, dirs) ==
      match FirstPresent(stat, p, path, dirs)
      case None => None
      case Some(k) =>
        var dir := Under(dirs[k], p, path);
        Some(if stat(dir).Exists? then Ok(dir) else Fail("get data dirs directory: " + stat(dir).text))
  {
    if |dirs| > 0 && stat(Under(dirs[0], p, path)).Missing? {
      SearchDirsFirstPresent(stat, p, path, dirs[1..]);
      var rest := FirstPresent(stat, p, path, dirs[1..]);
      if rest.Some? {
        assert dirs[1..][rest.value] == dirs[rest.value + 1];
      }
    }
  }

  /** Skipping a leading candidate that is reported missing. */
  lemma FirstPresentSkip(stat: StatPath, p: string, path: string, cands: seq<string>, offset: nat)
    requires offset <= 1 && offset <= |cands|
    requires offset == 1 ==> stat(Under(cands[0], p, path)).Missing?
    ensures FirstPresent(stat, p, path, cands) ==
      match FirstPresent(stat, p, path, cands[offset..])
      case None => None
      case Some(k) => Some(k + offset)
  {
    if offset == 0 {
      assert cands[0..] == cands;
    } else {
      assert !(|cands| == 0) && stat(Under(cands[0], p, path)).Missing?;
    }
  }

  /** The last resort of find: the directory under the home directory,
      which must exist. */
  function HomeFind(stat: StatPath, home: Outcome<string>, p: string, path: string): (r: Outcome<string>)
    ensures r.Ok? ==> stat(r.value) == Exists
    ensures home.Fail? ==> r == Fail("get home dir: " + home.error)
  {
    match home
    case Fail(e) => Fail("get home dir: " + e)
    case Ok(h) =>
      var dir := Under(h, p, path);
      if stat(dir).Exists? then Ok(dir) else Fail("get data dirs directory: " + stat(dir).text)
  }

  /** find: among XDG_DATA_HOME and then the directories of XDG_DATA_DIRS,
      the first whose directory is not reported missing decides: found when
      it exists, its error (wrapped as for the data home or the data dirs)
      otherwise; when every one is missing, the home directory. */
  method Find(stat: StatPath, home: Outcome<string>, p: string, path: string,
              xdgDataHome: string, xdgDataDirs: string) returns (r: Outcome<string>)
    ensures var cands := Candidates(xdgDataHome, xdgDataDirs);
      match FirstPresent(stat, p, path, cands)
      case Some(k) =>
        var dir := Under(cands[k], p, path);
        var prefix := if k == 0 && xdgDataHome != "" then "get data home directory: " else "get data dirs directory: ";
        r == if stat(dir).Exists? then Ok(dir) else Fail(prefix + stat(dir).text)
      case None => r == HomeFind(stat, home, p, path)
    ensures r.Ok? ==> stat(r.value) == Exists
  {
    var cands := Candidates(xdgDataHome, xdgDataDirs);
    if xdgDataHome != "" {
      var dir := Under(xdgDataHome, p, path);
      var st := stat(dir);
      assert cands[0] == xdgDataHome;
      if st.StatFailed? {
        return Fail("get data home directory: " + st.text);
      }
      if st.Exists? {
        return Ok(dir);
      }
    }
    var dirs := if xdgDataDirs != "" then Split(xdgDataDirs, ":") else [];
    var offset := if xdgDataHome != "" then 1 else 0;
    assert cands[offset..] == dirs;
    FirstPresentSkip(stat, p, path, cands, offset);
    if xdgDataDirs != "" {
      var found := SearchDataDirs(stat, p, path, dirs);
      SearchDirsFirstPresent(stat, p, path, dirs);
      if found.Some? {
        var k := FirstPresent(stat, p, path, dirs).value;
        assert cands[offset + k] == dirs[k];
        return found.value;
      }
    }
    if home.Fail? {
      return Fail("get home dir: " + home.error);
    }
    var dir := Under(home.value, p, path);
    var st := stat(dir);
    if !st.Exists? {
      return Fail("get data dirs directory: " + st.text);
    }
    return Ok(dir);
  }
}
