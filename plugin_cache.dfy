/** The plugin cache layout (plugin/cache.go): each plugin URL is stored in
    a directory of the cache whose name is the URL with its separators
    turned into dashes, and a downloaded plugin is looked up there before
    downloading again. The file system is a parameter. */
module PluginCache {
  import opened Wrappers
  import opened Strs

  const ConftestDir := ".conftest"
  const PluginsCacheDir := "plugins"

  /** convertURLToValidPath: "://", "/" and "." each become "-". */
  function ConvertURLToValidPath(url: string): (r: string)
    ensures '/' !in r && '.' !in r
  {
    var a := ReplaceAll(url, "://", "-");
    var b := ReplaceAll(a, "/", "-");
    var c := ReplaceAll(b, ".", "-");
    ReplaceSingle(a, '/', '-');
    ReplaceSingle(b, '.', '-');
    c
  }

  /** Without "://" the conversion maps each "/" and "." to "-" and keeps
      every other character in place. */
  lemma ConvertKeepsPlainURL(url: string)
    requires !Contains(url, "://")
    ensures |ConvertURLToValidPath(url)| == |url|
    ensures forall i :: 0 <= i < |url| ==>
      ConvertURLToValidPath(url)[i] == (if url[i] == '/' || url[i] == '.' then '-' else url[i])
  {
    ReplaceAllStep(url, "://", "-");
    ReplaceSingle(url, '/', '-');
    ReplaceSingle(MapElem(url, '/', '-'), '.', '-');
  }

  /** Each "/" and "." turned into "-". */
  function Dash(s: string): string {
    MapElem(MapElem(s, '/', '-'), '.', '-')
  }

  /** The first "://" of a scheme, "://" and a rest is the one right after
      the scheme, when the scheme has none of its own: no occurrence can
      straddle the boundary, as neither ":" nor ":/" is followed by "/" there. */
  lemma SchemeSeparatorFirst(scheme: string, rest: string)
    requires !Contains(scheme, "://")
    ensures Index(scheme + "://" + rest, "://") == |scheme|
  {
    var u, p := scheme + "://" + rest, "://";
    IndexIsFirst(scheme, p);
    assert u[|scheme|..][..3] == p;
    forall j | 0 <= j < |scheme| ensures !HasPrefix(u[j..], p) {
      if j + 3 <= |scheme| {
        assert u[j..][..3] == scheme[j..][..3];
      } else if j == |scheme| - 1 {
        assert u[j..][1] == u[|scheme|] == ':';
      } else {
        assert u[j..][2] == u[|scheme|] == ':';
      }
    }
    IndexIsFirst(u, p);
    IndexMatches(u, p);
  }

  /** A URL of a scheme, "://" and a rest, neither holding "://", becomes
      the scheme and the rest with their "/" and "." dashed, joined by one
      "-": "https://raw.githubusercontent.com/x" turns into
      "https-raw-githubusercontent-com-x". */
  lemma ConvertScheme(scheme: string, rest: string)
    requires !Contains(scheme, "://") && !Contains(rest, "://")
    ensures ConvertURLToValidPath(scheme + "://" + rest) == Dash(scheme) + "-" + Dash(rest)
  {
    var u := scheme + "://" + rest;
    SchemeSeparatorFirst(scheme, rest);
    ReplaceAllStep(u, "://", "-");
    assert u[..|scheme|] == scheme && u[|scheme| + 3..] == rest;
    ReplaceAllStep(rest, "://", "-");
    var a := scheme + "-" + rest;
    assert ReplaceAll(u, "://", "-") == a;
    ReplaceSingle(a, '/', '-');
    MapElemAppend(scheme + "-", rest, '/', '-');
    MapElemAppend(scheme, "-", '/', '-');
    var b := MapElem(scheme, '/', '-') + "-" + MapElem(rest, '/', '-');
    assert ReplaceAll(a, "/", "-") == b;
    ReplaceSingle(b, '.', '-');
    MapElemAppend(MapElem(scheme, '/', '-') + "-", MapElem(rest, '/', '-'), '.', '-');
    MapElemAppend(MapElem(scheme, '/', '-'), "-", '.', '-');
    assert ReplaceAll(b, ".", "-") == Dash(scheme) + "-" + Dash(rest);
  }

  /** getPluginDirPath. */
  function GetPluginDirPath(cacheDir: string, url: string): string {
    JoinPath([cacheDir, ConvertURLToValidPath(url)])
  }

  /** The plugin directory is one entry directly inside the cache. */
  lemma PluginDirInCache(cacheDir: string, url: string)
    requires cacheDir != "" && ConvertURLToValidPath(url) != ""
    ensures GetPluginDirPath(cacheDir, url) == cacheDir + "/" + ConvertURLToValidPath(url)
    ensures LastSegment(GetPluginDirPath(cacheDir, url), '/') == ConvertURLToValidPath(url)
  {
    var d := ConvertURLToValidPath(url);
    assert NonEmptyElems([cacheDir, d]) == [cacheDir, d] by {
      assert [cacheDir, d][1..] == [d];
      assert [d][1..] == [];
      assert NonEmptyElems([d]) == [d] + NonEmptyElems([]);
      assert NonEmptyElems([cacheDir, d]) == [cacheDir] + NonEmptyElems([d]);
    }
    assert Join([cacheDir, d], "/") == cacheDir + "/" + Join([d], "/") by {
      assert [cacheDir, d][1..] == [d];
    }
    LastSegmentAfterSeparator(cacheDir, '/');
    assert cacheDir + "/" == cacheDir + ['/'];
    LastSegmentAppend(cacheDir + "/", d, '/');
    LastSegmentNoSep(d, '/');
  }

  // ---- looking up the cache --------------------------------------------------

  /** The kinds of error the os package tells apart. */
  datatype OsError = ErrNotExist | ErrExist | ErrOther(text: string)

  /** os.Stat: no error when the file exists. */
  type Stat = string -> Option<OsError>

  /** os.Stat reports a missing file or another failure, never "already
      exists", which only creating a file can report. */
  predicate IsStatResult(err: Option<OsError>) {
    err != Some(ErrExist)
  }

  /** os.IsExist. */
  predicate IsExist(err: Option<OsError>) {
    err == Some(ErrExist)
  }

  /** checkIfURLInCache as written: `os.IsExist` on the error of os.Stat. */
  function CheckIfURLInCacheAsWritten(stat: Stat, pluginDirPath: string): (r: bool)
    ensures r <==> stat(pluginDirPath) == Some(ErrExist)
  {
    IsExist(stat(pluginDirPath))
  }

  /** As written the cache is never hit: no result of os.Stat satisfies
      os.IsExist. */
  lemma CacheNeverHitAsWritten(stat: Stat, pluginDirPath: string)
    requires IsStatResult(stat(pluginDirPath))
    ensures !CheckIfURLInCacheAsWritten(stat, pluginDirPath)
  {
  }

  /** checkIfURLInCache as intended: the directory is there when os.Stat
      succeeds. */
  function CheckIfURLInCache(stat: Stat, pluginDirPath: string): (r: bool)
    ensures r <==> stat(pluginDirPath).None?
  {
    stat(pluginDirPath).None?
  }

  /** A plugin directory that exists: the intended check finds it, the
      check as written does not. */
  lemma PresentPluginMissedAsWritten(cacheDir: string, url: string)
    ensures var stat: Stat := _ => None;
      var dir := GetPluginDirPath(cacheDir, url);
      CheckIfURLInCache(stat, dir) && !CheckIfURLInCacheAsWritten(stat, dir)
  {
  }
}
