/** Path helpers shared by the views (library/views/view-utils.js): the
    normalisation `pathURL` and `decache` apply to a site path, and the
    cache `decache` keeps of the versioned URLs it builds. */
module ViewUtils {
  import opened Values

  /** The path made to start with `/`, then with a leading `/build`
      removed once when it is followed by `/`. */
  function Normalized(path: string): (r: string)
    ensures |r| > 0 && r[0] == '/'
  {
    var rooted := if |path| > 0 && path[0] == '/' then path else "/" + path;
    if "/build/" <= rooted then rooted[6..] else rooted
  }

  /** What normalisation makes of each kind of path: a rooted path is kept
      unless it starts with `/build/`, which loses `/build`; a relative one
      gains a `/`, unless it starts with `build/`, which loses `build`. */
  lemma NormalizedCases(path: string)
    ensures "/build/" <= path ==> Normalized(path) == path[6..]
    ensures "build/" <= path ==> Normalized(path) == path[5..]
    ensures |path| > 0 && path[0] == '/' && !("/build/" <= path) ==> Normalized(path) == path
    ensures (|path| == 0 || path[0] != '/') && !("build/" <= path) ==> Normalized(path) == "/" + path
  {
    if |path| == 0 || path[0] != '/' {
      var rooted := "/" + path;
      if "/build/" <= rooted {
        assert path[..6] == rooted[1..7] == "build/";
        assert "build/" <= path;
      }
      if "build/" <= path {
        assert rooted[..7] == "/" + path[..6];
        assert rooted[6..] == path[5..];
      }
    }
  }

  /** Normalising again changes nothing, unless the path was nested in
      `/build` twice; only one level is ever removed. */
  lemma NormalizedOnce(path: string)
    ensures !("/build/" <= Normalized(path)) ==> Normalized(Normalized(path)) == Normalized(path)
    ensures "/build/" <= Normalized(path) ==> Normalized(Normalized(path)) == Normalized(path)[6..]
  {
  }

  /** `pathURL(localPath)`: the normalised path, resolved as an absolute
      path against the site's address. */
  function PathURL(localPath: string): (r: string)
    ensures |r| > 0 && r[0] == '/'
  {
    Normalized(localPath)
  }

  /** The first eight characters of the file's hex digest. */
  function Version(digest: string): (r: string)
    ensures |r| == if |digest| < 8 then |digest| else 8
    ensures r <= digest
  {
    if |digest| < 8 then digest else digest[..8]
  }

  /** The module-level `decacheCache`. */
  class DecacheCache {
    var cache: map<string, string>

    /** Only normalised paths are stored, each with a non-empty URL. */
    predicate Valid()
      reads this
    {
      forall k :: k in cache ==> |k| > 0 && k[0] == '/' && cache[k] != ""
    }

    constructor ()
      ensures Valid() && cache == map[]
    {
      cache := map[];
    }

    /** `decache(path)`: a URL for the path with a version suffix. The cache
        is consulted with the path as given but filled under the normalised
        path, and only in production, where the version is the start of the
        file's SHA-256 digest (`digest`). In development the version is
        the time in base 36 and nothing is cached. */
    method Decache(path: string, development: bool, now: int, digest: string) returns (url: string)
      requires Valid()
      modifies this
      ensures Valid()
      ensures path in old(cache) ==> url == old(cache[path]) && cache == old(cache)
      ensures path !in old(cache) && development ==>
        && cache == old(cache)
        && url == PathURL(Normalized(path)) + "?version=time-" + IntToString(now, 36)
      ensures path !in old(cache) && !development ==>
        && url == PathURL(Normalized(path)) + "?version=" + Version(digest)
        && cache == old(cache)[Normalized(path) := url]
    {
      if path in cache && cache[path] != "" {
        return cache[path];
      }
      var p := Normalized(path);
      if !development {
        url := PathURL(p) + "?version=" + Version(digest);
        cache := cache[p := url];
      } else {
        url := PathURL(p) + "?version=time-" + IntToString(now, 36);
      }
    }
  }

  /** A path not starting with `/` is never answered from the cache, since
      the cache only holds normalised paths: such a call recomputes every
      time. */
  lemma RelativeNeverCached(c: DecacheCache, path: string)
    requires c.Valid()
    requires |path| == 0 || path[0] != '/'
    ensures path !in c.cache
  {
  }

}
