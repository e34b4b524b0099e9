/** The retrieval and jar-building decisions of the `ffcookies` package
    (ffcookies.go), with every piece of I/O supplied through an `Env`. */
module FfCookies {
  import opened Wrappers
  import opened Strings
  import opened Seqs
  import opened Models
  import FilePath

  /** Open options of an automatically built store locator: no locking, immutable, read-only. */
  const DefaultOpenParams: string := "?nolock=1&immutable=1&mode=ro"

  const CookieFile: string := "cookies.sqlite"

  /** Directory-name suffix of the browser's default profile. */
  const DefaultProfileSuffix: string := ".default-release"

  datatype Error =
    | NoSqliteDriver                  // no sqlite driver registered
    | NoProfileDir                    // home directory unavailable
    | InvalidUrlScheme(scheme: string) // scheme outside http, https, ws, wss (as url.Parse returns it)
    | External(message: string)       // an error from the database, file system or URL parser, passed on verbatim

  /** The two generated queries, with the string argument each is given. */
  datatype Query = AllCookies(arg: string) | CookiesLikeHost(pattern: string)

  /** An open database handle: the driver and locator it was opened with. */
  datatype Db = Db(driver: string, locator: string)

  /** The parts of a parsed URL the library looks at. */
  datatype Url = Url(scheme: string, host: string)

  /** One entry of a directory listing. */
  datatype DirEntry = DirEntry(name: string, isDir: bool)

  /** A cookie jar for `url` and the cookies handed to it. */
  datatype CookieJar = CookieJar(url: Url, cookies: seq<HttpCookie>)

  /** Everything the library asks of the outside world. */
  datatype Env = Env(
    drivers: seq<string>,                         // sql.Drivers()
    open: (string, string) -> Result<Db, Error>,  // sql.Open(driver, locator)
    fetch: (Db, Query) -> Result<seq<Row>, Error>, // the generated query functions
    home: Result<string, Error>,                  // os.UserHomeDir()
    readDir: string -> Result<seq<DirEntry>, Error>, // os.ReadDir(dir)
    parseUrl: string -> Result<Url, Error>)       // url.Parse(urlstr)

  // ---------------------------------------------------------------------------
  // Host filter

  /** The LIKE pattern for a host filter: one `%` in front, after dropping at most one
      leading `%` from the host. */
  function HostPattern(host: string): (p: string)
    ensures HasPrefix(p, "%")
    ensures |host| > 0 && host[0] == '%' ==> p == host
    ensures (|host| == 0 || host[0] != '%') ==> p == "%" + host
  {
    "%" + TrimPrefix(host, "%")
  }

  /** Normalising an already normalised pattern changes nothing. */
  lemma HostPatternIdempotent(host: string)
    ensures HostPattern(HostPattern(host)) == HostPattern(host)
  {
  }

  /** The query run for a host filter: every row when the filter is empty, else a LIKE query. */
  function SelectQuery(host: string): (q: Query)
    ensures q.AllCookies? <==> host == ""
    ensures q.AllCookies? ==> q.arg == ""
    ensures q.CookiesLikeHost? ==> HasPrefix(q.pattern, "%")
    ensures q.CookiesLikeHost? ==> q.pattern == if host[0] == '%' then host else "%" + host
  {
    if host != "" then CookiesLikeHost(HostPattern(host)) else AllCookies(host)
  }

  // ---------------------------------------------------------------------------
  // Driver selection

  predicate IsSqliteDriver(name: string) {
    name == "sqlite3" || name == "sqlite"
  }

  /** The first registered driver named "sqlite3" or "sqlite", or "" when there is none. */
  function DriverName(drivers: seq<string>): (name: string)
    ensures name == "" <==> forall i :: 0 <= i < |drivers| ==> !IsSqliteDriver(drivers[i])
    ensures name != "" ==> IsSqliteDriver(name)
    ensures name != "" ==> exists i :: 0 <= i < |drivers| && drivers[i] == name &&
                                       forall j :: 0 <= j < i ==> !IsSqliteDriver(drivers[j])
  {
    match FirstMatch(drivers, IsSqliteDriver)
    case Some(i) => drivers[i]
    case None => ""
  }

  /** A registry listed in ascending order, as the driver registry reports it. */
  predicate StrictlySorted(names: seq<string>) {
    forall i, j :: 0 <= i < j < |names| ==> Less(names[i], names[j])
  }

  /** Since "sqlite" sorts before "sqlite3", a sorted registry holding "sqlite" yields it. */
  lemma SortedRegistryPrefersSqlite(drivers: seq<string>)
    requires StrictlySorted(drivers)
    requires exists k :: 0 <= k < |drivers| && drivers[k] == "sqlite"
    ensures DriverName(drivers) == "sqlite"
  {
    var k :| 0 <= k < |drivers| && drivers[k] == "sqlite";
    var i: nat := FirstMatch(drivers, IsSqliteDriver).value;
    SqliteSortsFirst();
    if drivers[i] != "sqlite" {
      assert false;
    }
  }

  /** "sqlite" is a proper prefix of "sqlite3", so it sorts first. */
  lemma SqliteSortsFirst()
    ensures Less("sqlite", "sqlite3") && !Less("sqlite3", "sqlite")
  {
  }

  // ---------------------------------------------------------------------------
  // Profile and store location

  /** The base profile directory under the user's home, or "" when home is unknown. */
  function ProfileDir(home: Result<string, Error>): (dir: string)
    ensures dir == "" <==> home.Err?
    ensures home.Ok? && home.value != "" ==> dir == home.value + "/.mozilla/firefox"
  {
    match home
    case Ok(h) =>
      assert h != "" ==> FilePath.Join([h, ".mozilla", "firefox"]) == h + "/.mozilla/firefox" by {
        if h != "" {
          FilePath.JoinThree(h, ".mozilla", "firefox");
        }
      }
      FilePath.Join([h, ".mozilla", "firefox"])
    case Err(_) => ""
  }

  predicate IsDefaultProfile(e: DirEntry) {
    e.isDir && HasSuffix(e.name, DefaultProfileSuffix)
  }

  /** Path of the cookie database: under the named profile when one is given, otherwise
      under the first listed directory with the default-profile suffix, and failing
      that directly under `dir`.  The listing is consulted only for an empty profile. */
  function CookiePath(dir: string, profile: string, readDir: string -> Result<seq<DirEntry>, Error>): (r: Result<string, Error>)
    ensures profile != "" && dir != "" ==> r == Ok(dir + "/" + profile + "/" + CookieFile)
    ensures profile == "" && readDir(dir).Err? ==> r == Err(readDir(dir).error)
    ensures profile == "" && dir != "" && readDir(dir).Ok? ==>
      var entries := readDir(dir).value;
      (forall i :: 0 <= i < |entries| ==> !IsDefaultProfile(entries[i])) ==> r == Ok(dir + "/" + CookieFile)
    ensures profile == "" && dir != "" && readDir(dir).Ok? ==>
      var entries := readDir(dir).value;
      forall i ::
        (0 <= i < |entries| && IsDefaultProfile(entries[i]) &&
         forall j :: 0 <= j < i ==> !IsDefaultProfile(entries[j])) ==>
        r == Ok(dir + "/" + entries[i].name + "/" + CookieFile)
  {
    if profile == "" then
      match readDir(dir)
      case Err(e) => Err(e)
      case Ok(entries) =>
        match FirstMatch(entries, IsDefaultProfile)
        case Some(i) =>
          var base := FilePath.Join([dir, entries[i].name]);
          assert dir != "" ==> FilePath.Join([base, profile, CookieFile]) == dir + "/" + entries[i].name + "/" + CookieFile by {
            if dir != "" {
              FilePath.JoinTwo(dir, entries[i].name);
              FilePath.JoinEmptyMiddle(base, CookieFile);
            }
          }
          Ok(FilePath.Join([base, profile, CookieFile]))
        case None =>
          assert dir != "" ==> FilePath.Join([dir, profile, CookieFile]) == dir + "/" + CookieFile by {
            if dir != "" {
              FilePath.JoinEmptyMiddle(dir, CookieFile);
            }
          }
          Ok(FilePath.Join([dir, profile, CookieFile]))
    else
      assert dir != "" ==> FilePath.Join([dir, profile, CookieFile]) == dir + "/" + profile + "/" + CookieFile by {
        if dir != "" {
          FilePath.JoinThree(dir, profile, CookieFile);
        }
      }
      Ok(FilePath.Join([dir, profile, CookieFile]))
  }

  /** The read-only store locator for a cookie database path; the path can be read back. */
  function Locator(path: string): (loc: string)
    ensures HasPrefix(loc, "file:") && HasSuffix(loc, DefaultOpenParams)
    ensures |loc| == 5 + |path| + |DefaultOpenParams|
    ensures loc[5..|loc| - |DefaultOpenParams|] == path
  {
    "file:" + path + DefaultOpenParams
  }

  // ---------------------------------------------------------------------------
  // Retrieval

  /** Reads the cookies of the database at `file`, all of them or those whose host is
      LIKE the host filter's pattern. */
  function ReadFileContext(env: Env, file: string, host: string): (r: Result<seq<HttpCookie>, Error>)
    ensures DriverName(env.drivers) == "" ==> r == Err(NoSqliteDriver)
    ensures DriverName(env.drivers) != "" && env.open(DriverName(env.drivers), file).Err? ==>
      r == Err(env.open(DriverName(env.drivers), file).error)
    ensures DriverName(env.drivers) != "" && env.open(DriverName(env.drivers), file).Ok? &&
            env.fetch(env.open(DriverName(env.drivers), file).value, SelectQuery(host)).Err? ==>
      r == Err(env.fetch(env.open(DriverName(env.drivers), file).value, SelectQuery(host)).error)
    ensures r.Ok? <==>
      && DriverName(env.drivers) != ""
      && env.open(DriverName(env.drivers), file).Ok?
      && env.fetch(env.open(DriverName(env.drivers), file).value, SelectQuery(host)).Ok?
    ensures r.Ok? ==>
      r.value == Convert(env.fetch(env.open(DriverName(env.drivers), file).value, SelectQuery(host)).value)
  {
    var driver := DriverName(env.drivers);
    if driver == "" then Err(NoSqliteDriver)
    else
      var db :- env.open(driver, file);
      var rows :- env.fetch(db, SelectQuery(host));
      Ok(Convert(rows))
  }

  /** Reads the cookies of a browser profile (the default one for an empty name). */
  function ReadContext(env: Env, profile: string, host: string): (r: Result<seq<HttpCookie>, Error>)
    ensures env.home.Err? ==> r == Err(NoProfileDir)
    ensures env.home.Ok? && env.home.value != "" && profile != "" ==>
      r == ReadFileContext(env, Locator(env.home.value + "/.mozilla/firefox" + "/" + profile + "/" + CookieFile), host)
    ensures env.home.Ok? && profile == "" && env.readDir(ProfileDir(env.home)).Err? ==>
      r == Err(env.readDir(ProfileDir(env.home)).error)
    ensures env.home.Ok? && env.home.value != "" && profile == "" && env.readDir(ProfileDir(env.home)).Ok? ==>
      var entries := env.readDir(ProfileDir(env.home)).value;
      forall i ::
        (0 <= i < |entries| && IsDefaultProfile(entries[i]) &&
         forall j :: 0 <= j < i ==> !IsDefaultProfile(entries[j])) ==>
        r == ReadFileContext(env, Locator(env.home.value + "/.mozilla/firefox" + "/" + entries[i].name + "/" + CookieFile), host)
    ensures env.home.Ok? && env.home.value != "" && profile == "" && env.readDir(ProfileDir(env.home)).Ok? ==>
      var entries := env.readDir(ProfileDir(env.home)).value;
      (forall i :: 0 <= i < |entries| ==> !IsDefaultProfile(entries[i])) ==>
        r == ReadFileContext(env, Locator(env.home.value + "/.mozilla/firefox" + "/" + CookieFile), host)
  {
    var dir := ProfileDir(env.home);
    if dir == "" then Err(NoProfileDir)
    else
      var path :- CookiePath(dir, profile, env.readDir);
      ReadFileContext(env, Locator(path), host)
  }

  // ---------------------------------------------------------------------------
  // Jars

  const WebSchemes: set<string> := {"http", "https", "ws", "wss"}

  /** A scheme the jar accepts: its lower-cased form is a web scheme, that is, it equals
      one of http, https, ws, wss up to case. */
  function ValidScheme(scheme: string): (ok: bool)
    ensures ok <==>
      EqualFold(scheme, "http") || EqualFold(scheme, "https") ||
      EqualFold(scheme, "ws") || EqualFold(scheme, "wss")
  {
    ToLowerEqualsIff(scheme, "http");
    ToLowerEqualsIff(scheme, "https");
    ToLowerEqualsIff(scheme, "ws");
    ToLowerEqualsIff(scheme, "wss");
    ToLower(scheme) in WebSchemes
  }

  /** Two spellings of a scheme that differ only in case are accepted or refused together. */
  lemma ValidSchemeIgnoresCase(s: string, t: string)
    requires EqualFold(s, t)
    ensures ValidScheme(s) == ValidScheme(t)
  {
    assert ToLower(s) == ToLower(t);
  }

  /** Builds a jar for a URL from the profile's cookies for that URL's host. */
  function ReadJarContext(env: Env, profile: string, urlstr: string): (r: Result<CookieJar, Error>)
    ensures env.parseUrl(urlstr).Err? ==> r == Err(env.parseUrl(urlstr).error)
    ensures env.parseUrl(urlstr).Ok? && !ValidScheme(env.parseUrl(urlstr).value.scheme) ==>
      r == Err(InvalidUrlScheme(env.parseUrl(urlstr).value.scheme))
    ensures r.Ok? ==>
      && env.parseUrl(urlstr).Ok?
      && ValidScheme(env.parseUrl(urlstr).value.scheme)
      && r.value.url == env.parseUrl(urlstr).value
      && ReadContext(env, profile, env.parseUrl(urlstr).value.host) == Ok(r.value.cookies)
    ensures env.parseUrl(urlstr).Ok? && ValidScheme(env.parseUrl(urlstr).value.scheme) ==>
      r == match ReadContext(env, profile, env.parseUrl(urlstr).value.host)
           case Err(e) => Err(e)
           case Ok(cs) => Ok(CookieJar(env.parseUrl(urlstr).value, cs))
  {
    var u :- env.parseUrl(urlstr);
    if !ValidScheme(u.scheme) then Err(InvalidUrlScheme(u.scheme))
    else
      var cookies :- ReadContext(env, profile, u.host);
      Ok(CookieJar(u, cookies))
  }

  /** The filter loop: keeps, in order, the cookies `f` accepts. */
  method FilterCookies(cookies: seq<HttpCookie>, f: HttpCookie -> bool) returns (c: seq<HttpCookie>)
    ensures c == Filter(cookies, f)
  {
    c := [];
    var i := 0;
    while i < |cookies|
      invariant 0 <= i <= |cookies|
      invariant c == Filter(cookies[..i], f)
    {
      FilterSnoc(cookies[..i], cookies[i], f);
      assert cookies[..i + 1] == cookies[..i] + [cookies[i]];
      if f(cookies[i]) {
        c := c + [cookies[i]];
      }
      i := i + 1;
    }
    assert cookies[..i] == cookies;
  }

  /** Like `ReadJarContext`, but only the cookies `f` accepts go into the jar. */
  function ReadJarFilteredContext(env: Env, profile: string, urlstr: string, f: HttpCookie -> bool): (r: Result<CookieJar, Error>)
    ensures env.parseUrl(urlstr).Err? ==> r == Err(env.parseUrl(urlstr).error)
    ensures env.parseUrl(urlstr).Ok? && !ValidScheme(env.parseUrl(urlstr).value.scheme) ==>
      r == Err(InvalidUrlScheme(env.parseUrl(urlstr).value.scheme))
    ensures r.Ok? ==>
      && env.parseUrl(urlstr).Ok?
      && ValidScheme(env.parseUrl(urlstr).value.scheme)
      && r.value.url == env.parseUrl(urlstr).value
      && ReadContext(env, profile, env.parseUrl(urlstr).value.host).Ok?
      && r.value.cookies == Filter(ReadContext(env, profile, env.parseUrl(urlstr).value.host).value, f)
    ensures env.parseUrl(urlstr).Ok? && ValidScheme(env.parseUrl(urlstr).value.scheme) ==>
      r == match ReadContext(env, profile, env.parseUrl(urlstr).value.host)
           case Err(e) => Err(e)
           case Ok(cs) => Ok(CookieJar(env.parseUrl(urlstr).value, Filter(cs, f)))
  {
    var u :- env.parseUrl(urlstr);
    if !ValidScheme(u.scheme) then Err(InvalidUrlScheme(u.scheme))
    else
      var cookies :- ReadContext(env, profile, u.host);
      Ok(CookieJar(u, Filter(cookies, f)))
  }

  /** The filtered jar holds exactly the read cookies `f` accepts, in their read order. */
  lemma ReadJarFilteredIsSubsequence(env: Env, profile: string, urlstr: string, f: HttpCookie -> bool)
    requires ReadJarFilteredContext(env, profile, urlstr, f).Ok?
    ensures
      var read := ReadContext(env, profile, env.parseUrl(urlstr).value.host).value;
      var jar := ReadJarFilteredContext(env, profile, urlstr, f).value;
      var idx := Kept(read, f);
      && |jar.cookies| == |idx|
      && (forall k :: 0 <= k < |idx| ==> jar.cookies[k] == read[idx[k]])
      && (forall k, l :: 0 <= k < l < |idx| ==> idx[k] < idx[l])
      && (forall i :: 0 <= i < |read| ==> (i in idx <==> f(read[i])))
  {
    var read := ReadContext(env, profile, env.parseUrl(urlstr).value.host).value;
    FilterIsKeptSubsequence(read, f);
  }

  /** A filter that accepts every cookie gives the unfiltered jar. */
  lemma ReadJarFilteredAcceptAll(env: Env, profile: string, urlstr: string, f: HttpCookie -> bool)
    requires forall c :: f(c)
    ensures ReadJarFilteredContext(env, profile, urlstr, f) == ReadJarContext(env, profile, urlstr)
  {
    var pu := env.parseUrl(urlstr);
    if pu.Ok? && ValidScheme(pu.value.scheme) {
      var rc := ReadContext(env, profile, pu.value.host);
      if rc.Ok? {
        FilterKeepsAll(rc.value, f);
      }
    }
  }
}
