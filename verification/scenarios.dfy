/** Concrete situations, checked against the model. */
module Scenarios {
  import opened Wrappers
  import opened Models
  import opened Seqs
  import opened FfCookies

  /** A host filter with or without its leading wildcard selects the same rows;
      a doubled wildcard is kept as written. */
  lemma HostPatternExamples()
    ensures SelectQuery("example.com") == CookiesLikeHost("%example.com")
    ensures SelectQuery("%example.com") == CookiesLikeHost("%example.com")
    ensures SelectQuery("%%x") == CookiesLikeHost("%%x")
    ensures SelectQuery("") == AllCookies("")
  {
  }

  /** Web schemes are accepted in any case; others are not. */
  lemma SchemeExamples()
    ensures ValidScheme("https") && ValidScheme("HTTP") && ValidScheme("Wss")
    ensures !ValidScheme("ftp") && !ValidScheme("")
  {
    assert Strings.ToLower("HTTP") == "http";
    assert Strings.ToLower("Wss") == "wss";
    assert Strings.ToLower("https") == "https";
    assert Strings.ToLower("ftp") == "ftp";
  }

  /** The first directory with the default-release suffix is the profile; a plain file
      with that suffix is passed over. */
  lemma ProfileResolutionExample(listing: string -> Result<seq<DirEntry>, Error>)
    requires listing("/p") == Ok([DirEntry("a.default-release", false), DirEntry("b.default", true),
                                  DirEntry("c.default-release", true), DirEntry("d.default-release", true)])
    ensures CookiePath("/p", "", listing) == Ok("/p" + "/" + "c.default-release" + "/" + "cookies.sqlite")
  {
  }

  function Named(n: string): HttpCookie {
    ConvertRow(Row(0, "example.com", n, "", "/", false, false))
  }

  /** Filtering out "b" from a, b, c leaves a and c, in that order. */
  lemma FilterExample()
    ensures Filter([Named("a"), Named("b"), Named("c")], (c: HttpCookie) => c.name != "b") == [Named("a"), Named("c")]
  {
  }

  /** One stored row, read back through a host filter, arrives as one cookie carrying
      the row's host, name, flags and expiry. */
  lemma EndToEndExample(env: Env, file: string)
    requires env.drivers == ["sqlite"]
    requires env.open("sqlite", file) == Ok(Db("sqlite", file))
    requires env.fetch(Db("sqlite", file), CookiesLikeHost("%example.com"))
      == Ok([Row(1700000000, "example.com", "sid", "xyz", "/", true, true)])
    ensures ReadFileContext(env, file, "example.com").Ok?
    ensures var cs := ReadFileContext(env, file, "example.com").value;
      && |cs| == 1
      && cs[0].domain == "example.com" && cs[0].name == "sid" && cs[0].value == "xyz"
      && cs[0].secure && cs[0].httpOnly
      && cs[0].expires == Time(1700000000, 0)
  {
    var row := Row(1700000000, "example.com", "sid", "xyz", "/", true, true);
    assert DriverName(env.drivers) == "sqlite" by {
      assert IsSqliteDriver(env.drivers[0]);
    }
    HostPatternExamples();
    ReadsFetchedRows(env, file, "example.com", [row]);
    assert Convert([row]) == [ConvertRow(row)] by {
      assert [row][..0] == [];
    }
  }

  /** With a driver, an open store and a successful query, the read yields the
      conversion of the rows the query returned. */
  lemma ReadsFetchedRows(env: Env, file: string, host: string, rows: seq<Row>)
    requires DriverName(env.drivers) != ""
    requires env.open(DriverName(env.drivers), file).Ok?
    requires env.fetch(env.open(DriverName(env.drivers), file).value, SelectQuery(host)) == Ok(rows)
    ensures ReadFileContext(env, file, host) == Ok(Convert(rows))
  {
  }

  /** A URL whose scheme is not a web scheme is refused before any cookie is read. */
  lemma JarRejectsFtp(env: Env, profile: string, urlstr: string)
    requires env.parseUrl(urlstr) == Ok(Url("ftp", "example.com"))
    ensures ReadJarContext(env, profile, urlstr) == Err(InvalidUrlScheme("ftp"))
  {
    assert Strings.ToLower("ftp") == "ftp";
  }
}
