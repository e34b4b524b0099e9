# ffcookies, modelled in Dafny

`ffcookies` reads the cookies a Firefox-family browser keeps in its SQLite
database (`cookies.sqlite` inside a profile directory) and hands them out as
`http.Cookie` records or as a ready-made `http.CookieJar` for one URL.

This project models the decisions the library makes, as pure functions over
immutable datatypes, with every piece of I/O turned into an input:

- `Models` — the stored row (`Row`, the generated `models.Cookie`), the
  `http.Cookie` record (`HttpCookie`) and `Convert`, which maps rows to
  cookies one for one and in order.
- `FfCookies` — the host-filter pattern and query choice of `ReadFileContext`,
  `driverName`, `profileDir`, `cookiePath`, the read-only store locator of
  `ReadContext`, the URL-scheme check and the filter loop of `ReadJarContext`
  and `ReadJarFilteredContext`. The outside world is the record `Env`: the
  registered driver names (`sql.Drivers()`), `sql.Open`, the two generated
  queries (one `fetch` function taking a `Query` value), the result of
  `os.UserHomeDir`, `os.ReadDir` and `url.Parse` (only the scheme and host of
  its result).
- `Strings`, `FilePath`, `Seqs`, `Wrappers` — the pieces of Go's `strings`
  and `path/filepath` the library uses, first-match search and
  order-preserving filtering, and a `Result` type for Go's `(value, error)`
  returns.
- `Scenarios` — concrete situations: the two spellings of a host filter, a
  profile directory listing, a filtered jar, one row read end to end, an
  `ftp` URL.

Behaviour of the code worth knowing:

- The host pattern drops at most one leading `%` before adding one, so
  `"%%x"` stays `"%%x"`; a pattern is not reduced to exactly one leading `%`.
- The default profile must be a directory (`entry.IsDir()`) whose name ends
  in `.default-release`; a plain file with such a name is skipped.
- The jar functions take a profile name and read that profile's database.
- The driver registry lists names in ascending order, so when both `sqlite`
  and `sqlite3` are registered the library picks `sqlite`
  (`SortedRegistryPrefersSqlite`).

## Model

| member | source | states |
|---|---|---|
| Models.Convert | models/types.go:9-24 | one cookie per row, same length, empty input gives empty output; cookie i takes name, value, path, secure and http-only from row i, its domain from row i's host, and expires exactly `expiry` seconds after the epoch with no sub-second part; same-site and every other field stay at their zero value |
| Models.ConvertRoundTrip | models/types.go:11-22 | conversion loses nothing: reading the rows back from the converted cookies gives the original rows |
| Models.ConvertAppend | models/types.go:10-23 | converting a concatenation is the concatenation of the conversions, so output order follows input order |
| Models.ConvertRowBijection | models/types.go:12-21 | a converted row has the stored shape (whole seconds, same-site unset, other fields zero) and reads back as the same row; a cookie of that shape is the conversion of the row read from it |
| Models.ConvertZeroExpiry | models/types.go:17 | an expiry of 0 converts to the epoch instant itself |
| FfCookies.HostPattern | ffcookies.go:69 | the LIKE pattern always starts with `%`; a host already starting with `%` is kept as is, any other host gets one `%` in front |
| FfCookies.HostPatternIdempotent | ffcookies.go:69 | normalising an already normalised pattern returns it unchanged |
| FfCookies.SelectQuery | ffcookies.go:66-70 | an empty host selects the all-rows query with the empty argument; a non-empty host selects the LIKE query with the normalised pattern |
| FfCookies.DriverName | ffcookies.go:177-186 | the result is "" exactly when no registered name is `sqlite3` or `sqlite`; otherwise it is such a name, and the first one in registry order |
| FfCookies.SortedRegistryPrefersSqlite | ffcookies.go:179-183 | with a sorted registry that holds `sqlite`, the selected driver is `sqlite`, even when `sqlite3` is registered too |
| FfCookies.ProfileDir | ffcookies.go:188-194 | the profile base directory is "" exactly when the home directory cannot be determined, and is `<home>/.mozilla/firefox` otherwise |
| FfCookies.CookiePath | ffcookies.go:196-211 | a named profile gives `dir/profile/cookies.sqlite` without listing `dir`; an empty profile propagates a listing error, uses the first directory entry ending in `.default-release` as `dir/<entry>/cookies.sqlite`, and falls back to `dir/cookies.sqlite` when none matches |
| FfCookies.Locator | ffcookies.go:95 | the store locator starts with `file:`, ends with `?nolock=1&immutable=1&mode=ro`, and the cookie path can be read back from between them |
| FfCookies.ReadFileContext | ffcookies.go:53-77 | no sqlite driver fails with the driver error before anything is opened; open and query errors are passed on verbatim; success is exactly when driver, open and query succeed, and the result is the conversion of the rows the selected query returned |
| FfCookies.ReadContext | ffcookies.go:84-96 | an unknown home directory fails with the profile-directory error; a listing error for the default profile is passed on; a named profile reads the locator `file:<home>/.mozilla/firefox/<profile>/cookies.sqlite?nolock=1&immutable=1&mode=ro`; with no profile named it reads `<home>/.mozilla/firefox/<entry>/cookies.sqlite` for the first default-release directory, or `<home>/.mozilla/firefox/cookies.sqlite` when there is none, with the same open options |
| FfCookies.ValidScheme | ffcookies.go:124-128 | a scheme is accepted exactly when it equals http, https, ws or wss up to letter case |
| FfCookies.ValidSchemeIgnoresCase | ffcookies.go:151-155 | two spellings of a scheme that differ only in letter case are accepted or refused together |
| FfCookies.ReadJarContext | ffcookies.go:116-134 | a URL parse error is passed on; a scheme outside the four web schemes fails with the invalid-scheme error naming the scheme as `url.Parse` returns it, before any cookie is read; for an accepted scheme a profile-read error is passed on, and otherwise the jar is built for the parsed URL from exactly the cookies read for the URL's host |
| FfCookies.FilterCookies | ffcookies.go:160-166 | the filter loop appends, in order, exactly the cookies the predicate accepts |
| FfCookies.ReadJarFilteredContext | ffcookies.go:142-168 | same error cases as the unfiltered jar, a profile-read error included; for an accepted scheme and a successful read the jar is built for the parsed URL from the filtered list of the cookies read for the URL's host |
| FfCookies.ReadJarFilteredIsSubsequence | ffcookies.go:161-167 | the jar's cookies are the read cookies at strictly increasing positions, and a position is kept if and only if the predicate accepts its cookie |
| FfCookies.ReadJarFilteredAcceptAll | ffcookies.go:118-167 | with a predicate that accepts everything, the filtered jar equals the unfiltered jar |
| Seqs.FilterIsKeptSubsequence | ffcookies.go:161-166 | filtering keeps one output per accepted position, positions in increasing order, and accepts a position if and only if the predicate holds of its element |
| Seqs.FirstMatch | ffcookies.go:203-208 | the result is the least index whose element satisfies the test, or none exactly when no element does |
| FilePath.JoinEmptyMiddle | ffcookies.go:210 | an empty profile element is dropped from the joined path instead of producing a double separator |
| Scenarios.HostPatternExamples | ffcookies.go:67-70 | `example.com` and `%example.com` both give `%example.com`, `%%x` keeps both `%`, and the empty host gives the all-rows query |
| Scenarios.SchemeExamples | ffcookies.go:124-128 | `https`, `HTTP` and `Wss` are accepted; `ftp` and the empty scheme are not |
| Scenarios.ProfileResolutionExample | ffcookies.go:197-210 | in a listing with a plain file and a differently named directory before two default-release directories, the first default-release directory is chosen |
| Scenarios.FilterExample | ffcookies.go:161-166 | filtering cookies a, b, c with "name is not b" leaves a then c |
| Scenarios.EndToEndExample | ffcookies.go:54-76 | one stored row read through the host filter `example.com` gives one cookie with that row's domain, name, value, flags and expiry |
| Scenarios.JarRejectsFtp | ffcookies.go:118-128 | an `ftp` URL fails with the invalid-scheme error |

## Left out

- SQL access (`sql.Open`, `db.Close`, the generated `models.Cookies` and `models.CookiesLikeHost`): their code is not part of this model; they are the `open` and `fetch` inputs of `Env`, and LIKE matching is not modelled.
- Closing the database (`defer db.Close()`): resource handling with no effect on the returned values.
- `context.Context` cancellation: the model has no context; a cancelled or timed-out context shows up as an error from the query, which the `fetch` input may return and `ReadFileContext` passes on.
- `ReadFile`, `Read`, `ReadJar`, `ReadJarFiltered`: the context-free wrappers; without contexts they are the same functions as their `…Context` counterparts (`ReadJarFiltered` also ignores the context it is given).
- `os.UserHomeDir`, `os.ReadDir`, `url.Parse`: I/O and parsing; their results are inputs. `os.ReadDir` returns entries sorted by name, so "first matching entry" means the smallest such name; the model takes any order.
- `publicsuffix.List`: third-party code, used only by the jar.
- FfCookies.ReadJarContext, FfCookies.ReadJarFilteredContext: a jar (`cookiejar.New` plus `jar.SetCookies`) is modelled as the URL and the cookies offered to it; `cookiejar.New` never returns an error, so that step cannot fail. Which offered cookies Go's `net/http/cookiejar` actually keeps is not tracked: it drops cookies that do not domain-match the URL, expired cookies, and every cookie offered for a URL whose scheme is not http or https, so a `ws` or `wss` jar stays empty.
- FilePath.Join: models `filepath.Join` on a slash-separated system without the final `Clean`, so `..`, `.`, repeated and trailing separators are kept as given.
- FfCookies.DefaultOpenParams: the library's open options are an exported package variable that an embedding program may reassign; the model fixes them at their declared value `?nolock=1&immutable=1&mode=ro`.
- FfCookies.ReadJarFilteredContext: the predicate is a pure function of the cookie; the library hands it a `*http.Cookie` through which it could change the cookie before it goes into the jar, which the model does not allow.
- FfCookies.ValidScheme: compares after ASCII lower-casing where `strings.ToLower` uses Unicode case mapping; `url.Parse` only yields schemes of ASCII letters, digits, `+`, `-` and `.`, for which the two agree. `url.Parse` also lower-cases the scheme it returns; the model does not assume that of the `parseUrl` input, so mixed-case schemes are accepted as the case-insensitive switch would accept them.
- Error messages: errors are a datatype (`NoSqliteDriver`, `NoProfileDir`, `InvalidUrlScheme`, `External`) rather than the library's message strings; `InvalidUrlScheme` carries the scheme unquoted.
- `time.Time` internals: an instant is whole seconds plus nanoseconds since the epoch; `time.Unix` is only ever given 0 nanoseconds here. The row's 64-bit `Expiry` is an unbounded `int`; no arithmetic is done on it.
- Newer `http.Cookie` fields (`Quoted`, `Partitioned`) are not in `HttpCookie`; the conversion never sets them either.
- _example/example.go: a command-line program that prints cookies.
