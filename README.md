# goobrew core, modelled in Dafny

goobrew is a command-line front end for Homebrew. This project models the
decision logic at its core:

- the Homebrew client (`internal/homebrew/client.go`):
  - the per-name result cache with a one-hour lifetime;
  - the catalog of all formula and cask names, and the rule that merges a refresh into it;
  - the staleness test that makes `Search` reload the catalog;
  - the two case-insensitive search filters;
  - the formula-then-cask fallback of `GetFormula`;
  - the classifier that turns installer output into progress events;
  - the event sequence of `Install`;
- the integer formatting and display rules of the terminal user interface (`internal/ui/ui.go`);
- the version strings (`internal/version/version.go`).

Files:

- `wrappers.dfy`: `Option` and `Result`.
- `gotime.dfy`: durations and instants as integer nanoseconds. `time.Since` saturates to the 64-bit range, as Go's `Time.Sub` does.
- `text.dfy`: the parts of `strings` the program uses, and the `%d` decimal rendering of `fmt`:
  - ASCII lower-casing and substring search;
  - `%d` decimal rendering;
  - `strings.Repeat`;
  - splitting and joining on one character.
- `homebrew.dfy`: the client.
  - Its state (`cache`, `formulaeCache`, `casksCache`, `cacheTimestamp`) is the class `Homebrew.Client`. Its methods update those fields in place.
  - The pure rules they follow are functions, with lemmas about them.
- `ui.dfy`: `FormatDuration`, `FormatSize` (a method with the source's loop), the zero-total `ProgressBar`, and what the three printers decide to show.
- `version.dfy`: `GetVersion` and `GetFullVersion` over the three build variables.

The clock, the HTTP fetches and the `brew` subprocesses are not executed. Their outcomes are parameters:

- `now` is the clock reading;
- `Option<seq<…>>` is a bulk list fetch, where `None` is the nil a failed fetch sends;
- `Result<Formula, string>` is a single formula or cask fetch;
- `Result<seq<InstalledInfo>, string>` is the local `brew info` call;
- a `RunOutcome` per package says how its `brew install` ended.

`Search` calls `loadFormulaeAndCasks` synchronously (client.go:276). That call returns only after both fetches have delivered and the merge is done, so the re-read after the 100 ms pause sees the merged catalog; `Homebrew.Client.Search` states this.

## Model

| member | source | states |
|---|---|---|
| GoTime.Since | internal/homebrew/client.go:459 | elapsed time is the exact difference when that fits in 64 bits, and saturates to the nearer 64-bit bound otherwise (never wraps) |
| GoTime.SinceComparesAsDifference | internal/homebrew/client.go:274 | saturation never changes a comparison with a bound strictly inside the 64-bit range, so the one-hour tests can be read on the exact difference |
| Text.Lower | internal/homebrew/client.go:287 | lowering keeps the length and lowers each character (ASCII) |
| Text.LowerEqualIff | internal/homebrew/client.go:287 | two strings lower to the same text iff they differ only in letter case |
| Text.IntToStringRoundTrip | internal/ui/ui.go:69 | the `%d` rendering of every integer reads back as that integer, and its digits start with `0` only when the integer is zero |
| Text.RepeatChar | internal/ui/ui.go:276 | repeating one character `count` times gives exactly `count` copies of it |
| Text.SplitJoin | internal/version/version.go:23-25 | splitting on a separator undoes joining on it when no piece contains it |
| Homebrew.NeverStoredMisses | internal/homebrew/client.go:456-465 | a key never stored misses and the read leaves the cache unchanged |
| Homebrew.StoredKeyHitIff | internal/homebrew/client.go:459-460 | a stored key hits with its own data iff less than one hour (strictly) has passed since it was stored, and misses otherwise |
| Homebrew.ExpiredReadDeletesOnlyThatKey | internal/homebrew/client.go:462 | reading an expired key misses and deletes that key only; every other entry is unchanged and a second read of it misses |
| Homebrew.HitKeepsCache | internal/homebrew/client.go:459-460 | a hit returns the stored data and leaves the cache unchanged |
| Homebrew.Client.GetFromCache | internal/homebrew/client.go:456-465 | returns what `Lookup` says and leaves the cache as `AfterLookup` says |
| Homebrew.Client.Store | internal/homebrew/client.go:223 | the entry for the key is overwritten with the data stamped `now`; nothing else changes |
| Homebrew.Client.constructor | internal/homebrew/client.go:61-66 | a new client has an empty cache, empty catalog lists and the zero timestamp |
| Homebrew.Client.LoadFormulaeAndCasks | internal/homebrew/client.go:111-119 | the catalog becomes the merge rule applied to the old catalog and the two fetch results |
| Homebrew.RefreshMergeRule | internal/homebrew/client.go:112-118 | each list is replaced only by its own delivered fetch; only a delivered formula list moves the timestamp to `now`; a failed fetch leaves its list (and for formulae the timestamp) as it was |
| Homebrew.NeedsRefreshIff | internal/homebrew/client.go:274 | a reload happens iff the catalog is more than one hour old or either list is empty |
| Homebrew.RefreshedCatalogStaysFresh | internal/homebrew/client.go:274 | after both fetches delivered non-empty lists, no search in the next hour (inclusive) reloads |
| Homebrew.FailedFormulaFetchKeepsAge | internal/homebrew/client.go:112-115 | while the formula fetch fails, a too-old catalog stays too old whatever the cask fetch did |
| Homebrew.ExpiryBoundaryDiffers | internal/homebrew/client.go:274 | exactly one hour after storing, an entry misses while a full catalog is not yet reloaded (`<` against `>`) |
| Homebrew.KeepFlaggedIsOrderedSelection | internal/homebrew/client.go:295-301 | keeping the flagged keys in order yields a strictly increasing list of flagged positions that holds every flagged position |
| Homebrew.MatchingFormulaeKeepsFlagged | internal/homebrew/client.go:296-300 | the formula filter keeps exactly the names of the matching formulae, in list order |
| Homebrew.MatchingCasksKeepsFlagged | internal/homebrew/client.go:308-320 | the cask filter keeps exactly the tokens of the matching casks, in list order |
| Homebrew.MatchingFormulaeIsOrderedFilter | internal/homebrew/client.go:294-301 | the formula result is the names at strictly increasing positions of the list, each of them a match, and every matching position is among them |
| Homebrew.MatchingCasksIsOrderedFilter | internal/homebrew/client.go:306-321 | the cask result is the tokens at strictly increasing positions, each a match, every match included, so each cask contributes its token at most once |
| Homebrew.MatchingFormulaeMembership | internal/homebrew/client.go:297-299 | a name is in the formula result iff some formula with that name has the lowered term in its lowered name or description |
| Homebrew.MatchingCasksMembership | internal/homebrew/client.go:309-319 | a token is in the cask result iff some cask with that token has the lowered term in its lowered token, description or any display name |
| Homebrew.EmptyTermMatchesAll | internal/homebrew/client.go:287-321 | the empty term returns every formula name and every cask token, in catalog order |
| Homebrew.NoMatchesGiveEmptyResults | internal/homebrew/client.go:326-334 | when nothing matches, both results are empty |
| Homebrew.SearchIgnoresCase | internal/homebrew/client_test.go:173-181 | terms that differ only in letter case give the same formula and cask results |
| Homebrew.SearchFormulae | internal/homebrew/client.go:294-303 | the formula loop returns exactly the formula filter of the list |
| Homebrew.SearchCasks | internal/homebrew/client.go:306-323 | the cask loop, with its early exit from the display names, returns exactly the cask filter of the list |
| Homebrew.Client.Search | internal/homebrew/client.go:266-335 | the catalog is reloaded by the merge rule iff it needs it and is otherwise unchanged; the results are the two filters of the catalog read afterwards under the lowered term; the error is always nil |
| Homebrew.SearchTestFormulae | internal/homebrew/client_test.go:145-150 | of the test's four formulae, `git`, `github-cli` and `gitlab-runner` match "git", and `node` does not |
| Homebrew.SearchTestCasks | internal/homebrew/client_test.go:151-155 | of the test's three casks, `github` and `gitkraken` match "git" by their tokens, and `firefox` does not |
| Homebrew.SearchTestCatalogExample | internal/homebrew/client_test.go:142-181 | the test catalog, searched at its own timestamp, is not reloaded; "git" finds at least two formulae and at least two casks (exactly the three and the two above); "GIT" finds the same formulae |
| Homebrew.NotFoundMessageNamesPackage | internal/homebrew/client.go:215 | the not-found error names the package that was asked for |
| Homebrew.MergeLocalInstall | internal/homebrew/client.go:219-221 | `Installed` is replaced only when local info was read successfully and is non-empty; every other field is kept |
| Homebrew.StoredFormulaIsServedWithinHour | internal/homebrew/client.go:193-197 | a stored formula is served from the cache iff less than one hour has passed since it was stored |
| Homebrew.Client.GetFormula | internal/homebrew/client.go:191-225 | fresh cached formula: returned, cache unchanged. Otherwise, a fetched formula: merged with local info, cached and returned. Failing that, a fetched cask: cached and returned unmerged. Failing both: the not-found error, with the cache as the read left it |
| Homebrew.ParseInstallOutput | internal/homebrew/client.go:489-517 | an event always names `pkg`, has progress in [0, 100], a zero start time and no error |
| Homebrew.FirstMatch | internal/homebrew/client.go:496-514 | the position of the first rule whose pattern occurs, with no earlier rule occurring; none iff no rule occurs |
| Homebrew.ParseInstallOutputFollowsTable | internal/homebrew/client.go:496-516 | the classifier is first-match over the ordered table downloading/25, installing/50, pouring→installing/60, linking/90, installed→completed/100, and gives no event when nothing matches |
| Homebrew.ParseInstallOutputCases | internal/homebrew/client.go:496-514 | each of the five tests decides the event when the earlier tests fail; no test passing gives no event |
| Homebrew.ParseDownloadingExample | internal/homebrew/client_test.go:332 | "==> Downloading git-2.51.1.tar.gz" is downloading at 25 |
| Homebrew.ParseInstallingExample | internal/homebrew/client_test.go:333 | "==> Installing git" is installing at 50 |
| Homebrew.ParsePouringExample | internal/homebrew/client_test.go:334 | "==> Pouring git--2.51.1.bottle.tar.gz" is installing at 60 |
| Homebrew.ParseLinkingExample | internal/homebrew/client_test.go:335 | "==> Linking git" is linking at 90 |
| Homebrew.ParseInstalledExample | internal/homebrew/client_test.go:336 | "git 2.51.1 is installed" is completed at 100 (it does not contain "installing") |
| Homebrew.ParseOtherOutputExample | internal/homebrew/client_test.go:337 | "Some other output" gives no event |
| Homebrew.Client.Install | internal/homebrew/client.go:338-390 | two events per package in input order: `starting` at 0, then exactly one of `failed` (progress 0, carrying that step's error) or `completed` at 100; the result is always nil |
| Ui.FormatDuration | internal/ui/ui.go:49-60 | every duration under one second, negative ones included, gives exactly "< 1s", and no longer duration's text starts with "<" |
| Ui.FormatDurationSeconds | internal/ui/ui.go:53-54 | from one second to one minute the text is the number of whole seconds then "s" |
| Ui.FormatDurationMinutes | internal/ui/ui.go:56-57 | from one minute to one hour the text is whole minutes, "m ", the remaining whole seconds (fewer than 60), "s" |
| Ui.FormatDurationHours | internal/ui/ui.go:59 | from one hour on the text is whole hours, "h ", the remaining whole minutes (fewer than 60), "m" |
| Ui.FormatDurationExamples | internal/ui/ui_test.go:20-24 | 500ms, 1s, 30s, 90s and 90min give "< 1s", "1s", "30s", "1m 30s", "1h 30m" |
| Ui.FormatSize | internal/ui/ui.go:66-77 | below 1024 (negatives included) the count then " B". Otherwise the scale is `div = 1024^(exp+1)` with `div <= bytes < 1024 * div`, `exp` is the selected exponent, `exp <= 5` so the unit letter is in "KMGTPE", and `div` fits in 64 bits |
| Ui.SizeExponentBounds | internal/ui/ui.go:71-74 | the selected exponent puts the size in [1024^(e+1), 1024^(e+2)) |
| Ui.SizeExponentUnique | internal/ui/ui.go:71-74 | that interval determines the exponent |
| Ui.FormatSizeExamples | internal/ui/ui_test.go:43-47 | 500 gives "500 B"; 1024 selects K; 1024² selects M; 1536·1024 selects M at one and a half; 1024³ selects G |
| Ui.ProgressBar | internal/ui/ui.go:274-277 | a zero total gives exactly `width` copies of "━", panics on a negative width, and otherwise leaves the proportional bar |
| Ui.StatusOf | internal/ui/ui.go:190-196 | pinned shows the pin whatever else holds; otherwise outdated shows the yellow mark; otherwise up to date |
| Ui.RowVersion | internal/ui/ui.go:185-189 | the version column is the last installation's version, or empty when there is none |
| Ui.ShortDescription | internal/ui/ui.go:200-205 | a description over 50 characters becomes its first 47 and "..." and is exactly 50 long; a shorter one is unchanged |
| Ui.ShortDescriptionIdempotent | internal/ui/ui.go:200-205 | shortening twice is shortening once |
| Ui.RowOf | internal/ui/ui.go:184-206 | a row shows the name, the status mark and the version column, and the shortened description only when the description is not empty |
| Ui.InstalledList | internal/ui/ui.go:176-211 | an empty list gives the warning; otherwise the total and one row per formula, in order |
| Ui.RowShowsLatestLocalInstall | internal/ui/ui.go:185-189 | after a non-empty local installation list was merged, the row shows the version of its last entry |
| Ui.SearchResults | internal/ui/ui.go:148-170 | a section appears only when it has entries; "No results found" is shown iff the total is 0, otherwise the total is the sum of both counts |
| Ui.NoMatchesReportNoResults | internal/ui/ui.go:163-168 | a search in which nothing matches is reported as "No results found" with no sections |
| Ui.StageStyle | internal/ui/ui.go:221-240 | a stage keeps the default install icon in cyan iff it is not one of the five listed stages |
| Ui.StageStylesDistinct | internal/ui/ui.go:221-240 | different listed stages get different styles |
| Ui.ProgressLineOf | internal/ui/ui.go:218-248 | the line shows the stage's style, the formula, the stage, the elapsed time formatted from `now`, and the error exactly when there is one |
| Ui.ParsedEventsAreStyled | internal/ui/ui.go:221-240 | no event produced by the output classifier is drawn in the default style |
| Ui.InstallEventStyles | internal/ui/ui.go:221-247 | `starting` is drawn in the default style, `completed` as success in green, `failed` as error in red with its error shown |
| Version.GetVersion | internal/version/version.go:16-18 | the version string is "goobrew version " followed by the version |
| Version.GetFullVersion | internal/version/version.go:22-26 | the full version is the version string, the commit line and the build-time line joined by newlines |
| Version.VersionIsPrefixOfFullVersion | internal/version/version.go:22-26 | the version string is a prefix of the full version |
| Version.FullVersionLines | internal/version/version.go:23-25 | with no newline in the build values, the full version splits into exactly three lines: the version string, "commit: " + commit, "built: " + build time |
| Version.DefaultVersion | internal/version/version.go:6-13 | an unconfigured build reports "goobrew version 0.2.0", commit "none", build time "unknown" |

## Left out

- HTTP and JSON decoding (`fetchFormulaeList`, `fetchCasksList`, `fetchFormula`): network I/O. Their outcomes are parameters.
- Subprocesses (`getLocalInstallInfo`, `GetInstalledFormulae`, `Uninstall`, `Update`, `Upgrade`, `ExecuteCommand`, and the `exec.LookPath` check in `NewClient`): foreign process calls. `NewClient`'s failure when `brew` is missing is not modelled.
- Concurrency: the goroutines, channels, `sync.RWMutex` and `sync.Map`. The two fetches and the two searches run one after the other, which gives the same result because each writes only its own list. The background load started by `NewClient` is not modelled, nor is the 100 ms pause in `Search`.
- `monitorInstallation`: it reads raw 1024-byte chunks and interleaves stdout and stderr, which is timing-dependent. Only `ParseInstallOutput` on one given text is modelled, and `Install`'s events leave out the monitor's events.
- The clock: `time.Now` and `time.Since` read the clock `now` passed in. `GetFormula` uses one `now` for both the cache read and the store.
- Homebrew.Client.GetFormula: the returned formula is a value, so the aliasing between the returned `*Formula` and the cached one is not captured.
- Text.Lower: ASCII only. Unicode case folding is not modelled.
- Ui.ShortDescription: counts characters, where the code counts bytes of UTF-8 (`len` and slicing). The two agree on ASCII text.
- Ui.FormatSize: the `%.1f` rendering of `bytes / div` as a float is not modelled. The result records `bytes`, `div` and the unit letter that it is computed from.
- Ui.ProgressBar: for a non-zero total, the float percentage and filled width are not modelled.
- Ui.FormatDuration: uses exact integer division. For very large durations, the float conversions `d.Hours()` and `d.Minutes()` can round up in the last nanoseconds before a boundary. That rounding is not modelled.
- Terminal output itself: ANSI colours, icons, padding and `fmt.Printf`. The printers are reduced to what they decide to show.
- `internal/homebrew/models.go`: declarations and JSON tags only. `Formula` keeps only the fields the core reads.
- The CLI (`cmd/`, `main.go`) and logging (`internal/logger`): wiring only.
