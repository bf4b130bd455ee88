/** The Homebrew client of goobrew: a per-name result cache with a one-hour
    lifetime, a catalog of all formula and cask names refreshed from the
    Homebrew API, case-insensitive search over that catalog, fetch-by-name
    with a formula-then-cask fallback, the classifier for installer output,
    and the event sequence of an install run.

    Remote fetches and `brew` subprocesses are not performed here: their
    outcomes are parameters, as is the clock reading `now`. */
module Homebrew {
  import opened Wrappers
  import opened GoTime
  import opened Text

  /** `cacheExpiry`: both caches consider data older than one hour too old. */
  const CacheExpiry: int := 1 * Hour

  // ---------------------------------------------------------------------
  // Data model

  /** One element of the bulk formula list. */
  datatype FormulaListItem = FormulaListItem(name: string, desc: string)

  /** One element of the bulk cask list; `names` are the display names. */
  datatype CaskListItem = CaskListItem(token: string, names: seq<string>, desc: string)

  /** One locally installed version of a formula. */
  datatype InstalledInfo = InstalledInfo(version: string, pouredFromBottle: bool, time: int)

  /** The detailed formula document, reduced to the fields this program reads. */
  datatype Formula = Formula(
    name: string,
    desc: string,
    installed: seq<InstalledInfo>,
    pinned: bool,
    outdated: bool)

  /** The value slot of the entry cache, which holds `interface{}` in the
      source. Only formulae are stored by the client; any other value is
      passed over by `GetFormula`'s type assertion. */
  datatype CacheData = FormulaData(formula: Formula) | OtherData(description: string)

  datatype CacheEntry = CacheEntry(data: CacheData, timestamp: int)

  /** The lists and the timestamp of the catalog, as `Search` reads them. */
  datatype CatalogSnapshot = CatalogSnapshot(
    formulae: seq<FormulaListItem>,
    casks: seq<CaskListItem>,
    timestamp: int)

  /** A progress event; `error` is Go's nil-able `error`. */
  datatype InstallationStatus = InstallationStatus(
    formula: string,
    stage: string,
    progress: int,
    startTime: int,
    error: Option<string>)

  /** How one `brew install <pkg>` run ended, one case per branch of
      `Install`: a pipe could not be opened, the process could not start,
      it exited unsuccessfully, or it exited successfully. */
  datatype RunOutcome =
    | StdoutPipeError(err: string)
    | StderrPipeError(err: string)
    | StartError(err: string)
    | WaitError(err: string)
    | Exited

  /** The clock reading taken for a package and the way its run ended. */
  datatype PackageRun = PackageRun(startTime: int, outcome: RunOutcome)

  // ---------------------------------------------------------------------
  // Entry cache

  /** An entry is served while it is younger than the expiry, strictly. */
  predicate IsFresh(e: CacheEntry, now: int) {
    Since(now, e.timestamp) < CacheExpiry
  }

  /** What a read of `key` at `now` returns. */
  function Lookup(cache: map<string, CacheEntry>, key: string, now: int): Option<CacheData> {
    if key in cache && IsFresh(cache[key], now) then Some(cache[key].data) else None
  }

  /** The cache after a read of `key` at `now`: an expired entry is deleted. */
  function AfterLookup(cache: map<string, CacheEntry>, key: string, now: int): map<string, CacheEntry> {
    if key in cache && !IsFresh(cache[key], now) then cache - {key} else cache
  }

  /** A key that was never stored misses and the read changes nothing. */
  lemma NeverStoredMisses(cache: map<string, CacheEntry>, key: string, now: int)
    requires key !in cache
    ensures Lookup(cache, key, now) == None
    ensures AfterLookup(cache, key, now) == cache
  {
  }

  /** A stored key hits, with the stored data, exactly while less than one
      hour has passed since it was stored. */
  lemma StoredKeyHitIff(cache: map<string, CacheEntry>, key: string, data: CacheData, storedAt: int, now: int)
    ensures Lookup(cache[key := CacheEntry(data, storedAt)], key, now) == Some(data) <==> now - storedAt < CacheExpiry
    ensures Lookup(cache[key := CacheEntry(data, storedAt)], key, now) == None <==> now - storedAt >= CacheExpiry
  {
    SinceComparesAsDifference(now, storedAt, CacheExpiry);
  }

  /** Reading an expired key deletes that key and no other, and a second read
      of it, at any time, misses. */
  lemma ExpiredReadDeletesOnlyThatKey(cache: map<string, CacheEntry>, key: string, now: int, later: int)
    requires key in cache && !IsFresh(cache[key], now)
    ensures Lookup(cache, key, now) == None
    ensures AfterLookup(cache, key, now).Keys == cache.Keys - {key}
    ensures forall k :: k in cache && k != key ==> k in AfterLookup(cache, key, now) && AfterLookup(cache, key, now)[k] == cache[k]
    ensures Lookup(AfterLookup(cache, key, now), key, later) == None
  {
  }

  /** A hit leaves the cache as it was. */
  lemma HitKeepsCache(cache: map<string, CacheEntry>, key: string, now: int)
    requires Lookup(cache, key, now).Some?
    ensures AfterLookup(cache, key, now) == cache
    ensures Lookup(cache, key, now) == Some(cache[key].data)
  {
  }

  // ---------------------------------------------------------------------
  // Catalog refresh and staleness

  /** The merge at the end of `loadFormulaeAndCasks`: each list is replaced
      only when its own fetch delivered a list (None stands for the nil that
      a failed fetch sends); only a formula list moves the timestamp. */
  function Refreshed(
    s: CatalogSnapshot,
    formulae: Option<seq<FormulaListItem>>,
    casks: Option<seq<CaskListItem>>,
    now: int): CatalogSnapshot
  {
    var afterFormulae := if formulae.Some? then s.(formulae := formulae.value, timestamp := now) else s;
    if casks.Some? then afterFormulae.(casks := casks.value) else afterFormulae
  }

  /** The condition under which `Search` reloads the catalog first. */
  predicate NeedsRefresh(s: CatalogSnapshot, now: int) {
    Since(now, s.timestamp) > CacheExpiry || |s.formulae| == 0 || |s.casks| == 0
  }

  /** The reload condition, read on the exact age of the catalog. */
  lemma NeedsRefreshIff(s: CatalogSnapshot, now: int)
    ensures NeedsRefresh(s, now) <==> now - s.timestamp > CacheExpiry || |s.formulae| == 0 || |s.casks| == 0
  {
    SinceComparesAsDifference(now, s.timestamp, CacheExpiry);
  }

  /** Each half of the catalog follows its own fetch: a delivered list
      replaces its half, a failed fetch leaves its half (and, for formulae,
      the timestamp) untouched, and the cask fetch never moves the timestamp. */
  lemma RefreshMergeRule(
    s: CatalogSnapshot,
    formulae: Option<seq<FormulaListItem>>,
    casks: Option<seq<CaskListItem>>,
    now: int)
    ensures var r := Refreshed(s, formulae, casks, now);
      && r.formulae == (if formulae.Some? then formulae.value else s.formulae)
      && r.timestamp == (if formulae.Some? then now else s.timestamp)
      && r.casks == (if casks.Some? then casks.value else s.casks)
  {
  }

  /** After both fetches delivered non-empty lists at `refreshedAt`, no
      search within the following hour (inclusive) reloads. */
  lemma RefreshedCatalogStaysFresh(
    s: CatalogSnapshot,
    formulae: seq<FormulaListItem>,
    casks: seq<CaskListItem>,
    refreshedAt: int,
    now: int)
    requires |formulae| > 0 && |casks| > 0
    requires refreshedAt <= now <= refreshedAt + CacheExpiry
    ensures !NeedsRefresh(Refreshed(s, Some(formulae), Some(casks), refreshedAt), now)
  {
    NeedsRefreshIff(Refreshed(s, Some(formulae), Some(casks), refreshedAt), now);
  }

  /** While the formula fetch keeps failing, the catalog age is never reset:
      a too-old catalog stays too old after any number of such refreshes. */
  lemma FailedFormulaFetchKeepsAge(
    s: CatalogSnapshot,
    casks: Option<seq<CaskListItem>>,
    now: int)
    requires now - s.timestamp > CacheExpiry
    ensures NeedsRefresh(Refreshed(s, None, casks, now), now)
  {
    NeedsRefreshIff(Refreshed(s, None, casks, now), now);
  }

  /** The two one-hour rules differ at the boundary: an entry stored exactly
      one hour ago misses (`<`), while a catalog refreshed exactly one hour
      ago with both lists present is not reloaded (`>`). */
  lemma ExpiryBoundaryDiffers(s: CatalogSnapshot, e: CacheEntry, t: int)
    requires |s.formulae| > 0 && |s.casks| > 0
    requires s.timestamp == t && e.timestamp == t
    ensures !IsFresh(e, t + CacheExpiry)
    ensures !NeedsRefresh(s, t + CacheExpiry)
  {
  }

  // ---------------------------------------------------------------------
  // Search filters

  /** A formula matches when the lowered term occurs in its lowered name or
      lowered description. */
  predicate FormulaMatches(f: FormulaListItem, lowerTerm: string) {
    Contains(Lower(f.name), lowerTerm) || Contains(Lower(f.desc), lowerTerm)
  }

  predicate AnyNameContains(names: seq<string>, lowerTerm: string) {
    exists j :: 0 <= j < |names| && Contains(Lower(names[j]), lowerTerm)
  }

  /** A cask matches when the lowered term occurs in its lowered token,
      lowered description or any lowered display name. */
  predicate CaskMatches(c: CaskListItem, lowerTerm: string) {
    Contains(Lower(c.token), lowerTerm) || Contains(Lower(c.desc), lowerTerm) || AnyNameContains(c.names, lowerTerm)
  }

  /** The names of the matching formulae, in list order. */
  function MatchingFormulae(items: seq<FormulaListItem>, lowerTerm: string): (r: seq<string>)
    ensures |r| <= |items|
    decreases |items|
  {
    if items == [] then []
    else
      var last := items[|items| - 1];
      MatchingFormulae(items[..|items| - 1], lowerTerm) + (if FormulaMatches(last, lowerTerm) then [last.name] else [])
  }

  /** The tokens of the matching casks, in list order. */
  function MatchingCasks(items: seq<CaskListItem>, lowerTerm: string): (r: seq<string>)
    ensures |r| <= |items|
    decreases |items|
  {
    if items == [] then []
    else
      var last := items[|items| - 1];
      MatchingCasks(items[..|items| - 1], lowerTerm) + (if CaskMatches(last, lowerTerm) then [last.token] else [])
  }

  /** The keys whose flag is set, in order: the shape shared by both
      search loops. */
  function KeepFlagged(flags: seq<bool>, keys: seq<string>): (r: seq<string>)
    requires |flags| == |keys|
    ensures |r| <= |keys|
    decreases |flags|
  {
    if flags == [] then []
    else
      var n := |flags| - 1;
      KeepFlagged(flags[..n], keys[..n]) + (if flags[n] then [keys[n]] else [])
  }

  /** `idx` is a strictly increasing list of flagged positions, holding every
      flagged position, whose keys are `r`. */
  predicate IsOrderedSelection(flags: seq<bool>, keys: seq<string>, r: seq<string>, idx: seq<int>)
    requires |flags| == |keys|
  {
    && |idx| == |r|
    && (forall k :: 0 <= k < |idx| ==> 0 <= idx[k] < |flags| && flags[idx[k]] && r[k] == keys[idx[k]])
    && (forall k, l :: 0 <= k < l < |idx| ==> idx[k] < idx[l])
    && (forall i :: 0 <= i < |flags| && flags[i] ==> i in idx)
  }

  lemma {:induction false} KeepFlaggedIsOrderedSelection(flags: seq<bool>, keys: seq<string>)
    returns (idx: seq<int>)
    requires |flags| == |keys|
    ensures IsOrderedSelection(flags, keys, KeepFlagged(flags, keys), idx)
    decreases |flags|
  {
    if flags == [] {
      idx := [];
    } else {
      var n := |flags| - 1;
      var before := KeepFlaggedIsOrderedSelection(flags[..n], keys[..n]);
      var r := KeepFlagged(flags, keys);
      var r0 := KeepFlagged(flags[..n], keys[..n]);
      assert r == r0 + (if flags[n] then [keys[n]] else []);
      idx := if flags[n] then before + [n] else before;
      forall k | 0 <= k < |idx|
        ensures 0 <= idx[k] < |flags| && flags[idx[k]] && r[k] == keys[idx[k]]
      {
        if k < |before| {
          assert idx[k] == before[k] && flags[..n][before[k]] == flags[before[k]] && keys[..n][before[k]] == keys[before[k]];
        }
      }
      forall i | 0 <= i < |flags| && flags[i]
        ensures i in idx
      {
        if i < n {
          assert flags[..n][i] == flags[i];
        }
      }
    }
  }

  /** With every flag set, every key is kept. */
  lemma {:induction false} KeepAllFlagged(flags: seq<bool>, keys: seq<string>)
    requires |flags| == |keys| && forall i :: 0 <= i < |flags| ==> flags[i]
    ensures KeepFlagged(flags, keys) == keys
    decreases |flags|
  {
    if flags != [] {
      var n := |flags| - 1;
      KeepAllFlagged(flags[..n], keys[..n]);
      assert keys == keys[..n] + [keys[n]];
    }
  }

  function FormulaFlags(items: seq<FormulaListItem>, lowerTerm: string): (r: seq<bool>)
    ensures |r| == |items| && forall i :: 0 <= i < |items| ==> r[i] == FormulaMatches(items[i], lowerTerm)
  {
    seq(|items|, i requires 0 <= i < |items| => FormulaMatches(items[i], lowerTerm))
  }

  function CaskFlags(items: seq<CaskListItem>, lowerTerm: string): (r: seq<bool>)
    ensures |r| == |items| && forall i :: 0 <= i < |items| ==> r[i] == CaskMatches(items[i], lowerTerm)
  {
    seq(|items|, i requires 0 <= i < |items| => CaskMatches(items[i], lowerTerm))
  }

  /** The formula result keeps the names of the matching formulae. */
  lemma {:induction false} MatchingFormulaeKeepsFlagged(items: seq<FormulaListItem>, lowerTerm: string)
    ensures MatchingFormulae(items, lowerTerm) == KeepFlagged(FormulaFlags(items, lowerTerm), Names(items))
    decreases |items|
  {
    if items != [] {
      var n := |items| - 1;
      MatchingFormulaeKeepsFlagged(items[..n], lowerTerm);
      assert FormulaFlags(items, lowerTerm)[..n] == FormulaFlags(items[..n], lowerTerm);
      assert Names(items)[..n] == Names(items[..n]);
    }
  }

  /** The cask result keeps the tokens of the matching casks. */
  lemma {:induction false} MatchingCasksKeepsFlagged(items: seq<CaskListItem>, lowerTerm: string)
    ensures MatchingCasks(items, lowerTerm) == KeepFlagged(CaskFlags(items, lowerTerm), Tokens(items))
    decreases |items|
  {
    if items != [] {
      var n := |items| - 1;
      MatchingCasksKeepsFlagged(items[..n], lowerTerm);
      assert CaskFlags(items, lowerTerm)[..n] == CaskFlags(items[..n], lowerTerm);
      assert Tokens(items)[..n] == Tokens(items[..n]);
    }
  }

  /** The formula result is exactly the ordered filter of the list: there is
      a strictly increasing choice of positions, holding every matching
      formula and nothing else, whose names are the result. */
  lemma MatchingFormulaeIsOrderedFilter(items: seq<FormulaListItem>, lowerTerm: string)
    returns (idx: seq<int>)
    ensures |idx| == |MatchingFormulae(items, lowerTerm)|
    ensures forall k :: 0 <= k < |idx| ==>
      0 <= idx[k] < |items| && FormulaMatches(items[idx[k]], lowerTerm) &&
      MatchingFormulae(items, lowerTerm)[k] == items[idx[k]].name
    ensures forall k, l :: 0 <= k < l < |idx| ==> idx[k] < idx[l]
    ensures forall i :: 0 <= i < |items| && FormulaMatches(items[i], lowerTerm) ==> i in idx
  {
    MatchingFormulaeKeepsFlagged(items, lowerTerm);
    idx := KeepFlaggedIsOrderedSelection(FormulaFlags(items, lowerTerm), Names(items));
  }

  /** The cask result is exactly the ordered filter of the list; since the
      positions strictly increase, each cask contributes its token at most
      once even when several of its fields match. */
  lemma MatchingCasksIsOrderedFilter(items: seq<CaskListItem>, lowerTerm: string)
    returns (idx: seq<int>)
    ensures |idx| == |MatchingCasks(items, lowerTerm)|
    ensures forall k :: 0 <= k < |idx| ==>
      0 <= idx[k] < |items| && CaskMatches(items[idx[k]], lowerTerm) &&
      MatchingCasks(items, lowerTerm)[k] == items[idx[k]].token
    ensures forall k, l :: 0 <= k < l < |idx| ==> idx[k] < idx[l]
    ensures forall i :: 0 <= i < |items| && CaskMatches(items[i], lowerTerm) ==> i in idx
  {
    MatchingCasksKeepsFlagged(items, lowerTerm);
    idx := KeepFlaggedIsOrderedSelection(CaskFlags(items, lowerTerm), Tokens(items));
  }

  /** A name is in the formula result iff some formula with that name matches. */
  lemma MatchingFormulaeMembership(items: seq<FormulaListItem>, lowerTerm: string, x: string)
    ensures x in MatchingFormulae(items, lowerTerm) <==>
      exists i :: 0 <= i < |items| && items[i].name == x && FormulaMatches(items[i], lowerTerm)
  {
    var r := MatchingFormulae(items, lowerTerm);
    var idx := MatchingFormulaeIsOrderedFilter(items, lowerTerm);
    if x in r {
      var k :| 0 <= k < |r| && r[k] == x;
      assert items[idx[k]].name == x;
    }
    if exists i :: 0 <= i < |items| && items[i].name == x && FormulaMatches(items[i], lowerTerm) {
      var i :| 0 <= i < |items| && items[i].name == x && FormulaMatches(items[i], lowerTerm);
      var k :| 0 <= k < |idx| && idx[k] == i;
      assert r[k] == x;
    }
  }

  /** A token is in the cask result iff some cask with that token matches. */
  lemma MatchingCasksMembership(items: seq<CaskListItem>, lowerTerm: string, x: string)
    ensures x in MatchingCasks(items, lowerTerm) <==>
      exists i :: 0 <= i < |items| && items[i].token == x && CaskMatches(items[i], lowerTerm)
  {
    var r := MatchingCasks(items, lowerTerm);
    var idx := MatchingCasksIsOrderedFilter(items, lowerTerm);
    if x in r {
      var k :| 0 <= k < |r| && r[k] == x;
      assert items[idx[k]].token == x;
    }
    if exists i :: 0 <= i < |items| && items[i].token == x && CaskMatches(items[i], lowerTerm) {
      var i :| 0 <= i < |items| && items[i].token == x && CaskMatches(items[i], lowerTerm);
      var k :| 0 <= k < |idx| && idx[k] == i;
      assert r[k] == x;
    }
  }

  function Names(items: seq<FormulaListItem>): (r: seq<string>)
    ensures |r| == |items| && forall i :: 0 <= i < |items| ==> r[i] == items[i].name
  {
    seq(|items|, i requires 0 <= i < |items| => items[i].name)
  }

  function Tokens(items: seq<CaskListItem>): (r: seq<string>)
    ensures |r| == |items| && forall i :: 0 <= i < |items| ==> r[i] == items[i].token
  {
    seq(|items|, i requires 0 <= i < |items| => items[i].token)
  }

  /** The empty term matches everything: every name and every token, in order. */
  lemma EmptyTermMatchesAll(formulae: seq<FormulaListItem>, casks: seq<CaskListItem>)
    ensures MatchingFormulae(formulae, "") == Names(formulae)
    ensures MatchingCasks(casks, "") == Tokens(casks)
  {
    forall i | 0 <= i < |formulae|
      ensures FormulaFlags(formulae, "")[i]
    {
      ContainsEmpty(Lower(formulae[i].name));
    }
    forall i | 0 <= i < |casks|
      ensures CaskFlags(casks, "")[i]
    {
      ContainsEmpty(Lower(casks[i].token));
    }
    MatchingFormulaeKeepsFlagged(formulae, "");
    KeepAllFlagged(FormulaFlags(formulae, ""), Names(formulae));
    MatchingCasksKeepsFlagged(casks, "");
    KeepAllFlagged(CaskFlags(casks, ""), Tokens(casks));
  }

  /** When nothing matches, both results are empty (and not an error). */
  lemma {:induction false} NoMatchesGiveEmptyResults(formulae: seq<FormulaListItem>, casks: seq<CaskListItem>, lowerTerm: string)
    requires forall i :: 0 <= i < |formulae| ==> !FormulaMatches(formulae[i], lowerTerm)
    requires forall i :: 0 <= i < |casks| ==> !CaskMatches(casks[i], lowerTerm)
    ensures MatchingFormulae(formulae, lowerTerm) == []
    ensures MatchingCasks(casks, lowerTerm) == []
    decreases |formulae| + |casks|
  {
    if formulae != [] {
      NoMatchesGiveEmptyResults(formulae[..|formulae| - 1], [], lowerTerm);
    }
    if casks != [] {
      NoMatchesGiveEmptyResults([], casks[..|casks| - 1], lowerTerm);
    }
  }

  /** Terms that differ only in the case of ASCII letters find the same
      formulae and the same casks. */
  lemma SearchIgnoresCase(s: CatalogSnapshot, a: string, b: string)
    requires SameIgnoringCase(a, b)
    ensures MatchingFormulae(s.formulae, Lower(a)) == MatchingFormulae(s.formulae, Lower(b))
    ensures MatchingCasks(s.casks, Lower(a)) == MatchingCasks(s.casks, Lower(b))
  {
    LowerEqualIff(a, b);
  }

  /** The loop of the formula-search goroutine. */
  method SearchFormulae(items: seq<FormulaListItem>, lowerTerm: string) returns (results: seq<string>)
    ensures results == MatchingFormulae(items, lowerTerm)
  {
    results := [];
    for i := 0 to |items|
      invariant results == MatchingFormulae(items[..i], lowerTerm)
    {
      var f := items[i];
      if Contains(Lower(f.name), lowerTerm) || Contains(Lower(f.desc), lowerTerm) {
        results := results + [f.name];
      }
      assert items[..i + 1][..i] == items[..i];
    }
    assert items[..|items|] == items;
  }

  /** The loop of the cask-search goroutine: token or description first,
      then the display names, stopping at the first matching name. */
  method SearchCasks(items: seq<CaskListItem>, lowerTerm: string) returns (results: seq<string>)
    ensures results == MatchingCasks(items, lowerTerm)
  {
    results := [];
    for i := 0 to |items|
      invariant results == MatchingCasks(items[..i], lowerTerm)
    {
      var c := items[i];
      assert items[..i + 1][..i] == items[..i];
      if Contains(Lower(c.token), lowerTerm) || Contains(Lower(c.desc), lowerTerm) {
        results := results + [c.token];
      } else {
        var j := 0;
        while j < |c.names|
          invariant 0 <= j <= |c.names|
          invariant forall m :: 0 <= m < j ==> !Contains(Lower(c.names[m]), lowerTerm)
          invariant results == MatchingCasks(items[..i], lowerTerm)
        {
          if Contains(Lower(c.names[j]), lowerTerm) {
            results := results + [c.token];
            break;
          }
          j := j + 1;
        }
      }
    }
    assert items[..|items|] == items;
  }

  // ---------------------------------------------------------------------
  // Fetch by name

  /** The error `GetFormula` reports when neither kind could be fetched. */
  function NotFoundMessage(name: string): string {
    "package not found: " + name + " (tried both formula and cask)"
  }

  /** The not-found message names the package it was asked for. */
  lemma NotFoundMessageNamesPackage(name: string)
    ensures Contains(NotFoundMessage(name), name)
  {
    assert NotFoundMessage(name) == "package not found: " + name + " (tried both formula and cask)";
    ContainsInfix("package not found: ", name, " (tried both formula and cask)");
  }

  /** Local installation info replaces `Installed` only when it was read
      successfully and lists at least one installation. */
  function MergeLocalInstall(f: Formula, local: Result<seq<InstalledInfo>, string>): (r: Formula)
    ensures r.installed == if local.Success? && |local.value| > 0 then local.value else f.installed
    ensures r.(installed := f.installed) == f
  {
    if local.Success? && |local.value| > 0 then f.(installed := local.value) else f
  }

  /** A formula a fresh cache entry holds, if any. */
  function CachedFormula(cache: map<string, CacheEntry>, name: string, now: int): Option<Formula> {
    match Lookup(cache, name, now)
    case Some(FormulaData(f)) => Some(f)
    case _ => None
  }

  /** A formula stored by `GetFormula` is served from the cache, with no
      fetch, until one hour has passed since it was stored. */
  lemma StoredFormulaIsServedWithinHour(cache: map<string, CacheEntry>, name: string, f: Formula, storedAt: int, now: int)
    ensures CachedFormula(cache[name := CacheEntry(FormulaData(f), storedAt)], name, now) == Some(f) <==> now - storedAt < CacheExpiry
  {
    SinceComparesAsDifference(now, storedAt, CacheExpiry);
  }

  // ---------------------------------------------------------------------
  // Installer output

  /** `parseInstallOutput`: the first of five substring tests on the lowered
      text decides the stage and progress; text matching none gives no event. */
  function ParseInstallOutput(pkg: string, line: string): (r: Option<InstallationStatus>)
    ensures r.Some? ==> r.value.formula == pkg && 0 <= r.value.progress <= 100
    ensures r.Some? ==> r.value.startTime == ZeroTime && r.value.error == None
  {
    var lower := Lower(line);
    var status := InstallationStatus(pkg, "", 0, ZeroTime, None);
    if Contains(lower, "downloading") then Some(status.(stage := "downloading", progress := 25))
    else if Contains(lower, "installing") then Some(status.(stage := "installing", progress := 50))
    else if Contains(lower, "pouring") then Some(status.(stage := "installing", progress := 60))
    else if Contains(lower, "linking") then Some(status.(stage := "linking", progress := 90))
    else if Contains(lower, "installed") then Some(status.(stage := "completed", progress := 100))
    else None
  }

  /** One row of the classification table. */
  datatype Rule = Rule(pattern: string, stage: string, progress: int)

  /** The classification table, in the order the tests are tried. */
  const InstallRules: seq<Rule> := [
    Rule("downloading", "downloading", 25),
    Rule("installing", "installing", 50),
    Rule("pouring", "installing", 60),
    Rule("linking", "linking", 90),
    Rule("installed", "completed", 100)
  ]

  /** The position of the first rule whose pattern occurs in `lower`. */
  function FirstMatch(rules: seq<Rule>, lower: string): (r: Option<nat>)
    ensures r.Some? ==> r.value < |rules| && Contains(lower, rules[r.value].pattern)
    ensures r.Some? ==> forall j :: 0 <= j < r.value ==> !Contains(lower, rules[j].pattern)
    ensures r.None? ==> forall j :: 0 <= j < |rules| ==> !Contains(lower, rules[j].pattern)
    decreases |rules|
  {
    if rules == [] then None
    else if Contains(lower, rules[0].pattern) then Some(0)
    else match FirstMatch(rules[1..], lower)
      case None => None
      case Some(k) => Some(k + 1)
  }

  /** `ParseInstallOutput` is first-match classification by the table. */
  lemma ParseInstallOutputFollowsTable(pkg: string, line: string)
    ensures match FirstMatch(InstallRules, Lower(line))
      case None => ParseInstallOutput(pkg, line) == None
      case Some(k) => (ParseInstallOutput(pkg, line) ==
        Some(InstallationStatus(pkg, InstallRules[k].stage, InstallRules[k].progress, ZeroTime, None)))
  {
    var lower := Lower(line);
    var m := FirstMatch(InstallRules, lower);
    if m.Some? {
      var k := m.value;
      assert forall j :: 0 <= j < k ==> !Contains(lower, InstallRules[j].pattern);
    }
  }

  /** The five tests of `ParseInstallOutput`, each with the earlier ones failing. */
  lemma ParseInstallOutputCases(pkg: string, line: string)
    ensures var lower := Lower(line);
      && (Contains(lower, "downloading") ==>
           ParseInstallOutput(pkg, line) == Some(InstallationStatus(pkg, "downloading", 25, ZeroTime, None)))
      && (!Contains(lower, "downloading") && Contains(lower, "installing") ==>
           ParseInstallOutput(pkg, line) == Some(InstallationStatus(pkg, "installing", 50, ZeroTime, None)))
      && (!Contains(lower, "downloading") && !Contains(lower, "installing") && Contains(lower, "pouring") ==>
           ParseInstallOutput(pkg, line) == Some(InstallationStatus(pkg, "installing", 60, ZeroTime, None)))
      && (!Contains(lower, "downloading") && !Contains(lower, "installing") && !Contains(lower, "pouring") &&
          Contains(lower, "linking") ==>
           ParseInstallOutput(pkg, line) == Some(InstallationStatus(pkg, "linking", 90, ZeroTime, None)))
      && (!Contains(lower, "downloading") && !Contains(lower, "installing") && !Contains(lower, "pouring") &&
          !Contains(lower, "linking") && Contains(lower, "installed") ==>
           ParseInstallOutput(pkg, line) == Some(InstallationStatus(pkg, "completed", 100, ZeroTime, None)))
      && (!Contains(lower, "downloading") && !Contains(lower, "installing") && !Contains(lower, "pouring") &&
          !Contains(lower, "linking") && !Contains(lower, "installed") ==>
           ParseInstallOutput(pkg, line) == None)
  {
  }

  // The cases listed by the client's tests. Each line is lowered piece by
  // piece, the pattern tests are decided on the lowered text, and the result
  // follows from `ParseInstallOutputCases`.

  lemma DownloadingLineLowered()
    ensures Lower("==> Downloading " + "git-2.51.1.tar.gz") == "==> " + "downloading" + " " + "git-2.51.1.tar.gz"
  {
    LowerAppend("==> Downloading ", "git-2.51.1.tar.gz");
    assert Lower("==> Downloading ") == "==> " + "downloading" + " ";
    assert Lower("git-2.51.1.tar.gz") == "git-2.51.1.tar.gz";
  }

  lemma DownloadingLineTests(s: string)
    requires s == "==> " + "downloading" + " " + "git-2.51.1.tar.gz"
    ensures Contains(s, "downloading")
  {
    assert s == "==> " + "downloading" + (" " + "git-2.51.1.tar.gz");
    ContainsInfix("==> ", "downloading", " " + "git-2.51.1.tar.gz");
  }

  lemma ParseDownloadingExample()
    ensures ParseInstallOutput("git", "==> Downloading git-2.51.1.tar.gz") ==
      Some(InstallationStatus("git", "downloading", 25, ZeroTime, None))
  {
    var line := "==> Downloading git-2.51.1.tar.gz";
    assert line == "==> Downloading " + "git-2.51.1.tar.gz";
    DownloadingLineLowered();
    DownloadingLineTests(Lower(line));
    ParseInstallOutputCases("git", line);
  }

  lemma InstallingLineLowered()
    ensures Lower("==> Installing " + "git") == "==> " + "installing" + " " + "git"
  {
    LowerAppend("==> Installing ", "git");
    assert Lower("==> Installing ") == "==> " + "installing" + " ";
    assert Lower("git") == "git";
  }

  lemma InstallingLineTests(s: string)
    requires s == "==> " + "installing" + " " + "git"
    ensures !Contains(s, "downloading") && Contains(s, "installing")
  {
    NotContainsByMissingChar(s, "downloading", 0);
    assert s == "==> " + "installing" + (" " + "git");
    ContainsInfix("==> ", "installing", " " + "git");
  }

  lemma ParseInstallingExample()
    ensures ParseInstallOutput("git", "==> Installing git") ==
      Some(InstallationStatus("git", "installing", 50, ZeroTime, None))
  {
    var line := "==> Installing git";
    assert line == "==> Installing " + "git";
    InstallingLineLowered();
    InstallingLineTests(Lower(line));
    ParseInstallOutputCases("git", line);
  }

  lemma PouringLineLowered()
    ensures Lower("==> Pouring " + "git--2.51.1" + ".bottle.tar.gz") ==
      "==> " + "pouring" + " " + "git--2.51.1" + ".bottle.tar.gz"
  {
    var a, b, c := "==> Pouring ", "git--2.51.1", ".bottle.tar.gz";
    LowerAppend(a, b);
    LowerAppend(a + b, c);
    assert Lower(a) == "==> " + "pouring" + " ";
    assert Lower(b) == b;
    assert Lower(c) == c;
  }

  lemma PouringLineMisses(s: string)
    requires s == "==> " + "pouring" + " " + "git--2.51.1" + ".bottle.tar.gz"
    ensures !Contains(s, "downloading") && !Contains(s, "installing")
  {
    NotContainsByMissingChar(s, "downloading", 2);
    NotContainsByMissingChar(s, "installing", 2);
  }

  lemma PouringLineTests(s: string)
    requires s == "==> " + "pouring" + " " + "git--2.51.1" + ".bottle.tar.gz"
    ensures Contains(s, "pouring")
  {
    assert s == "==> " + "pouring" + (" " + "git--2.51.1" + ".bottle.tar.gz");
    ContainsInfix("==> ", "pouring", " " + "git--2.51.1" + ".bottle.tar.gz");
  }

  lemma ParsePouringExample()
    ensures ParseInstallOutput("git", "==> Pouring git--2.51.1.bottle.tar.gz") ==
      Some(InstallationStatus("git", "installing", 60, ZeroTime, None))
  {
    var line := "==> Pouring git--2.51.1.bottle.tar.gz";
    assert line == "==> Pouring " + "git--2.51.1" + ".bottle.tar.gz";
    PouringLineLowered();
    PouringLineMisses(Lower(line));
    PouringLineTests(Lower(line));
    ParseInstallOutputCases("git", line);
  }

  lemma LinkingLineLowered()
    ensures Lower("==> Linking " + "git") == "==> " + "linking" + " " + "git"
  {
    LowerAppend("==> Linking ", "git");
    assert Lower("==> Linking ") == "==> " + "linking" + " ";
    assert Lower("git") == "git";
  }

  lemma LinkingLineTests(s: string)
    requires s == "==> " + "linking" + " " + "git"
    ensures !Contains(s, "downloading") && !Contains(s, "installing") && !Contains(s, "pouring")
    ensures Contains(s, "linking")
  {
    NotContainsByMissingChar(s, "downloading", 0);
    NotContainsByMissingChar(s, "installing", 2);
    NotContainsByMissingChar(s, "pouring", 0);
    assert s == "==> " + "linking" + (" " + "git");
    ContainsInfix("==> ", "linking", " " + "git");
  }

  lemma ParseLinkingExample()
    ensures ParseInstallOutput("git", "==> Linking git") ==
      Some(InstallationStatus("git", "linking", 90, ZeroTime, None))
  {
    var line := "==> Linking git";
    assert line == "==> Linking " + "git";
    LinkingLineLowered();
    LinkingLineTests(Lower(line));
    ParseInstallOutputCases("git", line);
  }

  lemma InstalledLineLowered()
    ensures Lower("git 2.51.1 " + "is installed") == "git 2.51.1 is " + "installed"
  {
    LowerAppend("git 2.51.1 ", "is installed");
    assert Lower("git 2.51.1 ") == "git 2.51.1 ";
    assert Lower("is installed") == "is installed";
  }

  /** "installed" is not "installing": the `g` of the latter, at offset 9,
      does not occur from offset 9 of the line on. */
  lemma InstalledLineIsNotInstalling(s: string)
    requires s == "git 2.51.1 is " + "installed"
    ensures !Contains(s, "installing")
  {
    assert s[9..] == "1 is installed";
    NotContainsByChar(s, "installing", 9);
  }

  lemma InstalledLineMisses(s: string)
    requires s == "git 2.51.1 is " + "installed"
    ensures !Contains(s, "downloading") && !Contains(s, "pouring") && !Contains(s, "linking")
  {
    NotContainsByMissingChar(s, "downloading", 2);
    NotContainsByMissingChar(s, "pouring", 0);
    NotContainsByMissingChar(s, "linking", 3);
  }

  lemma InstalledLineTests(s: string)
    requires s == "git 2.51.1 is " + "installed"
    ensures Contains(s, "installed")
  {
    assert s == "git 2.51.1 is " + "installed" + "";
    ContainsInfix("git 2.51.1 is ", "installed", "");
  }

  lemma ParseInstalledExample()
    ensures ParseInstallOutput("git", "git 2.51.1 is installed") ==
      Some(InstallationStatus("git", "completed", 100, ZeroTime, None))
  {
    var line := "git 2.51.1 is installed";
    assert line == "git 2.51.1 " + "is installed";
    InstalledLineLowered();
    InstalledLineIsNotInstalling(Lower(line));
    InstalledLineMisses(Lower(line));
    InstalledLineTests(Lower(line));
    ParseInstallOutputCases("git", line);
  }

  lemma OtherLineTests(s: string)
    requires s == "some other output"
    ensures !Contains(s, "downloading") && !Contains(s, "installing") && !Contains(s, "pouring")
    ensures !Contains(s, "linking") && !Contains(s, "installed")
  {
    NotContainsByMissingChar(s, "downloading", 0);
    NotContainsByMissingChar(s, "installing", 0);
    NotContainsByMissingChar(s, "pouring", 4);
    NotContainsByMissingChar(s, "linking", 0);
    NotContainsByMissingChar(s, "installed", 0);
  }

  lemma ParseOtherOutputExample()
    ensures ParseInstallOutput("git", "Some other output") == None
  {
    var line := "Some other output";
    assert Lower(line) == "some other output";
    OtherLineTests(Lower(line));
    ParseInstallOutputCases("git", line);
  }

  // ---------------------------------------------------------------------
  // The client object

  class Client {
    /** `cache`: the per-name entry cache. */
    var cache: map<string, CacheEntry>
    /** `formulaeCache`, `casksCache`, `cacheTimestamp`: the catalog. */
    var formulaeCache: seq<FormulaListItem>
    var casksCache: seq<CaskListItem>
    var cacheTimestamp: int

    /** A client as `NewClient` builds it, before its background load. */
    constructor ()
      ensures cache == map[] && formulaeCache == [] && casksCache == []
      ensures cacheTimestamp == ZeroTime
    {
      cache := map[];
      formulaeCache := [];
      casksCache := [];
      cacheTimestamp := ZeroTime;
    }

    function Catalog(): CatalogSnapshot
      reads this
    {
      CatalogSnapshot(formulaeCache, casksCache, cacheTimestamp)
    }

    /** `getFromCache`: return a fresh entry's data, or miss and delete an
        expired entry. */
    method GetFromCache(key: string, now: int) returns (data: Option<CacheData>)
      modifies this`cache
      ensures data == Lookup(old(cache), key, now)
      ensures cache == AfterLookup(old(cache), key, now)
    {
      if key in cache {
        var entry := cache[key];
        if Since(now, entry.timestamp) < CacheExpiry {
          return Some(entry.data);
        }
        cache := cache - {key};
      }
      return None;
    }

    /** `cache.Store`: unconditionally overwrite the entry for `key`. */
    method Store(key: string, data: CacheData, now: int)
      modifies this`cache
      ensures cache == old(cache)[key := CacheEntry(data, now)]
    {
      cache := cache[key := CacheEntry(data, now)];
    }

    /** `loadFormulaeAndCasks`, given what the two fetches delivered. */
    method LoadFormulaeAndCasks(now: int, formulae: Option<seq<FormulaListItem>>, casks: Option<seq<CaskListItem>>)
      modifies this`formulaeCache, this`casksCache, this`cacheTimestamp
      ensures Catalog() == Refreshed(old(Catalog()), formulae, casks, now)
    {
      if formulae.Some? {
        formulaeCache := formulae.value;
        cacheTimestamp := now;
      }
      if casks.Some? {
        casksCache := casks.value;
      }
    }

    /** `Search`: reload the catalog if it needs it (with the fetch results
        given), then filter both lists by the lowered term. The error is
        always nil. */
    method Search(
      term: string,
      now: int,
      formulaeFetch: Option<seq<FormulaListItem>>,
      casksFetch: Option<seq<CaskListItem>>)
      returns (formulae: seq<string>, casks: seq<string>, err: Option<string>)
      modifies this`formulaeCache, this`casksCache, this`cacheTimestamp
      ensures Catalog() ==
        if NeedsRefresh(old(Catalog()), now)
        then Refreshed(old(Catalog()), formulaeFetch, casksFetch, now)
        else old(Catalog())
      ensures formulae == MatchingFormulae(Catalog().formulae, Lower(term))
      ensures casks == MatchingCasks(Catalog().casks, Lower(term))
      ensures err == None
    {
      var snapshot := Catalog();
      if NeedsRefresh(snapshot, now) {
        LoadFormulaeAndCasks(now, formulaeFetch, casksFetch);
        snapshot := Catalog();
      }
      var lowerTerm := Lower(term);
      formulae := SearchFormulae(snapshot.formulae, lowerTerm);
      casks := SearchCasks(snapshot.casks, lowerTerm);
      err := None;
    }

    /** `GetFormula`: a fresh cached formula is returned as is; otherwise the
        formula fetch (merged with local installation info) is cached and
        returned; failing that the cask fetch, unmerged; failing both, the
        not-found error with the cache left as the read made it. */
    method GetFormula(
      name: string,
      now: int,
      formulaFetch: Result<Formula, string>,
      caskFetch: Result<Formula, string>,
      localInstall: Result<seq<InstalledInfo>, string>)
      returns (r: Result<Formula, string>)
      modifies this`cache
      ensures CachedFormula(old(cache), name, now).Some? ==>
        r == Success(CachedFormula(old(cache), name, now).value) && cache == old(cache)
      ensures CachedFormula(old(cache), name, now).None? && formulaFetch.Success? ==>
        r == Success(MergeLocalInstall(formulaFetch.value, localInstall)) &&
        cache == old(cache)[name := CacheEntry(FormulaData(r.value), now)]
      ensures CachedFormula(old(cache), name, now).None? && formulaFetch.Failure? && caskFetch.Success? ==>
        r == Success(caskFetch.value) &&
        cache == old(cache)[name := CacheEntry(FormulaData(r.value), now)]
      ensures CachedFormula(old(cache), name, now).None? && formulaFetch.Failure? && caskFetch.Failure? ==>
        r == Failure(NotFoundMessage(name)) && cache == AfterLookup(old(cache), name, now)
    {
      var cached := GetFromCache(name, now);
      if cached.Some? && cached.value.FormulaData? {
        return Success(cached.value.formula);
      }
      ghost var afterRead := cache;
      if formulaFetch.Failure? {
        if caskFetch.Success? {
          Store(name, FormulaData(caskFetch.value), now);
          assert afterRead[name := CacheEntry(FormulaData(caskFetch.value), now)] ==
            old(cache)[name := CacheEntry(FormulaData(caskFetch.value), now)];
          return Success(caskFetch.value);
        }
        return Failure(NotFoundMessage(name));
      }
      var formula := formulaFetch.value;
      if localInstall.Success? && |localInstall.value| > 0 {
        formula := formula.(installed := localInstall.value);
      }
      Store(name, FormulaData(formula), now);
      assert afterRead[name := CacheEntry(FormulaData(formula), now)] ==
        old(cache)[name := CacheEntry(FormulaData(formula), now)];
      return Success(formula);
    }

    /** `Install` without the monitor's events: for each package in order, a
        `starting` event, then exactly one terminal event, `failed` with the
        error (progress still 0) or `completed` at 100. Always returns nil. */
    method Install(packages: seq<string>, runs: seq<PackageRun>)
      returns (events: seq<InstallationStatus>, err: Option<string>)
      requires |runs| == |packages|
      ensures err == None
      ensures |events| == 2 * |packages|
      ensures forall k :: 0 <= k < |packages| ==>
        events[2 * k] == InstallationStatus(packages[k], "starting", 0, runs[k].startTime, None)
      ensures forall k :: 0 <= k < |packages| && runs[k].outcome.Exited? ==>
        events[2 * k + 1] == InstallationStatus(packages[k], "completed", 100, runs[k].startTime, None)
      ensures forall k :: 0 <= k < |packages| && !runs[k].outcome.Exited? ==>
        events[2 * k + 1] == InstallationStatus(packages[k], "failed", 0, runs[k].startTime, Some(runs[k].outcome.err))
    {
      events := [];
      for i := 0 to |packages|
        invariant |events| == 2 * i
        invariant forall k :: 0 <= k < i ==>
          events[2 * k] == InstallationStatus(packages[k], "starting", 0, runs[k].startTime, None)
        invariant forall k :: 0 <= k < i && runs[k].outcome.Exited? ==>
          events[2 * k + 1] == InstallationStatus(packages[k], "completed", 100, runs[k].startTime, None)
        invariant forall k :: 0 <= k < i && !runs[k].outcome.Exited? ==>
          events[2 * k + 1] == InstallationStatus(packages[k], "failed", 0, runs[k].startTime, Some(runs[k].outcome.err))
      {
        var status := InstallationStatus(packages[i], "starting", 0, runs[i].startTime, None);
        events := events + [status];
        match runs[i].outcome
        case StdoutPipeError(e) =>
          status := status.(stage := "failed", error := Some(e));
          events := events + [status];
        case StderrPipeError(e) =>
          status := status.(stage := "failed", error := Some(e));
          events := events + [status];
        case StartError(e) =>
          status := status.(stage := "failed", error := Some(e));
          events := events + [status];
        case WaitError(e) =>
          status := status.(stage := "failed", error := Some(e));
          events := events + [status];
        case Exited =>
          status := status.(stage := "completed", progress := 100);
          events := events + [status];
      }
      err := None;
    }
  }

  // The catalog of the client's search test (four formulae, three casks)
  // searched for "git". Facts about the literal entries are proved one
  // entry at a time; the filters are then unfolded over abstract entries.

  /** A name that starts with "git" matches "git", whatever follows. */
  lemma GitPrefixContainsGit(rest: string)
    ensures Contains(Lower("git" + rest), "git")
  {
    LowerAppend("git", rest);
    assert Lower("git") == "git";
    assert Lower("git" + rest) == "" + "git" + Lower(rest);
    ContainsInfix("", "git", Lower(rest));
  }

  /** Neither case of `g` occurs in the text, so "git" does not occur in
      its lowered form. */
  lemma LoweredMissesGit(s: string)
    requires 'g' !in s && 'G' !in s
    ensures !Contains(Lower(s), "git")
  {
    LowerMissingLetter(s, 'g');
    NotContainsByMissingChar(Lower(s), "git", 0);
  }

  lemma NoLetterG(a: string, b: string)
    requires a == "JavaScript" && b == " runtime"
    ensures 'g' !in a + b && 'G' !in a + b
  {
  }

  lemma NodeMissesGit(node: FormulaListItem)
    requires node == FormulaListItem("node", "JavaScript runtime")
    ensures !FormulaMatches(node, "git")
  {
    LoweredMissesGit(node.name);
    assert node.desc == "JavaScript" + " runtime";
    NoLetterG("JavaScript", " runtime");
    LoweredMissesGit(node.desc);
  }

  lemma FirefoxMissesGit(c: CaskListItem)
    requires c == CaskListItem("firefox", ["Firefox"], "Web browser")
    ensures !CaskMatches(c, "git")
  {
    LoweredMissesGit(c.token);
    LoweredMissesGit(c.desc);
    LoweredMissesGit(c.names[0]);
    assert |c.names| == 1;
  }

  /** The formula filter over four entries of which the first three match. */
  lemma MatchingFirstThreeOfFour(f1: FormulaListItem, f2: FormulaListItem, f3: FormulaListItem, f4: FormulaListItem, t: string)
    requires FormulaMatches(f1, t) && FormulaMatches(f2, t) && FormulaMatches(f3, t) && !FormulaMatches(f4, t)
    ensures MatchingFormulae([f1, f2, f3, f4], t) == [f1.name, f2.name, f3.name]
  {
    assert [f1][..0] == [];
    assert MatchingFormulae([f1], t) == [f1.name];
    assert [f1, f2][..1] == [f1];
    assert MatchingFormulae([f1, f2], t) == [f1.name, f2.name];
    assert [f1, f2, f3][..2] == [f1, f2];
    assert MatchingFormulae([f1, f2, f3], t) == [f1.name, f2.name, f3.name];
    assert [f1, f2, f3, f4][..3] == [f1, f2, f3];
  }

  /** The cask filter over three entries of which the first two match. */
  lemma MatchingFirstTwoOfThree(c1: CaskListItem, c2: CaskListItem, c3: CaskListItem, t: string)
    requires CaskMatches(c1, t) && CaskMatches(c2, t) && !CaskMatches(c3, t)
    ensures MatchingCasks([c1, c2, c3], t) == [c1.token, c2.token]
  {
    assert [c1][..0] == [];
    assert MatchingCasks([c1], t) == [c1.token];
    assert [c1, c2][..1] == [c1];
    assert MatchingCasks([c1, c2], t) == [c1.token, c2.token];
    assert [c1, c2, c3][..2] == [c1, c2];
  }

  /** The test's formulae: `git`, `github-cli` and `gitlab-runner` match
      "git", `node` does not. */
  lemma SearchTestFormulae(items: seq<FormulaListItem>)
    requires items == [
      FormulaListItem("git", "Distributed version control"),
      FormulaListItem("github-cli", "GitHub command line"),
      FormulaListItem("gitlab-runner", "GitLab CI runner"),
      FormulaListItem("node", "JavaScript runtime")]
    ensures MatchingFormulae(items, "git") == ["git", "github-cli", "gitlab-runner"]
  {
    assert items[0].name == "git" + "";
    GitPrefixContainsGit("");
    assert items[1].name == "git" + "hub-cli";
    GitPrefixContainsGit("hub-cli");
    assert items[2].name == "git" + "lab-runner";
    GitPrefixContainsGit("lab-runner");
    NodeMissesGit(items[3]);
    assert items == [items[0], items[1], items[2], items[3]];
    MatchingFirstThreeOfFour(items[0], items[1], items[2], items[3], "git");
  }

  /** The test's casks: `github` and `gitkraken` match "git" by their
      tokens, `firefox` matches nowhere. */
  lemma SearchTestCasks(items: seq<CaskListItem>)
    requires items == [
      CaskListItem("github", ["GitHub Desktop"], "GitHub desktop app"),
      CaskListItem("gitkraken", ["GitKraken"], "Git GUI"),
      CaskListItem("firefox", ["Firefox"], "Web browser")]
    ensures MatchingCasks(items, "git") == ["github", "gitkraken"]
  {
    assert items[0].token == "git" + "hub";
    GitPrefixContainsGit("hub");
    assert items[1].token == "git" + "kraken";
    GitPrefixContainsGit("kraken");
    FirefoxMissesGit(items[2]);
    assert items == [items[0], items[1], items[2]];
    MatchingFirstTwoOfThree(items[0], items[1], items[2], "git");
  }

  /** The client's search test: a catalog stamped at `t` and searched at
      `t` is not reloaded; "git" finds at least two formulae and at least
      two casks (exactly `git`, `github-cli`, `gitlab-runner` and `github`,
      `gitkraken`); "GIT" finds the same formulae. */
  lemma SearchTestCatalogExample(formulae: seq<FormulaListItem>, casks: seq<CaskListItem>, t: int)
    requires formulae == [
      FormulaListItem("git", "Distributed version control"),
      FormulaListItem("github-cli", "GitHub command line"),
      FormulaListItem("gitlab-runner", "GitLab CI runner"),
      FormulaListItem("node", "JavaScript runtime")]
    requires casks == [
      CaskListItem("github", ["GitHub Desktop"], "GitHub desktop app"),
      CaskListItem("gitkraken", ["GitKraken"], "Git GUI"),
      CaskListItem("firefox", ["Firefox"], "Web browser")]
    ensures !NeedsRefresh(CatalogSnapshot(formulae, casks, t), t)
    ensures MatchingFormulae(formulae, Lower("git")) == ["git", "github-cli", "gitlab-runner"]
    ensures MatchingCasks(casks, Lower("git")) == ["github", "gitkraken"]
    ensures |MatchingFormulae(formulae, Lower("git"))| >= 2 && |MatchingCasks(casks, Lower("git"))| >= 2
    ensures MatchingFormulae(formulae, Lower("GIT")) == MatchingFormulae(formulae, Lower("git"))
  {
    assert Lower("git") == "git";
    assert Lower("GIT") == "git";
    SearchTestFormulae(formulae);
    SearchTestCasks(casks);
  }
}
