/** The integer formatting and display decisions of goobrew's terminal user
    interface: durations, byte sizes, the zero-total progress bar, and what
    the installed list, the search results and the progress line show. The
    terminal output itself (colour codes, icons, padding) is not modelled;
    each printer is reduced to the value it decides to show. */
module Ui {
  import opened Wrappers
  import opened GoTime
  import opened Text
  import opened Homebrew

  // ---------------------------------------------------------------------
  // Integer division facts used below

  /** A positive multiple of a positive number is at least that number. */
  lemma {:induction false} MulGrows(k: int, b: int)
    requires k >= 1 && b > 0
    ensures k * b >= b
  {
    if k > 1 {
      MulGrows(k - 1, b);
      assert k * b == (k - 1) * b + b;
    }
  }

  lemma {:induction false} MulMonotone(k: int, j: int, b: int)
    requires 0 <= k <= j && b > 0
    ensures k * b <= j * b
  {
    if k < j {
      MulGrows(j - k, b);
      assert (j - k) * b == j * b - k * b;
    }
  }

  /** A quotient is pinned down by the interval the dividend falls in. */
  lemma DivUnique(x: int, b: int, q: int)
    requires b > 0 && q * b <= x < q * b + b
    ensures x / b == q && x % b == x - q * b
  {
    var q', r' := x / b, x % b;
    assert x == q' * b + r';
    if q' > q {
      MulGrows(q' - q, b);
    } else if q' < q {
      MulGrows(q - q', b);
    }
  }

  /** Dividing twice is dividing by the product. */
  lemma DivDiv(x: int, a: int, b: int)
    requires x >= 0 && a > 0 && b > 0
    ensures (x / a) / b == x / (a * b)
  {
    var q, rx := x / a, x % a;
    var q2, rq := q / b, q % b;
    assert x == q * a + rx;
    assert q == q2 * b + rq;
    assert q * a == q2 * (a * b) + rq * a;
    MulMonotone(rq, b - 1, a);
    assert (b - 1) * a == a * b - a;
    DivUnique(x, a * b, q2);
  }

  // ---------------------------------------------------------------------
  // Durations

  /** `FormatDuration`: under a second (negative durations included) "< 1s",
      then whole seconds, then minutes and seconds, then hours and minutes,
      every count truncated. */
  function FormatDuration(d: int): (r: string)
    ensures |r| >= 2
    ensures d < Second ==> r == "< 1s"
    ensures d < Second <==> r[0] == '<'
  {
    if d < Second then "< 1s"
    else if d < Minute then NatToString(d / Second) + "s"
    else if d < Hour then NatToString(d / Minute) + "m " + NatToString((d / Second) % 60) + "s"
    else NatToString(d / Hour) + "h " + NatToString((d / Minute) % 60) + "m"
  }

  /** From one second to one minute: the number of whole seconds elapsed. */
  lemma FormatDurationSeconds(d: int, s: nat)
    requires Second <= d < Minute
    requires s * Second <= d < (s + 1) * Second
    ensures FormatDuration(d) == NatToString(s) + "s"
  {
    DivUnique(d, Second, s);
  }

  /** A duration between `big` and `big` plus one `unit`, where a big unit
      is sixty small ones, counts `big` big units and `small` small ones
      left over. */
  lemma SplitUnits(d: int, unit: int, big: nat, small: nat)
    requires unit > 0 && small < 60
    requires big * (60 * unit) + small * unit <= d < big * (60 * unit) + (small + 1) * unit
    ensures d / (60 * unit) == big && (d / unit) % 60 == small
  {
    assert big * (60 * unit) == (big * 60) * unit;
    assert (small + 1) * unit <= 60 * unit by {
      MulMonotone(small + 1, 60, unit);
    }
    DivUnique(d, 60 * unit, big);
    assert (big * 60 + small) * unit == (big * 60) * unit + small * unit;
    assert (big * 60 + small) * unit + unit == (big * 60) * unit + (small + 1) * unit;
    DivUnique(d, unit, big * 60 + small);
    DivUnique(big * 60 + small, 60, big);
  }

  /** From one minute to one hour: whole minutes, then the whole seconds
      left over, which are fewer than sixty. */
  lemma FormatDurationMinutes(d: int, m: nat, s: nat)
    requires Minute <= d < Hour
    requires s < 60 && m * Minute + s * Second <= d < m * Minute + (s + 1) * Second
    ensures FormatDuration(d) == NatToString(m) + "m " + NatToString(s) + "s"
  {
    SplitUnits(d, Second, m, s);
  }

  /** From one hour on: whole hours, then the whole minutes left over, which
      are fewer than sixty. */
  lemma FormatDurationHours(d: int, h: nat, m: nat)
    requires d >= Hour
    requires m < 60 && h * Hour + m * Minute <= d < h * Hour + (m + 1) * Minute
    ensures FormatDuration(d) == NatToString(h) + "h " + NatToString(m) + "m"
  {
    SplitUnits(d, Minute, h, m);
  }

  /** The durations listed by the interface's tests. */
  lemma FormatDurationExamples()
    ensures FormatDuration(500 * Millisecond) == "< 1s"
    ensures FormatDuration(1 * Second) == "1s"
    ensures FormatDuration(30 * Second) == "30s"
    ensures FormatDuration(90 * Second) == "1m 30s"
    ensures FormatDuration(90 * Minute) == "1h 30m"
  {
    FormatDurationSeconds(1 * Second, 1);
    FormatDurationSeconds(30 * Second, 30);
    FormatDurationMinutes(90 * Second, 1, 30);
    FormatDurationHours(90 * Minute, 1, 30);
  }

  // ---------------------------------------------------------------------
  // Byte sizes

  function Pow1024(e: nat): (p: nat)
    ensures p >= 1
  {
    if e == 0 then 1 else 1024 * Pow1024(e - 1)
  }

  /** What `FormatSize` prints: bytes as a decimal integer below 1024, or
      otherwise `bytes / div` with one decimal place followed by the unit
      letter `unit` for `div == 1024^(exp + 1)`. */
  datatype SizeText =
    | Plain(text: string)
    | Scaled(bytes: int, div: int, exp: nat, unit: char)

  /** The number of further divisions the loop performs on `n`. */
  function ExtraDivisions(n: int): nat
    decreases n
  {
    if n < 1024 then 0 else 1 + ExtraDivisions(n / 1024)
  }

  /** The exponent `FormatSize` selects for a size of at least 1024 bytes. */
  function SizeExponent(bytes: int): nat {
    ExtraDivisions(bytes / 1024)
  }

  lemma {:induction false} PowBounds(e: nat)
    ensures e >= 7 ==> Pow1024(e) > MaxInt64
    ensures Pow1024(e + 1) == 1024 * Pow1024(e)
  {
    if e > 7 {
      PowBounds(e - 1);
    }
  }

  /** The selected exponent is the one whose scale fits the size: the size
      lies in [1024^(e+1), 1024^(e+2)). */
  lemma {:induction false} SizeExponentBounds(bytes: int)
    requires bytes >= 1024
    ensures Pow1024(SizeExponent(bytes) + 1) <= bytes < Pow1024(SizeExponent(bytes) + 2)
    decreases bytes
  {
    var n := bytes / 1024;
    DivUnique(bytes, 1024, n);
    if n >= 1024 {
      SizeExponentBounds(n);
      DivDiv(bytes, 1024, 1024);
      assert SizeExponent(bytes) == 1 + SizeExponent(n);
      var e := SizeExponent(n);
      assert Pow1024(e + 2) == 1024 * Pow1024(e + 1);
      assert Pow1024(e + 3) == 1024 * Pow1024(e + 2);
    }
  }

  /** That interval determines the exponent: no other scale fits. */
  lemma SizeExponentUnique(bytes: int, e: nat)
    requires Pow1024(e + 1) <= bytes < Pow1024(e + 2)
    ensures e == SizeExponent(bytes)
  {
    SizeExponentBounds(bytes);
    var f := SizeExponent(bytes);
    if e < f {
      PowMonotone(e + 2, f + 1);
    } else if f < e {
      PowMonotone(f + 2, e + 1);
    }
  }

  lemma {:induction false} PowMonotone(i: nat, j: nat)
    requires i <= j
    ensures Pow1024(i) <= Pow1024(j)
    decreases j
  {
    if i < j {
      PowMonotone(i, j - 1);
    }
  }

  /** One more turn of the unit loop keeps the scale within the size. */
  lemma ScaleStep(bytes: int, div: int, n: int)
    requires bytes >= 0 && div > 0 && n == bytes / div && n >= 1024
    ensures div * 1024 <= bytes && n / 1024 == bytes / (div * 1024)
  {
    assert bytes == n * div + bytes % div;
    MulMonotone(1024, n, div);
    DivDiv(bytes, div, 1024);
  }

  /** When the unit loop stops, the size is below 1024 of the final scale. */
  lemma ScaleExit(bytes: int, div: int, n: int)
    requires bytes >= 0 && div > 0 && n == bytes / div && 0 <= n < 1024
    ensures bytes < 1024 * div
  {
    assert bytes == n * div + bytes % div;
    MulMonotone(n + 1, 1024, div);
    assert (n + 1) * div == n * div + div;
  }

  /** `FormatSize`: below 1024 (negative counts included) the count itself;
      otherwise the loop divides `n` by 1024 while it is still at least 1024,
      growing `div` and `exp` with it. `exp` never exceeds 5 on a 64-bit
      count, so the unit letter is always in "KMGTPE" and `div` never
      overflows. */
  method FormatSize(bytes: int) returns (r: SizeText)
    requires IsInt64(bytes)
    ensures bytes < 1024 ==> r == Plain(IntToString(bytes) + " B")
    ensures bytes >= 1024 ==> r.Scaled? && r.bytes == bytes && r.exp == SizeExponent(bytes)
    ensures bytes >= 1024 ==> r.div == Pow1024(r.exp + 1) && r.div <= bytes < 1024 * r.div
    ensures bytes >= 1024 ==> r.exp <= 5 && IsInt64(r.div) && r.unit == "KMGTPE"[r.exp]
  {
    if bytes < 1024 {
      return Plain(IntToString(bytes) + " B");
    }
    var div, exp := 1024, 0;
    var n := bytes / 1024;
    DivUnique(bytes, 1024, n);
    while n >= 1024
      invariant div == Pow1024(exp + 1) && div <= bytes && IsInt64(div)
      invariant n == bytes / div
      invariant exp + ExtraDivisions(n) == SizeExponent(bytes)
      decreases n
    {
      ScaleStep(bytes, div, n);
      div := div * 1024;
      exp := exp + 1;
      n := n / 1024;
    }
    ScaleExit(bytes, div, n);
    PowBounds(exp + 1);
    r := Scaled(bytes, div, exp, "KMGTPE"[exp]);
  }

  /** The sizes listed by the interface's tests, by their exponent. The
      1536 KiB case is one and a half of its unit. */
  lemma FormatSizeExamples()
    ensures IntToString(500) + " B" == "500 B"
    ensures SizeExponent(1024) == 0 && "KMGTPE"[0] == 'K' && Pow1024(1) == 1024
    ensures SizeExponent(1024 * 1024) == 1 && "KMGTPE"[1] == 'M'
    ensures SizeExponent(1536 * 1024) == 1 && 2 * (1536 * 1024) == 3 * Pow1024(2)
    ensures SizeExponent(1024 * 1024 * 1024) == 2 && "KMGTPE"[2] == 'G'
  {
    SizeExponentUnique(1024, 0);
    SizeExponentUnique(1024 * 1024, 1);
    SizeExponentUnique(1536 * 1024, 1);
    SizeExponentUnique(1024 * 1024 * 1024, 2);
  }

  // ---------------------------------------------------------------------
  // Progress bar

  /** What `ProgressBar` returns: a drawn bar, a proportional bar (its
      floating-point fill and percentage are not modelled), or the panic of
      `strings.Repeat` on a negative count. */
  datatype Bar = Drawn(text: string) | Proportional(current: int, total: int, width: int) | RepeatPanics

  const FullCell: char := '━'

  /** `ProgressBar`: a zero total draws the whole width full. */
  function ProgressBar(current: int, total: int, width: int): (r: Bar)
    ensures total == 0 && width >= 0 ==> r.Drawn? && |r.text| == width
    ensures total == 0 && width >= 0 ==> forall i :: 0 <= i < |r.text| ==> r.text[i] == FullCell
    ensures total == 0 && width < 0 ==> r == RepeatPanics
    ensures total != 0 ==> r == Proportional(current, total, width)
  {
    if total == 0 then
      if width < 0 then RepeatPanics
      else
        RepeatChar(FullCell, width);
        Drawn(Repeat([FullCell], width))
    else Proportional(current, total, width)
  }

  // ---------------------------------------------------------------------
  // Installed list

  /** The status mark of a row: green dot, yellow dot or pin. */
  datatype StatusMark = UpToDate | OutdatedMark | PinnedMark

  /** The icon starts as up to date, becomes outdated if the formula is
      outdated, and becomes the pin if it is pinned, in that order. */
  function StatusOf(f: Formula): (r: StatusMark)
    ensures r == PinnedMark <==> f.pinned
    ensures r == OutdatedMark <==> f.outdated && !f.pinned
    ensures r == UpToDate <==> !f.outdated && !f.pinned
  {
    var initial := UpToDate;
    var afterOutdated := if f.outdated then OutdatedMark else initial;
    if f.pinned then PinnedMark else afterOutdated
  }

  /** The version column: the version of the last installation, or empty. */
  function RowVersion(f: Formula): (r: string)
    ensures |f.installed| == 0 ==> r == ""
    ensures |f.installed| > 0 ==> r == f.installed[|f.installed| - 1].version
  {
    if |f.installed| > 0 then f.installed[|f.installed| - 1].version else ""
  }

  const DescriptionLimit: int := 50

  /** A description over 50 characters is cut to 47 and ends in "...". */
  function ShortDescription(desc: string): (r: string)
    ensures |r| <= DescriptionLimit
    ensures |desc| <= DescriptionLimit ==> r == desc
    ensures |desc| > DescriptionLimit ==> |r| == DescriptionLimit && r[..47] == desc[..47] && r[47..] == "..."
  {
    if |desc| > DescriptionLimit then desc[..47] + "..." else desc
  }

  /** Shortening a description a second time changes nothing. */
  lemma ShortDescriptionIdempotent(desc: string)
    ensures ShortDescription(ShortDescription(desc)) == ShortDescription(desc)
  {
  }

  datatype InstalledRow = InstalledRow(status: StatusMark, name: string, version: string, desc: Option<string>)

  /** One row of `PrintInstalledList`; an empty description is not shown. */
  function RowOf(f: Formula): (r: InstalledRow)
    ensures r.name == f.name && r.status == StatusOf(f) && r.version == RowVersion(f)
    ensures r.desc.None? <==> f.desc == ""
    ensures r.desc.Some? ==> r.desc.value == ShortDescription(f.desc)
  {
    InstalledRow(StatusOf(f), f.name, RowVersion(f), if f.desc == "" then None else Some(ShortDescription(f.desc)))
  }

  datatype InstalledListing = NoPackagesInstalled | Packages(count: nat, rows: seq<InstalledRow>)

  /** `PrintInstalledList`: the warning for an empty list, otherwise the
      total and one row per formula in order. */
  function InstalledList(formulae: seq<Formula>): (r: InstalledListing)
    ensures r.NoPackagesInstalled? <==> |formulae| == 0
    ensures r.Packages? ==> r.count == |formulae| && |r.rows| == |formulae|
    ensures r.Packages? ==> forall i :: 0 <= i < |formulae| ==> r.rows[i] == RowOf(formulae[i])
  {
    if |formulae| == 0 then NoPackagesInstalled
    else Packages(|formulae|, seq(|formulae|, i requires 0 <= i < |formulae| => RowOf(formulae[i])))
  }

  /** After `GetFormula` merged a non-empty local installation list, the row
      shows the version of the last local installation. */
  lemma RowShowsLatestLocalInstall(f: Formula, local: seq<InstalledInfo>)
    requires |local| > 0
    ensures RowOf(MergeLocalInstall(f, Success(local))).version == local[|local| - 1].version
  {
  }

  // ---------------------------------------------------------------------
  // Search results

  datatype Summary = NoResultsFound | Total(count: nat)

  /** The sections `PrintSearchResults` shows (a section only when it has
      entries) and its closing line. */
  datatype SearchReport = SearchReport(formulae: Option<seq<string>>, casks: Option<seq<string>>, summary: Summary)

  function SearchResults(formulae: seq<string>, casks: seq<string>): (r: SearchReport)
    ensures r.formulae.Some? <==> |formulae| > 0
    ensures r.formulae.Some? ==> r.formulae.value == formulae
    ensures r.casks.Some? <==> |casks| > 0
    ensures r.casks.Some? ==> r.casks.value == casks
    ensures r.summary == NoResultsFound <==> |formulae| + |casks| == 0
    ensures r.summary.Total? ==> r.summary.count == |formulae| + |casks| && r.summary.count > 0
  {
    var total := |formulae| + |casks|;
    SearchReport(
      if |formulae| > 0 then Some(formulae) else None,
      if |casks| > 0 then Some(casks) else None,
      if total == 0 then NoResultsFound else Total(total))
  }

  /** A search in which nothing matches reports "No results found". */
  lemma NoMatchesReportNoResults(s: CatalogSnapshot, lowerTerm: string)
    requires forall i :: 0 <= i < |s.formulae| ==> !FormulaMatches(s.formulae[i], lowerTerm)
    requires forall i :: 0 <= i < |s.casks| ==> !CaskMatches(s.casks[i], lowerTerm)
    ensures SearchResults(MatchingFormulae(s.formulae, lowerTerm), MatchingCasks(s.casks, lowerTerm)) ==
      SearchReport(None, None, NoResultsFound)
  {
    NoMatchesGiveEmptyResults(s.formulae, s.casks, lowerTerm);
  }

  // ---------------------------------------------------------------------
  // Install progress

  datatype Icon = IconDownload | IconInstall | IconLink | IconSuccess | IconError
  datatype Color = Blue | Yellow | Magenta | Green | Red | Cyan
  datatype Style = Style(icon: Icon, color: Color)

  /** The style a stage not listed in the switch keeps. */
  const DefaultStyle: Style := Style(IconInstall, Cyan)

  /** The stages the switch of `PrintInstallProgress` lists. */
  const StyledStages: seq<string> := ["downloading", "installing", "linking", "completed", "failed"]

  /** The style of the progress line for a stage. */
  function StageStyle(stage: string): (r: Style)
    ensures r == DefaultStyle <==> stage !in StyledStages
  {
    if stage == "downloading" then Style(IconDownload, Blue)
    else if stage == "installing" then Style(IconInstall, Yellow)
    else if stage == "linking" then Style(IconLink, Magenta)
    else if stage == "completed" then Style(IconSuccess, Green)
    else if stage == "failed" then Style(IconError, Red)
    else DefaultStyle
  }

  /** Different listed stages are drawn differently. */
  lemma StageStylesDistinct(a: string, b: string)
    requires a in StyledStages && b in StyledStages && a != b
    ensures StageStyle(a) != StageStyle(b)
  {
  }

  /** What the progress line of `PrintInstallProgress` shows. */
  datatype ProgressLine = ProgressLine(style: Style, formula: string, stage: string, elapsed: string, error: Option<string>)

  function ProgressLineOf(status: InstallationStatus, now: int): (r: ProgressLine)
    ensures r.style == StageStyle(status.stage) && r.formula == status.formula && r.stage == status.stage
    ensures r.elapsed == FormatDuration(Since(now, status.startTime))
    ensures r.error == status.error
  {
    ProgressLine(StageStyle(status.stage), status.formula, status.stage, FormatDuration(Since(now, status.startTime)), status.error)
  }

  /** Every event the output classifier produces has a stage of its own
      style, never the default. */
  lemma ParsedEventsAreStyled(pkg: string, line: string)
    requires ParseInstallOutput(pkg, line).Some?
    ensures StageStyle(ParseInstallOutput(pkg, line).value.stage) != DefaultStyle
  {
    ParseInstallOutputFollowsTable(pkg, line);
  }

  /** The events `Install` emits: `starting` keeps the default style, the
      terminal events are drawn as success or error, and a failed event
      shows its error. */
  lemma InstallEventStyles(pkg: string, start: int, err: string, now: int)
    ensures ProgressLineOf(InstallationStatus(pkg, "starting", 0, start, None), now).style == DefaultStyle
    ensures ProgressLineOf(InstallationStatus(pkg, "completed", 100, start, None), now).style == Style(IconSuccess, Green)
    ensures ProgressLineOf(InstallationStatus(pkg, "failed", 0, start, Some(err)), now).style == Style(IconError, Red)
    ensures ProgressLineOf(InstallationStatus(pkg, "failed", 0, start, Some(err)), now).error == Some(err)
  {
  }
}
