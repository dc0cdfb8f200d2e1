/**
 * What the five dimension checks of the analyzer compute, and how they are
 * combined into the report's total.
 *
 * Each dimension is a pure function of plain inputs: the root file names, the
 * README text, and the day count since the last push. The class in module
 * Analyzer computes them step by step and is proved to agree with these
 * definitions.
 */
module Scoring {
  import opened Wrappers
  import opened Text
  import opened Decimal

  /** One dimension of the report: a score and the sentence that explains it. */
  datatype DimensionResult = DimensionResult(score: int, details: string)

  datatype Dimensions = Dimensions(
    completeness: DimensionResult,
    normativeness: DimensionResult,
    readability: DimensionResult,
    timeliness: DimensionResult,
    usability: DimensionResult)

  /** The analysis result: `owner/repo`, the total rendered with one decimal, the five dimensions. */
  datatype Report = Report(repo: string, totalScore: string, dimensions: Dimensions)

  const NoContentText: string := "未检测到内容或下载失败"
  const AllPresentText: string := "所有关键文件齐全"
  const MissingPrefix: string := "缺失文件: "
  const WellFormedText: string := "Markdown格式规范"
  const UnclearStructureText: string := "缺少代码块或标题层级不清晰"
  const RichVisualsText: string := "图文并茂"
  const NeedsImagesText: string := "建议添加图片或架构图"
  const HasInstallText: string := "包含安装/运行命令"
  const LacksInstallText: string := "缺少明确的安装或启动命令"
  const LastPushPrefix: string := "最后提交于 "
  const LastPushSuffix: string := " 天前"

  /** `points` when the signal is present, none otherwise. */
  function Bonus(present: bool, points: int): int {
    if present then points else 0
  }

  // ------------------------------------------------------------------
  // Completeness
  // ------------------------------------------------------------------

  /** A key file the listing is searched for: its report name and its name prefix. */
  datatype FileCheck = FileCheck(key: string, prefix: string)

  const Checks: seq<FileCheck> := [
    FileCheck("README", "readme"),
    FileCheck("LICENSE", "license"),
    FileCheck("CONTRIBUTING", "contributing"),
    FileCheck("CODE_OF_CONDUCT", "code_of_conduct")
  ]

  /** `files.some(f => /^prefix/i.test(f))` */
  predicate HasFileStartingWith(files: seq<string>, prefix: string) {
    exists f :: f in files && StartsWithIgnoringCase(f, prefix)
  }

  /** The key of `check` when no file name satisfies it, nothing otherwise. */
  function Absent(files: seq<string>, check: FileCheck): (m: seq<string>)
    ensures |m| == if HasFileStartingWith(files, check.prefix) then 0 else 1
  {
    if HasFileStartingWith(files, check.prefix) then [] else [check.key]
  }

  /** The keys of the checks that no file name satisfies, in the order of `checks`. */
  function MissingKeys(files: seq<string>, checks: seq<FileCheck>): (m: seq<string>)
    ensures |m| <= |checks|
  {
    if checks == [] then [] else Absent(files, checks[0]) + MissingKeys(files, checks[1..])
  }

  lemma {:induction false} MissingKeysAppend(files: seq<string>, a: seq<FileCheck>, b: seq<FileCheck>)
    ensures MissingKeys(files, a + b) == MissingKeys(files, a) + MissingKeys(files, b)
  {
    if a != [] {
      assert (a + b)[0] == a[0];
      assert (a + b)[1..] == a[1..] + b;
      MissingKeysAppend(files, a[1..], b);
      var head := Absent(files, a[0]);
      calc {
        MissingKeys(files, a + b);
        head + MissingKeys(files, a[1..] + b);
        head + (MissingKeys(files, a[1..]) + MissingKeys(files, b));
        (head + MissingKeys(files, a[1..])) + MissingKeys(files, b);
      }
    } else {
      assert a + b == b;
    }
  }

  /** How many of the four key files the listing has, counted one prefix at a time. */
  function PresentCount(files: seq<string>): nat {
    (if HasFileStartingWith(files, "readme") then 1 else 0)
    + (if HasFileStartingWith(files, "license") then 1 else 0)
    + (if HasFileStartingWith(files, "contributing") then 1 else 0)
    + (if HasFileStartingWith(files, "code_of_conduct") then 1 else 0)
  }

  /** The missing keys are exactly the unmatched ones, in the fixed order of the checks. */
  lemma MissingKeysOfChecks(files: seq<string>)
    ensures MissingKeys(files, Checks) ==
      Absent(files, Checks[0]) + Absent(files, Checks[1]) + Absent(files, Checks[2]) + Absent(files, Checks[3])
    ensures |MissingKeys(files, Checks)| == 4 - PresentCount(files)
  {
    var c1 := Checks[1..];
    var c2 := c1[1..];
    var c3 := c2[1..];
    assert c3[1..] == [];
    assert MissingKeys(files, c3) == Absent(files, Checks[3]);
    assert MissingKeys(files, c2) == Absent(files, Checks[2]) + MissingKeys(files, c3);
    assert MissingKeys(files, c1) == Absent(files, Checks[1]) + MissingKeys(files, c2);
  }

  /** `array.join(sep)` */
  function Join(parts: seq<string>, sep: string): string {
    if parts == [] then ""
    else if |parts| == 1 then parts[0]
    else parts[0] + sep + Join(parts[1..], sep)
  }

  lemma JoinPair(a: string, b: string, sep: string)
    ensures Join([a, b], sep) == a + sep + b
  {
    assert [a, b][1..] == [b];
  }

  function CompletenessDetails(missing: seq<string>): (d: string)
    ensures d == AllPresentText <==> missing == []
  {
    if missing == [] then AllPresentText
    else
      var d := MissingPrefix + Join(missing, ", ");
      assert d[0] != AllPresentText[0];
      d
  }

  /**
   * The completeness dimension: 25 points per key file whose name prefix
   * starts some root file name, ignoring case; the details name the missing
   * keys, or say that all are present.
   */
  function Completeness(files: seq<string>): (r: DimensionResult)
    ensures r.score == 25 * PresentCount(files)
    ensures r.score in {0, 25, 50, 75, 100}
    ensures files == [] ==> r.score == 0
    ensures r.details == AllPresentText <==> PresentCount(files) == 4
    ensures r.details != AllPresentText ==> r.details == MissingPrefix + Join(MissingKeys(files, Checks), ", ")
  {
    MissingKeysOfChecks(files);
    var missing := MissingKeys(files, Checks);
    DimensionResult(25 * (|Checks| - |missing|), CompletenessDetails(missing))
  }

  /** A listing that gains file names never loses completeness. */
  lemma CompletenessMonotone(files: seq<string>, more: seq<string>)
    requires forall f :: f in files ==> f in more
    ensures Completeness(files).score <= Completeness(more).score
  {
  }

  // ------------------------------------------------------------------
  // Normativeness, readability, usability: README text only
  // ------------------------------------------------------------------

  /**
   * Normativeness: no text scores 0; otherwise 60, plus 10 for a level-1
   * heading, 10 for a level-2 heading and 20 for a fenced code block. The
   * details only reflect the code block.
   */
  function Normativeness(content: string): (r: DimensionResult)
    ensures content == [] <==> r.score == 0
    ensures content == [] ==> r.details == NoContentText
    ensures content != [] ==> r.score in {60, 70, 80, 90, 100}
    ensures content != [] ==> (r.details == WellFormedText <==> HasCodeBlock(content))
    ensures content != [] && !HasCodeBlock(content) ==> r.details == UnclearStructureText
    ensures content != [] ==>
      (r.score >= 80 <==> HasCodeBlock(content) || (HasLevel1Heading(content) && HasLevel2Heading(content)))
    ensures content != [] ==>
      (r.score == 100 <==> HasCodeBlock(content) && HasLevel1Heading(content) && HasLevel2Heading(content))
    ensures content != [] ==>
      (r.score == 60 <==> !HasCodeBlock(content) && !HasLevel1Heading(content) && !HasLevel2Heading(content))
    ensures content != [] ==>
      (r.score == 90 <==> HasCodeBlock(content) && HasLevel1Heading(content) != HasLevel2Heading(content))
    ensures content != [] ==>
      (r.score == 70 <==> !HasCodeBlock(content) && HasLevel1Heading(content) != HasLevel2Heading(content))
  {
    if content == [] then DimensionResult(0, NoContentText)
    else
      var code := HasCodeBlock(content);
      DimensionResult(
        60 + Bonus(HasLevel1Heading(content), 10) + Bonus(HasLevel2Heading(content), 10) + Bonus(code, 20),
        if code then WellFormedText else UnclearStructureText)
  }

  /**
   * Readability: no text scores 0; otherwise 50, plus 30 for an image and
   * 20 for a list. The details only reflect the image.
   */
  function Readability(content: string): (r: DimensionResult)
    ensures content == [] <==> r.score == 0
    ensures content == [] ==> r.details == NoContentText
    ensures content != [] ==> r.score in {50, 70, 80, 100}
    ensures content != [] ==> (r.score == 80 || r.score == 100 <==> HasImage(content))
    ensures content != [] ==> (r.score == 70 || r.score == 100 <==> HasList(content))
    ensures content != [] ==> (r.details == RichVisualsText <==> HasImage(content))
    ensures content != [] && !HasImage(content) ==> r.details == NeedsImagesText
  {
    if content == [] then DimensionResult(0, NoContentText)
    else
      var images := HasImage(content);
      DimensionResult(
        50 + Bonus(images, 30) + Bonus(HasList(content), 20),
        if images then RichVisualsText else NeedsImagesText)
  }

  /**
   * Usability: no text scores 0; otherwise 50, plus 30 for an install
   * command and 20 for a usage, example or demo mention. The details only
   * reflect the install command.
   */
  function Usability(content: string): (r: DimensionResult)
    ensures content == [] <==> r.score == 0
    ensures content == [] ==> r.details == NoContentText
    ensures content != [] ==> r.score in {50, 70, 80, 100}
    ensures content != [] ==> (r.score == 80 || r.score == 100 <==> HasInstallCommand(content))
    ensures content != [] ==> (r.score == 70 || r.score == 100 <==> HasUsageHint(content))
    ensures content != [] ==> (r.details == HasInstallText <==> HasInstallCommand(content))
    ensures content != [] && !HasInstallCommand(content) ==> r.details == LacksInstallText
  {
    if content == [] then DimensionResult(0, NoContentText)
    else
      var install := HasInstallCommand(content);
      DimensionResult(
        50 + Bonus(install, 30) + Bonus(HasUsageHint(content), 20),
        if install then HasInstallText else LacksInstallText)
  }

  /** Usability ignores ASCII case: lower-casing the README does not change it. */
  lemma UsabilityIgnoresCase(content: string)
    ensures Usability(LowerAscii(content)) == Usability(content)
  {
    var low := LowerAscii(content);
    assert low == [] <==> content == [];
    ContainsIgnoringCaseOfLower(content, "npm install");
    ContainsIgnoringCaseOfLower(content, "pip install");
    ContainsIgnoringCaseOfLower(content, "go get");
    ContainsIgnoringCaseOfLower(content, "cargo build");
    ContainsIgnoringCaseOfLower(content, "yarn add");
    ContainsIgnoringCaseOfLower(content, "usage");
    ContainsIgnoringCaseOfLower(content, "example");
    ContainsIgnoringCaseOfLower(content, "demo");
  }

  // ------------------------------------------------------------------
  // Timeliness
  // ------------------------------------------------------------------

  const MsPerDay: nat := 1000 * 60 * 60 * 24

  /** A JavaScript day count: a whole number, or NaN when the push date is not a valid date. */
  datatype DayCount = Days(n: int) | NaN

  /**
   * `Math.floor((now - lastUpdate) / MsPerDay)` on millisecond timestamps;
   * `None` stands for a push date that does not parse.
   */
  function ElapsedDays(pushedAt: Option<int>, now: int): (d: DayCount)
    ensures pushedAt.None? <==> d.NaN?
    ensures pushedAt.Some? ==> d.n * MsPerDay <= now - pushedAt.value < (d.n + 1) * MsPerDay
  {
    match pushedAt
    case None => NaN
    case Some(t) => Days((now - t) / MsPerDay)
  }

  function DayCountText(d: DayCount): string {
    match d
    case NaN => "NaN"
    case Days(n) => IntToString(n)
  }

  /** The score bands; every comparison with NaN is false, so NaN keeps the initial 100. */
  function TimelinessScore(d: DayCount): (s: int)
    ensures s in {40, 60, 80, 100}
    ensures d.NaN? ==> s == 100
    ensures d.Days? ==> (s == 100 <==> d.n <= 90)
    ensures d.Days? ==> (s == 80 <==> 90 < d.n <= 180)
    ensures d.Days? ==> (s == 60 <==> 180 < d.n <= 365)
    ensures d.Days? ==> (s == 40 <==> 365 < d.n)
  {
    match d
    case NaN => 100
    case Days(n) => if n > 365 then 40 else if n > 180 then 60 else if n > 90 then 80 else 100
  }

  /** The timeliness dimension; the details state the day count. */
  function Timeliness(pushedAt: Option<int>, now: int): (r: DimensionResult)
    ensures r.score in {40, 60, 80, 100}
    ensures r.score == TimelinessScore(ElapsedDays(pushedAt, now))
    ensures r.details == LastPushPrefix + DayCountText(ElapsedDays(pushedAt, now)) + LastPushSuffix
  {
    var d := ElapsedDays(pushedAt, now);
    DimensionResult(TimelinessScore(d), LastPushPrefix + DayCountText(d) + LastPushSuffix)
  }

  /** The bands at their edges. */
  lemma TimelinessBandEdges()
    ensures TimelinessScore(Days(-5)) == 100 && TimelinessScore(Days(90)) == 100
    ensures TimelinessScore(Days(91)) == 80 && TimelinessScore(Days(180)) == 80
    ensures TimelinessScore(Days(181)) == 60 && TimelinessScore(Days(365)) == 60
    ensures TimelinessScore(Days(366)) == 40
  {
  }

  /** An older push never scores higher. */
  lemma TimelinessMonotone(n: int, m: int)
    requires n <= m
    ensures TimelinessScore(Days(n)) >= TimelinessScore(Days(m))
  {
  }

  /** The timeliness details name the day count, so two different counts never share details. */
  lemma TimelinessDetailsDetermineDays(d: DayCount, e: DayCount)
    requires LastPushPrefix + DayCountText(d) + LastPushSuffix == LastPushPrefix + DayCountText(e) + LastPushSuffix
    ensures d == e
  {
    var a := LastPushPrefix + DayCountText(d) + LastPushSuffix;
    var b := LastPushPrefix + DayCountText(e) + LastPushSuffix;
    assert a[|LastPushPrefix|..|a| - |LastPushSuffix|] == DayCountText(d);
    assert b[|LastPushPrefix|..|b| - |LastPushSuffix|] == DayCountText(e);
    if d.Days? && e.Days? {
      IntToStringInjective(d.n, e.n);
    }
  }

  // ------------------------------------------------------------------
  // Weighted total
  // ------------------------------------------------------------------

  /** Every score within 0..100. */
  predicate InRange(d: Dimensions) {
    && 0 <= d.completeness.score <= 100
    && 0 <= d.normativeness.score <= 100
    && 0 <= d.readability.score <= 100
    && 0 <= d.timeliness.score <= 100
    && 0 <= d.usability.score <= 100
  }

  /**
   * The weighted sum in hundredths of a point, with the weights as whole
   * percentages: completeness 30, normativeness 20, readability 20,
   * timeliness 15, usability 15 (0.3, 0.2, 0.2, 0.15, 0.15).
   */
  function WeightedHundredths(d: Dimensions): int {
    d.completeness.score * 30
    + d.normativeness.score * 20
    + d.readability.score * 20
    + d.timeliness.score * 15
    + d.usability.score * 15
  }

  /** The total in tenths of a point. */
  function TotalTenths(d: Dimensions): (t: int)
    requires InRange(d)
    ensures 0 <= t <= 1000
  {
    WeightedHundredths(d) / 10
  }

  /** Every score is one its check can produce. */
  predicate Attainable(d: Dimensions) {
    && d.completeness.score in {0, 25, 50, 75, 100}
    && d.normativeness.score in {0, 60, 70, 80, 90, 100}
    && d.readability.score in {0, 50, 70, 80, 100}
    && d.timeliness.score in {40, 60, 80, 100}
    && d.usability.score in {0, 50, 70, 80, 100}
  }

  /** The five dimensions of a README text, listing and push date. */
  function ScoreDimensions(files: seq<string>, readme: string, pushedAt: Option<int>, now: int): (d: Dimensions)
    ensures InRange(d) && Attainable(d)
  {
    Dimensions(Completeness(files), Normativeness(readme), Readability(readme),
               Timeliness(pushedAt, now), Usability(readme))
  }

  /**
   * Every score the checks produce is a multiple of 25 or 10, so the
   * weighted sum is a whole number of tenths: rendering it with one decimal
   * loses nothing.
   */
  lemma TotalIsExact(d: Dimensions)
    requires Attainable(d)
    ensures WeightedHundredths(d) % 10 == 0
    ensures InRange(d) ==> TotalTenths(d) * 10 == WeightedHundredths(d)
  {
    var c, n, r, t, u := d.completeness.score, d.normativeness.score, d.readability.score,
                         d.timeliness.score, d.usability.score;
    var t10 := if t == 40 then 4 else if t == 60 then 6 else if t == 80 then 8 else 10;
    var u10 := if u == 0 then 0 else if u == 50 then 5 else if u == 70 then 7 else if u == 80 then 8 else 10;
    assert t == 10 * t10 && u == 10 * u10;
    var k := 3 * c + 2 * n + 2 * r + 15 * t10 + 15 * u10;
    assert WeightedHundredths(d) == 10 * k;
  }

  /**
   * The report for fixed inputs: the dimensions, and their weighted total
   * rendered with one decimal. The contributing file has no part in it.
   */
  function ScoreReport(repo: string, files: seq<string>, readme: string, pushedAt: Option<int>, now: int): (r: Report)
    ensures r.repo == repo
    ensures r.dimensions == ScoreDimensions(files, readme, pushedAt, now)
    ensures r.totalScore == FixedOneDecimal(TotalTenths(r.dimensions))
  {
    var d := ScoreDimensions(files, readme, pushedAt, now);
    var r := ReportOf(repo, d);
    assert r.dimensions == d && InRange(d);
    r
  }

  /** A report on attainable dimensions: its one-decimal total reads back as the exact weighted sum. */
  function ReportOf(repo: string, d: Dimensions): (r: Report)
    requires InRange(d) && Attainable(d)
    ensures r.repo == repo && r.dimensions == d
    ensures r.totalScore == FixedOneDecimal(TotalTenths(d))
    ensures TenthsValue(r.totalScore) * 10 == WeightedHundredths(d)
    ensures 0 <= TenthsValue(r.totalScore) <= 1000
  {
    TotalIsExact(d);
    FixedOneDecimalRoundTrip(TotalTenths(d));
    Report(repo, FixedOneDecimal(TotalTenths(d)), d)
  }
}
