/**
 * Worked examples: fixed inputs and the exact report they produce.
 */
module Scenarios {
  import opened Wrappers
  import opened Text
  import opened Decimal
  import opened Scoring
  import opened Analyzer

  const TitleReadme: string := "# Title\n\n```code```\n"

  lemma TitleReadmeHeadings()
    ensures HasLevel1Heading(TitleReadme) && !HasLevel2Heading(TitleReadme)
  {
    var s := TitleReadme;
    assert LineOpensWith(s, 0, "#");
    assert "##"[0] == '#' && "##"[1] == '#';
    forall i | 0 <= i <= |s| ensures !LiteralAt(s, i, "##") {
      LiteralAtChars(s, i, "##");
    }
  }

  lemma TitleReadmeVisuals()
    ensures HasCodeBlock(TitleReadme) && !HasImage(TitleReadme) && !HasList(TitleReadme)
  {
    TitleReadmeCode();
    TitleReadmeNoImage();
    TitleReadmeNoList();
  }

  lemma TitleReadmeCode()
    ensures HasCodeBlock(TitleReadme)
  {
    var s := TitleReadme;
    assert s[9..12] == "```" && s[16..19] == "```";
    assert LiteralAt(s, 9, "```") && LiteralAt(s, 16, "```");
  }

  lemma TitleReadmeNoImage()
    ensures !HasImage(TitleReadme)
  {
    NoBangNoMarkdownImage(TitleReadme);
    AbsentCharRulesOut(TitleReadme, "<img", 0);
  }

  lemma TitleReadmeNoList()
    ensures !HasList(TitleReadme)
  {
    NoMarkerNoList(TitleReadme);
  }

  lemma TitleReadmeInstructions()
    ensures !HasInstallCommand(TitleReadme) && !HasUsageHint(TitleReadme)
  {
    TitleReadmeNoInstall();
    TitleReadmeNoUsage();
  }

  lemma TitleReadmeNoInstall()
    ensures !HasInstallCommand(TitleReadme)
  {
    var s := TitleReadme;
    AbsentCharRulesOut(s, "npm install", 0);
    AbsentCharRulesOut(s, "pip install", 0);
    AbsentCharRulesOut(s, "go get", 0);
    AbsentCharRulesOut(s, "cargo build", 1);
    AbsentCharRulesOut(s, "yarn add", 0);
  }

  lemma TitleReadmeNoUsage()
    ensures !HasUsageHint(TitleReadme)
  {
    var s := TitleReadme;
    AbsentCharRulesOut(s, "usage", 0);
    AbsentCharRulesOut(s, "example", 1);
    AbsentCharRulesOut(s, "demo", 2);
  }

  const TwoFiles: seq<string> := ["README.md", "LICENSE"]

  lemma TwoFilesPresence()
    ensures HasFileStartingWith(TwoFiles, "readme") && HasFileStartingWith(TwoFiles, "license")
    ensures !HasFileStartingWith(TwoFiles, "contributing") && !HasFileStartingWith(TwoFiles, "code_of_conduct")
  {
    var files := TwoFiles;
    assert StartsWithIgnoringCase(files[0], "readme") && files[0] in files;
    assert StartsWithIgnoringCase(files[1], "license") && files[1] in files;
    assert "contributing"[0] == 'c' && "code_of_conduct"[0] == 'c';
    assert forall f :: f in files ==> f == "README.md" || f == "LICENSE";
  }

  lemma TwoFilesMissing()
    ensures MissingKeys(TwoFiles, Checks) == ["CONTRIBUTING", "CODE_OF_CONDUCT"]
    ensures PresentCount(TwoFiles) == 2
  {
    TwoFilesPresence();
    MissingKeysOfChecks(TwoFiles);
    assert Absent(TwoFiles, Checks[0]) == [] && Absent(TwoFiles, Checks[1]) == [];
    assert Absent(TwoFiles, Checks[2]) == ["CONTRIBUTING"];
    assert Absent(TwoFiles, Checks[3]) == ["CODE_OF_CONDUCT"];
  }

  /** README.md and LICENSE are two of the four key files: completeness 50. */
  lemma TwoFilesCompleteness()
    ensures Completeness(TwoFiles).score == 50
    ensures Completeness(TwoFiles).details == MissingPrefix + ("CONTRIBUTING" + ", " + "CODE_OF_CONDUCT")
  {
    TwoFilesMissing();
    JoinPair("CONTRIBUTING", "CODE_OF_CONDUCT", ", ");
  }

  lemma TenDaysIsRecent(pushed: int)
    ensures Timeliness(Some(pushed), pushed + 10 * MsPerDay).score == 100
  {
    assert ElapsedDays(Some(pushed), pushed + 10 * MsPerDay) == Days(10);
  }

  /**
   * A listing with README.md and LICENSE, the README above and a push ten
   * days ago: completeness 50, normativeness 90, readability 50, timeliness
   * 100, usability 50, total 65.5.
   */
  lemma ScenarioTitleReadme(pushed: int)
    ensures var d := ScoreDimensions(TwoFiles, TitleReadme, Some(pushed), pushed + 10 * MsPerDay);
      && d.completeness.score == 50
      && d.normativeness.score == 90
      && d.readability.score == 50
      && d.timeliness.score == 100
      && d.usability.score == 50
      && TotalTenths(d) == 655
  {
    TitleReadmeHeadings();
    TitleReadmeVisuals();
    TitleReadmeInstructions();
    TwoFilesCompleteness();
    TenDaysIsRecent(pushed);
    assert Normativeness(TitleReadme).score == 90;
    assert Readability(TitleReadme).score == 50;
    assert Usability(TitleReadme).score == 50;
  }

  /**
   * No files, no README and a push 400 days ago: every README dimension and
   * completeness are 0, timeliness is 40, and the total is 6.0.
   */
  lemma ScenarioEmptyRepository(pushed: int)
    ensures var r := ScoreReport("o/r", [], "", Some(pushed), pushed + 400 * MsPerDay);
      && r.dimensions.completeness.score == 0
      && r.dimensions.normativeness.score == 0
      && r.dimensions.readability.score == 0
      && r.dimensions.timeliness.score == 40
      && r.dimensions.usability.score == 0
      && r.totalScore == "6.0"
  {
    var d := ScoreDimensions([], "", Some(pushed), pushed + 400 * MsPerDay);
    EmptyRepositoryTimeliness(pushed);
    assert d.completeness.score == 0;
    assert TotalTenths(d) == 60;
    SixPointZero();
  }

  lemma EmptyRepositoryTimeliness(pushed: int)
    ensures Timeliness(Some(pushed), pushed + 400 * MsPerDay).score == 40
  {
    assert ElapsedDays(Some(pushed), pushed + 400 * MsPerDay) == Days(400);
  }

  lemma SixPointZero()
    ensures FixedOneDecimal(60) == "6.0"
  {
    assert NatToString(6) == "6";
  }

  /** A URL that names an owner but no repository is rejected. */
  lemma OwnerOnlyUrlRejected()
    ensures ParseRepoUrl("https://github.com/owner").None?
  {
    var url := "https://github.com/owner";
    assert Host[0] == 'g';
    forall i | 0 <= i <= |url| ensures !MatchAt(url, i) {
      LiteralAtChars(url, i, Host);
    }
  }
}
