/**
 * The analyzer class: it reads the owner and repository out of a GitHub URL
 * when it is built, and `Analyze` turns the three API replies (repository
 * metadata, root listing, file contents) into a report or an error.
 *
 * The network is not modelled: each reply is a parameter, and so are the
 * file downloads (a function from a file's API URL to what fetching it gives)
 * and the current time.
 */
module Analyzer {
  import opened Wrappers
  import opened Text
  import opened Scoring

  // ------------------------------------------------------------------
  // The repository URL: /github\.com\/([^/]+)\/([^/]+)/
  // ------------------------------------------------------------------

  const Host: string := "github.com/"
  const ApiRoot: string := "https://api.github.com/repos/"
  const InvalidUrlText: string := "无效的 GitHub URL"

  datatype RepoRef = RepoRef(owner: string, repo: string)

  /** No `/` among `s[i..j]`. */
  predicate NoSlashIn(s: string, i: int, j: int) {
    0 <= i <= j <= |s| && forall k :: i <= k < j ==> s[k] != '/'
  }

  /** The end of the longest run of characters other than `/` that starts at `i`. */
  function RunEnd(s: string, i: int): (e: int)
    requires 0 <= i <= |s|
    ensures i <= e <= |s| && NoSlashIn(s, i, e) && (e == |s| || s[e] == '/')
    decreases |s| - i
  {
    if i == |s| || s[i] == '/' then i else RunEnd(s, i + 1)
  }

  /**
   * The pattern can match starting at index `i`: the host, then a non-empty
   * run without `/`, a `/`, and at least one more character other than `/`.
   */
  predicate MatchAt(url: string, i: int) {
    && LiteralAt(url, i, Host)
    && exists e | i + |Host| < e < |url| - 1 :: NoSlashIn(url, i + |Host|, e) && url[e] == '/' && url[e + 1] != '/'
  }

  /**
   * `ref` is what the two groups capture for a match at index `i`: two
   * non-empty parts without `/` joined by `/` after the host, the second one
   * running up to the next `/` or the end of the URL.
   */
  predicate Captures(url: string, i: int, ref: RepoRef) {
    var o := i + |Host|;
    var oe := o + |ref.owner|;
    var end := oe + 1 + |ref.repo|;
    && ref.owner != [] && ref.repo != [] && '/' !in ref.owner && '/' !in ref.repo
    && LiteralAt(url, i, Host) && end <= |url|
    && url[o..oe] == ref.owner && url[oe] == '/' && url[oe + 1..end] == ref.repo
    && (end == |url| || url[end] == '/')
  }

  /** The pattern matches nowhere in `url[i..j]`. */
  predicate NoMatchBetween(url: string, i: int, j: int) {
    forall k | i <= k < j :: !MatchAt(url, k)
  }

  /** The two greedy captures of a match starting at index `i`. */
  function CaptureAt(url: string, i: int): (r: Option<RepoRef>)
    requires 0 <= i <= |url|
    ensures r.Some? <==> MatchAt(url, i)
    ensures r.Some? ==> Captures(url, i, r.value)
  {
    if !LiteralAt(url, i, Host) then None
    else
      var o := i + |Host|;
      var oe := RunEnd(url, o);
      if oe == o || oe == |url| then
        OwnerRunRulesOut(url, i);
        None
      else
        var re := RunEnd(url, oe + 1);
        if re == oe + 1 then
          RepoRunRulesOut(url, i);
          None
        else
          CaptureSpells(url, i, oe, re);
          Some(RepoRef(url[o..oe], url[oe + 1..re]))
  }

  /** Without a non-empty owner run followed by a `/`, the pattern cannot match. */
  lemma OwnerRunRulesOut(url: string, i: int)
    requires 0 <= i && i + |Host| <= |url|
    requires RunEnd(url, i + |Host|) == i + |Host| || RunEnd(url, i + |Host|) == |url|
    ensures !MatchAt(url, i)
  {
    var o := i + |Host|;
    if e :| o < e < |url| - 1 && NoSlashIn(url, o, e) && url[e] == '/' && url[e + 1] != '/' {
      RunEndAtSlash(url, o, e);
    }
  }

  /** When the owner run is followed by `/` and then nothing or another `/`, the pattern cannot match. */
  lemma RepoRunRulesOut(url: string, i: int)
    requires 0 <= i && i + |Host| <= |url|
    requires RunEnd(url, i + |Host|) < |url| && RunEnd(url, RunEnd(url, i + |Host|) + 1) == RunEnd(url, i + |Host|) + 1
    ensures !MatchAt(url, i)
  {
    var o := i + |Host|;
    if e :| o < e < |url| - 1 && NoSlashIn(url, o, e) && url[e] == '/' && url[e + 1] != '/' {
      RunEndAtSlash(url, o, e);
    }
  }

  /** The host, the owner run, the `/` and the repository run spell the matched text. */
  lemma CaptureSpells(url: string, i: int, oe: int, re: int)
    requires LiteralAt(url, i, Host)
    requires i + |Host| < oe && oe + 1 < re <= |url| && url[oe] == '/'
    requires NoSlashIn(url, i + |Host|, oe) && NoSlashIn(url, oe + 1, re) && (re == |url| || url[re] == '/')
    ensures Captures(url, i, RepoRef(url[i + |Host|..oe], url[oe + 1..re]))
    ensures MatchAt(url, i)
  {
    var o := i + |Host|;
    var owner, repo := url[o..oe], url[oe + 1..re];
    assert '/' !in owner by {
      forall k | 0 <= k < |owner| ensures owner[k] != '/' {
        assert owner[k] == url[o + k];
      }
    }
    assert '/' !in repo by {
      forall k | 0 <= k < |repo| ensures repo[k] != '/' {
        assert repo[k] == url[oe + 1 + k];
      }
    }
    assert url[oe + 1] == repo[0];
  }

  /** The leftmost match at or after index `i`. */
  function ParseFrom(url: string, i: int): (r: Option<RepoRef>)
    requires 0 <= i <= |url|
    ensures r.None? <==> NoMatchBetween(url, i, |url| + 1)
    decreases |url| - i
  {
    match CaptureAt(url, i)
    case Some(found) => Some(found)
    case None => if i == |url| then None else ParseFrom(url, i + 1)
  }

  /** The pattern matches at `j`, nowhere in `url[i..j]`, and `ref` is what it captures at `j`. */
  predicate FirstMatchFrom(url: string, i: int, j: int, ref: RepoRef) {
    i <= j <= |url| && MatchAt(url, j) && Captures(url, j, ref) && NoMatchBetween(url, i, j)
  }

  lemma FirstMatchEarlier(url: string, i: int, j: int, ref: RepoRef)
    requires 0 <= i && !MatchAt(url, i) && FirstMatchFrom(url, i + 1, j, ref)
    ensures FirstMatchFrom(url, i, j, ref)
  {
  }

  /** What the search finds are the captures of the first index at or after `i` where the pattern matches. */
  lemma {:induction false} ParseFromLeftmost(url: string, i: int)
    requires 0 <= i <= |url|
    ensures ParseFrom(url, i).Some? ==> exists j :: FirstMatchFrom(url, i, j, ParseFrom(url, i).value)
    decreases |url| - i
  {
    if CaptureAt(url, i).Some? {
      ParseFromHere(url, i);
    } else if i < |url| {
      ParseFromStep(url, i);
      ParseFromLeftmost(url, i + 1);
      var r := ParseFrom(url, i + 1);
      if r.Some? {
        var j :| FirstMatchFrom(url, i + 1, j, r.value);
        FirstMatchEarlier(url, i, j, r.value);
      }
    }
  }

  /** A match at `i` itself is the one the search returns. */
  lemma ParseFromHere(url: string, i: int)
    requires 0 <= i <= |url| && CaptureAt(url, i).Some?
    ensures ParseFrom(url, i).Some? && FirstMatchFrom(url, i, i, ParseFrom(url, i).value)
  {
    var found := CaptureAt(url, i);
    assert ParseFrom(url, i) == found;
    assert NoMatchBetween(url, i, i);
  }

  /**
   * `repoUrl.match(...)` with its two groups: the owner and repository of the
   * leftmost match, or nothing when the pattern matches nowhere.
   */
  function ParseRepoUrl(url: string): (r: Option<RepoRef>)
    ensures r.Some? <==> exists i | 0 <= i <= |url| :: MatchAt(url, i)
    ensures r.Some? ==> exists i :: FirstMatchFrom(url, 0, i, r.value)
  {
    ParseFromLeftmost(url, 0);
    ParseFrom(url, 0)
  }

  /** The browser address of a repository, optionally followed by a deeper path. */
  function WebUrl(ref: RepoRef, path: string): string {
    "https://" + Host + ref.owner + "/" + ref.repo + path
  }

  /** A repository's own address, or any page below it, parses back to that repository. */
  lemma ParseWebUrl(ref: RepoRef, path: string)
    requires ref.owner != [] && ref.repo != [] && '/' !in ref.owner && '/' !in ref.repo
    requires path == [] || path[0] == '/'
    ensures ParseRepoUrl(WebUrl(ref, path)) == Some(ref)
  {
    var url := WebUrl(ref, path);
    SchemeDoesNotMatch(ref, path);
    CaptureOfWebUrl(ref, path);
    ParseFromSkips(url, 0, |"https://"|);
  }

  lemma SchemeDoesNotMatch(ref: RepoRef, path: string)
    ensures NoMatchBetween(WebUrl(ref, path), 0, |"https://"|)
  {
    var url := WebUrl(ref, path);
    var scheme := "https://";
    assert url[..|scheme|] == scheme;
    forall k | 0 <= k < |scheme| ensures !LiteralAt(url, k, Host) {
      assert url[k] == scheme[k] != 'g';
      assert Host[0] == 'g';
    }
  }

  lemma CaptureOfWebUrl(ref: RepoRef, path: string)
    requires ref.owner != [] && ref.repo != [] && '/' !in ref.owner && '/' !in ref.repo
    requires path == [] || path[0] == '/'
    ensures CaptureAt(WebUrl(ref, path), |"https://"|) == Some(ref)
  {
    var url := WebUrl(ref, path);
    var i := |"https://"|;
    var o := i + |Host|;
    var oe := o + |ref.owner|;
    var re := oe + 1 + |ref.repo|;
    WebUrlLayout(ref, path);
    SlashFreeSlice(url, o, oe);
    SlashFreeSlice(url, oe + 1, re);
    RunEndAtSlash(url, o, oe);
    RunEndAtSlash(url, oe + 1, re);
  }

  /** Where the host, the owner, the `/` and the repository sit in a repository address. */
  lemma WebUrlLayout(ref: RepoRef, path: string)
    requires path == [] || path[0] == '/'
    ensures var url, i := WebUrl(ref, path), |"https://"|;
      var o := i + |Host|;
      var oe := o + |ref.owner|;
      var re := oe + 1 + |ref.repo|;
      && re <= |url|
      && url[i..o] == Host && url[o..oe] == ref.owner && url[oe] == '/' && url[oe + 1..re] == ref.repo
      && (re == |url| || url[re] == '/')
  {
    var head := "https://" + Host + ref.owner + "/";
    var body := head + ref.repo;
    assert WebUrl(ref, path) == body + path;
    HeadLayout(ref);
    SplitAt(body, path);
    SplitAt(head, ref.repo);
  }

  lemma HeadLayout(ref: RepoRef)
    ensures var head, i := "https://" + Host + ref.owner + "/", |"https://"|;
      head[i..i + |Host|] == Host && head[i + |Host|..|head| - 1] == ref.owner && head[|head| - 1] == '/'
  {
    var scheme := "https://";
    var front := scheme + Host;
    SplitAt(scheme, Host);
    SplitAt(front, ref.owner);
    SplitAt(front + ref.owner, "/");
  }

  /** The two halves of a concatenation are its slices on either side of the join. */
  lemma SplitAt(a: string, b: string)
    ensures (a + b)[..|a|] == a && (a + b)[|a|..] == b
  {
  }

  lemma SlashFreeSlice(s: string, i: int, j: int)
    requires 0 <= i <= j <= |s| && '/' !in s[i..j]
    ensures NoSlashIn(s, i, j)
  {
    forall k | i <= k < j ensures s[k] != '/' {
      assert s[k] == s[i..j][k - i];
    }
  }

  /** A run that ends at a `/` or at the end of the text is the longest one. */
  lemma RunEndAtSlash(s: string, i: int, e: int)
    requires NoSlashIn(s, i, e)
    requires e == |s| || s[e] == '/'
    ensures RunEnd(s, i) == e
    decreases e - i
  {
    if i < e {
      RunEndAtSlash(s, i + 1, e);
    }
  }

  /** Positions where the pattern cannot match do not change the leftmost match. */
  lemma {:induction false} ParseFromSkips(url: string, i: int, j: int)
    requires 0 <= i <= j <= |url|
    requires NoMatchBetween(url, i, j)
    ensures ParseFrom(url, i) == ParseFrom(url, j)
    decreases j - i
  {
    if i < j {
      ParseFromStep(url, i);
      ParseFromSkips(url, i + 1, j);
    }
  }

  /** One position where the pattern does not match is passed over. */
  lemma ParseFromStep(url: string, i: int)
    requires 0 <= i < |url| && !MatchAt(url, i)
    ensures ParseFrom(url, i) == ParseFrom(url, i + 1)
  {
    assert CaptureAt(url, i).None?;
  }

  // ------------------------------------------------------------------
  // The API replies and the errors they lead to
  // ------------------------------------------------------------------

  /** Why a request failed: an HTTP error status, or no response at all. */
  datatype RequestFailure = HttpStatus(status: int) | NoResponse

  datatype Reply<T> = Ok(data: T) | Failed(failure: RequestFailure)

  /** The repository metadata: its push date as a millisecond timestamp, `None` if it is not a valid date. */
  datatype RepoInfo = RepoInfo(pushedAt: Option<int>)

  /** One entry of the root listing. */
  datatype Entry = Entry(name: string, url: string)

  /** What downloading one file gives: decoded base64 text, a reply without base64 content, or a failure. */
  datatype FileFetch = Decoded(text: string) | NotBase64 | FetchFailed

  datatype AnalyzeError = RepoNotFound | TokenRejected | NetworkFailure

  /** A failed metadata or listing request: 404 and 401 are told apart, all else is a network failure. */
  function ErrorFor(f: RequestFailure): (e: AnalyzeError)
    ensures e == RepoNotFound <==> f == HttpStatus(404)
    ensures e == TokenRejected <==> f == HttpStatus(401)
    ensures f.NoResponse? ==> e == NetworkFailure
  {
    if f.HttpStatus? && f.status == 404 then RepoNotFound
    else if f.HttpStatus? && f.status == 401 then TokenRejected
    else NetworkFailure
  }

  /** The message of the error `analyze` throws. */
  function ErrorMessage(e: AnalyzeError): string {
    match e
    case RepoNotFound => "找不到该仓库，请检查链接是否正确。"
    case TokenRejected => "Token 失效，请检查代码中的 GitHub Token。"
    case NetworkFailure => "网络连接失败，请查看后台终端日志。"
  }

  /** The three errors carry three different messages. */
  lemma ErrorMessagesDistinct(a: AnalyzeError, b: AnalyzeError)
    requires ErrorMessage(a) == ErrorMessage(b)
    ensures a == b
  {
    assert ErrorMessage(RepoNotFound)[0] == '找';
    assert ErrorMessage(TokenRejected)[0] == 'T';
    assert ErrorMessage(NetworkFailure)[0] == '网';
  }

  /** A download that fails, or has no base64 content, reads as empty text. */
  function FetchedText(f: FileFetch): (t: string)
    ensures f.Decoded? ==> t == f.text
    ensures !f.Decoded? ==> t == []
  {
    match f
    case Decoded(text) => text
    case _ => ""
  }

  /** `contents.data.map(f => f.name)` */
  function Names(entries: seq<Entry>): (names: seq<string>)
    ensures |names| == |entries| && forall k :: 0 <= k < |entries| ==> names[k] == entries[k].name
  {
    seq(|entries|, k requires 0 <= k < |entries| => entries[k].name)
  }

  /** `contents.data.find(f => /^prefix/i.test(f.name))`: the first entry whose name starts with `prefix`. */
  function FindFirst(entries: seq<Entry>, prefix: string): (r: Option<Entry>)
    ensures r.None? <==> forall k | 0 <= k < |entries| :: !StartsWithIgnoringCase(entries[k].name, prefix)
    ensures r.Some? ==>
      exists k | 0 <= k < |entries| ::
        && entries[k] == r.value
        && StartsWithIgnoringCase(r.value.name, prefix)
        && forall m | 0 <= m < k :: !StartsWithIgnoringCase(entries[m].name, prefix)
  {
    if entries == [] then None
    else if StartsWithIgnoringCase(entries[0].name, prefix) then Some(entries[0])
    else
      var r := FindFirst(entries[1..], prefix);
      assert forall k | 1 <= k < |entries| :: entries[k] == entries[1..][k - 1];
      r
  }

  /** The text of the selected file, or empty text when no file was selected. */
  function SelectedText(found: Option<Entry>, fetch: string -> FileFetch): (t: string)
    ensures found.None? ==> t == []
    ensures found.Some? ==> t == FetchedText(fetch(found.value.url))
  {
    match found
    case None => ""
    case Some(entry) => FetchedText(fetch(entry.url))
  }

  /** The README text that is scored. */
  function ReadmeText(entries: seq<Entry>, fetch: string -> FileFetch): string {
    SelectedText(FindFirst(entries, "readme"), fetch)
  }

  /** A README is downloaded exactly when the completeness check counts one. */
  lemma ReadmeSelectionAgreesWithCompleteness(entries: seq<Entry>)
    ensures FindFirst(entries, "readme").Some? <==> HasFileStartingWith(Names(entries), "readme")
  {
    var names := Names(entries);
    if HasFileStartingWith(names, "readme") {
      var f :| f in names && StartsWithIgnoringCase(f, "readme");
      var k :| 0 <= k < |names| && names[k] == f;
      assert StartsWithIgnoringCase(entries[k].name, "readme");
    }
    if FindFirst(entries, "readme").Some? {
      var k :| 0 <= k < |entries| && StartsWithIgnoringCase(entries[k].name, "readme");
      assert names[k] in names;
    }
  }

  // ------------------------------------------------------------------
  // The analyzer
  // ------------------------------------------------------------------

  class QualityAnalyzer {
    const repoUrl: string
    const owner: string
    const repo: string
    const apiBase: string

    /** Only a URL the pattern matches yields an analyzer; `Open` reports the others. */
    constructor (repoUrl: string)
      requires ParseRepoUrl(repoUrl).Some?
      ensures this.repoUrl == repoUrl
      ensures RepoRef(owner, repo) == ParseRepoUrl(repoUrl).value
      ensures apiBase == ApiRoot + owner + "/" + repo
    {
      var found := ParseRepoUrl(repoUrl).value;
      this.repoUrl := repoUrl;
      owner := found.owner;
      repo := found.repo;
      apiBase := ApiRoot + found.owner + "/" + found.repo;
    }

    /** The completeness dimension, one key file at a time. */
    static method CheckCompleteness(files: seq<string>) returns (r: DimensionResult)
      ensures r == Completeness(files)
    {
      var found := 0;
      var missing: seq<string> := [];
      var i := 0;
      while i < |Checks|
        invariant 0 <= i <= |Checks|
        invariant missing == MissingKeys(files, Checks[..i])
        invariant found + |missing| == i
      {
        var check := Checks[i];
        if HasFileStartingWith(files, check.prefix) {
          found := found + 1;
        } else {
          missing := missing + [check.key];
        }
        MissingKeysAppend(files, Checks[..i], [check]);
        assert Checks[..i + 1] == Checks[..i] + [check];
        i := i + 1;
      }
      assert Checks[..i] == Checks;
      MissingKeysOfChecks(files);
      r := DimensionResult(found * 100 / |Checks|, if |missing| == 0 then AllPresentText else MissingPrefix + Join(missing, ", "));
    }

    /** The normativeness dimension, adding up its bonuses. */
    static method CheckNormativeness(content: string) returns (r: DimensionResult)
      ensures r == Normativeness(content)
    {
      if content == [] {
        return DimensionResult(0, NoContentText);
      }
      var hasH1 := HasLevel1Heading(content);
      var hasH2 := HasLevel2Heading(content);
      var hasCodeBlocks := HasCodeBlock(content);
      var score := 60;
      if hasH1 { score := score + 10; }
      if hasH2 { score := score + 10; }
      if hasCodeBlocks { score := score + 20; }
      r := DimensionResult(Min(100, score), if hasCodeBlocks then WellFormedText else UnclearStructureText);
    }

    /** The readability dimension, adding up its bonuses. */
    static method CheckReadability(content: string) returns (r: DimensionResult)
      ensures r == Readability(content)
    {
      if content == [] {
        return DimensionResult(0, NoContentText);
      }
      var hasImages := HasMarkdownImage(content) || ContainsIgnoringCase(content, "<img");
      var hasLists := HasList(content);
      var score := 50;
      if hasImages { score := score + 30; }
      if hasLists { score := score + 20; }
      r := DimensionResult(Min(100, score), if hasImages then RichVisualsText else NeedsImagesText);
    }

    /** The usability dimension, adding up its bonuses. */
    static method CheckUsability(content: string) returns (r: DimensionResult)
      ensures r == Usability(content)
    {
      if content == [] {
        return DimensionResult(0, NoContentText);
      }
      var installCmd := HasInstallCommand(content);
      var usageEx := HasUsageHint(content);
      var score := 50;
      if installCmd { score := score + 30; }
      if usageEx { score := score + 20; }
      r := DimensionResult(Min(100, score), if installCmd then HasInstallText else LacksInstallText);
    }

    /**
     * One analysis. A failed metadata or listing request ends it with the
     * matching error; after both succeed it always yields a report, computed
     * from the file names, the README text and the push date alone.
     */
    method Analyze(repoInfo: Reply<RepoInfo>, contents: Reply<seq<Entry>>, fetch: string -> FileFetch, now: int)
      returns (r: Result<Report, AnalyzeError>)
      ensures repoInfo.Failed? ==> r == Failure(ErrorFor(repoInfo.failure))
      ensures repoInfo.Ok? && contents.Failed? ==> r == Failure(ErrorFor(contents.failure))
      ensures repoInfo.Ok? && contents.Ok? ==>
        r == Success(ScoreReport(owner + "/" + repo, Names(contents.data), ReadmeText(contents.data, fetch),
                                 repoInfo.data.pushedAt, now))
    {
      if repoInfo.Failed? {
        return Failure(ErrorFor(repoInfo.failure));
      }
      if contents.Failed? {
        return Failure(ErrorFor(contents.failure));
      }
      var files := Names(contents.data);
      var readmeObj := FindFirst(contents.data, "readme");
      var contribObj := FindFirst(contents.data, "contributing");
      var readmeContent := SelectedText(readmeObj, fetch);
      var contribContent := SelectedText(contribObj, fetch);

      var completeness := CheckCompleteness(files);
      var normativeness := CheckNormativeness(readmeContent);
      var readability := CheckReadability(readmeContent);
      var timeliness := Timeliness(repoInfo.data.pushedAt, now);
      var usability := CheckUsability(readmeContent);

      var dimensions := Dimensions(completeness, normativeness, readability, timeliness, usability);
      var totalScore := Decimal.FixedOneDecimal(TotalTenths(dimensions));
      r := Success(Report(owner + "/" + repo, totalScore, dimensions));
    }
  }

  function Min(a: int, b: int): int {
    if a <= b then a else b
  }

  /** `new QualityAnalyzer(url)`: an analyzer, or the error the constructor throws. */
  method Open(url: string) returns (r: Result<QualityAnalyzer, string>)
    ensures r.Failure? <==> ParseRepoUrl(url).None?
    ensures r.Failure? ==> r.error == InvalidUrlText
    ensures r.Success? ==>
      && fresh(r.value) && r.value.repoUrl == url && RepoRef(r.value.owner, r.value.repo) == ParseRepoUrl(url).value
      && r.value.apiBase == ApiRoot + r.value.owner + "/" + r.value.repo
  {
    if ParseRepoUrl(url).None? {
      return Failure(InvalidUrlText);
    }
    var analyzer := new QualityAnalyzer(url);
    r := Success(analyzer);
  }
}
