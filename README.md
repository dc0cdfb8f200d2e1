# Documentation-quality scorer: a Dafny model

This project models the scoring engine of the documentation-quality tool, the
`QualityAnalyzer` class of `analyzer.js`, and proves properties of it. The
engine takes a GitHub repository URL and reads the owner and repository out of
it. It then gets three things from the GitHub API: the repository metadata,
the root file listing, and the README and CONTRIBUTING contents. From these it
scores five dimensions and combines them into a weighted total:

- completeness: which key files the listing has;
- normativeness: headings and code blocks in the README;
- readability: images and lists in the README;
- timeliness: days since the last push;
- usability: install commands and usage words in the README.

Modules:

- `Text` (Text.dfy): the JavaScript regular expressions of the checks, as
  predicates over strings. This covers `^` under the `m` flag, the `\s`,
  `\d` and `.` classes, and `/i` as ASCII case folding. Every pattern is
  ASCII, and a JavaScript `/i` match never folds a character at or above
  U+0080 onto one below it, so ASCII folding decides the same matches.
- `Decimal` (Decimal.dfy): how JavaScript renders the numbers that end up in
  strings. This is an integer inside a template literal, and `toFixed(1)` of
  the total.
- `Scoring` (Scoring.dfy): what each dimension computes, the weights, the
  exact total, and the report.
- `Analyzer` (Analyzer.dfy): the URL pattern, and the README/CONTRIBUTING
  selection. It also has the download fail-soft and the error mapping. The
  class `QualityAnalyzer` holds the URL fields, the step-by-step check methods
  and `Analyze`.
- `Scenarios` (Scenarios.dfy): worked examples with fixed inputs.

Network replies, file downloads and the current time are parameters of
`Analyze`. A reply is `Ok(data)` or `Failed(HttpStatus(code) | NoResponse)`. A
download is a function from a file's API URL to `Decoded(text) | NotBase64 |
FetchFailed`. The push date is a millisecond timestamp, or `None` when it is
not a valid date. The weights are whole percentages (30/20/20/15/15). The total
is an integer count of tenths. That is exact, because `TotalIsExact` proves
that the weighted sum is always a whole number of tenths.

What the code does in the cases where it is easy to misread:

- A level-1 heading is `#` followed by any JavaScript whitespace character,
  a tab or a line break included. It is not only `#` and a space.
- A code block needs two non-overlapping fences. One fence does not count.
- A list item starts with one digit and a point. A number with several
  digits does not count.
- The `min(100, …)` caps never bind.
- The total is a string with one decimal, as `toFixed(1)` returns it.
- With no files, no README and a push 400 days ago, the total is
  6.0 = 40 × 0.15 (`ScenarioEmptyRepository`).
- The same status mapping (404, 401, else generic) applies to a failed
  metadata request and to a failed listing request.

## Model

| member | source | states |
|---|---|---|
| `Analyzer.ParseRepoUrl` | analyzer.js:33-36 | the URL parses iff the pattern matches at some index; the result is the captures of the leftmost match; owner and repo are non-empty, contain no `/`, and the repo runs to the next `/` or the end |
| `Analyzer.CaptureAt` | analyzer.js:33-36 | at one index, the greedy groups exist iff the pattern matches there, and they are host + owner + `/` + repo as literally found in the URL |
| `Analyzer.ParseFrom` | analyzer.js:33 | the unanchored search from index `i` finds nothing iff the pattern matches at no index at or after `i` |
| `Analyzer.ParseFromLeftmost` | analyzer.js:33-36 | what the search finds are the captures at the first index at or after `i` where the pattern matches |
| `Analyzer.ParseWebUrl` | analyzer.js:33-36 | `https://github.com/<owner>/<repo>`, alone or followed by a `/`-path, parses back to exactly that owner and repo |
| `Analyzer.QualityAnalyzer.constructor` | analyzer.js:31-38 | the fields hold the URL, the two captures and the API base `https://api.github.com/repos/<owner>/<repo>` |
| `Analyzer.Open` | analyzer.js:31-38 | building an analyzer fails with the invalid-URL message iff the URL does not parse, before any request; otherwise it holds the URL, the two captures and the API base |
| `Text.HasLevel1Heading` | analyzer.js:157 | `/^#\s/m`: some line opens with `#` followed by a JavaScript whitespace character |
| `Text.HasLevel2Heading` | analyzer.js:158 | `/^##\s/m`: some line opens with `##` followed by a JavaScript whitespace character |
| `Text.HasCodeBlock` | analyzer.js:159 | `` /```[\s\S]*?```/ ``: a fence of three backticks and a later fence that does not overlap it |
| `Text.HasMarkdownImage` | analyzer.js:175 | `/!\[.*?\]\(.*?\)/`: `![`, a later `](` and a later `)`, with no line terminator between them |
| `Text.HasImage` | analyzer.js:175 | a Markdown image, or `<img` in any ASCII case |
| `Text.HasList` | analyzer.js:176 | `/^(\*\|-\|\d\.)\s/m`: some line opens with `*`, `-` or one digit and `.`, then a whitespace character |
| `Text.HasInstallCommand` | analyzer.js:207 | one of `npm install`, `pip install`, `go get`, `cargo build`, `yarn add` occurs, ignoring ASCII case |
| `Text.HasUsageHint` | analyzer.js:208 | one of `usage`, `example`, `demo` occurs, ignoring ASCII case |
| `Scoring.HasFileStartingWith` | analyzer.js:144 | `files.some(f => /^prefix/i.test(f))`: some file name starts with the prefix, ignoring ASCII case |
| `Scoring.Join` | analyzer.js:150 | `missing.join(', ')`: the parts with the separator between consecutive ones |
| `Scoring.DayCountText` | analyzer.js:200 | the day count as a template literal renders it: its decimal digits, or `NaN` |
| `Scoring.WeightedHundredths` | analyzer.js:87-92 | Σ score × weight with the weights 30, 20, 20, 15, 15 in hundredths |
| `Analyzer.ErrorMessage` | analyzer.js:119-125 | the three messages thrown for not found, bad token and network failure |
| `Analyzer.ReadmeText` | analyzer.js:69-76 | the README text: the fetched text of the first entry whose name starts with `readme` (any case), or empty text when there is none |
| `Analyzer.MatchAt` | analyzer.js:33 | the pattern matches at an index: `github.com/`, a non-empty run without `/`, a `/`, and a character other than `/` |
| `Analyzer.Captures` | analyzer.js:33-36 | the groups at a match: owner and repo non-empty and without `/`, found after the host and around a `/`, the repo running to the next `/` or the end |
| `Analyzer.QualityAnalyzer.CheckCompleteness` | analyzer.js:133-152 | the loop over the four checks counts the found keys, collects the missing ones in order, and yields exactly `Completeness(files)` |
| `Scoring.Completeness` | analyzer.js:133-152 | score = 25 × the number of the prefixes readme, license, contributing, code_of_conduct that start some file name (ignoring case), so it is in {0,25,50,75,100} and an empty listing scores 0; details are the all-present text iff all four are found, otherwise the missing-files text with the missing keys |
| `Scoring.MissingKeysOfChecks` | analyzer.js:141-146 | the missing keys are exactly the unmatched checks, in the order README, LICENSE, CONTRIBUTING, CODE_OF_CONDUCT, and there are 4 − found of them |
| `Scoring.MissingKeysAppend` | analyzer.js:143-146 | collecting missing keys over two runs of checks is collecting them over each run in turn (what each loop step relies on) |
| `Scoring.CompletenessDetails` | analyzer.js:150 | the all-present text is given iff no key is missing |
| `Scoring.CompletenessMonotone` | analyzer.js:144 | adding file names to the listing never lowers completeness |
| `Analyzer.QualityAnalyzer.CheckNormativeness` | analyzer.js:154-170 | the stepwise `+=` and the `min` yield exactly `Normativeness(content)`, so the cap never binds |
| `Scoring.Normativeness` | analyzer.js:154-170 | empty text iff score 0 (details: no content); otherwise score in {60,70,80,90,100}, 60 iff no signal, 70 iff exactly one heading level and no code block, 80 iff a code block alone or both heading levels without one, 90 iff a code block and exactly one heading level, 100 iff all three (so 60 + 10 per heading level + 20 for a code block), and the details are the well-formed text with a code block and the unclear-structure text without one |
| `Analyzer.QualityAnalyzer.CheckReadability` | analyzer.js:172-186 | the stepwise `+=` and the `min` yield exactly `Readability(content)` |
| `Scoring.Readability` | analyzer.js:172-186 | empty text iff score 0; otherwise score in {50,70,80,100}, 80 or 100 iff an image (Markdown image on one line, or `<img` in any case), 70 or 100 iff a list line; the details are the rich-visuals text with an image and the needs-images text without one |
| `Text.NoBangNoMarkdownImage` | analyzer.js:175 | a text without `!` never matches the Markdown-image pattern |
| `Text.NoMarkerNoList` | analyzer.js:176 | a text without `*`, `-` or a digit never matches the list pattern |
| `Analyzer.QualityAnalyzer.CheckUsability` | analyzer.js:204-218 | the stepwise `+=` and the `min` yield exactly `Usability(content)` |
| `Scoring.Usability` | analyzer.js:204-218 | empty text iff score 0; otherwise score in {50,70,80,100}, 80 or 100 iff an install command, 70 or 100 iff usage/example/demo; the details are the has-install text with an install command and the lacks-install text without one |
| `Scoring.UsabilityIgnoresCase` | analyzer.js:207-208 | lower-casing the README never changes its usability result |
| `Text.ContainsIgnoringCaseOfLower` | analyzer.js:207-208 | a `/i` search finds a pattern in a text iff it finds it in the lower-cased text |
| `Scoring.ElapsedDays` | analyzer.js:189-191 | the day count is the floor of elapsed milliseconds over 86 400 000 (d·day ≤ elapsed < (d+1)·day), and NaN exactly when the push date is invalid |
| `Scoring.TimelinessScore` | analyzer.js:193-196 | NaN keeps 100; a whole day count scores 100 iff at most 90, 80 iff 91–180, 60 iff 181–365, 40 iff over 365 |
| `Scoring.Timeliness` | analyzer.js:188-202 | the score is `TimelinessScore` of the elapsed day count, in {40,60,80,100}; the details are the last-push text around the rendered day count |
| `Scoring.TimelinessBandEdges` | analyzer.js:193-196 | −5 and 90 days give 100; 91 and 180 give 80; 181 and 365 give 60; 366 gives 40 |
| `Scoring.TimelinessMonotone` | analyzer.js:193-196 | an older push never scores higher |
| `Scoring.TimelinessDetailsDetermineDays` | analyzer.js:198-201 | two day counts with the same details are the same count |
| `Decimal.NatToString` | analyzer.js:200 | a non-negative integer renders as a non-empty digit string without a leading zero |
| `Decimal.IntToString` | analyzer.js:200 | the rendering starts with `-` iff the integer is negative |
| `Decimal.DigitsValueOfNatToString` | analyzer.js:200 | reading the rendered digits back gives the number |
| `Decimal.IntToStringInjective` | analyzer.js:200 | different integers render differently |
| `Decimal.FixedOneDecimal` | analyzer.js:93 | `toFixed(1)` of a count of tenths is digits, a point and one digit |
| `Decimal.FixedOneDecimalRoundTrip` | analyzer.js:87-93 | the rendered total reads back as exactly the count of tenths |
| `Scoring.TotalTenths` | analyzer.js:22-28 | with every score in 0..100 and weights summing to 100 %, the total lies in 0..100.0 |
| `Scoring.TotalIsExact` | analyzer.js:22-28 | for every attainable combination of scores, Σ score × weight is a whole number of tenths, so the one-decimal total loses nothing |
| `Scoring.ScoreDimensions` | analyzer.js:81-85 | every dimension score is in 0..100 and is one its check can produce |
| `Scoring.ReportOf` | analyzer.js:87-105 | for attainable dimensions, the report's total is the one-decimal rendering of the weighted sum, and it reads back as exactly Σ score × weight in tenths, within 0..1000 |
| `Scoring.ScoreReport` | analyzer.js:81-105 | the report carries the repo name, the five dimensions computed from the listing, the README text and the push date, and their weighted total rendered with one decimal (which `ReportOf` shows reads back exactly) |
| `Analyzer.ErrorFor` | analyzer.js:119-125 | a failed request maps to not-found iff its status is 404, to bad-token iff its status is 401, and otherwise to the generic network error |
| `Analyzer.ErrorMessagesDistinct` | analyzer.js:119-125 | the three errors carry three different messages |
| `Analyzer.FetchedText` | analyzer.js:41-56 | a download yields its decoded text, and a failed or non-base64 download yields empty text |
| `Analyzer.Names` | analyzer.js:65 | the file-name list has one name per listing entry, in order |
| `Analyzer.FindFirst` | analyzer.js:69-70 | nothing iff no entry name starts with the prefix (ignoring case); otherwise the first entry whose name does |
| `Analyzer.SelectedText` | analyzer.js:73-76 | no selected file gives empty text; otherwise the fetched text of its URL |
| `Analyzer.ReadmeSelectionAgreesWithCompleteness` | analyzer.js:69 | a README is downloaded exactly when the completeness check counts one |
| `Analyzer.QualityAnalyzer.Analyze` | analyzer.js:58-127 | a failed metadata request, then a failed listing request, ends with the mapped error; once both succeed the result is always a report, built only from the file names, the README text and the push date (the CONTRIBUTING text is fetched and never scored) |
| `Scenarios.TwoFilesCompleteness` | analyzer.js:133-152 | README.md and LICENSE score 50 and name CONTRIBUTING and CODE_OF_CONDUCT as missing |
| `Scenarios.ScenarioTitleReadme` | analyzer.js:81-93 | that listing, the README `# Title` + code fences and a push 10 days ago give 50, 90, 50, 100, 50 and a total of 65.5 |
| `Scenarios.ScenarioEmptyRepository` | analyzer.js:81-93 | an empty listing, no README and a push 400 days ago give 0, 0, 0, 40, 0 and the total "6.0" |
| `Scenarios.OwnerOnlyUrlRejected` | analyzer.js:33-34 | `https://github.com/owner` does not parse |

## Left out

- Network and library I/O are not modelled: the axios requests, their headers and 10-second timeout, base64 and UTF-8 decoding, and the `Promise.all` parallel downloads. Replies and downloads are parameters of `Analyze`. The two downloads are evaluated one after the other, which gives the same result because neither one affects the other.
- Parsing the ISO-8601 `pushed_at` is not modelled. The push date is an integer millisecond timestamp, or `None` for an invalid date (a missing field; a `null` one is `new Date(null)`, the timestamp 0). Reading the clock is a `now` parameter.
- JavaScript doubles are not modelled: timestamps are unbounded integers. Differences beyond 2^53 ms, and Infinity, are not represented.
- Floating-point weights and `toFixed(1)` rounding are not modelled. Weights are whole percentages and the total is exact tenths. `TotalIsExact` shows that no rounding is needed.
- Console logging and the error-printing block are not modelled, and neither is the `GITHUB_TOKEN` check at module load. They are output and start-up concerns.
- Malformed API replies are not modelled. A non-array listing or a `null` entry throws a TypeError in the source, which ends in the generic network message. Entry names are taken to be strings; the source would convert any other name to a string before the prefix tests.
- Strings are sequences of Unicode code points, not UTF-16 code units. Every pattern, line terminator and whitespace character is in the Basic Multilingual Plane and is not a surrogate, so no match differs.
- Analyzer.QualityAnalyzer.constructor: requires that the URL parses, because a Dafny constructor cannot throw. `Analyzer.Open` models `new QualityAnalyzer(url)` together with its throw.
- The check methods are static methods of the class. The source's instance methods never read `this`. `checkTimeliness` has no loop and no `+=`, so it is the function `Scoring.Timeliness`.
- server.js is not part of this model. It holds the HTTP routing, CORS, static files, and the check that the `url` parameter is present.
