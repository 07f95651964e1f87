# simplecov-html core, modelled in Dafny

simplecov-html turns one SimpleCov coverage result into a static HTML report. Its Ruby
file `lib/simplecov-html.rb` holds a small layer of decisions and string building that the
ERB templates call. This project models that layer and proves what it promises:

- `line_status?` turns a line's raw status into the status the page shows. A line with a
  missed branch shows as `missed-branch` when branch coverage is on.
- `coverage_css_class` and `strength_css_class` colour a percentage or a branch strength
  green, yellow or red.
- The `title_id` expression turns a file-list title into an HTML id.
- `shortened_filename` shows a path relative to the project root.
- `assets_path`, `id` and `link_to_source_file` build asset URLs, per-file anchors and links.
- `asset_output_path` remembers the versioned asset directory and creates it once.
- `format` copies the bundled assets into that directory and writes `index.html`.
- The top-level check refuses to load with a SimpleCov whose version is too old.

Modules, one per concern:

- `Text` (text.dfy): character classes and `String#sub` with a literal pattern.
- `Paths` (paths.dfy): Ruby's `File.join`. When the next part starts with `/`, trailing
  separators are dropped. When neither side has one, a `/` is inserted.
- `Coverage` (coverage.dfy): the shapes of SimpleCov's result that the formatter reads.
- `CssClasses` (css_classes.dfy): the two colour classifiers.
- `ViewHelpers` (view_helpers.dfy): title ids, shortened names, asset paths, ids and links.
- `VersionGate` (version_gate.dfy): the load-time version check.
- `Formatter` (formatter.dfy): the `HtmlFormatter` class, with its cached branch flag and
  its memoised asset directory, over a `FileSystem` object holding a directory set and a
  file map. Its invariant `Valid()` says that a remembered asset directory exists. The
  constructor establishes it and every method keeps it.

Ruby's `^` matches at the start of every line. The model keeps that: both regex
substitutions work line by line. The lemmas that speak of "one leading `./`" assume a
name without line breaks. The other lemmas hold for any input.

The inputs the source reads from global configuration become parameters:
`SimpleCov.branch_coverage?` goes to the constructor, and `SimpleCov.coverage_path` and
`SimpleCov.root` go to the operations. `HTMLFormatter::VERSION` comes from
`simplecov-html/version.rb`, which is not part of this model, so it is a constructor
parameter. The SHA-1 digest used by `id` is a function parameter `digest`. The bundled
`public/*` entries are given as a sequence of name and content pairs. The rendered page
is given as a string.

## Model

| member | source | states |
|---|---|---|
| `CssClasses.CoverageCssClass` | lib/simplecov-html.rb:93-101 | green iff the percentage is above 90, yellow iff it is above 80 and at most 90, red iff it is at most 80 |
| `CssClasses.CoverageCssClassMonotone` | lib/simplecov-html.rb:93-101 | a higher percentage never gets a worse class |
| `CssClasses.CoverageCssClassBoundaries` | lib/simplecov-html.rb:94-96 | exactly 90 is yellow and 90.01 green; exactly 80 is red and 80.01 yellow |
| `CssClasses.StrengthCssClass` | lib/simplecov-html.rb:103-111 | green iff the strength is above 1, yellow iff it equals 1, red iff it is below 1 |
| `CssClasses.StrengthCssClassMonotone` | lib/simplecov-html.rb:103-111 | a higher strength never gets a worse class |
| `Formatter.HtmlFormatter.constructor` | lib/simplecov-html.rb:19-21 | the branch-coverage flag is cached at construction; no asset directory is remembered yet |
| `Formatter.HtmlFormatter.LineStatus` | lib/simplecov-html.rb:45-51 | the result is "missed-branch" exactly when branch coverage is on and the line has a missed branch, whatever its raw status; otherwise it is the raw status unchanged |
| `Formatter.HtmlFormatter.AssetOutputPath` | lib/simplecov-html.rb:64-70 | the first call computes output/assets/VERSION, creates it and caches it; later calls return the cached path and change neither the cache nor the directories, even for another output path; a cached directory stays a created one |
| `Formatter.HtmlFormatter.Format` | lib/simplecov-html.rb:23-31 | every asset is copied to File.join(asset dir, name) and then index.html is written in the output path; with no assets the directory is neither computed nor created; the memo is kept |
| `Formatter.TwoRuns` | lib/simplecov-html.rb:19-31 | two report runs, each with a newly built formatter and so without a remembered directory, create only the asset directory (none when there are no assets) and leave the same files as one run |
| `Formatter.AssetOutputDir` | lib/simplecov-html.rb:67 | File.join(output, "assets", VERSION) lies inside the output directory: it starts with the output path, less its trailing separators, and one '/' |
| `Formatter.Copies` | lib/simplecov-html.rb:24-26 | the files the copy loop writes, a later asset overwriting an earlier one of the same name; its contract is stated by `CopiesTargets` and `CopiesContents` |
| `Formatter.Written` | lib/simplecov-html.rb:24-30 | the files after a run: the copies, then index.html with the page; its contract is stated by `WrittenIdempotent` and `WrittenLeavesOthers` |
| `Formatter.AssetOutputDirLayout` | lib/simplecov-html.rb:67 | the asset directory is output + "/assets/" + VERSION when the output path has no trailing '/' and the version no leading one |
| `Formatter.CopiesTargets` | lib/simplecov-html.rb:24-26 | copying writes exactly the paths File.join(dir, name) of the assets, all lying under dir + "/" |
| `Formatter.CopiesContents` | lib/simplecov-html.rb:24-26 | every copied path holds the content of an asset of that name |
| `Formatter.WrittenIdempotent` | lib/simplecov-html.rb:24-30 | running the copy and the write again with the same inputs leaves the same files |
| `Formatter.WrittenLeavesOthers` | lib/simplecov-html.rb:24-30 | a file outside the asset directory other than index.html, such as another version's asset, keeps its content |
| `Paths.Join` | lib/simplecov-html.rb:67 | File.join of two parts, following Ruby's separator rule at the seam; its contract is stated by `JoinUnder` and `JoinPlain` |
| `Paths.Join3` | lib/simplecov-html.rb:67 | File.join of three parts, folded from the left as Ruby does; its layout is stated by `AssetOutputDirLayout` and `AssetsPathLayout` |
| `Paths.JoinUnder` | lib/simplecov-html.rb:67 | File.join(dir, part) always starts with dir, less its trailing separators, followed by one '/' |
| `Paths.JoinPlain` | lib/simplecov-html.rb:73 | with no separator at the seam File.join inserts exactly one '/' |
| `Text.IndexOf` | lib/simplecov-html.rb:123 | the result is an occurrence of the pattern with none before it, or there is no occurrence at all |
| `Text.Sub` | lib/simplecov-html.rb:123 | String#sub with a String pattern; its contract is stated by `SubReplacesFirst` and `SubAbsent` |
| `Text.SubReplacesFirst` | lib/simplecov-html.rb:123 | String#sub with a literal pattern replaces the first occurrence, wherever it is, and nothing else |
| `Text.SubAbsent` | lib/simplecov-html.rb:123 | String#sub leaves a string without the pattern unchanged |
| `ViewHelpers.StripLineStartNonLetters` | lib/simplecov-html.rb:85 | the first substitution never lengthens the title, and what it keeps starts with a letter or is empty |
| `ViewHelpers.KeepIdChars` | lib/simplecov-html.rb:85 | the second substitution keeps only [A-Za-z0-9_-], never lengthens, and keeps a leading id character |
| `ViewHelpers.TitleId` | lib/simplecov-html.rb:85 | the title id has only [A-Za-z0-9_-], is empty or starts with an ASCII letter, and is no longer than the title |
| `ViewHelpers.TitleIdIdempotent` | lib/simplecov-html.rb:85 | sanitising a title id again changes nothing |
| `ViewHelpers.TitleIdOfTwoWords` | lib/simplecov-html.rb:85 | two id words joined by a space, the first starting with a letter, lose only the space |
| `ViewHelpers.TitleIdExample` | lib/simplecov-html.rb:85 | "All Files" becomes "AllFiles" |
| `ViewHelpers.DropLineStartDotSlash` | lib/simplecov-html.rb:123 | the second substitution never lengthens the name; `DropOneLeadingDotSlash` states what it drops |
| `ViewHelpers.ShortenedFilename` | lib/simplecov-html.rb:122-124 | the name shown for a file; its contract is stated by `ShortenedUnderRoot`, `ShortenedWithoutRoot` and `ShortenedReplacesFirstOccurrence` |
| `ViewHelpers.DropOneLeadingDotSlash` | lib/simplecov-html.rb:123 | on one line, the second substitution drops at most one leading "./" and nothing else |
| `ViewHelpers.ShortenedUnderRoot` | lib/simplecov-html.rb:122-124 | a one-line file name root + "/" + rest is shown as rest |
| `ViewHelpers.ShortenedWithoutRoot` | lib/simplecov-html.rb:122-124 | a one-line file name not containing the root is shown less at most one leading "./" |
| `ViewHelpers.ShortenedReplacesFirstOccurrence` | lib/simplecov-html.rb:122-124 | only the first occurrence of the root becomes ".", even when it is not a prefix |
| `ViewHelpers.AssetsPath` | lib/simplecov-html.rb:72-74 | whatever the version and the name, the asset URL lies under "./assets/" |
| `ViewHelpers.AssetsPathLayout` | lib/simplecov-html.rb:72-74 | assets_path(name) is "./assets/" + VERSION + "/" + name for a version without '/' at its ends and a relative name |
| `ViewHelpers.Id` | lib/simplecov-html.rb:114-116 | the digest of the file name; its contract is stated by `IdDependsOnlyOnFilename` |
| `ViewHelpers.IdDependsOnlyOnFilename` | lib/simplecov-html.rb:114-116 | two files with the same name get the same id |
| `ViewHelpers.TakeUntilQuoteOf` | lib/simplecov-html.rb:127 | a quote-free value followed by '"' is read back as that value and the rest |
| `ViewHelpers.ParseRenderAnchor` | lib/simplecov-html.rb:127 | the anchor layout of the link reads back to its href, class, title and text when no attribute holds a '"' |
| `ViewHelpers.LinkToSourceFile` | lib/simplecov-html.rb:126-128 | the link to a file's section of the page; its contract is stated by `LinkToSourceFileReadsBack` |
| `ViewHelpers.LinkToSourceFileReadsBack` | lib/simplecov-html.rb:126-128 | the link's href is "#" + id(file), its class src_link, and its title and text are both the shortened file name, provided neither holds a '"' |
| `VersionGate.DigitRuns` | lib/simplecov-html.rb:10 | every scanned match is a non-empty run of digits |
| `VersionGate.DigitRunsCoverDigits` | lib/simplecov-html.rb:10 | the matches, joined, are exactly the digits of the version string |
| `VersionGate.DigitRunsOfDotted` | lib/simplecov-html.rb:10 | "a.b.c" with digit components scans as [a, b, c] |
| `VersionGate.VersionNumbers` | lib/simplecov-html.rb:10 | at most the first three matches are kept |
| `VersionGate.Gate` | lib/simplecov-html.rb:10-14 | the check as written, with its three outcomes; its contract is stated by `GateWithThreeNumbers`, `GateNilComparison` and `GateOfDotted` |
| `VersionGate.GateWithThreeNumbers` | lib/simplecov-html.rb:10-14 | with three numbers the check never reaches nil, and refuses exactly when the minor number is below 9 |
| `VersionGate.GateNilComparison` | lib/simplecov-html.rb:10-14 | the check compares nil exactly when the version has fewer than two numbers, or two with a minor of at least 9 |
| `VersionGate.GateOfDotted` | lib/simplecov-html.rb:10-14 | on "a.b.c" only b decides: below 9 is refused, otherwise loading goes on |
| `VersionGate.GateExamples` | lib/simplecov-html.rb:10-14 | "0.18.5" loads; "0.8.0" and "1.0.0" are refused as too old |
| `VersionGate.GateIntended` | lib/simplecov-html.rb:10-14 | the corrected check never compares nil |
| `VersionGate.GateIntendedAgrees` | lib/simplecov-html.rb:10-14 | the corrected check accepts every version with a positive major number, and agrees with the check as written on three-number 0.x versions |
| `VersionGate.GateIntendedExamples` | lib/simplecov-html.rb:10-14 | the corrected check loads "0.18.5" and "1.0.0" and refuses "0.8.0" |

## Left out

- ERB template loading and rendering and the use of `binding` (lines 29, 56-58, 78, 86, 90): the template engine and the `.erb` views are not part of this model. The page `format` writes is a parameter.
- `covered_percent(percent)` and `formatted_source_file` (lines 77-81, 89-91): they only render a template.
- The rescue of `Encoding::CompatibilityError` (lines 79-80): it is Ruby's encoding machinery, and the message goes to standard output.
- `output_message` and the `puts` in `format` (lines 31, 34-36): console output, using Float#round(2).
- `timeago` (lines 118-120): it formats a Time with Ruby's ISO 8601 library.
- The SHA-1 digest in `id` (line 115): a foreign library call, kept as the function parameter `digest`.
- `Dir[...]` over `public/*` (line 24): the bundled entries are a parameter, in the order the glob gives them.
- `Formatter.HtmlFormatter.AssetOutputPath`: FileUtils.mkdir_p is modelled as adding the leaf directory to the directory set. The intermediate directories it also creates are not modelled.
- `Formatter.HtmlFormatter.AssetOutputPath`: mkdir_p is modelled as always succeeding. Line 67 sets the memo before line 68 creates the directory, so in Ruby a failing mkdir_p leaves a remembered path with no directory. The invariant `Valid()` (a remembered directory exists) and the row's "a cached directory stays a created one" hold only under that assumption.
- `Formatter.HtmlFormatter.Format`: `cp_r` of a directory is modelled as one path holding the entry's whole content. The tree under it is not modelled, and writing `index.html` assumes the output directory exists.
- `Formatter.HtmlFormatter.Format`: I/O failures are not modelled. `cp_r` (line 25) and `File.open` (line 28) always succeed, so a run never stops halfway with some assets copied.
- `Formatter.HtmlFormatter.Format`: `page` stands for the exact text written to index.html. That is the rendered layout followed by the "\n" that `file.puts` (line 29) adds when the rendering does not already end in one. The rendering itself and that newline are not modelled.
- `CssClasses.CoverageCssClass`: the percentage is a Dafny `real`, so Float NaN and infinities are not modelled. In Ruby NaN compares false everywhere and would be red.
- `CssClasses.StrengthCssClass`: as for the percentage, NaN and infinities are not modelled.
- Windows path separators in `File.join` are not modelled. Only '/' is a separator.
- Line breaks: `^` anchors are modelled exactly, but the "one leading ./" and "root + '/' + rest" properties are stated for names without line breaks.

## Findings

| source | as written | input that shows it | evidently intended | confidence | as-written member | corrected member |
|---|---|---|---|---|---|---|
| lib/simplecov-html.rb:10-14 | refuses when `major < 0 \|\| minor < 9 \|\| patch < 0`, so the major number never counts; a version with no number, one number, or two numbers of which the second is at least 9 raises NoMethodError on nil | "1.0.0" is refused as "too old"; "1" crashes | refuse only versions below 0.9, compared component by component, missing components read as 0 | medium, not executed | `VersionGate.GateExamples` | `VersionGate.GateIntendedExamples` |
