# Activity statistics of a GitHub profile gist, in Dafny

This project models the statistics core of a script that reads a developer's
recent GitHub activity and publishes it. It covers two things. First, a gist
whose title says whether the developer is an "early" or a "night" coder, and
whose content is four aligned lines, one per part of the day. Second, a
README that shows an octocat with a greeting for the current hour.

The model takes everything the script fetches or reads as input:

- the repository histories, already reduced to one local hour per commit (or
  NaN) with its line counts, plus each repository's issue count;
- the `createdAt` instants of pull requests and reviews, and the window start;
- the SVG text and the current hour;
- `generateBarChart` and `toFixed(1)`, as function parameters.

From these inputs the model computes:

- the four circadian counters (Morning [6,12), Daytime [12,18),
  Evening [18,24), Night [0,6)) and the addition, deletion and issue totals;
- pull requests and reviews created strictly after the window start;
- the zero-commit stop;
- exact percentages;
- the title rule;
- the padded report lines, measured in UTF-16 code units as JavaScript
  measures them;
- the README text.

Modules:

- `JsText` (`js_text.dfy`): JavaScript `length`, `padEnd`, `padStart`,
  `toString`, `join`, `split` and template interpolation of `undefined`.
- `Activity` (`activity.dfy`): hour bucketing, the commit fold and the windowed
  counters.
- `Report` (`report.dfy`): percentages, the title and the report lines.
- `Renderer` (`renderer.dfy`): greeting and README text.
- `Pipeline` (`pipeline.dfy`): one run of the script after its fetches.

## Model

| member | source | states |
|---|---|---|
| Activity.BucketOf | src/index.ts:109-112 | an hour gets a bucket exactly when it is an integer in [0,24), and bucket b exactly when b's guard holds |
| Activity.Partition | src/index.ts:109-112 | the four guards hold exactly once for an hour in [0,24) and never for any other hour (NaN, 24, negative) |
| Activity.Vote | src/index.ts:109-112 | the four independent `if`s of one commit raise only the counter of the hour's bucket, and raise the total by one exactly when the hour is in [0,24) |
| Activity.BucketSum | src/index.ts:104-118 | the four counters add up to the number of commits whose hour lies in [0,24) |
| Activity.OutOfDayCommit | src/index.ts:104-118 | a commit whose hour is outside [0,24) changes no counter but still adds its additions and deletions |
| Activity.FoldEdges | src/index.ts:102-119 | folding one response's edges extends the counters and line totals by exactly those edges and leaves the issue total alone |
| Activity.Aggregate | src/index.ts:101-121 | the fold yields per-bucket counts, additions and deletions over every edge of every response, and one issue count per response |
| Activity.CountSince | src/index.ts:84-99 | the number of nodes created strictly after the window start never exceeds the number of nodes |
| Activity.CountCreatedSince | src/index.ts:84-99 | the counting loop returns the number of nodes whose `createdAt` is strictly later than `since`, at most the node count |
| Activity.BoundaryExcluded | src/index.ts:86 | a node created exactly at `since`, or without a date, is not counted; one a millisecond later is |
| Activity.CountSinceAll | src/index.ts:84-89 | every node is counted exactly when every node is strictly after `since` |
| Activity.CountSinceAntitone | src/index.ts:94-99 | moving the window start later never counts more nodes |
| Activity.CountSinceAppend | src/index.ts:84-89 | the count over two node lists is the sum of their counts |
| Report.Percent | src/index.ts:159 | a bucket's percentage is the non-negative number that, multiplied by `sumCommit`, gives 100 times the bucket's commits |
| Report.PercentRange | src/index.ts:159 | a bucket's share lies in [0,100], and is 0 or 100 exactly for none or all of the commits |
| Report.BucketPercent | src/index.ts:159 | every bucket percent of a run past the zero guard lies in [0,100] |
| Report.PercentsSumTo100 | src/index.ts:126-127 | when `sumCommit` is positive the four bucket percents add up to exactly 100 |
| Report.Title | src/index.ts:185 | the title is "early" exactly when morning+daytime is strictly above evening+night; a tie gives "night" |
| Report.OneDay | src/index.ts:151-156 | the rows are Morning, Daytime, Evening, Night in that order, each with its label and its counter |
| Report.LabelField | src/index.ts:161 | the label field is the label followed only by spaces, as wide as the larger of the label and 10 code units |
| Report.CountField | src/index.ts:162 | the count field is at least 14 code units; below 100000 commits it is the count right-aligned in 5, " commits" and one space, exactly 14; from 100000 on it is the digits and " commits" unpadded |
| Report.PercentField | src/index.ts:164 | the percent field is the `toFixed(1)` text preceded only by spaces up to 5 code units, then "%" |
| Report.FormatLine | src/index.ts:159-167 | a line is the label field, count field, bar of width 21 and percent field, separated by single spaces |
| Report.ReduceLines | src/index.ts:158-168 | the reducer keeps the lines already built and appends one line per row, in row order |
| Report.Lines | src/index.ts:151-168 | exactly four lines, the i-th formatted from the i-th bucket of the day |
| Report.ReportText | src/index.ts:186 | the gist content is the four lines with one line break between neighbours |
| Report.LinesInDayOrder | src/index.ts:151-168 | line i carries bucket i's label, count, bar and percentage |
| Report.LabelWidth | src/index.ts:152-155 | the padded label is 10 code units; only the Night label gains two spaces |
| Report.ReportSplitsIntoLines | src/index.ts:186 | splitting the gist content at line breaks gives back exactly the four lines, when bar and percent texts hold no line break |
| JsText.Units | src/index.ts:161 | a string's JavaScript length lies between its character count and twice that |
| JsText.PadEnd | src/index.ts:161-162 | `padEnd` keeps the string as a prefix, adds only spaces and reaches the larger of its own width and the target |
| JsText.PadStart | src/index.ts:162-164 | `padStart` keeps the string as a suffix, adds only leading spaces and reaches the larger of its own width and the target |
| JsText.PadNeverTruncates | src/index.ts:161-164 | padding either leaves a field at or above the target unchanged or brings it to exactly the target width |
| JsText.PadEndIdempotent | src/index.ts:161 | padding a field twice to the same width is the same as padding it once |
| JsText.PadStartIdempotent | src/index.ts:162-164 | left-padding a field twice to the same width is the same as padding it once |
| JsText.NatToString | src/index.ts:162 | a count prints as decimal digits with no leading zero |
| JsText.NatToStringRoundTrip | src/index.ts:162 | reading back the printed count gives the count |
| JsText.Join | src/index.ts:167 | `join` of no parts is empty; otherwise its length is the parts' lengths plus one separator between each pair of neighbours |
| JsText.SplitJoin | src/index.ts:186 | splitting a `join` at a separator no part contains returns the parts |
| Renderer.Greeting | src/gitGotchiRenderer.ts:21-27 | an hour gets a greeting exactly when it is in [0,24), and it is the greeting of the bucket the statistics count that hour in |
| Renderer.Content | src/gitGotchiRenderer.ts:29 | the content is the SVG inside a centred `div`, then the bucket's greeting, or "undefined" for an hour outside [0,24) |
| Renderer.ReadmeText | src/gitGotchiRenderer.ts:29-32 | the README is the content followed by a line "undefined" from the unassigned `data` |
| Renderer.ReadmeIgnoresPet | src/gitGotchiRenderer.ts:10-32 | the README does not depend on the pet argument |
| Pipeline.Run | src/index.ts:68-186 | a failed fetch or zero counted commits stops the run; otherwise the run publishes the fold's totals, the windowed counts, the pet's statistics, the README, the title and the four-line content |
| Pipeline.PublishedReport | src/index.ts:126-186 | the content of a published outcome splits back into exactly its four lines, and their percentages add up to 100 |

## Left out

- `src/queries.ts` is not part of this model. It only builds GraphQL query strings.
- `githubQuery`, `Promise.all` and the Octokit gist `get`/`update` calls are network I/O. Their results are inputs. The stop at `if (!gist) return;` after the README is written is not modelled.
- `dotenv`, `process.env` and the SVG read and README write are I/O. The SVG text and `NAME` are inputs.
- `Date`, `toLocaleTimeString`, time zones and the seven-day `sinceDate` are clock and locale work. Each commit's parsed hour, the current hour and instants in milliseconds are inputs.
- The additions/deletions percentages, `Number.EPSILON` rounding and `toFixed(1)` are floating-point numerics. `toFixed(1)` is an opaque parameter.
- `generateBarChart`, `Pet`, `calculateAge` and `setStatistic` are not part of this model. Their source is not available. The bar is an opaque parameter, and the model records only the arguments handed to the pet.
- Console logging produces no value the rest of the script uses.
- An `undefined` `additions`, `deletions` or `totalCount` is not modelled. In JavaScript it makes the running sum NaN; the model takes every such field as an integer.
- A node list that exists with a missing `nodes` or `edges` field is not modelled. In JavaScript that throws a TypeError. A list that optional chaining skips is given as empty.
- `Report.Percent`: JavaScript computes `commits / sumCommit * 100` in doubles; the model uses exact reals, so `Report.PercentsSumTo100` holds exactly only in the model.
- `JsText.NatToString`, and the `nat`/`int` counters of `Activity`: JavaScript numbers are doubles. The model assumes counts below 2^53, where `++` and `+=` are exact, and below 10^21, where `toString` prints plain decimal digits rather than exponent notation.
