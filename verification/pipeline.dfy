/**
 The top-level script of `src/index.ts` after every fetch has returned: count
 the recent pull requests and code reviews, fold the commit histories, stop
 when no commit was counted, and otherwise hand the statistics to the pet,
 render the README and build the gist's title and content.

 The GraphQL queries, the gist update and the console output are outside the
 model; their results (or `None` for a failed fetch) are inputs.
 */
module Pipeline {
  import opened JsText
  import opened Activity
  import opened Report
  import opened Renderer

  /** What the script passes to the pet: the profile fields and `setStatistic`'s arguments. */
  datatype PetInput = PetInput(
    name: Option<string>, birthDay: Option<string>, totalContribution: Option<int>,
    commits: nat, issues: int, codeReviews: nat, pullRequests: nat)

  /**
   What the pet is constructed from: the `NAME` environment variable and the
   account's `createdAt` and `restrictedContributionsCount` from the
   user-status query.
   */
  datatype Profile = Profile(name: Option<string>, birthDay: Option<string>, totalContribution: Option<int>)

  datatype Outcome =
    | Stopped
    | Published(totals: Totals, pullRequests: nat, codeReviews: nat, pet: PetInput,
                readme: string, title: string, content: string)

  /**
   One run of the script. `fetched` is the result of `Promise.all` over the
   contributed repositories (`None` when it failed); `prCreated` and
   `reviewCreated` are the `createdAt` fields of the user's pull-request and
   review nodes; `svg` and `nowHour` are the renderer's file read and clock.
   */
  method Run(fetched: Option<seq<RepoResponse>>, prCreated: seq<Option<int>>,
             reviewCreated: seq<Option<int>>, since: int, profile: Profile,
             svg: Option<string>, nowHour: HourValue,
             bar: (real, nat) -> string, fixed1: real -> string) returns (o: Outcome)
    ensures fetched.None? ==> o == Stopped
    ensures fetched.Some? ==> (o.Stopped? <==> CountInDay(Flatten(fetched.value)) == 0)
    ensures o.Published? ==>
      && fetched.Some?
      && o.totals.counters == BucketCounters(Flatten(fetched.value))
      && o.totals.additions == SumAdditions(Flatten(fetched.value))
      && o.totals.deletions == SumDeletions(Flatten(fetched.value))
      && o.totals.issues == SumIssues(fetched.value)
      && o.pullRequests == CountSince(prCreated, since)
      && o.codeReviews == CountSince(reviewCreated, since)
      && o.pet == PetInput(profile.name, profile.birthDay, profile.totalContribution,
                           Total(o.totals.counters), o.totals.issues, o.codeReviews, o.pullRequests)
      && Total(o.totals.counters) > 0
      && o.title == Title(o.totals.counters)
      && o.content == ReportText(o.totals.counters, bar, fixed1)
      && o.readme == ReadmeText(o.pet, svg, nowHour)
  {
    if fetched.None? {
      return Stopped;
    }
    var pullRequests := CountCreatedSince(prCreated, since);
    var codeReviews := CountCreatedSince(reviewCreated, since);
    var totals := Aggregate(fetched.value);
    var sumCommit := Total(totals.counters);
    if sumCommit == 0 {
      return Stopped;
    }
    var pet := PetInput(profile.name, profile.birthDay, profile.totalContribution,
                        sumCommit, totals.issues, codeReviews, pullRequests);
    var readme := ReadmeText(pet, svg, nowHour);
    var content := ReportText(totals.counters, bar, fixed1);
    o := Published(totals, pullRequests, codeReviews, pet, readme, Title(totals.counters), content);
  }

  /**
   The content of a published outcome splits into its four report lines, and
   the four percentages behind them add up to 100. The requires are what `Run`
   promises of every `Published` outcome, plus no line break in the bar and
   percentage texts.
   */
  lemma PublishedReport(o: Outcome, bar: (real, nat) -> string, fixed1: real -> string)
    requires o.Published? && Total(o.totals.counters) > 0
    requires o.content == ReportText(o.totals.counters, bar, fixed1)
    requires forall p: real, w: nat :: '\n' !in bar(p, w)
    requires forall p: real :: '\n' !in fixed1(p)
    ensures Split(o.content, '\n') == Lines(o.totals.counters, bar, fixed1)
    ensures |Split(o.content, '\n')| == 4
    ensures var c := o.totals.counters;
      BucketPercent(c, Morning) + BucketPercent(c, Daytime)
      + BucketPercent(c, Evening) + BucketPercent(c, Night) == 100.0
  {
    ReportSplitsIntoLines(o.totals.counters, bar, fixed1);
    PercentsSumTo100(o.totals.counters);
  }
}
