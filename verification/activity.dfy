/**
 The activity statistics of `src/index.ts`: commit hours voted into four
 circadian buckets, addition/deletion/issue totals folded over the repository
 responses, and pull requests and code reviews counted inside a time window.

 The hour of a commit is an input: the source obtains it by formatting the
 commit instant in the configured time zone and converting the hour field
 with unary `+`, which can give NaN or an out-of-range number such as 24.
 */
module Activity {
  import opened JsText

  /** The result of `+(timeString.split(':')[0])`. */
  datatype HourValue = Hour(h: int) | NaN

  datatype Bucket = Morning | Daytime | Evening | Night

  /** The four buckets in report order. */
  const Order: seq<Bucket> := [Morning, Daytime, Evening, Night]

  /** `hour >= lo && hour < hi`; every comparison with NaN is false. */
  predicate Within(hour: HourValue, lo: int, hi: int)
  {
    hour.Hour? && hour.h >= lo && hour.h < hi
  }

  /** The guard the source writes for bucket `b`. */
  predicate Guard(b: Bucket, hour: HourValue)
  {
    match b
    case Morning => Within(hour, 6, 12)
    case Daytime => Within(hour, 12, 18)
    case Evening => Within(hour, 18, 24)
    case Night => Within(hour, 0, 6)
  }

  predicate InDay(hour: HourValue)
  {
    hour.Hour? && 0 <= hour.h < 24
  }

  /** The bucket whose guard holds, tried in the source's order. */
  function BucketOf(hour: HourValue): (r: Option<Bucket>)
    ensures r.Some? <==> InDay(hour)
    ensures forall b :: r == Some(b) <==> Guard(b, hour)
  {
    if Guard(Morning, hour) then Some(Morning)
    else if Guard(Daytime, hour) then Some(Daytime)
    else if Guard(Evening, hour) then Some(Evening)
    else if Guard(Night, hour) then Some(Night)
    else None
  }

  function Indicator(p: bool): nat
  {
    if p then 1 else 0
  }

  /** How many of the four guards hold for `hour`. */
  function GuardsHeld(hour: HourValue): nat
  {
    Indicator(Guard(Morning, hour)) + Indicator(Guard(Daytime, hour))
    + Indicator(Guard(Evening, hour)) + Indicator(Guard(Night, hour))
  }

  /** The four ranges are disjoint and cover exactly [0, 24). */
  lemma Partition(hour: HourValue)
    ensures InDay(hour) <==> GuardsHeld(hour) == 1
    ensures !InDay(hour) <==> GuardsHeld(hour) == 0
  {
  }

  // ---------------------------------------------------------------------------
  // Voting

  datatype Counters = Counters(morning: nat, daytime: nat, evening: nat, night: nat)

  function CommitsOf(c: Counters, b: Bucket): nat
  {
    match b
    case Morning => c.morning
    case Daytime => c.daytime
    case Evening => c.evening
    case Night => c.night
  }

  /** `sumCommit`. */
  function Total(c: Counters): nat
  {
    c.morning + c.daytime + c.evening + c.night
  }

  /** The four independent `if` statements of one commit's vote. */
  function Vote(c: Counters, hour: HourValue): (r: Counters)
    ensures forall b :: CommitsOf(r, b) == CommitsOf(c, b) + Indicator(BucketOf(hour) == Some(b))
    ensures Total(r) == Total(c) + Indicator(InDay(hour))
  {
    Counters(
      c.morning + Indicator(Guard(Morning, hour)),
      c.daytime + Indicator(Guard(Daytime, hour)),
      c.evening + Indicator(Guard(Evening, hour)),
      c.night + Indicator(Guard(Night, hour)))
  }

  // ---------------------------------------------------------------------------
  // Repository responses and their reference totals

  /** One history edge: the commit's local hour and its line counts. */
  datatype Commit = Commit(hour: HourValue, additions: int, deletions: int)

  /** One repository response: its history edges and its issue `totalCount`. */
  datatype RepoResponse = RepoResponse(edges: seq<Commit>, issueCount: int)

  datatype Totals = Totals(counters: Counters, additions: int, deletions: int, issues: int)

  /** Every edge of every response, in order. */
  function Flatten(rs: seq<RepoResponse>): (cs: seq<Commit>)
    ensures |rs| == 0 ==> cs == []
  {
    if |rs| == 0 then [] else Flatten(rs[..|rs| - 1]) + rs[|rs| - 1].edges
  }

  /** Number of commits whose hour lies in bucket `b`. */
  function CountBucket(cs: seq<Commit>, b: Bucket): nat
  {
    if |cs| == 0 then 0
    else CountBucket(cs[..|cs| - 1], b) + Indicator(Guard(b, cs[|cs| - 1].hour))
  }

  /** Number of commits whose hour lies in [0, 24). */
  function CountInDay(cs: seq<Commit>): (n: nat)
    ensures n <= |cs|
  {
    if |cs| == 0 then 0
    else CountInDay(cs[..|cs| - 1]) + Indicator(InDay(cs[|cs| - 1].hour))
  }

  function SumAdditions(cs: seq<Commit>): int
  {
    if |cs| == 0 then 0 else SumAdditions(cs[..|cs| - 1]) + cs[|cs| - 1].additions
  }

  function SumDeletions(cs: seq<Commit>): int
  {
    if |cs| == 0 then 0 else SumDeletions(cs[..|cs| - 1]) + cs[|cs| - 1].deletions
  }

  /** One issue count per response, however many edges it has. */
  function SumIssues(rs: seq<RepoResponse>): int
  {
    if |rs| == 0 then 0 else SumIssues(rs[..|rs| - 1]) + rs[|rs| - 1].issueCount
  }

  /** The counters the reference definitions give for a list of commits. */
  function BucketCounters(cs: seq<Commit>): Counters
  {
    Counters(CountBucket(cs, Morning), CountBucket(cs, Daytime),
             CountBucket(cs, Evening), CountBucket(cs, Night))
  }

  /** The bucket counters add up to the number of commits with an hour in [0, 24). */
  lemma {:induction false} BucketSum(cs: seq<Commit>)
    ensures Total(BucketCounters(cs)) == CountInDay(cs)
    decreases |cs|
  {
    if |cs| > 0 {
      BucketSum(cs[..|cs| - 1]);
      Partition(cs[|cs| - 1].hour);
    }
  }

  /** A commit outside [0, 24) changes no counter but still adds its line counts. */
  lemma OutOfDayCommit(cs: seq<Commit>, c: Commit)
    requires !InDay(c.hour)
    ensures BucketCounters(cs + [c]) == BucketCounters(cs)
    ensures CountInDay(cs + [c]) == CountInDay(cs)
    ensures SumAdditions(cs + [c]) == SumAdditions(cs) + c.additions
    ensures SumDeletions(cs + [c]) == SumDeletions(cs) + c.deletions
  {
    assert (cs + [c])[..|cs|] == cs;
  }

  lemma {:induction false} FlattenAppend(rs: seq<RepoResponse>, r: RepoResponse)
    ensures Flatten(rs + [r]) == Flatten(rs) + r.edges
  {
    assert (rs + [r])[..|rs|] == rs;
  }

  lemma StepCommit(done: seq<Commit>, c: Commit)
    ensures BucketCounters(done + [c]) == Vote(BucketCounters(done), c.hour)
    ensures SumAdditions(done + [c]) == SumAdditions(done) + c.additions
    ensures SumDeletions(done + [c]) == SumDeletions(done) + c.deletions
  {
    assert (done + [c])[..|done|] == done;
  }

  /** `t` holds the commit counters and line totals of the commits `cs`. */
  predicate Summarises(t: Totals, cs: seq<Commit>)
  {
    && t.counters == BucketCounters(cs)
    && t.additions == SumAdditions(cs)
    && t.deletions == SumDeletions(cs)
  }

  /** The inner `forEach` over one response's edges: each edge votes and adds its line counts. */
  method FoldEdges(t: Totals, edges: seq<Commit>, ghost before: seq<Commit>) returns (r: Totals)
    requires Summarises(t, before)
    ensures Summarises(r, before + edges)
    ensures r.issues == t.issues
  {
    r := t;
    var j := 0;
    assert before + edges[..j] == before;
    while j < |edges|
      invariant 0 <= j <= |edges|
      invariant Summarises(r, before + edges[..j])
      invariant r.issues == t.issues
    {
      StepCommit(before + edges[..j], edges[j]);
      assert before + edges[..j + 1] == before + edges[..j] + [edges[j]];
      r := r.(counters := Vote(r.counters, edges[j].hour),
               additions := r.additions + edges[j].additions,
               deletions := r.deletions + edges[j].deletions);
      j := j + 1;
    }
    assert edges[..j] == edges;
  }

  /**
   The nested `forEach` of `src/index.ts`: every edge votes for a bucket and
   adds its line counts; every response adds its issue count once.
   */
  method Aggregate(rs: seq<RepoResponse>) returns (t: Totals)
    ensures t.counters == BucketCounters(Flatten(rs))
    ensures Total(t.counters) == CountInDay(Flatten(rs))
    ensures t.additions == SumAdditions(Flatten(rs))
    ensures t.deletions == SumDeletions(Flatten(rs))
    ensures t.issues == SumIssues(rs)
  {
    t := Totals(Counters(0, 0, 0, 0), 0, 0, 0);
    var i := 0;
    while i < |rs|
      invariant 0 <= i <= |rs|
      invariant Summarises(t, Flatten(rs[..i]))
      invariant t.issues == SumIssues(rs[..i])
    {
      t := FoldEdges(t, rs[i].edges, Flatten(rs[..i]));
      assert rs[..i + 1] == rs[..i] + [rs[i]];
      FlattenAppend(rs[..i], rs[i]);
      t := t.(issues := t.issues + rs[i].issueCount);
      i := i + 1;
    }
    assert rs[..i] == rs;
    BucketSum(Flatten(rs));
  }

  // ---------------------------------------------------------------------------
  // Pull requests and code reviews inside the window

  /**
   `new Date(createdAt).getTime() > new Date(sinceDate).getTime()`; a missing
   `createdAt` gives an invalid date, whose time is NaN and compares false.
   */
  predicate After(createdAt: Option<int>, since: int)
  {
    createdAt.Some? && createdAt.value > since
  }

  /** Number of nodes created strictly after `since`. */
  function CountSince(nodes: seq<Option<int>>, since: int): (n: nat)
    ensures n <= |nodes|
  {
    if |nodes| == 0 then 0
    else CountSince(nodes[..|nodes| - 1], since) + Indicator(After(nodes[|nodes| - 1], since))
  }

  /** The `forEach` that increments `pullRequests` (or `codeReviews`) per recent node. */
  method CountCreatedSince(nodes: seq<Option<int>>, since: int) returns (count: nat)
    ensures count == CountSince(nodes, since)
    ensures count <= |nodes|
  {
    count := 0;
    var i := 0;
    while i < |nodes|
      invariant 0 <= i <= |nodes|
      invariant count == CountSince(nodes[..i], since)
    {
      assert nodes[..i + 1][..i] == nodes[..i];
      if After(nodes[i], since) {
        count := count + 1;
      }
      i := i + 1;
    }
    assert nodes[..i] == nodes;
  }

  lemma {:induction false} CountSinceAppend(a: seq<Option<int>>, b: seq<Option<int>>, since: int)
    ensures CountSince(a + b, since) == CountSince(a, since) + CountSince(b, since)
    decreases |b|
  {
    if |b| == 0 {
      assert a + b == a;
    } else {
      assert (a + b)[..|a + b| - 1] == a + b[..|b| - 1];
      CountSinceAppend(a, b[..|b| - 1], since);
    }
  }

  /** A node created exactly at `since`, or with no date, is not counted. */
  lemma BoundaryExcluded(nodes: seq<Option<int>>, since: int)
    ensures CountSince(nodes + [Some(since)], since) == CountSince(nodes, since)
    ensures CountSince(nodes + [None], since) == CountSince(nodes, since)
    ensures CountSince(nodes + [Some(since + 1)], since) == CountSince(nodes, since) + 1
  {
    assert (nodes + [Some(since)])[..|nodes|] == nodes;
    assert (nodes + [None])[..|nodes|] == nodes;
    assert (nodes + [Some(since + 1)])[..|nodes|] == nodes;
  }

  /** Every node is counted exactly when every node is strictly after `since`. */
  lemma {:induction false} CountSinceAll(nodes: seq<Option<int>>, since: int)
    ensures CountSince(nodes, since) == |nodes| <==> forall i :: 0 <= i < |nodes| ==> After(nodes[i], since)
    decreases |nodes|
  {
    if |nodes| > 0 {
      var init := nodes[..|nodes| - 1];
      CountSinceAll(init, since);
      assert forall i :: 0 <= i < |init| ==> init[i] == nodes[i];
    }
  }

  /** A later window start never counts more nodes. */
  lemma {:induction false} CountSinceAntitone(nodes: seq<Option<int>>, early: int, late: int)
    requires early <= late
    ensures CountSince(nodes, late) <= CountSince(nodes, early)
    decreases |nodes|
  {
    if |nodes| > 0 {
      CountSinceAntitone(nodes[..|nodes| - 1], early, late);
    }
  }
}
