/** `generate_report` end to end (slack_bot.py:88-114): the counts of all
    channels, grouped by affiliation, ranked and rendered. */
module Pipeline {
  import opened Basics
  import opened Slack
  import opened OrderedDict
  import opened Directory
  import opened History
  import opened Counting
  import opened Grouping
  import opened Ranking
  import opened Report

  predicate AllTerminate(channels: seq<Channel>) {
    forall i :: 0 <= i < |channels| ==> Terminates(channels[i].history)
  }

  /** The groups and their counts in report order. */
  function RankedGroups(users: seq<User>, channels: seq<Channel>): seq<Item>
    requires AllTerminate(channels)
  {
    var directory := TargetUserIds(users);
    var targets := ToMap(directory);
    var total := Tally(targets, AllCredits(targets, channels));
    TargetsCounted(directory, total);
    SortByCount(Grouped(Keys(directory), targets, total))
  }

  /** Every target user has a count: the totals start from one zero entry
      per id of `target_user_ids`. */
  lemma TargetsCounted(directory: Dict<string, string>, total: map<string, nat>)
    requires total.Keys == ToMap(directory).Keys
    ensures forall u :: u in total <==> u in Keys(directory)
  {
    forall u
      ensures u in total <==> u in Keys(directory)
    {
      ToMapGet(directory, u, "");
    }
  }

  /** The report: the header, then one line per group in ranking order. */
  method GenerateReport(users: seq<User>, channels: seq<Channel>, now: string) returns (report: string)
    requires AllTerminate(channels)
    ensures report == Header(now) + Lines(RankedGroups(users, channels))
  {
    var directory := TargetUserIds(users);
    var targets := ToMap(directory);
    var total := TotalTally(targets, channels);
    TargetsCounted(directory, total);
    TargetUserIdsValid(users);
    var grouped := GroupCounts(Keys(directory), targets, total);
    var ranked := SortByCount(grouped);
    report := RenderReport(now, ranked);
  }

  /** The tallied counts of the users `ids` are the multiplicities of
      those ids among the credits. */
  lemma CountsOfTally(targets: map<string, string>, ids: seq<string>, credits: seq<string>)
    requires forall i :: 0 <= i < |ids| ==> ids[i] in targets
    ensures CountsOf(ids, Tally(targets, credits)) == Multiplicities(ids, multiset(credits))
  {
    forall i | 0 <= i < |ids|
      ensures CountsOf(ids, Tally(targets, credits))[i] == Multiplicities(ids, multiset(credits))[i]
    {
      CountsOfAt(ids, Tally(targets, credits), i);
      MultiplicitiesAt(ids, multiset(credits), i);
    }
  }

  /** Over a listing of the target ids, the tallied counts add up to the
      number of credits. */
  lemma TallySum(targets: map<string, string>, ids: seq<string>, credits: seq<string>)
    requires Distinct(ids)
    requires forall u :: u in targets <==> u in ids
    requires forall u :: u in credits ==> u in targets
    ensures Sum(CountsOf(ids, Tally(targets, credits))) == |credits|
  {
    CountsOfTally(targets, ids, credits);
    MultiplicitiesSum(ids, credits);
  }

  /** Every credited answer shows up exactly once in the report: the
      ranked counts add up to the number of credits over all channels. */
  lemma ReportCountsAddUp(users: seq<User>, channels: seq<Channel>)
    requires AllTerminate(channels)
    ensures Sum(Values(RankedGroups(users, channels)))
         == |AllCredits(ToMap(TargetUserIds(users)), channels)|
  {
    var directory := TargetUserIds(users);
    var targets := ToMap(directory);
    var credits := AllCredits(targets, channels);
    var total := Tally(targets, credits);
    TargetsCounted(directory, total);
    TargetUserIdsValid(users);
    SortByCountSum(Grouped(Keys(directory), targets, total));
    GroupedSum(Keys(directory), targets, total);
    AllCreditsAreTargets(targets, channels);
    TallySum(targets, Keys(directory), credits);
  }
}
