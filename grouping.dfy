/** Affiliation grouping: `extract_group_name` (slack_bot.py:80-86) and the
    loop of `generate_report` that sums the users' counts per group
    (slack_bot.py:96-100). */
module Grouping {
  import opened Basics
  import opened Slack
  import opened OrderedDict

  /** The first token, in the order given, that occurs in `name`; `name`
      itself when none does. */
  function FirstMatch(tokens: seq<string>, name: string): string {
    if tokens == [] then name
    else if Contains(name, tokens[0]) then tokens[0]
    else FirstMatch(tokens[1..], name)
  }

  /** `extract_group_name`. */
  function ExtractGroupName(userName: string): string {
    FirstMatch(GroupNames, userName)
  }

  /** The scan returns the first token that occurs in the name, and no
      earlier token occurs in it; or, when no token occurs in it, the name
      itself. */
  lemma {:induction false} FirstMatchIsFirst(tokens: seq<string>, name: string)
    ensures var g := FirstMatch(tokens, name);
            || (exists i :: 0 <= i < |tokens| && g == tokens[i] && Contains(name, tokens[i])
                              && forall j :: 0 <= j < i ==> !Contains(name, tokens[j]))
            || (g == name && forall j :: 0 <= j < |tokens| ==> !Contains(name, tokens[j]))
  {
    if tokens != [] && !Contains(name, tokens[0]) {
      FirstMatchIsFirst(tokens[1..], name);
      var g := FirstMatch(tokens[1..], name);
      if exists i :: 0 <= i < |tokens[1..]| && g == tokens[1..][i] && Contains(name, tokens[1..][i])
                     && forall j :: 0 <= j < i ==> !Contains(name, tokens[1..][j]) {
        var i :| 0 <= i < |tokens[1..]| && g == tokens[1..][i] && Contains(name, tokens[1..][i])
                 && forall j :: 0 <= j < i ==> !Contains(name, tokens[1..][j]);
        assert forall j :: 1 <= j < i + 1 ==> tokens[j] == tokens[1..][j - 1];
        assert g == tokens[i + 1];
      } else {
        assert forall j :: 1 <= j < |tokens| ==> tokens[j] == tokens[1..][j - 1];
      }
    }
  }

  /** The group of a name is a piece of that name: a token that occurs in
      it, or the whole name. */
  lemma ExtractGroupNameOccurs(userName: string)
    ensures Contains(userName, ExtractGroupName(userName))
  {
    FirstMatchIsFirst(GroupNames, userName);
    ContainsSelf(userName);
  }

  /** The group of a user id, through `target_user_ids.get(user_id,
      "Unknown")`. */
  function GroupOf(names: map<string, string>, userId: string): string {
    ExtractGroupName(if userId in names then names[userId] else "Unknown")
  }

  /** `counter[g] += v` on a Counter: a missing group starts at zero and
      enters at the end. */
  function AddTo<G(==)>(d: Dict<G, nat>, g: G, v: nat): Dict<G, nat> {
    Put<G, nat>(d, g, Get<G, nat>(d, g, 0) + v)
  }

  /** The Counter after adding `counts[i]` to group `groups[i]`, for each
      `i` in turn. */
  function GroupedBy<G(==)>(groups: seq<G>, counts: seq<nat>): Dict<G, nat>
    requires |groups| == |counts|
  {
    if groups == [] then []
    else
      var n := |groups| - 1;
      AddTo(GroupedBy(groups[..n], counts[..n]), groups[n], counts[n])
  }

  /** The sum of the `counts[i]` whose `groups[i]` is `g`. */
  function SumWhere<G(==)>(groups: seq<G>, counts: seq<nat>, g: G): nat
    requires |groups| == |counts|
  {
    if groups == [] then 0
    else
      var n := |groups| - 1;
      SumWhere(groups[..n], counts[..n], g) + (if groups[n] == g then counts[n] else 0)
  }

  /** The group of each user of `ids`, in order. */
  function GroupsOf(ids: seq<string>, names: map<string, string>): (r: seq<string>)
    ensures |r| == |ids|
  {
    if ids == [] then [] else GroupsOf(ids[..|ids| - 1], names) + [GroupOf(names, ids[|ids| - 1])]
  }

  /** The counts of the users `ids`, in order. */
  function CountsOf(ids: seq<string>, total: map<string, nat>): (r: seq<nat>)
    requires forall i :: 0 <= i < |ids| ==> ids[i] in total
    ensures |r| == |ids|
  {
    if ids == [] then [] else CountsOf(ids[..|ids| - 1], total) + [total[ids[|ids| - 1]]]
  }

  /** `grouped_counts` after the users `ids`, in that order: each user's
      count is added to its group's (`grouped_counts[group_name] +=
      count`), a group entering the Counter when first met. */
  function Grouped(ids: seq<string>, names: map<string, string>, total: map<string, nat>): Dict<string, nat>
    requires forall i :: 0 <= i < |ids| ==> ids[i] in total
  {
    GroupedBy(GroupsOf(ids, names), CountsOf(ids, total))
  }

  /** The sum of the counts of the users of `ids` that fall in group `g`. */
  function GroupTotal(ids: seq<string>, names: map<string, string>, total: map<string, nat>, g: string): nat
    requires forall i :: 0 <= i < |ids| ==> ids[i] in total
  {
    SumWhere(GroupsOf(ids, names), CountsOf(ids, total), g)
  }

  lemma {:induction false} GroupsOfAt(ids: seq<string>, names: map<string, string>, i: nat)
    requires i < |ids|
    ensures GroupsOf(ids, names)[i] == GroupOf(names, ids[i])
  {
    if i < |ids| - 1 {
      GroupsOfAt(ids[..|ids| - 1], names, i);
    }
  }

  lemma {:induction false} CountsOfAt(ids: seq<string>, total: map<string, nat>, i: nat)
    requires forall j :: 0 <= j < |ids| ==> ids[j] in total
    requires i < |ids|
    ensures CountsOf(ids, total)[i] == total[ids[i]]
  {
    if i < |ids| - 1 {
      CountsOfAt(ids[..|ids| - 1], total, i);
    }
  }

  /** One more user in the grouping loop. */
  lemma GroupedSnoc(ids: seq<string>, names: map<string, string>, total: map<string, nat>, i: nat)
    requires forall j :: 0 <= j < |ids| ==> ids[j] in total
    requires i < |ids|
    ensures Grouped(ids[..i + 1], names, total)
         == AddTo(Grouped(ids[..i], names, total), GroupOf(names, ids[i]), total[ids[i]])
  {
    assert ids[..i + 1][..i] == ids[..i];
    var gs, cs := GroupsOf(ids[..i + 1], names), CountsOf(ids[..i + 1], total);
    assert gs[..i] == GroupsOf(ids[..i], names);
    assert cs[..i] == CountsOf(ids[..i], total);
  }

  /** The grouping loop over `total_emoji_message_count.items()`, whose
      keys, in iteration order, are `ids`. */
  method GroupCounts(ids: seq<string>, names: map<string, string>, total: map<string, nat>)
    returns (grouped: Dict<string, nat>)
    requires Distinct(ids)
    requires forall u :: u in total <==> u in ids
    ensures grouped == Grouped(ids, names, total)
  {
    grouped := [];
    for i := 0 to |ids|
      invariant grouped == Grouped(ids[..i], names, total)
    {
      var userId := ids[i];
      var count := total[userId];
      var userName := if userId in names then names[userId] else "Unknown";
      var groupName := ExtractGroupName(userName);
      GroupedSnoc(ids, names, total, i);
      grouped := AddTo(grouped, groupName, count);
    }
    assert ids[..|ids|] == ids;
  }

  lemma {:induction false} GroupedByValid<G>(groups: seq<G>, counts: seq<nat>)
    requires |groups| == |counts|
    ensures Valid(GroupedBy(groups, counts))
  {
    if groups != [] {
      var n := |groups| - 1;
      GroupedByValid(groups[..n], counts[..n]);
      var d := GroupedBy(groups[..n], counts[..n]);
      PutValid<G, nat>(d, groups[n], Get<G, nat>(d, groups[n], 0) + counts[n]);
    }
  }

  lemma {:induction false} GroupedByKeys<G>(groups: seq<G>, counts: seq<nat>, g: G)
    requires |groups| == |counts|
    ensures g in Keys(GroupedBy(groups, counts)) <==> g in groups
  {
    if groups != [] {
      var n := |groups| - 1;
      var x := groups[n];
      GroupedByKeys(groups[..n], counts[..n], g);
      var d := GroupedBy(groups[..n], counts[..n]);
      PutKeys<G, nat>(d, x, Get<G, nat>(d, x, 0) + counts[n]);
      assert g in Keys(GroupedBy(groups, counts)) <==> g in Keys(d) || g == x;
      InDropLast(groups, g);
    }
  }

  lemma {:induction false} GroupedByCount<G>(groups: seq<G>, counts: seq<nat>, g: G)
    requires |groups| == |counts|
    ensures Get(GroupedBy(groups, counts), g, 0) == SumWhere(groups, counts, g)
  {
    if groups != [] {
      var n := |groups| - 1;
      GroupedByCount(groups[..n], counts[..n], g);
      var d := GroupedBy(groups[..n], counts[..n]);
      PutGet<G, nat>(d, groups[n], Get<G, nat>(d, groups[n], 0) + counts[n], g, 0);
    }
  }

  /** `grouped[g] += v`: the sum of all groups grows by `v`. */
  lemma {:induction false} AddToGroupSum<G>(d: Dict<G, nat>, g: G, v: nat)
    ensures Sum(Values(AddTo(d, g, v))) == Sum(Values(d)) + v
  {
    if d != [] && d[0].0 != g {
      AddToGroupSum(d[1..], g, v);
    }
  }

  lemma {:induction false} GroupedBySum<G>(groups: seq<G>, counts: seq<nat>)
    requires |groups| == |counts|
    ensures Sum(Values(GroupedBy(groups, counts))) == Sum(counts)
  {
    if groups != [] {
      var n := |groups| - 1;
      GroupedBySum(groups[..n], counts[..n]);
      AddToGroupSum(GroupedBy(groups[..n], counts[..n]), groups[n], counts[n]);
      assert counts == counts[..n] + [counts[n]];
      SumAppend(counts[..n], [counts[n]]);
    }
  }

  /** Each group appears once. */
  lemma GroupedValid(ids: seq<string>, names: map<string, string>, total: map<string, nat>)
    requires forall i :: 0 <= i < |ids| ==> ids[i] in total
    ensures Valid(Grouped(ids, names, total))
  {
    GroupedByValid(GroupsOf(ids, names), CountsOf(ids, total));
  }

  /** The groups are exactly the groups of the users. */
  lemma GroupedKeys(ids: seq<string>, names: map<string, string>, total: map<string, nat>, g: string)
    requires forall i :: 0 <= i < |ids| ==> ids[i] in total
    ensures g in Keys(Grouped(ids, names, total)) <==> exists i :: 0 <= i < |ids| && GroupOf(names, ids[i]) == g
  {
    var gs := GroupsOf(ids, names);
    GroupedByKeys(gs, CountsOf(ids, total), g);
    forall i | 0 <= i < |ids| {
      GroupsOfAt(ids, names, i);
    }
    if g in gs {
      var i :| 0 <= i < |gs| && gs[i] == g;
      assert GroupOf(names, ids[i]) == g;
    }
  }

  /** Each group's count is the sum of its users' counts. */
  lemma GroupedCount(ids: seq<string>, names: map<string, string>, total: map<string, nat>, g: string)
    requires forall i :: 0 <= i < |ids| ==> ids[i] in total
    ensures Get(Grouped(ids, names, total), g, 0) == GroupTotal(ids, names, total, g)
  {
    GroupedByCount(GroupsOf(ids, names), CountsOf(ids, total), g);
  }

  /** Grouping loses and duplicates nothing: the groups' counts add up to
      the users' counts. */
  lemma GroupedSum(ids: seq<string>, names: map<string, string>, total: map<string, nat>)
    requires forall i :: 0 <= i < |ids| ==> ids[i] in total
    ensures Sum(Values(Grouped(ids, names, total))) == Sum(CountsOf(ids, total))
  {
    GroupedBySum(GroupsOf(ids, names), CountsOf(ids, total));
  }
}
