# Answer-reaction tally bot, modelled in Dafny

`slack_bot.py` counts, across every channel of a Slack workspace, the
messages and thread replies that a fixed set of users wrote and that carry
the reaction `回答` ("answer"). It adds the counts up per affiliation
group (a token such as `陸上部` or `A4` found in the user's real name),
ranks the groups by count, and renders a text report.

This project models that pipeline:

- `basics.dfy` (`Basics`): `Option`, substring containment, sums of
  naturals.
- `slack.dfy` (`Slack`): the configuration constants (`TARGET_USERS`,
  `TARGET_EMOJI`, the group tokens) and the shapes of users, messages
  and the two Web API responses. A key that may be missing from a
  message (`user`, `reactions`, `thread_ts`) is an `Option`.
  `'subtype' in msg` is a boolean.
- `ordered_dict.dfy` (`OrderedDict`): Python's insertion-ordered dict as
  an association list. Ties in the final ranking keep dict order, so the
  order matters.
- `directory.dfy` (`Directory`): the `target_user_ids` comprehension.
- `history.dfy` (`History`): the cursor-paginated
  `conversations_history` loop of `_get_conversations_info`. The service
  is a script of responses: the i-th request gets the i-th response.
- `counting.dfy` (`Counting`): the counting part of
  `_get_conversations_info`:
  - top-level posts;
  - thread replies, whose service maps a `thread_ts` to a response;
  - the per-channel counter and `Counter.update` across channels.

  Counting is specified by the sequence of user ids credited, in loop
  order. A counter equals `Tally(targets, credits)`: each target id
  mapped to its number of occurrences.
- `grouping.dfy` (`Grouping`): `extract_group_name` and the
  `grouped_counts` loop.
- `ranking.dfy` (`Ranking`): `sorted(..., key=count, reverse=True)` as a
  stable insertion sort.
- `report.dfy` (`Report`): the report text.
- `pipeline.dfy` (`Pipeline`): `generate_report` end to end.

Behaviour of the code that the model keeps:

- Only the messages of the final history page are counted. The loop
  collects every page into `messages`, but then takes `posts =
  response['messages']`, which is the last response only.
- Top-level posts are counted whatever their subtype. Thread replies with
  a subtype are skipped. Threads are only opened for posts without a
  subtype.
- A reply that passes the subtype and reactions filters but has no `user`
  key raises `KeyError` inside the thread's `try` (slack_bot.py:69). The
  rest of that thread is abandoned. Credits already given stay counted.
- The ranking's tie order is the iteration order of
  `total_emoji_message_count`. That counter starts with the ids of
  `target_user_ids` in dict order (slack_bot.py:90). `Counter.update`
  only adds to keys already present, because every per-channel counter
  has exactly those keys (slack_bot.py:33). So the model keeps the
  counters as plain maps and feeds the grouping loop the key order of
  `target_user_ids`.
- An error on any history page leaves the channel at all zeros. An error
  fetching one thread affects only that thread.
- A message earns at most one credit, however many `回答` reactions it
  carries.

The code does not do the following, and neither does the model:

- join a channel it is not a member of, or retry a failed request;
- apply the time window to the channel history: the window is passed
  only to `conversations_replies`;
- filter channels by type: it uses whatever `conversations_list`
  returns;
- count every history page: only the last page is counted (see above).

## Model

| member | source | states |
|---|---|---|
| OrderedDict.ToMapGet | slack_bot.py:30 | viewing the ordered dict as a map keeps exactly its keys, and each key's value is the one `get` returns |
| OrderedDict.PutKeys | slack_bot.py:30 | assigning to an existing key keeps the key order; a new key is appended at the end |
| OrderedDict.PutValid | slack_bot.py:30 | assignment never creates a duplicate key |
| OrderedDict.PutGet | slack_bot.py:100 | after `d[k] = v`, reading `k` gives `v` and every other key reads as before |
| OrderedDict.PutEntries | slack_bot.py:30 | after an assignment, each entry is either an old entry or the new pair |
| Directory.TargetUserIds | slack_bot.py:30 | the `target_user_ids` comprehension; its properties are stated by `Directory.TargetUserIdsValid`, `Directory.TargetUserIdsKeys`, `Directory.TargetUserIdsName` and `Directory.TargetUserIdsNames` |
| Directory.TargetUserIdsValid | slack_bot.py:30 | `target_user_ids` has each id once |
| Directory.TargetUserIdsKeys | slack_bot.py:30 | an id is a key exactly when some roster member with that id has a `real_name` listed in `TARGET_USERS` (both directions) |
| Directory.TargetUserIdsName | slack_bot.py:30 | a qualifying member's id maps to that member's real name, unless a later qualifying member has the same id |
| Directory.TargetUserIdsNames | slack_bot.py:30 | every value of `target_user_ids` is one of `TARGET_USERS` |
| History.LastRequest | slack_bot.py:42-48 | the request that ends the loop: the first response that is an error or has no cursor or an empty one |
| History.FetchHistory | slack_bot.py:38-56 | the loop makes exactly the requests up to the first stopping response and sleeps once between consecutive requests. It fails exactly when that response is an error. On success it has collected every page's messages in order, and the posts are the final page's messages |
| History.FlattenAppend | slack_bot.py:44 | collecting pages in two runs gives the concatenation of both runs' messages |
| History.FlattenLength | slack_bot.py:44 | the collected messages number the sum of the pages' message counts |
| Counting.Zero | slack_bot.py:33 | the initial counter has exactly the target ids as keys, all at zero |
| Counting.ScanReactions | slack_bot.py:60-63 | the reaction scan finds `回答` exactly when some reaction has that name (both directions) |
| Counting.PostCredit | slack_bot.py:59-63 | a top-level post earns at most one credit. A credit goes only to the post's own author, who must be a target, and only when the post carries `回答`. A post by a target author with `回答` earns exactly one credit |
| Counting.ThreadCredits | slack_bot.py:65 | a post without `thread_ts`, or with a subtype, contributes no thread credits |
| Counting.TallySnoc | slack_bot.py:62 | one more credit to a target raises that id's count by one and leaves the others unchanged |
| Counting.CountTopLevel | slack_bot.py:59-63 | handling a post's own reactions adds exactly `PostCredit` to the counter |
| Counting.ReplyCredit | slack_bot.py:69-74 | the credit of one reply that does not raise; its properties are stated by `Counting.CountReply` and `Counting.ReplyCreditsAreQualifyingPrefix` |
| Counting.CountReply | slack_bot.py:69-74 | one pass of the reply loop, for a reply that does not raise, adds exactly that reply's credit |
| Counting.ReplyCredits | slack_bot.py:68-74 | the credits of a thread's replies after the root; its properties are stated by `Counting.ReplyCreditsAreQualifyingPrefix` and `Counting.ReplyCreditsBound` |
| Counting.CountThread | slack_bot.py:65-76 | handling a post's thread adds exactly `ThreadCredits` to the counter |
| Counting.CountPosts | slack_bot.py:58-76 | the post loop, from zero, yields the tally of the posts' credits |
| Counting.Update | slack_bot.py:94 | `Counter.update`: key-wise addition; its property is stated by `Counting.UpdateTally` |
| Counting.CountReplies | slack_bot.py:68-74 | the reply loop adds to the counter exactly the credits of the replies. A reply missing `user` ends the loop |
| Counting.CountPost | slack_bot.py:58-76 | handling one post adds exactly its own credit and its thread's credits |
| Counting.ChannelTally | slack_bot.py:32-78 | the channel's counter is the tally of the channel's credits, keyed by exactly the target ids; it is all zeros when a history request fails |
| Counting.UpdateTally | slack_bot.py:94 | `Counter.update` of two tallies is the tally of the concatenated credits |
| Counting.TotalTally | slack_bot.py:88-94 | the total counter is the tally of the credits of all channels, in channel order |
| Counting.PostsCreditsAppend | slack_bot.py:58 | the credits of two runs of posts are the concatenation of each run's credits |
| Counting.ThreadErrorIsolated | slack_bot.py:65-76 | a failing thread fetch removes only that thread's credits; every other post's and thread's credits stay as they are |
| Counting.FirstAbort | slack_bot.py:68-69 | the position of the first reply without `user` that passes the subtype and reactions filters; no earlier reply is such a reply |
| Counting.ReplyCreditsAreQualifyingPrefix | slack_bot.py:68-76 | the credited replies are exactly the qualifying replies before the first reply missing `user`, in order |
| Counting.TotalIsPointwiseSum | slack_bot.py:90-94 | each target's total is the sum of that target's per-channel counts |
| Counting.ReplyCreditsBound | slack_bot.py:68-74 | a thread earns at most one credit per reply, and only to target ids |
| Counting.PostsCreditsAreTargets | slack_bot.py:58-76 | a channel credits target ids only |
| Counting.AllCreditsAreTargets | slack_bot.py:90-94 | no channel credits anyone outside `target_user_ids` |
| Grouping.FirstMatch | slack_bot.py:83-86 | the loop over the group tokens; its properties are stated by `Grouping.FirstMatchIsFirst` |
| Grouping.ExtractGroupName | slack_bot.py:80-86 | `extract_group_name`; its properties are stated by `Grouping.FirstMatchIsFirst` and `Grouping.ExtractGroupNameOccurs` |
| Grouping.FirstMatchIsFirst | slack_bot.py:83-86 | `extract_group_name` returns the first token, in list order, found in the name, and no earlier token is found; or the name itself when no token is found |
| Grouping.ExtractGroupNameOccurs | slack_bot.py:80-86 | the group name always occurs in the user name |
| Grouping.GroupedBy | slack_bot.py:96-100 | adding each count to its group in turn; its properties are stated by `Grouping.GroupedByValid`, `Grouping.GroupedByKeys`, `Grouping.GroupedByCount` and `Grouping.GroupedBySum` |
| Grouping.Grouped | slack_bot.py:96-100 | `grouped_counts` after the loop; its properties are stated by `Grouping.GroupedValid`, `Grouping.GroupedKeys`, `Grouping.GroupedCount` and `Grouping.GroupedSum` |
| Grouping.GroupedByValid | slack_bot.py:96-100 | adding counts to groups never creates a duplicate group |
| Grouping.GroupedByKeys | slack_bot.py:96-100 | a group is present exactly when some count was added to it (both directions) |
| Grouping.GroupedByCount | slack_bot.py:96-100 | each group's count is the sum of the counts added to it |
| Grouping.GroupedBySum | slack_bot.py:96-100 | the groups' counts add up to all the counts added |
| Grouping.GroupCounts | slack_bot.py:96-100 | the grouping loop builds exactly `Grouped` from the counter's entries in order |
| Grouping.GroupedValid | slack_bot.py:96-100 | each group appears once in `grouped_counts` |
| Grouping.GroupedKeys | slack_bot.py:96-100 | a group appears exactly when it is the group of some counted user (both directions) |
| Grouping.GroupedCount | slack_bot.py:96-100 | each group's count is the sum of its users' counts |
| Grouping.AddToGroupSum | slack_bot.py:100 | `grouped_counts[g] += v` raises the sum over all groups by `v` |
| Grouping.GroupedSum | slack_bot.py:96-100 | the groups' counts add up to the users' counts |
| Ranking.SortByCount | slack_bot.py:109 | the stable sort by count, largest first; its properties are stated by `Ranking.SortByCountFacts`, `Ranking.SortByCountUnique` and `Ranking.SortByCountSum` |
| Ranking.InsertPermutes | slack_bot.py:109 | insertion keeps the items |
| Ranking.InsertSorted | slack_bot.py:109 | inserting into a list ordered by count keeps it ordered |
| Ranking.InsertStable | slack_bot.py:109 | an inserted item goes ahead of the later items with its count |
| Ranking.SortByCountFacts | slack_bot.py:109 | the sorted groups run from the largest count down. They are a permutation of the input. Groups with equal counts keep their order (stability) |
| Ranking.OrderedArrangementUnique | slack_bot.py:109 | two count-ordered lists that agree, count by count, on the order of their items are equal |
| Ranking.SortByCountUnique | slack_bot.py:109 | the sort's result is the only arrangement ordered by count that keeps the input order within each count |
| Ranking.SortByCountSum | slack_bot.py:109 | sorting keeps the total of the counts |
| Report.Header | slack_bot.py:104-108 | the divider, time stamp, divider, blank and title lines; their count is stated by `Report.HeaderNewlines` |
| Report.Line | slack_bot.py:112 | one report line; it is stated to read back by `Report.LineRoundTrip` |
| Report.DecimalRoundTrip | slack_bot.py:112 | a count is rendered as digits without a leading zero that read back as the count |
| Report.LineRoundTrip | slack_bot.py:112 | each report line reads back as its group name and count, whatever characters the name contains |
| Report.RenderReport | slack_bot.py:104-112 | the report is the header followed by one line per group, in ranking order |
| Report.HeaderNewlines | slack_bot.py:104-108 | the header is five lines when the time stamp has no line break |
| Report.LinesNewlines | slack_bot.py:111-112 | each group takes exactly one line when no group name has a line break |
| Report.ReportLineCount | slack_bot.py:104-112 | the report has five header lines plus one line per group |
| Pipeline.TargetsCounted | slack_bot.py:90 | the totals have an entry for exactly the ids of `target_user_ids` |
| Pipeline.CountsOfTally | slack_bot.py:90-94 | each target's total is the number of times its id was credited |
| Pipeline.TallySum | slack_bot.py:90-100 | over the target ids, the tallied counts add up to the number of credits |
| Pipeline.GenerateReport | slack_bot.py:88-114 | the report text is the header followed by the lines of the ranked groups. Those groups are the target users' totals over all channels, grouped by affiliation and sorted stably by count |
| Pipeline.ReportCountsAddUp | slack_bot.py:88-112 | the counts in the report add up to the number of credited messages and replies over all channels: each one is counted once |

## Left out

- The Slack Web API calls (`users_list`, `conversations_list`,
  `auth_test`, `conversations_history`, `conversations_replies`,
  `chat_postMessage`) are left out. Their results are parameters: the
  roster, the list of channels, and each channel's scripted history
  responses and reply function.
- `time.sleep(1)` is only counted, as `FetchHistory`'s `sleeps`.
- Reading the clock with `pytz`/`datetime` is left out. The formatted
  time stamp is the parameter `now`.
- The window START_JST/END_JST is left out. It is only passed to
  `conversations_replies`, and the reply function stands for the
  server's filtered answer.
- The `print` logging is left out.
- `send_slack_message`, the token from the environment, `CHANNEL_ID` and
  `BOT_USER_ID` are left out. They are output, configuration, or unused.
- FetchHistory: requires that some scripted response ends the loop. A
  service that always returns a further cursor makes the source loop
  forever, and the model does not include that run.
- FetchHistory: the cursor sent with each request is not checked against
  the script, which answers requests by position.
- Some missing keys raise `KeyError` outside any handler and stop the
  whole run: a reaction of a top-level post without `name`
  (slack_bot.py:61), and a history response without `messages`
  (slack_bot.py:44, not a `SlackApiError`). The model's types rule these
  out.
- Other missing keys raise inside the thread's `try` (slack_bot.py:66-76)
  and are caught by `except Exception`, so the rest of that thread is
  dropped and the run continues: a reply's reaction without `name`
  (slack_bot.py:72), and a replies response without `messages`
  (slack_bot.py:68). The `Reaction` and `RepliesResponse` types rule
  these out too. Only the missing `user` case is modelled.
- The reply function stands for a single `conversations_replies` page of
  at most 100 messages. slack_bot.py:67 sends `limit=100` and never
  follows a cursor, so longer threads are cut at that page. The model
  does not bound the page size.
- `Counting.ChannelTally`: any exception during the history loop other
  than `SlackApiError` would end the whole run. The model has no such
  exception.
