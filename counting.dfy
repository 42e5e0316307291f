/** The per-channel tally of `_get_conversations_info`
    (slack_bot.py:32-78) and the cross-channel accumulation of
    `generate_report` (slack_bot.py:90-94).

    A counter is a map from user id to count. What a channel adds is
    described by its CREDITS: the ids credited with one reaction, in the
    order the loops meet them; the counter then holds, for each target id,
    how often that id was credited. */
module Counting {
  import opened Basics
  import opened Slack
  import opened History

  /** `Counter({user_id: 0 for user_id in target_user_ids})`. */
  function Zero(targets: map<string, string>): (c: map<string, nat>)
    ensures c.Keys == targets.Keys
    ensures forall u :: u in c ==> c[u] == 0
  {
    map u | u in targets :: 0
  }

  /** The counter that starts at zero for every target id and is
      incremented once per credit. */
  function Tally(targets: map<string, string>, credits: seq<string>): map<string, nat> {
    map u | u in targets :: multiset(credits)[u]
  }

  /** `Counter.update`: counts of the second counter are added to the
      first, key by key. */
  function Update(total: map<string, nat>, c: map<string, nat>): map<string, nat> {
    map u | u in total.Keys + c.Keys ::
      (if u in total then total[u] else 0) + (if u in c then c[u] else 0)
  }

  /** Some reaction on the message has the target name. */
  predicate HasTargetEmoji(reactions: seq<Reaction>) {
    exists k :: 0 <= k < |reactions| && reactions[k].name == TargetEmoji
  }

  /** The inner `for reaction in ...: if name == TARGET_EMOJI: ...; break`
      scan (slack_bot.py:60-63 and 71-74). */
  method ScanReactions(reactions: seq<Reaction>) returns (found: bool)
    ensures found <==> HasTargetEmoji(reactions)
  {
    found := false;
    var k := 0;
    while k < |reactions|
      invariant 0 <= k <= |reactions|
      invariant forall j :: 0 <= j < k ==> reactions[j].name != TargetEmoji
    {
      if reactions[k].name == TargetEmoji {
        found := true;
        break;
      }
      k := k + 1;
    }
  }

  /** The credit of a top-level post (slack_bot.py:59-63): its author, once,
      when the author is a target and the post carries the target reaction.
      A post's subtype plays no part here. */
  function PostCredit(targets: map<string, string>, post: Message): (r: seq<string>)
    ensures |r| <= 1
    ensures r != [] ==> post.user == Some(r[0]) && r[0] in targets
    ensures r != [] ==> post.reactions.Some? && HasTargetEmoji(post.reactions.value)
    ensures (post.user.Some? && post.user.value in targets && post.reactions.Some?
             && HasTargetEmoji(post.reactions.value)) ==> r == [post.user.value]
  {
    if post.user.Some? && post.user.value in targets && post.reactions.Some?
       && HasTargetEmoji(post.reactions.value)
    then [post.user.value]
    else []
  }

  /** The credits of the replies after the thread root
      (slack_bot.py:68-74). A reply with a subtype or without reactions is
      skipped; one that passes those two tests but has no author raises on
      `reply['user']`, and the `except` abandons every later reply. */
  function ReplyCredits(targets: map<string, string>, replies: seq<Message>): seq<string>
  {
    if replies == [] then []
    else
      var reply := replies[0];
      if reply.hasSubtype || reply.reactions.None? then ReplyCredits(targets, replies[1..])
      else if reply.user.None? then []
      else if reply.user.value !in targets then ReplyCredits(targets, replies[1..])
      else (if HasTargetEmoji(reply.reactions.value) then [reply.user.value] else [])
           + ReplyCredits(targets, replies[1..])
  }

  /** Python's `messages[1:]`. */
  function DropRoot(messages: seq<Message>): seq<Message> {
    if messages == [] then [] else messages[1..]
  }

  /** The credits of a post's thread (slack_bot.py:65-76): its replies are
      fetched only when the post has a `thread_ts` and no subtype, and a
      failed fetch adds nothing. */
  function ThreadCredits(targets: map<string, string>, post: Message,
                         replies: string -> RepliesResponse): (r: seq<string>)
    ensures post.threadTs.None? || post.hasSubtype ==> r == []
  {
    if post.threadTs.Some? && !post.hasSubtype then
      match replies(post.threadTs.value)
      case RepliesError(_) => []
      case RepliesPage(messages) => ReplyCredits(targets, DropRoot(messages))
    else []
  }

  /** The credits of one post: its own, then its thread's. */
  function PostEntryCredits(targets: map<string, string>, post: Message,
                            replies: string -> RepliesResponse): seq<string>
  {
    PostCredit(targets, post) + ThreadCredits(targets, post, replies)
  }

  /** The credits of a sequence of posts, in order. */
  function PostsCredits(targets: map<string, string>, posts: seq<Message>,
                        replies: string -> RepliesResponse): seq<string>
  {
    if posts == [] then []
    else
      var post := posts[|posts| - 1];
      PostsCredits(targets, posts[..|posts| - 1], replies) + PostEntryCredits(targets, post, replies)
  }

  /** The credits of a channel: none when the history request failed,
      otherwise those of the posts of the final history page. */
  function ChannelCredits(targets: map<string, string>, channel: Channel): seq<string>
    requires Terminates(channel.history)
  {
    var final := channel.history[LastRequest(channel.history)];
    if final.HistoryError? then [] else PostsCredits(targets, final.messages, channel.replies)
  }

  /** The credits of several channels, one after the other. */
  function AllCredits(targets: map<string, string>, channels: seq<Channel>): seq<string>
    requires forall i :: 0 <= i < |channels| ==> Terminates(channels[i].history)
  {
    if channels == [] then []
    else
      AllCredits(targets, channels[..|channels| - 1])
        + ChannelCredits(targets, channels[|channels| - 1])
  }

  /** One more credit to a target id raises that id's count by one. */
  lemma TallySnoc(targets: map<string, string>, credits: seq<string>, u: string)
    requires u in targets
    ensures Tally(targets, credits + [u]) == Tally(targets, credits)[u := Tally(targets, credits)[u] + 1]
  {
    assert multiset(credits + [u]) == multiset(credits) + multiset{u};
  }

  /** The credit one reply earns when it does not abort the thread. */
  function ReplyCredit(targets: map<string, string>, reply: Message): seq<string> {
    if Qualifies(targets, reply) then [reply.user.value] else []
  }

  /** One pass of the reply loop (slack_bot.py:69-74) for a reply that
      does not raise: skipped, or credited once to its author. */
  method CountReply(targets: map<string, string>, reply: Message,
                    count: map<string, nat>, ghost credited: seq<string>)
    returns (count': map<string, nat>)
    requires !Aborts(reply)
    requires count == Tally(targets, credited)
    ensures count' == Tally(targets, credited + ReplyCredit(targets, reply))
  {
    count' := count;
    if !reply.hasSubtype && reply.reactions.Some? && reply.user.value in targets {
      var u := reply.user.value;
      var found := ScanReactions(reply.reactions.value);
      if found {
        TallySnoc(targets, credited, u);
        count' := count'[u := count'[u] + 1];
      } else {
        assert credited + ReplyCredit(targets, reply) == credited;
      }
    } else {
      assert credited + ReplyCredit(targets, reply) == credited;
    }
  }

  /** The reply loop of one thread (slack_bot.py:68-76), given the replies
      after the root and the counter as it stands (`count`, the tally of
      the credits `before`). */
  method CountReplies(targets: map<string, string>, rest: seq<Message>,
                      count: map<string, nat>, ghost before: seq<string>)
    returns (count': map<string, nat>)
    requires count == Tally(targets, before)
    ensures count' == Tally(targets, before + ReplyCredits(targets, rest))
  {
    count' := count;
    ghost var done: seq<string> := [];
    var k := 0;
    while k < |rest|
      invariant 0 <= k <= |rest|
      invariant done + ReplyCredits(targets, rest[k..]) == ReplyCredits(targets, rest)
      invariant count' == Tally(targets, before + done)
    {
      ReplyCreditsUnfold(targets, rest, k);
      if Aborts(rest[k]) {
        // `reply['user']` raises; the rest of the thread is abandoned
        break;
      }
      count' := CountReply(targets, rest[k], count', before + done);
      ghost var step := ReplyCredit(targets, rest[k]);
      Associative(before, done, step);
      Associative(done, step, ReplyCredits(targets, rest[k + 1..]));
      done := done + step;
      k := k + 1;
    }
    assert done == ReplyCredits(targets, rest);
  }

  /** One step of the reply loop. */
  lemma ReplyCreditsUnfold(targets: map<string, string>, rest: seq<Message>, k: nat)
    requires k < |rest|
    ensures ReplyCredits(targets, rest[k..])
         == if Aborts(rest[k]) then []
            else ReplyCredit(targets, rest[k]) + ReplyCredits(targets, rest[k + 1..])
  {
    assert rest[k..][1..] == rest[k + 1..];
  }

  /** The post's own reaction (slack_bot.py:59-63). */
  method CountTopLevel(targets: map<string, string>, post: Message,
                       count: map<string, nat>, ghost before: seq<string>)
    returns (count': map<string, nat>)
    requires count == Tally(targets, before)
    ensures count' == Tally(targets, before + PostCredit(targets, post))
  {
    count' := count;
    if post.user.Some? && post.user.value in targets && post.reactions.Some? {
      var found := ScanReactions(post.reactions.value);
      if found {
        TallySnoc(targets, before, post.user.value);
        count' := count'[post.user.value := count'[post.user.value] + 1];
        return;
      }
    }
    assert before + PostCredit(targets, post) == before;
  }

  /** The post's thread (slack_bot.py:65-76). */
  method CountThread(targets: map<string, string>, post: Message, replies: string -> RepliesResponse,
                     count: map<string, nat>, ghost before: seq<string>)
    returns (count': map<string, nat>)
    requires count == Tally(targets, before)
    ensures count' == Tally(targets, before + ThreadCredits(targets, post, replies))
  {
    count' := count;
    if post.threadTs.Some? && !post.hasSubtype {
      var thread := replies(post.threadTs.value);
      if thread.RepliesPage? {
        count' := CountReplies(targets, DropRoot(thread.messages), count', before);
        return;
      }
    }
    assert before + ThreadCredits(targets, post, replies) == before;
  }

  /** The body of the post loop (slack_bot.py:59-76): the post's own
      reaction, then its thread. */
  method CountPost(targets: map<string, string>, post: Message, replies: string -> RepliesResponse,
                   count: map<string, nat>, ghost before: seq<string>)
    returns (count': map<string, nat>)
    requires count == Tally(targets, before)
    ensures count' == Tally(targets, before + PostEntryCredits(targets, post, replies))
  {
    count' := CountTopLevel(targets, post, count, before);
    count' := CountThread(targets, post, replies, count', before + PostCredit(targets, post));
    Associative(before, PostCredit(targets, post), ThreadCredits(targets, post, replies));
  }

  /** The loop `for post in posts` of `_get_conversations_info`
      (slack_bot.py:58-76), from a counter of all zeros. */
  method CountPosts(targets: map<string, string>, posts: seq<Message>, replies: string -> RepliesResponse)
    returns (count: map<string, nat>)
    ensures count == Tally(targets, PostsCredits(targets, posts, replies))
  {
    count := Zero(targets);
    assert count == Tally(targets, []);
    for i := 0 to |posts|
      invariant count == Tally(targets, PostsCredits(targets, posts[..i], replies))
    {
      PostsCreditsSnoc(targets, posts, i, replies);
      count := CountPost(targets, posts[i], replies, count, PostsCredits(targets, posts[..i], replies));
    }
    assert posts[..|posts|] == posts;
  }

  lemma PostsCreditsSnoc(targets: map<string, string>, posts: seq<Message>, i: nat,
                         replies: string -> RepliesResponse)
    requires i < |posts|
    ensures PostsCredits(targets, posts[..i + 1], replies)
         == PostsCredits(targets, posts[..i], replies) + PostEntryCredits(targets, posts[i], replies)
  {
    assert posts[..i + 1][..i] == posts[..i];
  }

  /** `_get_conversations_info`: the per-channel tally. */
  method ChannelTally(targets: map<string, string>, channel: Channel) returns (count: map<string, nat>)
    requires Terminates(channel.history)
    ensures count == Tally(targets, ChannelCredits(targets, channel))
    ensures count.Keys == targets.Keys
    ensures channel.history[LastRequest(channel.history)].HistoryError? ==> count == Zero(targets)
  {
    var fetched, _ := FetchHistory(channel.history);
    if fetched.FetchFailed? {
      count := Zero(targets);
      assert count == Tally(targets, []);
    } else {
      count := CountPosts(targets, fetched.posts, channel.replies);
    }
  }

  /** Adding two tallies key by key is tallying both credit sequences. */
  lemma UpdateTally(targets: map<string, string>, a: seq<string>, b: seq<string>)
    ensures Update(Tally(targets, a), Tally(targets, b)) == Tally(targets, a + b)
  {
    assert multiset(a + b) == multiset(a) + multiset(b);
  }

  /** The loop of `generate_report` that adds up the channels
      (slack_bot.py:90-94). */
  method TotalTally(targets: map<string, string>, channels: seq<Channel>) returns (total: map<string, nat>)
    requires forall i :: 0 <= i < |channels| ==> Terminates(channels[i].history)
    ensures total == Tally(targets, AllCredits(targets, channels))
  {
    total := Zero(targets);
    assert total == Tally(targets, []);
    for i := 0 to |channels|
      invariant total == Tally(targets, AllCredits(targets, channels[..i]))
    {
      var count := ChannelTally(targets, channels[i]);
      UpdateTally(targets, AllCredits(targets, channels[..i]), ChannelCredits(targets, channels[i]));
      AllCreditsSnoc(targets, channels, i);
      total := Update(total, count);
    }
    assert channels[..|channels|] == channels;
  }

  lemma AllCreditsSnoc(targets: map<string, string>, channels: seq<Channel>, i: nat)
    requires forall j :: 0 <= j < |channels| ==> Terminates(channels[j].history)
    requires i < |channels|
    ensures AllCredits(targets, channels[..i + 1])
         == AllCredits(targets, channels[..i]) + ChannelCredits(targets, channels[i])
  {
    assert channels[..i + 1][..i] == channels[..i];
  }

  /** The credits of consecutive runs of posts are consecutive. */
  lemma {:induction false} PostsCreditsAppend(targets: map<string, string>, a: seq<Message>, b: seq<Message>,
                                              replies: string -> RepliesResponse)
    ensures PostsCredits(targets, a + b, replies)
         == PostsCredits(targets, a, replies) + PostsCredits(targets, b, replies)
  {
    if b != [] {
      var n := |b| - 1;
      DropLastOfAppend(a, b);
      PostsCreditsAppend(targets, a, b[..n], replies);
      assert PostsCredits(targets, a + b, replies)
          == PostsCredits(targets, a, replies) + PostsCredits(targets, b[..n], replies)
             + PostEntryCredits(targets, b[n], replies);
    } else {
      assert a + b == a;
    }
  }

  /** A failed thread request costs that thread's credits only: the post's
      own credit and everything the other posts earn are kept
      (slack_bot.py:75-76). */
  lemma ThreadErrorIsolated(targets: map<string, string>, posts: seq<Message>, i: nat,
                            replies: string -> RepliesResponse)
    requires i < |posts|
    requires posts[i].threadTs.Some? && replies(posts[i].threadTs.value).RepliesError?
    ensures PostsCredits(targets, posts, replies)
         == PostsCredits(targets, posts[..i], replies) + PostCredit(targets, posts[i])
            + PostsCredits(targets, posts[i + 1..], replies)
  {
    assert posts == posts[..i] + [posts[i]] + posts[i + 1..];
    PostsCreditsAppend(targets, posts[..i] + [posts[i]], posts[i + 1..], replies);
    PostsCreditsAppend(targets, posts[..i], [posts[i]], replies);
    assert [posts[i]][..0] == [];
  }

  /** A reply that is counted: no subtype, reactions including the target
      one, and a target author. */
  predicate Qualifies(targets: map<string, string>, reply: Message) {
    && !reply.hasSubtype && reply.reactions.Some? && reply.user.Some?
    && reply.user.value in targets && HasTargetEmoji(reply.reactions.value)
  }

  /** A reply that makes `reply['user']` raise: it passes the subtype and
      reaction tests but has no author. */
  predicate Aborts(reply: Message) {
    !reply.hasSubtype && reply.reactions.Some? && reply.user.None?
  }

  /** The authors of the qualifying replies, in order. */
  function QualifyingAuthors(targets: map<string, string>, replies: seq<Message>): seq<string> {
    if replies == [] then []
    else
      ReplyCredit(targets, replies[0])
        + QualifyingAuthors(targets, replies[1..])
  }

  /** The position of the first reply that raises, or the length when none
      does. */
  function FirstAbort(replies: seq<Message>): (k: nat)
    ensures k <= |replies|
    ensures k < |replies| ==> Aborts(replies[k])
    ensures forall j :: 0 <= j < k ==> !Aborts(replies[j])
  {
    if replies == [] then 0
    else if Aborts(replies[0]) then 0
    else 1 + FirstAbort(replies[1..])
  }

  /** What a thread adds: one credit to the author of each qualifying reply
      that comes before the first reply that raises, and nothing after it. */
  lemma {:induction false} ReplyCreditsAreQualifyingPrefix(targets: map<string, string>, replies: seq<Message>)
    ensures ReplyCredits(targets, replies) == QualifyingAuthors(targets, replies[..FirstAbort(replies)])
  {
    if replies != [] {
      var k := FirstAbort(replies);
      if Aborts(replies[0]) {
        assert replies[..k] == [];
      } else {
        ReplyCreditsAreQualifyingPrefix(targets, replies[1..]);
        assert replies[..k][1..] == replies[1..][..k - 1];
        assert replies[..k][0] == replies[0];
      }
    }
  }

  /** The tally of several channels is, id by id, the sum of the
      channels' own tallies. */
  function ChannelCountsOf(targets: map<string, string>, channels: seq<Channel>, u: string): seq<nat>
    requires forall i :: 0 <= i < |channels| ==> Terminates(channels[i].history)
  {
    if channels == [] then []
    else
      ChannelCountsOf(targets, channels[..|channels| - 1], u)
        + [multiset(ChannelCredits(targets, channels[|channels| - 1]))[u]]
  }

  lemma {:induction false} TotalIsPointwiseSum(targets: map<string, string>, channels: seq<Channel>, u: string)
    requires forall i :: 0 <= i < |channels| ==> Terminates(channels[i].history)
    requires u in targets
    ensures Tally(targets, AllCredits(targets, channels))[u] == Sum(ChannelCountsOf(targets, channels, u))
  {
    if channels != [] {
      var n := |channels| - 1;
      TotalIsPointwiseSum(targets, channels[..n], u);
      var last := ChannelCredits(targets, channels[n]);
      assert multiset(AllCredits(targets, channels[..n]) + last)
          == multiset(AllCredits(targets, channels[..n])) + multiset(last);
      SumAppend(ChannelCountsOf(targets, channels[..n], u), [multiset(last)[u]]);
    }
  }

  /** Each reply earns at most one credit, and only for a target author. */
  lemma {:induction false} ReplyCreditsBound(targets: map<string, string>, replies: seq<Message>)
    ensures |ReplyCredits(targets, replies)| <= |replies|
    ensures forall u :: u in ReplyCredits(targets, replies) ==> u in targets
  {
    if replies != [] {
      ReplyCreditsBound(targets, replies[1..]);
    }
  }

  /** Every id a channel credits is a target id, so no other id is ever
      counted. */
  lemma {:induction false} PostsCreditsAreTargets(targets: map<string, string>, posts: seq<Message>,
                                                  replies: string -> RepliesResponse)
    ensures forall u :: u in PostsCredits(targets, posts, replies) ==> u in targets
  {
    if posts != [] {
      var post := posts[|posts| - 1];
      PostsCreditsAreTargets(targets, posts[..|posts| - 1], replies);
      if post.threadTs.Some? && !post.hasSubtype && replies(post.threadTs.value).RepliesPage? {
        ReplyCreditsBound(targets, DropRoot(replies(post.threadTs.value).messages));
      }
    }
  }

  /** No channel credits anyone but a target user. */
  lemma {:induction false} AllCreditsAreTargets(targets: map<string, string>, channels: seq<Channel>)
    requires forall i :: 0 <= i < |channels| ==> Terminates(channels[i].history)
    ensures forall u :: u in AllCredits(targets, channels) ==> u in targets
  {
    if channels != [] {
      var n := |channels| - 1;
      AllCreditsAreTargets(targets, channels[..n]);
      var final := channels[n].history[LastRequest(channels[n].history)];
      if final.HistoryPage? {
        PostsCreditsAreTargets(targets, final.messages, channels[n].replies);
      }
    }
  }
}
