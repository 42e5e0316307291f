/** The cursor pagination loop of `_get_conversations_info`
    (slack_bot.py:38-56): request pages until one comes back without a
    continuation cursor, pausing between requests. */
module History {
  import opened Basics
  import opened Slack

  /** A response ends the loop: the request raised an API error, or the
      page carries no cursor or an empty one (`if not cursor: break`). */
  predicate Stops(r: HistoryResponse) {
    r.HistoryError? || r.nextCursor.None? || r.nextCursor.value == ""
  }

  /** The scripted service eventually ends the loop. */
  predicate Terminates(responses: seq<HistoryResponse>) {
    exists i :: 0 <= i < |responses| && Stops(responses[i])
  }

  /** The index of the request that ends the loop. */
  function LastRequest(responses: seq<HistoryResponse>): (n: nat)
    requires Terminates(responses)
    ensures n < |responses| && Stops(responses[n])
    ensures forall j :: 0 <= j < n ==> !Stops(responses[j])
  {
    if Stops(responses[0]) then 0
    else
      var i :| 0 <= i < |responses| && Stops(responses[i]);
      assert 1 <= i && Stops(responses[1..][i - 1]);
      1 + LastRequest(responses[1..])
  }

  /** The messages of the responses, in order (an error response has
      none). */
  function Flatten(responses: seq<HistoryResponse>): seq<Message> {
    if responses == [] then []
    else
      var last := responses[|responses| - 1];
      Flatten(responses[..|responses| - 1]) + (if last.HistoryPage? then last.messages else [])
  }

  /** What the loop leaves behind: either the API error was caught, or
      `messages` (all pages) and `response['messages']` (the final page
      alone, which is what the counting loop goes on to read). */
  datatype Fetched =
    | FetchFailed
    | Fetched(all: seq<Message>, posts: seq<Message>)

  /** The pagination loop. Request `i` is answered by `responses[i]`;
      `sleeps` counts the calls to `time.sleep(1)`. */
  method FetchHistory(responses: seq<HistoryResponse>) returns (result: Fetched, sleeps: nat)
    requires Terminates(responses)
    ensures sleeps == LastRequest(responses)
    ensures responses[LastRequest(responses)].HistoryError? <==> result.FetchFailed?
    ensures result.Fetched? ==>
              && result.all == Flatten(responses[..LastRequest(responses) + 1])
              && result.posts == responses[LastRequest(responses)].messages
  {
    var messages: seq<Message> := [];
    var cursor: Option<string> := None;
    var i := 0;
    sleeps := 0;
    while true
      invariant i <= LastRequest(responses)
      invariant messages == Flatten(responses[..i])
      invariant sleeps == i
      decreases LastRequest(responses) - i
    {
      var response := responses[i];
      if response.HistoryError? {
        result := FetchFailed;
        return;
      }
      assert responses[..i + 1][..i] == responses[..i];
      messages := messages + response.messages;
      cursor := response.nextCursor;
      if cursor.None? || cursor.value == "" {
        result := Fetched(messages, response.messages);
        return;
      }
      sleeps := sleeps + 1;
      i := i + 1;
    }
  }

  /** `messages` holds every page in order: page `j` sits right after the
      pages before it. */
  lemma {:induction false} FlattenAppend(a: seq<HistoryResponse>, b: seq<HistoryResponse>)
    ensures Flatten(a + b) == Flatten(a) + Flatten(b)
  {
    if b != [] {
      var n := |b| - 1;
      assert (a + b)[..|a + b| - 1] == a + b[..n];
      FlattenAppend(a, b[..n]);
    } else {
      assert a + b == a;
    }
  }

  /** With only pages (no error), the number of messages collected is the
      sum of the page sizes. */
  lemma {:induction false} FlattenLength(rs: seq<HistoryResponse>)
    requires forall j :: 0 <= j < |rs| ==> rs[j].HistoryPage?
    ensures |Flatten(rs)| == Sum(seq(|rs|, j requires 0 <= j < |rs| => |rs[j].messages|))
  {
    var sizes := seq(|rs|, j requires 0 <= j < |rs| => |rs[j].messages|);
    if rs != [] {
      var n := |rs| - 1;
      FlattenLength(rs[..n]);
      var pre := seq(n, j requires 0 <= j < n => |rs[..n][j].messages|);
      assert sizes == pre + [|rs[n].messages|];
      SumAppend(pre, [|rs[n].messages|]);
      assert Sum([|rs[n].messages|]) == |rs[n].messages|;
    }
  }
}
