/** The data the bot reads from the messaging service, with the service
    calls replaced by the responses they return, and the bot's fixed
    configuration. */
module Slack {
  import opened Basics

  /** The display names whose authors are counted (`TARGET_USERS`). */
  const TargetUsers: seq<string> := ["情報知能工学科A4", "ふな", "経済1 A4"]

  /** The reaction that is counted (`TARGET_EMOJI`). */
  const TargetEmoji: string := "回答"

  /** The affiliation tokens, in the order they are tried (`GROUP_NAMES`). */
  const GroupNames: seq<string> := ["陸上部", "水泳部", "ボランティアサークル", "経済学会", "文化研究会", "A4"]

  /** A roster entry: its `id` and its optional `real_name`. */
  datatype User = User(id: string, realName: Option<string>)

  /** One reaction on a message; only its `name` is read. */
  datatype Reaction = Reaction(name: string)

  /** A message or a thread reply. Each optional field is absent when the
      service omits the key; `hasSubtype` says whether a `subtype` key is
      present. */
  datatype Message = Message(
    user: Option<string>,
    reactions: Option<seq<Reaction>>,
    threadTs: Option<string>,
    hasSubtype: bool)

  /** The answer to one history request: an API error, or a page of
      messages with the continuation cursor, absent when the service sends
      no `response_metadata.next_cursor`. */
  datatype HistoryResponse =
    | HistoryError(error: string)
    | HistoryPage(messages: seq<Message>, nextCursor: Option<string>)

  /** The answer to one thread request; the thread root is entry 0. */
  datatype RepliesResponse =
    | RepliesError(error: string)
    | RepliesPage(messages: seq<Message>)

  /** A channel as the service would answer about it: the responses to its
      successive history requests, and the replies of each thread by its
      `thread_ts`. */
  datatype Channel = Channel(
    id: string,
    history: seq<HistoryResponse>,
    replies: string -> RepliesResponse)
}
