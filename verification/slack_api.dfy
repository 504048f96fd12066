/**
 * The Slack Web API calls the bot makes, recorded in the order it makes
 * them. Their results are inputs to the operations that make them.
 */
module SlackApi {

  datatype Call =
    | GetUserInfo(userID: string)
    | PostMessage(channelID: string, text: string)
    | AddReaction(name: string, channelID: string, timestamp: string)
    | CreateConversation(name: string)
    | SetTopic(channelID: string, topic: string)
    | SetPurpose(channelID: string, purpose: string)
    | InviteUsers(channelID: string, userID: string)
    | GetConversationInfo(channelID: string)
    | GetConversationHistory(channelID: string, latest: string)
    | GetFileInfo(fileID: string)

  /** The calls that write to Slack, as opposed to the lookups. */
  predicate Writes(c: Call) {
    c.PostMessage? || c.AddReaction? || c.CreateConversation? || c.SetTopic? || c.SetPurpose? || c.InviteUsers?
  }
}
