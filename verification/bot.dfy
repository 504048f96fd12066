/**
 * The Slack bot's decisions: which slash commands create incidents, which
 * channel events become timeline entries, and the order and failure policy
 * of creating an incident.
 *
 * The bot's state is the map from Slack channel to incident and the
 * timeline store. Each handler is one atomic step. What the Slack API
 * answers (channel info, message history, file info, the outcome of
 * creating a channel and of posting), the random source and the clock are
 * inputs; the calls a handler makes come back in the order it makes them.
 */
module Bot {
  import opened Wrappers
  import opened Strings
  import Clock
  import Config
  import CommandParser
  import Incident
  import Naming
  import Timeline
  import Display
  import Entries
  import opened SlackApi

  const TimelineCommand := "timeline"
  const MsgCommandNotInIncidentChannel := "\U{274C} This command can only be used " + "in incident channels."
  const MsgTimelineNotFound := "\U{274C} Timeline not found for this incident."
  const MsgIncidentCreated := "Incident created successfully! " + "Check the notifications channel for details."

  datatype Bot = Bot(channelToIncident: map<string, string>, timelines: Timeline.Manager)

  /** `NewBot`. */
  const NewBot := Bot(map[], Timeline.Empty)

  /** No channel maps to the empty incident ID. */
  predicate WellMapped(b: Bot) {
    forall ch :: ch in b.channelToIncident ==> b.channelToIncident[ch] != ""
  }

  /** `findIncidentIDByChannel`: the mapped incident, or "" (Go's zero value
      for a missing key). */
  function FindIncidentIDByChannel(b: Bot, channelID: string): (r: string)
    ensures channelID in b.channelToIncident ==> r == b.channelToIncident[channelID]
    ensures WellMapped(b) ==> (r == "" <==> channelID !in b.channelToIncident)
  {
    if channelID in b.channelToIncident then b.channelToIncident[channelID] else ""
  }

  /** A handler's next state and the calls it made. */
  datatype Handled = Handled(bot: Bot, calls: seq<Call>)

  // ---------------------------------------------------------------------
  // Message events
  // ---------------------------------------------------------------------

  datatype MessageEvent = MessageEvent(channel: string, user: string, text: string, timestamp: string)

  /** Whether a message in an incident channel is recorded: every message
      when the configuration says so, otherwise only those that look like
      a Slack-hosted image. */
  predicate Captures(addAll: bool, text: string) {
    addAll || (Contains(text, "files.slack.com") && Contains(text, "image"))
  }

  /** The conditions under which a message becomes an entry. `channelName`
      is the name `GetConversationInfo` reports, `None` when it fails. */
  predicate MessageQualifies(b: Bot, addAll: bool, msg: MessageEvent, channelName: Option<string>) {
    && HasPrefix(msg.channel, "C")
    && channelName.Some? && HasPrefix(channelName.value, Naming.ChannelPrefix)
    && FindIncidentIDByChannel(b, msg.channel) != ""
    && Captures(addAll, msg.text)
  }

  /** `handleMessageEvent`. */
  function HandleMessage(b: Bot, cfg: Config.Config, msg: MessageEvent, channelName: Option<string>, dir: Timeline.Directory, now: Clock.DateTime, postOk: bool): (r: Handled)
    ensures r.bot.channelToIncident == b.channelToIncident
    ensures !MessageQualifies(b, cfg.addAllMessagesToTimeline, msg, channelName) ==> r.bot == b
    ensures !HasPrefix(msg.channel, "C") ==> r.calls == []
    ensures HasPrefix(msg.channel, "C") ==> r.calls != [] && r.calls[0] == GetConversationInfo(msg.channel)
    ensures MessageQualifies(b, cfg.addAllMessagesToTimeline, msg, channelName) ==>
              r.bot.timelines == Timeline.AddMessageEntry(b.timelines, FindIncidentIDByChannel(b, msg.channel),
                msg.user, msg.text, msg.timestamp, dir, now, postOk).manager
  {
    if !HasPrefix(msg.channel, "C") then Handled(b, [])
    else
      var info := [GetConversationInfo(msg.channel)];
      if channelName.None? || !HasPrefix(channelName.value, Naming.ChannelPrefix) then Handled(b, info)
      else
        var incidentID := FindIncidentIDByChannel(b, msg.channel);
        if incidentID == "" || !Captures(cfg.addAllMessagesToTimeline, msg.text) then Handled(b, info)
        else
          var s := Timeline.AddMessageEntry(b.timelines, incidentID, msg.user, msg.text, msg.timestamp, dir, now, postOk);
          Handled(b.(timelines := s.manager), info + s.calls)
  }

  /** A qualifying message in a channel whose incident has a timeline is
      then held under its Slack timestamp; a message that does not qualify
      changes nothing. */
  lemma MessageRecorded(b: Bot, cfg: Config.Config, msg: MessageEvent, channelName: Option<string>, dir: Timeline.Directory, now: Clock.DateTime, postOk: bool)
    requires FindIncidentIDByChannel(b, msg.channel) in b.timelines.timelines
    ensures var r := HandleMessage(b, cfg, msg, channelName, dir, now, postOk);
            Timeline.Holds(r.bot.timelines, FindIncidentIDByChannel(b, msg.channel), "message_" + msg.timestamp)
            <== MessageQualifies(b, cfg.addAllMessagesToTimeline, msg, channelName)
  {
    if MessageQualifies(b, cfg.addAllMessagesToTimeline, msg, channelName) {
      Timeline.MessageThenHas(b.timelines, FindIncidentIDByChannel(b, msg.channel), msg.user, msg.text, msg.timestamp, dir, now, postOk);
    }
  }

  // ---------------------------------------------------------------------
  // Reaction events
  // ---------------------------------------------------------------------

  datatype ReactionEvent = ReactionEvent(user: string, reaction: string, channel: string, itemTimestamp: string)

  /** A message as `GetConversationHistory` returns it. */
  datatype HistoryMessage = HistoryMessage(user: string, text: string, timestamp: string)

  /** The two reactions that call a message out for the timeline. */
  predicate IsCallOut(reaction: string) {
    reaction == "point_up" || reaction == "point_up_2"
  }

  /** The conditions under which a reaction becomes an entry. `history` is
      what the history lookup returns, `None` when it fails. */
  predicate ReactionQualifies(b: Bot, ev: ReactionEvent, history: Option<seq<HistoryMessage>>) {
    IsCallOut(ev.reaction) && FindIncidentIDByChannel(b, ev.channel) != "" && history.Some? && history.value != []
  }

  /** `handleReactionAddedEvent`. `parsedTime` is the time the reacted-to
      message's Slack timestamp denotes, or now when it does not parse. */
  function HandleReaction(b: Bot, ev: ReactionEvent, history: Option<seq<HistoryMessage>>, parsedTime: Clock.DateTime, dir: Timeline.Directory, now: Clock.DateTime, postOk: bool): (r: Handled)
    ensures r.bot.channelToIncident == b.channelToIncident
    ensures !ReactionQualifies(b, ev, history) ==> r.bot == b
    ensures !IsCallOut(ev.reaction) || FindIncidentIDByChannel(b, ev.channel) == "" ==> r.calls == []
    ensures ReactionQualifies(b, ev, history) ==>
              var msg := history.value[0];
              r.bot.timelines == Timeline.AddHighlightedEntry(b.timelines, FindIncidentIDByChannel(b, ev.channel),
                msg.user, msg.text, msg.timestamp, parsedTime, dir, now, postOk).manager
  {
    if !IsCallOut(ev.reaction) then Handled(b, [])
    else
      var incidentID := FindIncidentIDByChannel(b, ev.channel);
      if incidentID == "" then Handled(b, [])
      else
        var lookup := [GetConversationHistory(ev.channel, ev.itemTimestamp)];
        if history.None? || history.value == [] then Handled(b, lookup)
        else
          var msg := history.value[0];
          var s := Timeline.AddHighlightedEntry(b.timelines, incidentID, msg.user, msg.text, msg.timestamp, parsedTime, dir, now, postOk);
          Handled(b.(timelines := s.manager), lookup + s.calls)
  }

  /** A qualifying call-out is held under the reacted-to message's
      timestamp, and a fresh one is appended with that message's author,
      text and original time. */
  lemma ReactionHighlights(b: Bot, ev: ReactionEvent, history: Option<seq<HistoryMessage>>, parsedTime: Clock.DateTime, dir: Timeline.Directory, now: Clock.DateTime, postOk: bool)
    requires ReactionQualifies(b, ev, history)
    requires FindIncidentIDByChannel(b, ev.channel) in b.timelines.timelines
    ensures var id := FindIncidentIDByChannel(b, ev.channel);
            var msg := history.value[0];
            var r := HandleReaction(b, ev, history, parsedTime, dir, now, postOk);
            && Timeline.Holds(r.bot.timelines, id, "highlighted_" + msg.timestamp)
            && (!Timeline.Holds(b.timelines, id, "highlighted_" + msg.timestamp) ==>
                  var es := r.bot.timelines.timelines[id].entries;
                  es[|es| - 1] == Timeline.HighlightedEntry(msg.user, Timeline.ResolveUsername(b.timelines.userCache, dir, msg.user).name,
                    msg.text, msg.timestamp, parsedTime))
  {
    var id := FindIncidentIDByChannel(b, ev.channel);
    var msg := history.value[0];
    Timeline.HighlightThenHas(b.timelines, id, msg.user, msg.text, msg.timestamp, parsedTime, dir, now, postOk);
    if !Timeline.Holds(b.timelines, id, "highlighted_" + msg.timestamp) {
      Timeline.HighlightRecorded(b.timelines, id, msg.user, msg.text, msg.timestamp, parsedTime, dir, now, postOk);
    }
  }

  // ---------------------------------------------------------------------
  // File events
  // ---------------------------------------------------------------------

  datatype FileEvent = FileEvent(fileID: string, userID: string, channelID: string)

  /** What `GetFileInfo` reports about a file. */
  datatype FileInfo = FileInfo(mimetype: string, title: string, name: string, urlPrivate: string)

  /** An image's caption: its title, or its file name when it has none. */
  function Caption(f: FileInfo): (r: string)
    ensures f.title != "" ==> r == f.title
    ensures f.title == "" ==> r == f.name
  {
    if f.title == "" then f.name else f.title
  }

  /** The conditions under which a shared file becomes an entry. */
  predicate FileQualifies(b: Bot, ev: FileEvent, info: Option<FileInfo>) {
    FindIncidentIDByChannel(b, ev.channelID) != "" && info.Some? && HasPrefix(info.value.mimetype, "image/")
  }

  /** `handleFileSharedEvent`. `info` is what `GetFileInfo` returns, `None`
      when it fails. */
  function HandleFile(b: Bot, ev: FileEvent, info: Option<FileInfo>, dir: Timeline.Directory, now: Clock.DateTime, postOk: bool): (r: Handled)
    ensures r.bot.channelToIncident == b.channelToIncident
    ensures !FileQualifies(b, ev, info) ==> r.bot == b
    ensures FindIncidentIDByChannel(b, ev.channelID) == "" ==> r.calls == []
    ensures FileQualifies(b, ev, info) ==>
              r.bot.timelines == Timeline.AddImageEntry(b.timelines, FindIncidentIDByChannel(b, ev.channelID),
                ev.userID, info.value.urlPrivate, Caption(info.value), ev.fileID, dir, now, postOk).manager
  {
    var incidentID := FindIncidentIDByChannel(b, ev.channelID);
    if incidentID == "" then Handled(b, [])
    else
      var lookup := [GetFileInfo(ev.fileID)];
      if info.None? || !HasPrefix(info.value.mimetype, "image/") then Handled(b, lookup)
      else
        var f := info.value;
        var s := Timeline.AddImageEntry(b.timelines, incidentID, ev.userID, f.urlPrivate, Caption(f), ev.fileID, dir, now, postOk);
        Handled(b.(timelines := s.manager), lookup + s.calls)
  }

  /** A qualifying image is held under its file ID. */
  lemma FileRecorded(b: Bot, ev: FileEvent, info: Option<FileInfo>, dir: Timeline.Directory, now: Clock.DateTime, postOk: bool)
    requires FileQualifies(b, ev, info)
    requires FindIncidentIDByChannel(b, ev.channelID) in b.timelines.timelines
    ensures Timeline.Holds(HandleFile(b, ev, info, dir, now, postOk).bot.timelines, FindIncidentIDByChannel(b, ev.channelID), "image_" + ev.fileID)
  {
    var f := info.value;
    Timeline.ImageThenHas(b.timelines, FindIncidentIDByChannel(b, ev.channelID), ev.userID, f.urlPrivate, Caption(f), ev.fileID, dir, now, postOk);
  }

  /** A qualifying image new to the incident is appended with its title as
      the entry's text, or its file name when it has no title, and with its
      private URL and file ID as metadata. */
  lemma FileAppended(b: Bot, ev: FileEvent, info: Option<FileInfo>, dir: Timeline.Directory, now: Clock.DateTime, postOk: bool)
    requires FileQualifies(b, ev, info)
    requires FindIncidentIDByChannel(b, ev.channelID) in b.timelines.timelines
    requires !Timeline.Holds(b.timelines, FindIncidentIDByChannel(b, ev.channelID), "image_" + ev.fileID)
    ensures var id := FindIncidentIDByChannel(b, ev.channelID);
            var f := info.value;
            var before := b.timelines.timelines[id].entries;
            var es := HandleFile(b, ev, info, dir, now, postOk).bot.timelines.timelines[id].entries;
            && |es| == |before| + 1 && es[..|before|] == before
            && es[|before|].kind == "image"
            && (f.title != "" ==> es[|before|].content == f.title)
            && (f.title == "" ==> es[|before|].content == f.name)
            && es[|before|].metadata == [("image_url", Entries.Text(f.urlPrivate)), ("message_id", Entries.Text(ev.fileID))]
  {
    var f := info.value;
    Timeline.ImageAppended(b.timelines, FindIncidentIDByChannel(b, ev.channelID), ev.userID, f.urlPrivate, Caption(f), ev.fileID, dir, now, postOk);
  }

  /** The same file shared again leaves every timeline as it is, whoever
      shares it and whatever its details say by then. */
  lemma FileSharedTwice(b: Bot, ev: FileEvent, ev2: FileEvent, info: Option<FileInfo>, info2: Option<FileInfo>, dir: Timeline.Directory, now: Clock.DateTime, now2: Clock.DateTime, ok: bool, ok2: bool)
    requires ev2.fileID == ev.fileID && ev2.channelID == ev.channelID
    requires FileQualifies(b, ev, info) && FileQualifies(b, ev2, info2)
    requires FindIncidentIDByChannel(b, ev.channelID) in b.timelines.timelines
    ensures var r := HandleFile(b, ev, info, dir, now, ok);
            HandleFile(r.bot, ev2, info2, dir, now2, ok2).bot.timelines.timelines == r.bot.timelines.timelines
  {
    var id := FindIncidentIDByChannel(b, ev.channelID);
    var f := info.value;
    var f2 := info2.value;
    Timeline.ImageRecordedOnce(b.timelines, id, ev.userID, ev2.userID, f.urlPrivate, f2.urlPrivate, Caption(f), Caption(f2), ev.fileID, dir, now, now2, ok, ok2);
  }

  // ---------------------------------------------------------------------
  // Creating an incident
  // ---------------------------------------------------------------------

  /** What the outside world supplies while an incident is created: the
      random bytes for its ID (`None` when the random source fails), the
      clock, and Slack's answers to creating the channel (its ID, or the
      error text) and to posting the notification (`None` on success, or
      the error text). The other calls' outcomes are only logged. */
  datatype World = World(
    entropy: Option<seq<bv8>>,
    unixNanos: int,
    now: Clock.DateTime,
    conversation: Result<string, string>,
    notification: Option<string>)

  /** `crypto/rand` is asked for 8 bytes. */
  predicate WellFormed(w: World) {
    w.entropy.Some? ==> |w.entropy.value| == 8
  }

  /** The incident record built from a command. */
  function NewIncident(c: CommandParser.Command, w: World): (inc: Incident.Incident)
    requires WellFormed(w)
    ensures inc.title == c.title && inc.description == c.description && inc.severity == c.severity
    ensures inc.startedBy == c.username && inc.startedAt == w.now
    ensures inc.channelName == Naming.GenerateChannelName(c.title, w.now)
    ensures |inc.id| > 4 && inc.id[..4] == "inc_"
  {
    Incident.Incident(
      Incident.GenerateIncidentID(w.entropy, w.unixNanos),
      c.title,
      c.description,
      c.severity,
      Naming.GenerateChannelName(c.title, w.now),
      c.username,
      w.now)
  }

  /** The channel's purpose, and the description line of its first message:
      the description, or the title when there is none. */
  function DescriptionOrTitle(c: CommandParser.Command): string {
    if c.description == "" then c.title else c.description
  }

  function Topic(c: CommandParser.Command): string {
    c.severity + " Incident: " + c.title
  }

  /** The first message in the incident channel. */
  function InitialMessage(c: CommandParser.Command, startedAt: Clock.DateTime): string {
    Entries.StartIcon + " *" + c.severity + " Incident Started*\n\n"
      + "*Severity:* " + c.severity + "\n"
      + "*Started by:* <@" + c.userID + ">\n"
      + "*Title:* " + c.title + "\n"
      + "*Description:* " + DescriptionOrTitle(c) + "\n"
      + "*Started at:* " + Clock.DateAndTime(startedAt) + "\n\n"
      + "Please provide updates and coordinate the response in this channel."
  }

  /** The notification's first two lines. */
  function NotificationBase(c: CommandParser.Command, channelID: string): string {
    Entries.StartIcon + " <@" + c.userID + "> started an incident: *" + c.severity + "*: <#" + channelID + ">\n"
      + "*Title:* " + c.title
  }

  /** The notification: a description line follows the base exactly when
      the description is non-empty. */
  function Notification(c: CommandParser.Command, channelID: string): (r: string)
    ensures NotificationBase(c, channelID) <= r
    ensures r == NotificationBase(c, channelID) <==> c.description == ""
    ensures c.description != "" ==> r[|NotificationBase(c, channelID)|..] == "\n*Description:* " + c.description
  {
    var base := NotificationBase(c, channelID);
    if c.description != "" then
      var line := "\n*Description:* " + c.description;
      assert (base + line)[|base|..] == line;
      base + line
    else base
  }

  /** The result of `createIncident`: the next state, the calls made, and
      the error text if it failed. */
  datatype Creation = Creation(bot: Bot, calls: seq<Call>, err: Option<string>)

  /** `createIncident`. A channel that cannot be created ends it before any
      other effect. Topic, purpose, invitation and the first message are
      attempted in that order and their failures are ignored; the timeline
      is created in between. A failed notification is an error, and the
      channel is mapped to the incident only when it succeeds. */
  function CreateIncident(b: Bot, cfg: Config.Config, c: CommandParser.Command, w: World, dir: Timeline.Directory): (r: Creation)
    requires WellFormed(w)
  {
    hide InitialMessage, Notification, NotificationBase, Topic, DescriptionOrTitle, NewIncident, Timeline.CreateTimeline,
      Naming.GenerateChannelName;
    var inc := NewIncident(c, w);
    match w.conversation
    case Failure(e) => Creation(b, [CreateConversation(inc.channelName)], Some("failed to create channel: " + e))
    case Success(ch) =>
      var created := Timeline.CreateTimeline(b.timelines, inc, ch, dir, w.now);
      var setup := [CreateConversation(inc.channelName), SetTopic(ch, Topic(c)), SetPurpose(ch, DescriptionOrTitle(c)), InviteUsers(ch, c.userID)];
      var posts := [PostMessage(ch, InitialMessage(c, inc.startedAt)), PostMessage(cfg.notificationsChannel, Notification(c, ch))];
      var b' := b.(timelines := created.manager);
      match w.notification
      case Some(e) => Creation(b', setup + created.calls + posts, Some("failed to post notification: " + e))
      case None => Creation(b'.(channelToIncident := b.channelToIncident[ch := inc.id]), setup + created.calls + posts, None)
  }

  /** A channel that cannot be created ends the creation with only that
      call made; otherwise it succeeds exactly when the notification is
      posted, and a failed notification is reported with its error. */
  lemma CreateOutcome(b: Bot, cfg: Config.Config, c: CommandParser.Command, w: World, dir: Timeline.Directory)
    requires WellFormed(w)
    ensures var r := CreateIncident(b, cfg, c, w, dir);
            && (w.conversation.Failure? ==>
                  r == Creation(b, [CreateConversation(Naming.GenerateChannelName(c.title, w.now))],
                    Some("failed to create channel: " + w.conversation.error)))
            && (r.err == None <==> w.conversation.Success? && w.notification.None?)
            && (w.conversation.Success? && w.notification.Some? ==> r.err == Some("failed to post notification: " + w.notification.value))
  {
    hide InitialMessage, Notification, NotificationBase, Topic, DescriptionOrTitle, NewIncident, Timeline.CreateTimeline,
      Naming.GenerateChannelName;
  }

  /** The channel is mapped to the incident only when the notification is
      posted. */
  lemma CreateRecordsMapping(b: Bot, cfg: Config.Config, c: CommandParser.Command, w: World, dir: Timeline.Directory)
    requires WellFormed(w)
    ensures var r := CreateIncident(b, cfg, c, w, dir);
            && (r.err == None ==> r.bot.channelToIncident == b.channelToIncident[w.conversation.value := NewIncident(c, w).id])
            && (r.err != None ==> r.bot.channelToIncident == b.channelToIncident)
  {
    hide InitialMessage, Notification, NotificationBase, Topic, DescriptionOrTitle, NewIncident, Timeline.CreateTimeline,
      Naming.GenerateChannelName;
  }

  /** Once the channel exists the timeline is created whatever happens to
      the notification, and the calls open with the channel set-up and end
      with the two posts. */
  lemma CreatedEffects(b: Bot, cfg: Config.Config, c: CommandParser.Command, w: World, dir: Timeline.Directory)
    requires WellFormed(w) && w.conversation.Success?
    ensures var r := CreateIncident(b, cfg, c, w, dir);
            var ch := w.conversation.value;
            && r.bot.timelines == Timeline.CreateTimeline(b.timelines, NewIncident(c, w), ch, dir, w.now).manager
            && |r.calls| >= 6
            && r.calls[..4] == [CreateConversation(Naming.GenerateChannelName(c.title, w.now)), SetTopic(ch, Topic(c)),
                                SetPurpose(ch, DescriptionOrTitle(c)), InviteUsers(ch, c.userID)]
            && r.calls[|r.calls| - 2..] == [PostMessage(ch, InitialMessage(c, w.now)), PostMessage(cfg.notificationsChannel, Notification(c, ch))]
  {
    hide InitialMessage, Notification, NotificationBase, Topic, DescriptionOrTitle, NewIncident, Timeline.CreateTimeline,
      Naming.GenerateChannelName;
    var inc := NewIncident(c, w);
    var ch := w.conversation.value;
    var created := Timeline.CreateTimeline(b.timelines, inc, ch, dir, w.now);
    var setup := [CreateConversation(inc.channelName), SetTopic(ch, Topic(c)), SetPurpose(ch, DescriptionOrTitle(c)), InviteUsers(ch, c.userID)];
    var posts := [PostMessage(ch, InitialMessage(c, inc.startedAt)), PostMessage(cfg.notificationsChannel, Notification(c, ch))];
    var calls := setup + created.calls + posts;
    assert CreateIncident(b, cfg, c, w, dir).calls == calls;
    assert calls[..4] == setup;
    assert calls[|calls| - 2..] == posts;
  }

  /** A parsed command always has a title, so the channel purpose is never
      empty. */
  lemma PurposeNeverEmpty(text: string)
    requires Incident.ParseCommand(text).Success?
    ensures DescriptionOrTitle(Incident.ParseCommand(text).value) != ""
  {
  }

  /** Creating an incident keeps every mapped incident ID non-empty. */
  lemma CreateKeepsWellMapped(b: Bot, cfg: Config.Config, c: CommandParser.Command, w: World, dir: Timeline.Directory)
    requires WellFormed(w) && WellMapped(b)
    ensures WellMapped(CreateIncident(b, cfg, c, w, dir).bot)
  {
    hide CreateIncident, InitialMessage, Notification, NotificationBase, Topic, DescriptionOrTitle, NewIncident,
      Timeline.CreateTimeline, Naming.GenerateChannelName;
    CreateRecordsMapping(b, cfg, c, w, dir);
    assert NewIncident(c, w).id != "";
  }

  /** After a successful creation the new channel leads to the incident and
      its timeline, and the timeline shows the incident's details. */
  lemma CreatedIncidentIsFound(b: Bot, cfg: Config.Config, c: CommandParser.Command, w: World, dir: Timeline.Directory)
    requires WellFormed(w)
    requires CreateIncident(b, cfg, c, w, dir).err == None
    ensures var r := CreateIncident(b, cfg, c, w, dir);
            var inc := NewIncident(c, w);
            var ch := w.conversation.value;
            var t := Timeline.CreateTimeline(b.timelines, inc, ch, dir, w.now).timeline;
            && FindIncidentIDByChannel(r.bot, ch) == inc.id
            && Timeline.GetTimeline(r.bot.timelines, inc.id) == Some(t)
            && Display.FormatTimelineForDisplay(t)
                 == Display.HeaderText(Display.Header(c.title, c.severity, c.description,
                      Timeline.ResolveUsername(b.timelines.userCache, dir, c.username).name, w.now))
                    + Display.Footer(w.now)
  {
    hide InitialMessage, Notification, NotificationBase, Topic, DescriptionOrTitle, Display.HeaderText, Display.Footer,
      Display.FormatTimelineForDisplay, Timeline.CreateTimeline, NewIncident;
    var inc := NewIncident(c, w);
    Display.FreshTimelineDisplay(b.timelines, inc, w.conversation.value, dir, w.now);
  }

  // ---------------------------------------------------------------------
  // Slash commands
  // ---------------------------------------------------------------------

  datatype SlashCommand = SlashCommand(text: string, userID: string, userName: string, channelID: string)

  /** What a slash command answers, before it is rendered as text. */
  datatype Answer =
    | NotInIncidentChannel
    | TimelineNotFound
    | ShowTimeline(t: Timeline.Timeline)
    | Usage(e: CommandParser.ParseError)
    | Created
    | CreateFailed(err: string)

  /** The ephemeral text of each answer. */
  function Render(a: Answer): string {
    match a
    case NotInIncidentChannel => MsgCommandNotInIncidentChannel
    case TimelineNotFound => MsgTimelineNotFound
    case ShowTimeline(t) => Display.FormatTimelineForDisplay(t)
    case Usage(e) => "Error: " + CommandParser.Message(e) + "\n\n" + Incident.HelpMessage
    case Created => MsgIncidentCreated
    case CreateFailed(err) => "Failed to create incident: " + err
  }

  /** The first characters of the fixed replies. */
  lemma RepliesOpen()
    ensures MsgIncidentCreated != [] && MsgIncidentCreated[0] == 'I'
    ensures MsgCommandNotInIncidentChannel != [] && MsgCommandNotInIncidentChannel[0] == '\U{274C}'
    ensures MsgTimelineNotFound != [] && MsgTimelineNotFound[0] == '\U{274C}'
  {
  }

  /** Every answer renders as a non-empty text with its own first character;
      only the success answer reads as the success message. */
  lemma RenderOpens(a: Answer)
    ensures Render(a) != []
    ensures Render(a)[0] == (match a
                             case NotInIncidentChannel => '\U{274C}'
                             case TimelineNotFound => '\U{274C}'
                             case ShowTimeline(_) => '\U{1F4CB}'
                             case Usage(_) => 'E'
                             case Created => 'I'
                             case CreateFailed(_) => 'F')
    ensures Render(a) == MsgIncidentCreated <==> a == Created
  {
    hide CommandParser.Message, Incident.HelpMessage, MsgIncidentCreated, MsgCommandNotInIncidentChannel, MsgTimelineNotFound,
      Display.FormatTimelineForDisplay, Display.FormatWith;
    RepliesOpen();
    if a.ShowTimeline? {
      Display.DisplayOpens(a.t, false);
    }
  }

  /** A usage answer shows the parse error's text between "Error: " and the
      help text, so different errors give different replies. */
  lemma UsageNamesError(e1: CommandParser.ParseError, e2: CommandParser.ParseError)
    ensures Render(Usage(e1)) == Render(Usage(e2)) ==> e1 == e2
  {
    hide Render, Incident.HelpMessage, CommandParser.Message;
    var m1, m2 := CommandParser.Message(e1), CommandParser.Message(e2);
    UsageText(e1);
    UsageText(e2);
    if Render(Usage(e1)) == Render(Usage(e2)) {
      var t := Render(Usage(e1));
      assert |m1| == |m2|;
      assert m1 == t[7..7 + |m1|] == m2;
      CommandParser.MessageDetermines(e1, e2);
    }
  }

  lemma UsageText(e: CommandParser.ParseError)
    ensures var t := Render(Usage(e));
            var m := CommandParser.Message(e);
            && |t| == 7 + |m| + 2 + |Incident.HelpMessage|
            && t[7..7 + |m|] == m
  {
    hide Incident.HelpMessage, CommandParser.Message, Display.FormatTimelineForDisplay;
  }

  /** A failed creation shows its error after its prefix, so the reply names
      the error. */
  lemma FailureNamesError(x1: string, x2: string)
    ensures Render(CreateFailed(x1))[|"Failed to create incident: "|..] == x1
    ensures Render(CreateFailed(x1)) == Render(CreateFailed(x2)) ==> x1 == x2
  {
    hide Incident.HelpMessage, CommandParser.Message, Display.FormatTimelineForDisplay;
    assert Render(CreateFailed(x1))[|"Failed to create incident: "|..] == x1;
    assert Render(CreateFailed(x2))[|"Failed to create incident: "|..] == x2;
  }

  /** A handler's next state, the calls it made and its ephemeral answer. */
  datatype Reply = Reply(bot: Bot, calls: seq<Call>, answer: Answer)

  /** `handleTimelineCommand`: only in a channel mapped to an incident, and
      only when that incident has a timeline. */
  function TimelineAnswer(b: Bot, channelID: string): (r: Answer)
    ensures FindIncidentIDByChannel(b, channelID) == "" ==> r == NotInIncidentChannel
    ensures FindIncidentIDByChannel(b, channelID) != "" && FindIncidentIDByChannel(b, channelID) !in b.timelines.timelines ==>
              r == TimelineNotFound
    ensures FindIncidentIDByChannel(b, channelID) in b.timelines.timelines && FindIncidentIDByChannel(b, channelID) != "" ==>
              r == ShowTimeline(b.timelines.timelines[FindIncidentIDByChannel(b, channelID)])
  {
    var incidentID := FindIncidentIDByChannel(b, channelID);
    if incidentID == "" then NotInIncidentChannel
    else
      match Timeline.GetTimeline(b.timelines, incidentID)
      case None => TimelineNotFound
      case Some(t) => ShowTimeline(t)
  }

  /** `handleSlashCommand`. */
  function HandleSlash(b: Bot, cfg: Config.Config, cmd: SlashCommand, w: World, dir: Timeline.Directory): (r: Reply)
    requires WellFormed(w)
    ensures cmd.text == TimelineCommand ==> r == Reply(b, [], TimelineAnswer(b, cmd.channelID))
    ensures cmd.text != TimelineCommand && Incident.ParseCommand(cmd.text).Failure? ==>
              r == Reply(b, [], Usage(Incident.ParseCommand(cmd.text).error))
  {
    hide CreateIncident, TimelineAnswer, Incident.ParseCommand, CommandParser.Parse;
    if cmd.text == TimelineCommand then Reply(b, [], TimelineAnswer(b, cmd.channelID))
    else
      match Incident.ParseCommand(cmd.text)
      case Failure(e) => Reply(b, [], Usage(e))
      case Success(parsed) =>
        var c := parsed.(userID := cmd.userID, username := cmd.userName);
        var cr := CreateIncident(b, cfg, c, w, dir);
        Reply(cr.bot, cr.calls, if cr.err == None then Created else CreateFailed(cr.err.value))
  }

  /** A command that parses creates the incident, taking the user from the
      request, and reports how the creation went. */
  lemma SlashCreates(b: Bot, cfg: Config.Config, cmd: SlashCommand, w: World, dir: Timeline.Directory)
    requires WellFormed(w) && cmd.text != TimelineCommand && Incident.ParseCommand(cmd.text).Success?
    ensures var r := HandleSlash(b, cfg, cmd, w, dir);
            var c := Incident.ParseCommand(cmd.text).value.(userID := cmd.userID, username := cmd.userName);
            var cr := CreateIncident(b, cfg, c, w, dir);
            && r.bot == cr.bot && r.calls == cr.calls
            && r.answer == (if cr.err == None then Created else CreateFailed(cr.err.value))
  {
    hide CreateIncident, TimelineAnswer, Incident.ParseCommand, CommandParser.Parse;
  }

  /** Only a slash command that parses can change the bot's state, and the
      success message is shown exactly when the creation succeeds. */
  lemma SlashChangesOnlyByCreation(b: Bot, cfg: Config.Config, cmd: SlashCommand, w: World, dir: Timeline.Directory)
    requires WellFormed(w)
    ensures var r := HandleSlash(b, cfg, cmd, w, dir);
            r.bot != b ==> cmd.text != TimelineCommand && Incident.ParseCommand(cmd.text).Success? && w.conversation.Success?
    ensures var r := HandleSlash(b, cfg, cmd, w, dir);
            Render(r.answer) == MsgIncidentCreated <==>
              cmd.text != TimelineCommand && Incident.ParseCommand(cmd.text).Success?
              && w.conversation.Success? && w.notification.None?
  {
    hide Render, CreateIncident, TimelineAnswer, Incident.ParseCommand, CommandParser.Parse, MsgIncidentCreated;
    RenderOpens(HandleSlash(b, cfg, cmd, w, dir).answer);
    if cmd.text != TimelineCommand && Incident.ParseCommand(cmd.text).Success? {
      var c := Incident.ParseCommand(cmd.text).value.(userID := cmd.userID, username := cmd.userName);
      SlashCreates(b, cfg, cmd, w, dir);
      CreateOutcome(b, cfg, c, w, dir);
    }
  }

  /** The timeline command is never read as an incident command: it makes
      no call and leaves the state alone, and it would not parse anyway. */
  lemma TimelineCommandNeverParsed(b: Bot, cfg: Config.Config, cmd: SlashCommand, w: World, dir: Timeline.Directory)
    requires WellFormed(w) && cmd.text == TimelineCommand
    ensures HandleSlash(b, cfg, cmd, w, dir).bot == b
    ensures HandleSlash(b, cfg, cmd, w, dir).calls == []
    ensures Incident.ParseCommand(cmd.text) == Failure(CommandParser.InsufficientArguments)
  {
    TimelineTextDoesNotParse();
  }

  lemma TimelineTextDoesNotParse()
    ensures Incident.ParseCommand(TimelineCommand) == Failure(CommandParser.InsufficientArguments)
  {
    PrintableWord(TimelineCommand);
    hide IsWord, Fields, CommandParser.Parse;
    FieldsOfWord(TimelineCommand);
    CommandParser.ParseErrorOrder(Incident.Severities, TimelineCommand);
  }

  /** Every handler keeps every mapped incident ID non-empty, so that "" from
      `FindIncidentIDByChannel` means exactly "not an incident channel". */
  lemma HandlersKeepWellMapped(b: Bot, cfg: Config.Config, cmd: SlashCommand, w: World, dir: Timeline.Directory)
    requires WellFormed(w) && WellMapped(b)
    ensures WellMapped(HandleSlash(b, cfg, cmd, w, dir).bot)
  {
    if cmd.text != TimelineCommand && Incident.ParseCommand(cmd.text).Success? {
      var c := Incident.ParseCommand(cmd.text).value.(userID := cmd.userID, username := cmd.userName);
      CreateKeepsWellMapped(b, cfg, c, w, dir);
    }
  }
}
