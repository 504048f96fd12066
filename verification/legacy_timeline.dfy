/**
 * The legacy timeline store. Entries carry no ID and the user is stored as
 * given, so there is no user cache and no deduplication: every successful
 * `AddEntry` appends, and no message is acknowledged.
 */
module LegacyTimeline {
  import opened Wrappers
  import Clock
  import Incident
  import opened Entries
  import opened SlackApi

  datatype Entry = Entry(
    timestamp: Clock.DateTime,
    kind: string,
    user: string,
    content: string,
    metadata: Metadata)

  datatype Timeline = Timeline(
    incidentID: string,
    channelID: string,
    lastUpdated: Clock.DateTime,
    entries: seq<Entry>)

  datatype Manager = Manager(timelines: map<string, Timeline>)

  /** `NewManager`. */
  const Empty := Manager(map[])

  datatype TimelineError = NotFound(incidentID: string) | PostFailed

  function Message(e: TimelineError): string {
    match e
    case NotFound(id) => "timeline not found for incident: " + id
    case PostFailed => "post failed"
  }

  datatype Step = Step(manager: Manager, err: Option<TimelineError>, calls: seq<Call>)

  /** The blocks of `entries[i..]`. */
  function FormatBlocks(entries: seq<Entry>, i: nat): string
    requires i <= |entries|
    decreases |entries| - i
  {
    if i == |entries| then ""
    else
      var e := entries[i];
      EntryBlock(e.kind, e.timestamp, e.user, e.content, e.metadata, i == |entries| - 1)
        + FormatBlocks(entries, i + 1)
  }

  /** `formatTimelineMessage`. */
  function FormatTimelineMessage(entries: seq<Entry>): (r: string)
    ensures entries == [] <==> r == EmptyTimelineText
    ensures entries != [] ==> |TimelineHeader| <= |r| && r[..|TimelineHeader|] == TimelineHeader
  {
    if entries == [] then EmptyTimelineText
    else
      HeaderIsNotEmptyText();
      TimelineHeader + FormatBlocks(entries, 0)
  }

  /** `CreateTimeline`: registers a timeline holding only the start entry,
      replacing any timeline already stored under the incident's ID. */
  function CreateTimeline(m: Manager, inc: Incident.Incident, channelID: string, now: Clock.DateTime): (r: (Manager, Timeline))
    ensures r.0.timelines.Keys == m.timelines.Keys + {inc.id}
    ensures r.0.timelines[inc.id] == r.1
    ensures forall id :: id in m.timelines && id != inc.id ==> r.0.timelines[id] == m.timelines[id]
    ensures r.1.incidentID == inc.id && r.1.channelID == channelID && r.1.lastUpdated == now
    ensures |r.1.entries| == 1
    ensures var e := r.1.entries[0];
            e.kind == "incident_start" && e.timestamp == inc.startedAt && e.user == inc.startedBy
  {
    var e := Entry(
      inc.startedAt,
      "incident_start",
      inc.startedBy,
      StartIcon + " " + inc.severity + " Incident Started",
      [("severity", SeverityValue(inc.severity)), ("title", Text(inc.title)), ("description", Text(inc.description))]);
    var t := Timeline(inc.id, channelID, now, [e]);
    (Manager(m.timelines[inc.id := t]), t)
  }

  /** `AddEntry`: an unknown incident is an error and changes nothing;
      otherwise the entry is appended unconditionally and the timeline is
      posted. A failed post is reported but the entry stays. */
  function AddEntry(m: Manager, incidentID: string, e: Entry, now: Clock.DateTime, postOk: bool): (r: Step)
    ensures incidentID !in m.timelines ==> r == Step(m, Some(NotFound(incidentID)), [])
    ensures r.manager.timelines.Keys == m.timelines.Keys
    ensures forall id :: id in m.timelines && id != incidentID ==> r.manager.timelines[id] == m.timelines[id]
    ensures incidentID in m.timelines ==>
              var t := m.timelines[incidentID];
              var t' := r.manager.timelines[incidentID];
              && |t'.entries| == |t.entries| + 1 && t'.entries[..|t.entries|] == t.entries && t'.entries[|t.entries|] == e
              && t'.channelID == t.channelID && t'.incidentID == t.incidentID && t'.lastUpdated == now
              && r.calls == [PostMessage(t.channelID, FormatTimelineMessage(t'.entries))]
              && (r.err == None <==> postOk)
  {
    if incidentID !in m.timelines then Step(m, Some(NotFound(incidentID)), [])
    else
      var t := m.timelines[incidentID];
      var t' := t.(entries := t.entries + [e], lastUpdated := now);
      assert t'.entries[..|t.entries|] == t.entries;
      var calls := [PostMessage(t.channelID, FormatTimelineMessage(t'.entries))];
      Step(Manager(m.timelines[incidentID := t']), if postOk then None else Some(PostFailed), calls)
  }

  /** Without deduplication, adding the same entry twice keeps both copies. */
  lemma AddEntryTwiceKeepsBoth(m: Manager, incidentID: string, e: Entry, now1: Clock.DateTime, now2: Clock.DateTime, ok1: bool, ok2: bool)
    requires incidentID in m.timelines
    ensures var s1 := AddEntry(m, incidentID, e, now1, ok1);
            var s2 := AddEntry(s1.manager, incidentID, e, now2, ok2);
            s2.manager.timelines[incidentID].entries == m.timelines[incidentID].entries + [e, e]
  {
    var es := m.timelines[incidentID].entries;
    assert es + [e] + [e] == es + [e, e];
  }

  /** `n` additions of one entry grow the timeline by exactly `n`. */
  function AddMany(m: Manager, incidentID: string, e: Entry, now: Clock.DateTime, n: nat): Manager
    decreases n
  {
    if n == 0 then m else AddMany(AddEntry(m, incidentID, e, now, true).manager, incidentID, e, now, n - 1)
  }

  lemma {:induction false} AddManyLength(m: Manager, incidentID: string, e: Entry, now: Clock.DateTime, n: nat)
    requires incidentID in m.timelines
    ensures incidentID in AddMany(m, incidentID, e, now, n).timelines
    ensures |AddMany(m, incidentID, e, now, n).timelines[incidentID].entries| == |m.timelines[incidentID].entries| + n
    decreases n
  {
    hide AddEntry, FormatTimelineMessage;
    if n > 0 {
      AddManyLength(AddEntry(m, incidentID, e, now, true).manager, incidentID, e, now, n - 1);
    }
  }

  /** `AddMessageEntry`: stamped now, no metadata. */
  function MessageEntry(user: string, message: string, now: Clock.DateTime): Entry {
    Entry(now, "message", user, message, [])
  }

  /** `AddImageEntry`. */
  function ImageEntry(user: string, imageURL: string, caption: string, now: Clock.DateTime): Entry {
    Entry(now, "image", user, caption, [("image_url", Text(imageURL))])
  }

  /** `AddReactionEntry`. */
  function ReactionEntry(user: string, message: string, reaction: string, now: Clock.DateTime): Entry {
    Entry(now, "reaction", user, message, [("reaction", Text(reaction))])
  }

  /** `AddBotInteractionEntry`. */
  function BotInteractionEntry(user: string, interaction: string, now: Clock.DateTime): Entry {
    Entry(now, "bot_interaction", user, interaction, [])
  }

  /** `AddHighlightedEntry`: stamped with the original message's time. */
  function HighlightedEntry(user: string, message: string, originalTimestamp: Clock.DateTime): Entry {
    Entry(originalTimestamp, "highlighted", user, message, [])
  }

  /** `AddMessageEntry`: appends a message stamped now, with no metadata. */
  function AddMessageEntry(m: Manager, incidentID: string, user: string, message: string, now: Clock.DateTime, postOk: bool): (r: Step)
    ensures incidentID !in m.timelines ==> r.manager == m && r.err == Some(NotFound(incidentID))
    ensures r.manager.timelines.Keys == m.timelines.Keys
    ensures incidentID in m.timelines ==>
              var before := m.timelines[incidentID].entries;
              var es := r.manager.timelines[incidentID].entries;
              && |es| == |before| + 1 && es[..|before|] == before
              && es[|before|].kind == "message" && es[|before|].user == user && es[|before|].content == message
              && es[|before|].timestamp == now && es[|before|].metadata == []
              && (r.err == None <==> postOk)
  {
    AddEntry(m, incidentID, MessageEntry(user, message, now), now, postOk)
  }

  /** `AddImageEntry`: appends the caption, with the image's URL as metadata. */
  function AddImageEntry(m: Manager, incidentID: string, user: string, imageURL: string, caption: string, now: Clock.DateTime, postOk: bool): (r: Step)
    ensures incidentID !in m.timelines ==> r.manager == m && r.err == Some(NotFound(incidentID))
    ensures r.manager.timelines.Keys == m.timelines.Keys
    ensures incidentID in m.timelines ==>
              var before := m.timelines[incidentID].entries;
              var es := r.manager.timelines[incidentID].entries;
              && |es| == |before| + 1 && es[..|before|] == before
              && es[|before|].kind == "image" && es[|before|].user == user && es[|before|].content == caption
              && es[|before|].timestamp == now && es[|before|].metadata == [("image_url", Text(imageURL))]
              && (r.err == None <==> postOk)
  {
    AddEntry(m, incidentID, ImageEntry(user, imageURL, caption, now), now, postOk)
  }

  /** `AddReactionEntry`: appends the message, with the reaction as metadata. */
  function AddReactionEntry(m: Manager, incidentID: string, user: string, message: string, reaction: string, now: Clock.DateTime, postOk: bool): (r: Step)
    ensures incidentID !in m.timelines ==> r.manager == m && r.err == Some(NotFound(incidentID))
    ensures r.manager.timelines.Keys == m.timelines.Keys
    ensures incidentID in m.timelines ==>
              var before := m.timelines[incidentID].entries;
              var es := r.manager.timelines[incidentID].entries;
              && |es| == |before| + 1 && es[..|before|] == before
              && es[|before|].kind == "reaction" && es[|before|].user == user && es[|before|].content == message
              && es[|before|].timestamp == now && es[|before|].metadata == [("reaction", Text(reaction))]
              && (r.err == None <==> postOk)
  {
    AddEntry(m, incidentID, ReactionEntry(user, message, reaction, now), now, postOk)
  }

  /** `AddBotInteractionEntry`: appends the interaction, with no metadata. */
  function AddBotInteractionEntry(m: Manager, incidentID: string, user: string, interaction: string, now: Clock.DateTime, postOk: bool): (r: Step)
    ensures incidentID !in m.timelines ==> r.manager == m && r.err == Some(NotFound(incidentID))
    ensures r.manager.timelines.Keys == m.timelines.Keys
    ensures incidentID in m.timelines ==>
              var before := m.timelines[incidentID].entries;
              var es := r.manager.timelines[incidentID].entries;
              && |es| == |before| + 1 && es[..|before|] == before
              && es[|before|].kind == "bot_interaction" && es[|before|].user == user && es[|before|].content == interaction
              && es[|before|].timestamp == now && es[|before|].metadata == []
              && (r.err == None <==> postOk)
  {
    AddEntry(m, incidentID, BotInteractionEntry(user, interaction, now), now, postOk)
  }

  /** `AddHighlightedEntry`: appends the message stamped with its original time, while the timeline's last update is now. */
  function AddHighlightedEntry(m: Manager, incidentID: string, user: string, message: string, originalTimestamp: Clock.DateTime, now: Clock.DateTime, postOk: bool): (r: Step)
    ensures incidentID !in m.timelines ==> r.manager == m && r.err == Some(NotFound(incidentID))
    ensures r.manager.timelines.Keys == m.timelines.Keys
    ensures incidentID in m.timelines ==>
              var before := m.timelines[incidentID].entries;
              var es := r.manager.timelines[incidentID].entries;
              && |es| == |before| + 1 && es[..|before|] == before
              && es[|before|].kind == "highlighted" && es[|before|].user == user && es[|before|].content == message
              && es[|before|].timestamp == originalTimestamp && es[|before|].metadata == []
              && (r.err == None <==> postOk)
  {
    AddEntry(m, incidentID, HighlightedEntry(user, message, originalTimestamp), now, postOk)
  }

  /** Only the highlight keeps a time other than now. */
  lemma ConstructorTimes(user: string, text: string, extra: string, now: Clock.DateTime, original: Clock.DateTime)
    ensures MessageEntry(user, text, now).timestamp == now
    ensures ImageEntry(user, extra, text, now).timestamp == now
    ensures ReactionEntry(user, text, extra, now).timestamp == now
    ensures BotInteractionEntry(user, text, now).timestamp == now
    ensures HighlightedEntry(user, text, original).timestamp == original
  {
  }

  /** `Timeline.GetEntries`. */
  function GetEntries(t: Timeline): seq<Entry> {
    t.entries
  }

  /** `Timeline.GetLastUpdated`. */
  function GetLastUpdated(t: Timeline): Clock.DateTime {
    t.lastUpdated
  }

  /** `GetTimeline`. */
  function GetTimeline(m: Manager, incidentID: string): (r: Option<Timeline>)
    ensures r.Some? <==> incidentID in m.timelines
    ensures r.Some? ==> r.value == m.timelines[incidentID]
  {
    if incidentID in m.timelines then Some(m.timelines[incidentID]) else None
  }
}
