/**
 * The live timeline store: a registry from incident ID to a timeline of
 * entries, and a cache from Slack user ID to user name.
 *
 * Every operation is one atomic transition from a `Manager` to a `Manager`.
 * The Slack workspace's user directory, the clock and the outcome of the
 * channel post are inputs; the Slack calls an operation makes come back as
 * a list in the order they are made.
 */
module Timeline {
  import opened Wrappers
  import opened Strings
  import Clock
  import Incident
  import opened Entries
  import opened SlackApi

  datatype Entry = Entry(
    id: string,
    timestamp: Clock.DateTime,
    kind: string,
    userID: string,
    username: string,
    content: string,
    metadata: Metadata)

  datatype Timeline = Timeline(
    incidentID: string,
    channelID: string,
    lastUpdated: Clock.DateTime,
    entries: seq<Entry>)

  datatype Manager = Manager(timelines: map<string, Timeline>, userCache: map<string, string>)

  /** `NewManager`. */
  const Empty := Manager(map[], map[])

  /** The Slack users that `GetUserInfo` finds, with their names. */
  type Directory = map<string, string>

  datatype TimelineError = NotFound(incidentID: string) | PostFailed

  function Message(e: TimelineError): string {
    match e
    case NotFound(id) => "timeline not found for incident: " + id
    case PostFailed => "post failed"
  }

  /** The result of an operation: the next state, its error, its calls. */
  datatype Step = Step(manager: Manager, err: Option<TimelineError>, calls: seq<Call>)

  // ---------------------------------------------------------------------
  // Users
  // ---------------------------------------------------------------------

  /** A cache after a lookup: the name found and the calls made. */
  datatype Resolved = Resolved(cache: map<string, string>, name: string, calls: seq<Call>)

  /** The cache only learns: no key is dropped and no cached name changes. */
  predicate Learns(before: map<string, string>, after: map<string, string>) {
    forall u :: u in before ==> u in after && after[u] == before[u]
  }

  /** `resolveUsername`: a cached name without any call; otherwise one
      `GetUserInfo`, and the name it finds, or the user ID itself when the
      lookup fails, is cached and returned. */
  function ResolveUsername(cache: map<string, string>, dir: Directory, userID: string): (r: Resolved)
    ensures userID in r.cache && r.name == r.cache[userID]
    ensures r.cache.Keys == cache.Keys + {userID}
    ensures Learns(cache, r.cache)
    ensures userID in cache ==> r == Resolved(cache, cache[userID], [])
    ensures userID !in cache ==> r.calls == [GetUserInfo(userID)]
    ensures userID !in cache ==> r.name == (if userID in dir then dir[userID] else userID)
  {
    if userID in cache then Resolved(cache, cache[userID], [])
    else
      var name := if userID in dir then dir[userID] else userID;
      Resolved(cache[userID := name], name, [GetUserInfo(userID)])
  }

  /** A second lookup of the same user makes no call and gives the same name,
      whatever the directory says by then. */
  lemma ResolveTwice(cache: map<string, string>, d1: Directory, d2: Directory, userID: string)
    ensures var r1 := ResolveUsername(cache, d1, userID);
            ResolveUsername(r1.cache, d2, userID) == Resolved(r1.cache, r1.name, [])
  {
  }

  /** `ensureUsername`: the stored name, else the resolved user ID, else
      "unknown_user". */
  function EnsureUsername(cache: map<string, string>, dir: Directory, e: Entry): (r: Resolved)
    ensures Learns(cache, r.cache)
    ensures e.username != "" ==> r == Resolved(cache, e.username, [])
    ensures e.username == "" && e.userID == "" ==> r == Resolved(cache, "unknown_user", [])
    ensures e.username == "" && e.userID != "" ==> e.userID in r.cache && r.name == r.cache[e.userID]
    ensures r.name != "" || (e.userID in dir && dir[e.userID] == "") || (e.userID in cache && cache[e.userID] == "")
  {
    if e.username != "" then Resolved(cache, e.username, [])
    else if e.userID != "" then ResolveUsername(cache, dir, e.userID)
    else Resolved(cache, "unknown_user", [])
  }

  // ---------------------------------------------------------------------
  // The text posted to the incident channel
  // ---------------------------------------------------------------------

  /** The blocks of `entries[i..]`, resolving names as they are needed. */
  function FormatBlocks(cache: map<string, string>, dir: Directory, entries: seq<Entry>, i: nat): (r: Resolved)
    requires i <= |entries|
    ensures Learns(cache, r.cache)
    ensures i == |entries| ==> r == Resolved(cache, "", [])
    decreases |entries| - i
  {
    if i == |entries| then Resolved(cache, "", [])
    else
      var e := entries[i];
      var who := EnsureUsername(cache, dir, e);
      var block := EntryBlock(e.kind, e.timestamp, who.name, e.content, e.metadata, i == |entries| - 1);
      var rest := FormatBlocks(who.cache, dir, entries, i + 1);
      Resolved(rest.cache, block + rest.name, who.calls + rest.calls)
  }

  /** `formatTimelineMessage`. The name slot of the result holds the text. */
  function FormatTimelineMessage(cache: map<string, string>, dir: Directory, entries: seq<Entry>): (r: Resolved)
    ensures Learns(cache, r.cache)
    ensures entries == [] ==> r == Resolved(cache, EmptyTimelineText, [])
    ensures entries == [] <==> r.name == EmptyTimelineText
    ensures entries != [] ==> |TimelineHeader| <= |r.name| && r.name[..|TimelineHeader|] == TimelineHeader
  {
    if entries == [] then Resolved(cache, EmptyTimelineText, [])
    else
      HeaderIsNotEmptyText();
      var blocks := FormatBlocks(cache, dir, entries, 0);
      Resolved(blocks.cache, TimelineHeader + blocks.name, blocks.calls)
  }

  /** Entries that carry their user names need no lookups. */
  lemma {:induction false} NamedEntriesNeedNoLookup(cache: map<string, string>, dir: Directory, entries: seq<Entry>, i: nat)
    requires i <= |entries|
    requires forall k :: i <= k < |entries| ==> entries[k].username != ""
    ensures FormatBlocks(cache, dir, entries, i).cache == cache
    ensures FormatBlocks(cache, dir, entries, i).calls == []
    decreases |entries| - i
  {
    hide EntryBlock;
    if i < |entries| {
      NamedEntriesNeedNoLookup(cache, dir, entries, i + 1);
    }
  }

  // ---------------------------------------------------------------------
  // Registry queries
  // ---------------------------------------------------------------------

  /** Some entry carries this ID. */
  predicate HasID(entries: seq<Entry>, id: string) {
    exists k :: 0 <= k < |entries| && entries[k].id == id
  }

  /** No two entries share an ID. */
  predicate DistinctIDs(entries: seq<Entry>) {
    forall j, k :: 0 <= j < k < |entries| ==> entries[j].id != entries[k].id
  }

  /** The invariant the store keeps: in every timeline, entry IDs are unique. */
  predicate Valid(m: Manager) {
    forall id :: id in m.timelines ==> DistinctIDs(m.timelines[id].entries)
  }

  /** `HasEntry`, as a predicate. */
  predicate Holds(m: Manager, incidentID: string, entryID: string) {
    incidentID in m.timelines && HasID(m.timelines[incidentID].entries, entryID)
  }

  /** `HasEntry`: false for an unknown incident, else a scan of the entries. */
  method HasEntry(m: Manager, incidentID: string, entryID: string) returns (found: bool)
    ensures found <==> incidentID in m.timelines && exists k :: 0 <= k < |m.timelines[incidentID].entries| && m.timelines[incidentID].entries[k].id == entryID
  {
    if incidentID !in m.timelines {
      return false;
    }
    var entries := m.timelines[incidentID].entries;
    var i := 0;
    while i < |entries|
      invariant 0 <= i <= |entries|
      invariant forall k :: 0 <= k < i ==> entries[k].id != entryID
    {
      if entries[i].id == entryID {
        return true;
      }
      i := i + 1;
    }
    return false;
  }

  /** `GetTimeline`. */
  function GetTimeline(m: Manager, incidentID: string): (r: Option<Timeline>)
    ensures r.Some? <==> incidentID in m.timelines
    ensures r.Some? ==> r.value == m.timelines[incidentID]
    ensures Valid(m) && r.Some? ==> DistinctIDs(r.value.entries)
  {
    if incidentID in m.timelines then Some(m.timelines[incidentID]) else None
  }

  // ---------------------------------------------------------------------
  // Creating a timeline
  // ---------------------------------------------------------------------

  /** The single entry a new timeline starts with. */
  function StartEntry(inc: Incident.Incident, username: string): Entry {
    Entry(
      "incident_start_" + inc.id,
      inc.startedAt,
      "incident_start",
      inc.startedBy,
      username,
      StartIcon + " " + inc.severity + " Incident Started",
      [("severity", SeverityValue(inc.severity)), ("title", Text(inc.title)), ("description", Text(inc.description))])
  }

  lemma StartMetadata(inc: Incident.Incident, username: string)
    ensures var md := StartEntry(inc, username).metadata;
            && Lookup(md, "severity") == Some(SeverityValue(inc.severity))
            && Lookup(md, "title") == Some(Text(inc.title))
            && Lookup(md, "description") == Some(Text(inc.description))
  {
    var md := StartEntry(inc, username).metadata;
    assert md[1..] == [("title", Text(inc.title)), ("description", Text(inc.description))];
    assert md[1..][1..] == [("description", Text(inc.description))];
    assert Lookup(md[1..][1..], "description") == Some(Text(inc.description));
    assert Lookup(md[1..], "description") == Some(Text(inc.description));
  }

  datatype Created = Created(manager: Manager, timeline: Timeline, calls: seq<Call>)

  /** `CreateTimeline`: registers a timeline holding only the start entry,
      replacing any timeline already stored under the incident's ID. It
      never fails and posts nothing. */
  function CreateTimeline(m: Manager, inc: Incident.Incident, channelID: string, dir: Directory, now: Clock.DateTime): (r: Created)
    ensures r.manager.timelines.Keys == m.timelines.Keys + {inc.id}
    ensures r.manager.timelines[inc.id] == r.timeline
    ensures forall id :: id in m.timelines && id != inc.id ==> r.manager.timelines[id] == m.timelines[id]
    ensures r.timeline.incidentID == inc.id && r.timeline.channelID == channelID && r.timeline.lastUpdated == now
    ensures |r.timeline.entries| == 1
    ensures Learns(m.userCache, r.manager.userCache)
    ensures forall c :: c in r.calls ==> !Writes(c)
  {
    var who := ResolveUsername(m.userCache, dir, inc.startedBy);
    var t := Timeline(inc.id, channelID, now, [StartEntry(inc, who.name)]);
    Created(Manager(m.timelines[inc.id := t], who.cache), t, who.calls)
  }

  /** The one entry of a new timeline: keyed by the incident, stamped with
      its start time, by its starter, carrying severity, title and
      description. */
  lemma CreatedStartEntry(m: Manager, inc: Incident.Incident, channelID: string, dir: Directory, now: Clock.DateTime)
    ensures var e := CreateTimeline(m, inc, channelID, dir, now).timeline.entries[0];
            && e.id == "incident_start_" + inc.id && e.kind == "incident_start"
            && e.timestamp == inc.startedAt && e.userID == inc.startedBy
            && e.username == ResolveUsername(m.userCache, dir, inc.startedBy).name
            && Lookup(e.metadata, "severity") == Some(SeverityValue(inc.severity))
            && Lookup(e.metadata, "title") == Some(Text(inc.title))
            && Lookup(e.metadata, "description") == Some(Text(inc.description))
  {
    StartMetadata(inc, ResolveUsername(m.userCache, dir, inc.startedBy).name);
  }

  lemma CreateKeepsValid(m: Manager, inc: Incident.Incident, channelID: string, dir: Directory, now: Clock.DateTime)
    requires Valid(m)
    ensures Valid(CreateTimeline(m, inc, channelID, dir, now).manager)
  {
    var r := CreateTimeline(m, inc, channelID, dir, now);
    forall id | id in r.manager.timelines
      ensures DistinctIDs(r.manager.timelines[id].entries)
    {
      if id != inc.id {
        assert r.manager.timelines[id] == m.timelines[id];
      }
    }
  }

  // ---------------------------------------------------------------------
  // Adding an entry
  // ---------------------------------------------------------------------

  /** The check-mark reaction put on the Slack message behind an entry: only
      for messages, images and highlights, and only when the entry records
      the message's ID as a string. */
  function Acknowledge(channelID: string, e: Entry): (r: seq<Call>)
    ensures |r| <= 1
    ensures r != [] <==> e.kind in {"message", "image", "highlighted"} && StringAt(e.metadata, "message_id").Some?
  {
    if e.kind == "message" || e.kind == "image" || e.kind == "highlighted" then
      match StringAt(e.metadata, "message_id")
      case Some(ts) => [AddReaction("white_check_mark", channelID, ts)]
      case None => []
    else []
  }

  /** `AddEntry`. An unknown incident is an error; an entry whose ID is
      already present is skipped without error; otherwise the entry is
      appended, the whole timeline is posted to its channel, and, if the
      post succeeds, the source message is acknowledged. A failed post is
      reported but the entry stays; the reaction's outcome is ignored. */
  function AddEntry(m: Manager, incidentID: string, e: Entry, dir: Directory, now: Clock.DateTime, postOk: bool): (r: Step)
    ensures incidentID !in m.timelines ==> r == Step(m, Some(NotFound(incidentID)), [])
    ensures Holds(m, incidentID, e.id) ==> r == Step(m, None, [])
    ensures r.manager.timelines.Keys == m.timelines.Keys
    ensures forall id :: id in m.timelines && id != incidentID ==> r.manager.timelines[id] == m.timelines[id]
    ensures Learns(m.userCache, r.manager.userCache)
    ensures r.err == Some(PostFailed) <==> incidentID in m.timelines && !Holds(m, incidentID, e.id) && !postOk
    ensures incidentID in m.timelines ==> (r.err == None <==> Holds(m, incidentID, e.id) || postOk)
  {
    if incidentID !in m.timelines then Step(m, Some(NotFound(incidentID)), [])
    else
      var t := m.timelines[incidentID];
      if HasID(t.entries, e.id) then Step(m, None, [])
      else
        var t' := t.(entries := t.entries + [e], lastUpdated := now);
        var text := FormatTimelineMessage(m.userCache, dir, t'.entries);
        var m' := Manager(m.timelines[incidentID := t'], text.cache);
        var posted := text.calls + [PostMessage(t.channelID, text.name)];
        if !postOk then Step(m', Some(PostFailed), posted)
        else Step(m', None, posted + Acknowledge(t.channelID, e))
  }

  /** A fresh entry lands at the end; the earlier entries, the channel and
      the incident ID stay as they were, and the timeline is stamped now. */
  lemma AddEntryAppends(m: Manager, incidentID: string, e: Entry, dir: Directory, now: Clock.DateTime, postOk: bool)
    requires incidentID in m.timelines && !Holds(m, incidentID, e.id)
    ensures var t := m.timelines[incidentID];
            var t' := AddEntry(m, incidentID, e, dir, now, postOk).manager.timelines[incidentID];
            && |t'.entries| == |t.entries| + 1
            && t'.entries[..|t.entries|] == t.entries
            && t'.entries[|t.entries|] == e
            && t'.channelID == t.channelID && t'.incidentID == t.incidentID
            && t'.lastUpdated == now
  {
    var t := m.timelines[incidentID];
    assert (t.entries + [e])[..|t.entries|] == t.entries;
  }

  /** After `AddEntry` on a known incident, `HasEntry` holds for the entry's
      ID whether it was appended or already there. */
  lemma AddEntryThenHas(m: Manager, incidentID: string, e: Entry, dir: Directory, now: Clock.DateTime, postOk: bool)
    requires incidentID in m.timelines
    ensures Holds(AddEntry(m, incidentID, e, dir, now, postOk).manager, incidentID, e.id)
  {
    if !Holds(m, incidentID, e.id) {
      AddEntryAppends(m, incidentID, e, dir, now, postOk);
      var es := AddEntry(m, incidentID, e, dir, now, postOk).manager.timelines[incidentID].entries;
      assert es[|es| - 1].id == e.id;
    }
  }

  /** Adding an entry twice is the same as adding it once: the second call
      is a silent no-op that makes no call. */
  lemma AddEntryTwice(m: Manager, incidentID: string, e: Entry, e2: Entry, dir: Directory, now: Clock.DateTime, now2: Clock.DateTime, postOk: bool, postOk2: bool)
    requires incidentID in m.timelines && e2.id == e.id
    ensures var s := AddEntry(m, incidentID, e, dir, now, postOk);
            AddEntry(s.manager, incidentID, e2, dir, now2, postOk2) == Step(s.manager, None, [])
  {
    AddEntryThenHas(m, incidentID, e, dir, now, postOk);
  }

  /** Entry IDs stay unique in every timeline. */
  lemma AddEntryKeepsValid(m: Manager, incidentID: string, e: Entry, dir: Directory, now: Clock.DateTime, postOk: bool)
    requires Valid(m)
    ensures Valid(AddEntry(m, incidentID, e, dir, now, postOk).manager)
  {
    hide FormatTimelineMessage, FormatBlocks, EntryBlock;
    var r := AddEntry(m, incidentID, e, dir, now, postOk);
    if incidentID in m.timelines && !Holds(m, incidentID, e.id) {
      AddEntryAppends(m, incidentID, e, dir, now, postOk);
      var old_ := m.timelines[incidentID].entries;
      var new_ := r.manager.timelines[incidentID].entries;
      forall j, k | 0 <= j < k < |new_| ensures new_[j].id != new_[k].id {
        if k < |old_| {
          assert new_[j] == old_[j] && new_[k] == old_[k];
        } else {
          assert new_[j] == old_[j];
          assert !(exists i :: 0 <= i < |old_| && old_[i].id == e.id);
        }
      }
      forall id | id in r.manager.timelines ensures DistinctIDs(r.manager.timelines[id].entries) {
        if id != incidentID {
          assert r.manager.timelines[id] == m.timelines[id];
        }
      }
    }
  }

  /** The calls `AddEntry` makes on a fresh entry: the lookups the text
      needed, then the post, then (only after a successful post) at most the
      one acknowledgement. */
  lemma AddEntryCalls(m: Manager, incidentID: string, e: Entry, dir: Directory, now: Clock.DateTime, postOk: bool)
    requires incidentID in m.timelines && !Holds(m, incidentID, e.id)
    ensures var r := AddEntry(m, incidentID, e, dir, now, postOk);
            var t := m.timelines[incidentID];
            exists lookups: seq<Call>, text: string ::
              && (forall c :: c in lookups ==> c.GetUserInfo?)
              && r.calls == lookups + [PostMessage(t.channelID, text)] + (if postOk then Acknowledge(t.channelID, e) else [])
  {
    hide FormatBlocks, EntryBlock;
    var r := AddEntry(m, incidentID, e, dir, now, postOk);
    var t := m.timelines[incidentID];
    var t' := t.(entries := t.entries + [e], lastUpdated := now);
    var text := FormatTimelineMessage(m.userCache, dir, t'.entries);
    BlocksOnlyLookUp(m.userCache, dir, t'.entries, 0);
    var ack := if postOk then Acknowledge(t.channelID, e) else [];
    if postOk {
      assert r.calls == text.calls + [PostMessage(t.channelID, text.name)] + ack;
    } else {
      assert r.calls == text.calls + [PostMessage(t.channelID, text.name)] + ack;
    }
    assert forall c :: c in text.calls ==> c.GetUserInfo?;
    assert (forall c :: c in text.calls ==> c.GetUserInfo?)
        && r.calls == text.calls + [PostMessage(t.channelID, text.name)] + ack;
  }

  /** Formatting only ever looks users up. */
  lemma {:induction false} BlocksOnlyLookUp(cache: map<string, string>, dir: Directory, entries: seq<Entry>, i: nat)
    requires i <= |entries|
    ensures forall c :: c in FormatBlocks(cache, dir, entries, i).calls ==> c.GetUserInfo?
    decreases |entries| - i
  {
    hide EntryBlock;
    if i < |entries| {
      var who := EnsureUsername(cache, dir, entries[i]);
      BlocksOnlyLookUp(who.cache, dir, entries, i + 1);
    }
  }

  // ---------------------------------------------------------------------
  // The entry constructors
  // ---------------------------------------------------------------------

  /** Resolves the user first (so the cache can change even when the
      incident is unknown), then adds the entry built for that name. */
  function AddResolved(m: Manager, incidentID: string, userID: string, dir: Directory, now: Clock.DateTime, postOk: bool, make: string -> Entry): (r: Step)
    ensures Learns(m.userCache, r.manager.userCache)
    ensures r.manager.timelines.Keys == m.timelines.Keys
    ensures incidentID !in m.timelines ==> r.manager.timelines == m.timelines && r.err == Some(NotFound(incidentID))
  {
    var who := ResolveUsername(m.userCache, dir, userID);
    var s := AddEntry(m.(userCache := who.cache), incidentID, make(who.name), dir, now, postOk);
    Step(s.manager, s.err, who.calls + s.calls)
  }

  function MessageEntry(userID: string, username: string, message: string, messageID: string, now: Clock.DateTime): Entry {
    Entry("message_" + messageID, now, "message", userID, username, message, [("message_id", Text(messageID))])
  }

  function ImageEntry(userID: string, username: string, imageURL: string, caption: string, messageID: string, now: Clock.DateTime): Entry {
    Entry("image_" + messageID, now, "image", userID, username, caption,
      [("image_url", Text(imageURL)), ("message_id", Text(messageID))])
  }

  function ReactionEntry(userID: string, username: string, message: string, reaction: string, messageID: string, now: Clock.DateTime): Entry {
    Entry("reaction_" + messageID + "_" + reaction, now, "reaction", userID, username, message,
      [("reaction", Text(reaction)), ("message_id", Text(messageID))])
  }

  /** The ID ends in the clock's nanoseconds, read separately from `now`. */
  function BotInteractionEntry(userID: string, username: string, interaction: string, unixNanos: int, now: Clock.DateTime): Entry {
    Entry("bot_interaction_" + userID + "_" + IntToString(unixNanos), now, "bot_interaction", userID, username, interaction, [])
  }

  function HighlightedEntry(userID: string, username: string, message: string, messageID: string, originalTimestamp: Clock.DateTime): Entry {
    Entry("highlighted_" + messageID, originalTimestamp, "highlighted", userID, username, message, [("message_id", Text(messageID))])
  }

  /** `AddMessageEntry`. */
  function AddMessageEntry(m: Manager, incidentID: string, userID: string, message: string, messageID: string, dir: Directory, now: Clock.DateTime, postOk: bool): (r: Step)
    ensures incidentID !in m.timelines ==> r.manager.timelines == m.timelines && r.err == Some(NotFound(incidentID))
  {
    AddResolved(m, incidentID, userID, dir, now, postOk, (name: string) => MessageEntry(userID, name, message, messageID, now))
  }

  /** `AddImageEntry`. */
  function AddImageEntry(m: Manager, incidentID: string, userID: string, imageURL: string, caption: string, messageID: string, dir: Directory, now: Clock.DateTime, postOk: bool): (r: Step)
    ensures incidentID !in m.timelines ==> r.manager.timelines == m.timelines && r.err == Some(NotFound(incidentID))
  {
    AddResolved(m, incidentID, userID, dir, now, postOk, (name: string) => ImageEntry(userID, name, imageURL, caption, messageID, now))
  }

  /** `AddReactionEntry`. */
  function AddReactionEntry(m: Manager, incidentID: string, userID: string, message: string, reaction: string, messageID: string, dir: Directory, now: Clock.DateTime, postOk: bool): (r: Step)
    ensures incidentID !in m.timelines ==> r.manager.timelines == m.timelines && r.err == Some(NotFound(incidentID))
  {
    AddResolved(m, incidentID, userID, dir, now, postOk, (name: string) => ReactionEntry(userID, name, message, reaction, messageID, now))
  }

  /** `AddBotInteractionEntry`. */
  function AddBotInteractionEntry(m: Manager, incidentID: string, userID: string, interaction: string, unixNanos: int, dir: Directory, now: Clock.DateTime, postOk: bool): (r: Step)
    ensures incidentID !in m.timelines ==> r.manager.timelines == m.timelines && r.err == Some(NotFound(incidentID))
  {
    AddResolved(m, incidentID, userID, dir, now, postOk, (name: string) => BotInteractionEntry(userID, name, interaction, unixNanos, now))
  }

  /** `AddHighlightedEntry`. */
  function AddHighlightedEntry(m: Manager, incidentID: string, userID: string, message: string, messageID: string, originalTimestamp: Clock.DateTime, dir: Directory, now: Clock.DateTime, postOk: bool): (r: Step)
    ensures incidentID !in m.timelines ==> r.manager.timelines == m.timelines && r.err == Some(NotFound(incidentID))
  {
    AddResolved(m, incidentID, userID, dir, now, postOk, (name: string) => HighlightedEntry(userID, name, message, messageID, originalTimestamp))
  }

  /** After a constructor has recorded an entry under some ID, a later
      constructor call producing the same ID leaves every timeline as it is. */
  lemma AddResolvedTwice(m: Manager, incidentID: string, id: string, u1: string, u2: string, dir: Directory, now1: Clock.DateTime, now2: Clock.DateTime, ok1: bool, ok2: bool, make1: string -> Entry, make2: string -> Entry)
    requires incidentID in m.timelines
    requires forall n :: make1(n).id == id
    requires forall n :: make2(n).id == id
    ensures var s := AddResolved(m, incidentID, u1, dir, now1, ok1, make1);
            var s2 := AddResolved(s.manager, incidentID, u2, dir, now2, ok2, make2);
            s2.manager.timelines == s.manager.timelines && s2.err == None
  {
    var who := ResolveUsername(m.userCache, dir, u1);
    var m1 := m.(userCache := who.cache);
    AddEntryThenHas(m1, incidentID, make1(who.name), dir, now1, ok1);
    var s := AddResolved(m, incidentID, u1, dir, now1, ok1, make1);
    var who2 := ResolveUsername(s.manager.userCache, dir, u2);
    assert Holds(s.manager.(userCache := who2.cache), incidentID, make2(who2.name).id);
  }

  /** The same Slack message recorded twice as a message gives one entry. */
  lemma MessageRecordedOnce(m: Manager, incidentID: string, u1: string, u2: string, text1: string, text2: string, messageID: string, dir: Directory, now1: Clock.DateTime, now2: Clock.DateTime, ok1: bool, ok2: bool)
    requires incidentID in m.timelines
    ensures var s := AddMessageEntry(m, incidentID, u1, text1, messageID, dir, now1, ok1);
            var s2 := AddMessageEntry(s.manager, incidentID, u2, text2, messageID, dir, now2, ok2);
            s2.manager.timelines == s.manager.timelines && s2.err == None
  {
    AddResolvedTwice(m, incidentID, "message_" + messageID, u1, u2, dir, now1, now2, ok1, ok2,
      (name: string) => MessageEntry(u1, name, text1, messageID, now1),
      (name: string) => MessageEntry(u2, name, text2, messageID, now2));
  }

  /** The same file shared twice gives one image entry. */
  lemma ImageRecordedOnce(m: Manager, incidentID: string, u1: string, u2: string, url1: string, url2: string, c1: string, c2: string, fileID: string, dir: Directory, now1: Clock.DateTime, now2: Clock.DateTime, ok1: bool, ok2: bool)
    requires incidentID in m.timelines
    ensures var s := AddImageEntry(m, incidentID, u1, url1, c1, fileID, dir, now1, ok1);
            var s2 := AddImageEntry(s.manager, incidentID, u2, url2, c2, fileID, dir, now2, ok2);
            s2.manager.timelines == s.manager.timelines && s2.err == None
  {
    AddResolvedTwice(m, incidentID, "image_" + fileID, u1, u2, dir, now1, now2, ok1, ok2,
      (name: string) => ImageEntry(u1, name, url1, c1, fileID, now1),
      (name: string) => ImageEntry(u2, name, url2, c2, fileID, now2));
  }

  /** The same message highlighted twice gives one highlighted entry. */
  lemma HighlightRecordedOnce(m: Manager, incidentID: string, u1: string, u2: string, text1: string, text2: string, messageID: string, t1: Clock.DateTime, t2: Clock.DateTime, dir: Directory, now1: Clock.DateTime, now2: Clock.DateTime, ok1: bool, ok2: bool)
    requires incidentID in m.timelines
    ensures var s := AddHighlightedEntry(m, incidentID, u1, text1, messageID, t1, dir, now1, ok1);
            var s2 := AddHighlightedEntry(s.manager, incidentID, u2, text2, messageID, t2, dir, now2, ok2);
            s2.manager.timelines == s.manager.timelines && s2.err == None
  {
    AddResolvedTwice(m, incidentID, "highlighted_" + messageID, u1, u2, dir, now1, now2, ok1, ok2,
      (name: string) => HighlightedEntry(u1, name, text1, messageID, t1),
      (name: string) => HighlightedEntry(u2, name, text2, messageID, t2));
  }

  /** The same reaction on the same message recorded twice gives one entry. */
  lemma ReactionRecordedOnce(m: Manager, incidentID: string, u1: string, u2: string, text1: string, text2: string, reaction: string, messageID: string, dir: Directory, now1: Clock.DateTime, now2: Clock.DateTime, ok1: bool, ok2: bool)
    requires incidentID in m.timelines
    ensures var s := AddReactionEntry(m, incidentID, u1, text1, reaction, messageID, dir, now1, ok1);
            var s2 := AddReactionEntry(s.manager, incidentID, u2, text2, reaction, messageID, dir, now2, ok2);
            s2.manager.timelines == s.manager.timelines && s2.err == None
  {
    AddResolvedTwice(m, incidentID, "reaction_" + messageID + "_" + reaction, u1, u2, dir, now1, now2, ok1, ok2,
      (name: string) => ReactionEntry(u1, name, text1, reaction, messageID, now1),
      (name: string) => ReactionEntry(u2, name, text2, reaction, messageID, now2));
  }

  /** A constructor call whose entry ID is new to the incident appends the
      entry built from the resolved user name at the end, keeps the earlier
      entries, and fails only when the post fails. */
  lemma AddResolvedAppends(m: Manager, incidentID: string, userID: string, dir: Directory, now: Clock.DateTime, ok: bool, make: string -> Entry, id: string)
    requires incidentID in m.timelines
    requires forall n :: make(n).id == id
    requires !Holds(m, incidentID, id)
    ensures var s := AddResolved(m, incidentID, userID, dir, now, ok, make);
            var before := m.timelines[incidentID].entries;
            var es := s.manager.timelines[incidentID].entries;
            && |es| == |before| + 1 && es[..|before|] == before
            && es[|before|] == make(ResolveUsername(m.userCache, dir, userID).name)
            && s.manager.timelines[incidentID].lastUpdated == now
            && (s.err == None <==> ok)
  {
    hide FormatTimelineMessage, FormatBlocks, EntryBlock;
    var who := ResolveUsername(m.userCache, dir, userID);
    var e := make(who.name);
    var m1 := m.(userCache := who.cache);
    assert !Holds(m1, incidentID, e.id);
    AddEntryAppends(m1, incidentID, e, dir, now, ok);
  }

  /** A new message is appended as a "message" entry carrying the text, the
      resolved user name, the current time and the Slack timestamp. */
  lemma MessageAppended(m: Manager, incidentID: string, userID: string, text: string, messageID: string, dir: Directory, now: Clock.DateTime, ok: bool)
    requires incidentID in m.timelines && !Holds(m, incidentID, "message_" + messageID)
    ensures var s := AddMessageEntry(m, incidentID, userID, text, messageID, dir, now, ok);
            var before := m.timelines[incidentID].entries;
            var es := s.manager.timelines[incidentID].entries;
            && |es| == |before| + 1 && es[..|before|] == before
            && es[|before|].id == "message_" + messageID
            && es[|before|].kind == "message" && es[|before|].content == text
            && es[|before|].userID == userID && es[|before|].username == ResolveUsername(m.userCache, dir, userID).name
            && es[|before|].timestamp == now
            && es[|before|].metadata == [("message_id", Text(messageID))]
            && (s.err == None <==> ok)
  {
    AddResolvedAppends(m, incidentID, userID, dir, now, ok,
      (name: string) => MessageEntry(userID, name, text, messageID, now), "message_" + messageID);
  }

  /** A new file is appended as an "image" entry whose content is the caption
      and whose metadata holds the file's URL and ID. */
  lemma ImageAppended(m: Manager, incidentID: string, userID: string, url: string, caption: string, fileID: string, dir: Directory, now: Clock.DateTime, ok: bool)
    requires incidentID in m.timelines && !Holds(m, incidentID, "image_" + fileID)
    ensures var s := AddImageEntry(m, incidentID, userID, url, caption, fileID, dir, now, ok);
            var before := m.timelines[incidentID].entries;
            var es := s.manager.timelines[incidentID].entries;
            && |es| == |before| + 1 && es[..|before|] == before
            && es[|before|].id == "image_" + fileID
            && es[|before|].kind == "image" && es[|before|].content == caption
            && es[|before|].userID == userID && es[|before|].username == ResolveUsername(m.userCache, dir, userID).name
            && es[|before|].timestamp == now
            && es[|before|].metadata == [("image_url", Text(url)), ("message_id", Text(fileID))]
            && (s.err == None <==> ok)
  {
    AddResolvedAppends(m, incidentID, userID, dir, now, ok,
      (name: string) => ImageEntry(userID, name, url, caption, fileID, now), "image_" + fileID);
  }

  /** A new reaction is appended as a "reaction" entry whose metadata names
      the reaction and the message it was added to. */
  lemma ReactionAppended(m: Manager, incidentID: string, userID: string, text: string, reaction: string, messageID: string, dir: Directory, now: Clock.DateTime, ok: bool)
    requires incidentID in m.timelines && !Holds(m, incidentID, "reaction_" + messageID + "_" + reaction)
    ensures var s := AddReactionEntry(m, incidentID, userID, text, reaction, messageID, dir, now, ok);
            var before := m.timelines[incidentID].entries;
            var es := s.manager.timelines[incidentID].entries;
            && |es| == |before| + 1 && es[..|before|] == before
            && es[|before|].id == "reaction_" + messageID + "_" + reaction
            && es[|before|].kind == "reaction" && es[|before|].content == text
            && es[|before|].userID == userID && es[|before|].username == ResolveUsername(m.userCache, dir, userID).name
            && es[|before|].timestamp == now
            && es[|before|].metadata == [("reaction", Text(reaction)), ("message_id", Text(messageID))]
            && (s.err == None <==> ok)
  {
    AddResolvedAppends(m, incidentID, userID, dir, now, ok,
      (name: string) => ReactionEntry(userID, name, text, reaction, messageID, now), "reaction_" + messageID + "_" + reaction);
  }

  /** A new bot interaction is appended as a "bot_interaction" entry with no
      metadata, identified by the user and the clock's nanoseconds. */
  lemma BotInteractionAppended(m: Manager, incidentID: string, userID: string, interaction: string, unixNanos: int, dir: Directory, now: Clock.DateTime, ok: bool)
    requires incidentID in m.timelines && !Holds(m, incidentID, "bot_interaction_" + userID + "_" + IntToString(unixNanos))
    ensures var s := AddBotInteractionEntry(m, incidentID, userID, interaction, unixNanos, dir, now, ok);
            var before := m.timelines[incidentID].entries;
            var es := s.manager.timelines[incidentID].entries;
            && |es| == |before| + 1 && es[..|before|] == before
            && es[|before|].id == "bot_interaction_" + userID + "_" + IntToString(unixNanos)
            && es[|before|].kind == "bot_interaction" && es[|before|].content == interaction
            && es[|before|].userID == userID && es[|before|].username == ResolveUsername(m.userCache, dir, userID).name
            && es[|before|].timestamp == now
            && es[|before|].metadata == []
            && (s.err == None <==> ok)
  {
    AddResolvedAppends(m, incidentID, userID, dir, now, ok,
      (name: string) => BotInteractionEntry(userID, name, interaction, unixNanos, now), "bot_interaction_" + userID + "_" + IntToString(unixNanos));
  }

  /** A new highlight is appended as a "highlighted" entry that keeps the
      original message's time rather than now. */
  lemma HighlightRecorded(m: Manager, incidentID: string, userID: string, text: string, messageID: string, original: Clock.DateTime, dir: Directory, now: Clock.DateTime, ok: bool)
    requires incidentID in m.timelines && !Holds(m, incidentID, "highlighted_" + messageID)
    ensures var s := AddHighlightedEntry(m, incidentID, userID, text, messageID, original, dir, now, ok);
            var before := m.timelines[incidentID].entries;
            var es := s.manager.timelines[incidentID].entries;
            && |es| == |before| + 1 && es[..|before|] == before
            && es[|before|].id == "highlighted_" + messageID
            && es[|before|].kind == "highlighted" && es[|before|].content == text
            && es[|before|].userID == userID && es[|before|].username == ResolveUsername(m.userCache, dir, userID).name
            && es[|before|].timestamp == original
            && es[|before|].metadata == [("message_id", Text(messageID))]
            && s.manager.timelines[incidentID].lastUpdated == now
            && Holds(s.manager, incidentID, "highlighted_" + messageID)
            && (s.err == None <==> ok)
  {
    AddResolvedAppends(m, incidentID, userID, dir, now, ok,
      (name: string) => HighlightedEntry(userID, name, text, messageID, original), "highlighted_" + messageID);
    AddResolvedThenHas(m, incidentID, userID, dir, now, ok,
      (name: string) => HighlightedEntry(userID, name, text, messageID, original), "highlighted_" + messageID);
  }

  /** After a constructor call on a known incident, its entry's ID is held,
      whether it was appended or already there. */
  lemma AddResolvedThenHas(m: Manager, incidentID: string, userID: string, dir: Directory, now: Clock.DateTime, ok: bool, make: string -> Entry, id: string)
    requires incidentID in m.timelines
    requires forall n :: make(n).id == id
    ensures Holds(AddResolved(m, incidentID, userID, dir, now, ok, make).manager, incidentID, id)
  {
    var who := ResolveUsername(m.userCache, dir, userID);
    AddEntryThenHas(m.(userCache := who.cache), incidentID, make(who.name), dir, now, ok);
  }

  /** Constructor calls keep entry IDs unique. */
  lemma AddResolvedKeepsValid(m: Manager, incidentID: string, userID: string, dir: Directory, now: Clock.DateTime, ok: bool, make: string -> Entry)
    requires Valid(m)
    ensures Valid(AddResolved(m, incidentID, userID, dir, now, ok, make).manager)
  {
    var who := ResolveUsername(m.userCache, dir, userID);
    AddEntryKeepsValid(m.(userCache := who.cache), incidentID, make(who.name), dir, now, ok);
  }

  /** A recorded message is held under "message_" and its Slack timestamp. */
  lemma MessageThenHas(m: Manager, incidentID: string, userID: string, text: string, messageID: string, dir: Directory, now: Clock.DateTime, ok: bool)
    requires incidentID in m.timelines
    ensures Holds(AddMessageEntry(m, incidentID, userID, text, messageID, dir, now, ok).manager, incidentID, "message_" + messageID)
  {
    AddResolvedThenHas(m, incidentID, userID, dir, now, ok,
      (name: string) => MessageEntry(userID, name, text, messageID, now), "message_" + messageID);
  }

  /** A recorded image is held under "image_" and its file ID. */
  lemma ImageThenHas(m: Manager, incidentID: string, userID: string, url: string, caption: string, fileID: string, dir: Directory, now: Clock.DateTime, ok: bool)
    requires incidentID in m.timelines
    ensures Holds(AddImageEntry(m, incidentID, userID, url, caption, fileID, dir, now, ok).manager, incidentID, "image_" + fileID)
  {
    AddResolvedThenHas(m, incidentID, userID, dir, now, ok,
      (name: string) => ImageEntry(userID, name, url, caption, fileID, now), "image_" + fileID);
  }

  /** A highlight is held under "highlighted_" and the message's timestamp. */
  lemma HighlightThenHas(m: Manager, incidentID: string, userID: string, text: string, messageID: string, original: Clock.DateTime, dir: Directory, now: Clock.DateTime, ok: bool)
    requires incidentID in m.timelines
    ensures Holds(AddHighlightedEntry(m, incidentID, userID, text, messageID, original, dir, now, ok).manager, incidentID, "highlighted_" + messageID)
  {
    AddResolvedThenHas(m, incidentID, userID, dir, now, ok,
      (name: string) => HighlightedEntry(userID, name, text, messageID, original), "highlighted_" + messageID);
  }

  /** Each constructor's ID is determined by the Slack message it records,
      so recording the same message twice adds one entry. */
  lemma ConstructorIDs(u1: string, n1: string, u2: string, n2: string, c1: string, c2: string, x1: string, x2: string, id: string, t1: Clock.DateTime, t2: Clock.DateTime)
    ensures MessageEntry(u1, n1, c1, id, t1).id == MessageEntry(u2, n2, c2, id, t2).id
    ensures ImageEntry(u1, n1, x1, c1, id, t1).id == ImageEntry(u2, n2, x2, c2, id, t2).id
    ensures ReactionEntry(u1, n1, c1, x1, id, t1).id == ReactionEntry(u2, n2, c2, x1, id, t2).id
    ensures HighlightedEntry(u1, n1, c1, id, t1).id == HighlightedEntry(u2, n2, c2, id, t2).id
    ensures HighlightedEntry(u1, n1, c1, id, t1).timestamp == t1
  {
  }

  /** Different messages give different IDs. */
  lemma MessageIDsDiffer(a: string, b: string)
    requires a != b
    ensures "message_" + a != "message_" + b
    ensures "image_" + a != "image_" + b
    ensures "highlighted_" + a != "highlighted_" + b
  {
    assert ("message_" + a)[8..] == a && ("message_" + b)[8..] == b;
    assert ("image_" + a)[6..] == a && ("image_" + b)[6..] == b;
    assert ("highlighted_" + a)[12..] == a && ("highlighted_" + b)[12..] == b;
  }

  /** `Timeline.GetEntries`: a copy, which here is the sequence itself. */
  function GetEntries(t: Timeline): seq<Entry> {
    t.entries
  }

  /** `Timeline.GetLastUpdated`. */
  function GetLastUpdated(t: Timeline): Clock.DateTime {
    t.lastUpdated
  }
}
