/**
 * The text the `/shift timeline` command shows: a header with the incident's
 * details taken from the start entry, one block per later entry, and a
 * footer with the time of the last update.
 *
 * The start entry stores its severity with the type `incident.Severity`, so
 * the header's `.(string)` assertion on it never succeeds and the header
 * shows an empty severity. `FormatTimelineForDisplayAsWritten` keeps that
 * reading; `FormatTimelineForDisplay` reads the severity whatever its type,
 * as the header evidently means to.
 */
module Display {
  import opened Wrappers
  import Clock
  import Incident
  import opened Entries
  import Timeline

  const CameraIcon := "\U{1F4F7}"

  /** The text of a timeline without entries. */
  const NoEntriesText := TimelineHeader + "No entries yet."

  /** The incident details of the header. */
  datatype Header = Header(title: string, severity: string, description: string, startedBy: string, time: Clock.DateTime)

  /** The header of a timeline that does not begin with its start entry:
      empty fields and Go's zero time. */
  const BlankHeader := Header("", "", "", "", Clock.Zero)

  /** `md[key].(string)`, or "" when that fails. */
  function StringOr(md: Metadata, key: string): (r: string)
    ensures r != "" ==> Lookup(md, key) == Some(Text(r))
    ensures (exists s :: Lookup(md, key) == Some(Text(s))) ==> Lookup(md, key) == Some(Text(r))
  {
    match StringAt(md, key)
    case Some(s) => s
    case None => ""
  }

  /** The value under `key` as `%v` prints it, whatever its type: it agrees
      with `StringOr` except on a severity value, which prints as its name. */
  function RenderedOr(md: Metadata, key: string): (r: string)
    ensures StringOr(md, key) != "" ==> r == StringOr(md, key)
    ensures r != StringOr(md, key) ==> Lookup(md, key).Some? && Lookup(md, key).value.SeverityValue?
    ensures forall s :: Lookup(md, key) == Some(SeverityValue(s)) ==> r == s
    ensures Lookup(md, key).None? ==> r == ""
  {
    match Lookup(md, key)
    case Some(v) => Render(v)
    case None => ""
  }

  /** The header fields, from the first entry only when it is the start
      entry. With `stringOnly` the severity is read by the `.(string)`
      assertion, as the code does; without it, whatever its type. */
  function ReadHeader(entries: seq<Timeline.Entry>, stringOnly: bool): (r: Header)
    ensures entries == [] || entries[0].kind != "incident_start" ==> r == BlankHeader
    ensures entries != [] && entries[0].kind == "incident_start" ==>
              var md := entries[0].metadata;
              && r.title == StringOr(md, "title") && r.description == StringOr(md, "description")
              && r.severity == (if stringOnly then StringOr(md, "severity") else RenderedOr(md, "severity"))
              && r.startedBy == entries[0].username && r.time == entries[0].timestamp
  {
    if entries != [] && entries[0].kind == "incident_start" then
      var e := entries[0];
      Header(
        StringOr(e.metadata, "title"),
        if stringOnly then StringOr(e.metadata, "severity") else RenderedOr(e.metadata, "severity"),
        StringOr(e.metadata, "description"),
        e.username,
        e.timestamp)
    else BlankHeader
  }

  /** The title line, the creation block and the blank line after it. */
  function HeaderText(h: Header): string {
    TimelineHeader
      + ":new: *Incident Created*\n"
      + "*Date/Time:* " + Clock.DateAndTime(h.time) + "\n"
      + "*Severity:* " + h.severity + "\n"
      + "*Created by:* @" + h.startedBy + "\n"
      + "*Title:* " + h.title + "\n"
      + "*Description:* " + h.description + "\n"
      + "\n"
  }

  /** The lines under an entry's heading, by entry type. An image without a
      string `image_url`, and a reaction without a string `reaction`, show
      nothing. */
  function Content(e: Timeline.Entry): (r: string)
    ensures r == "" <==>
              || (e.kind == "image" && StringAt(e.metadata, "image_url").None?)
              || (e.kind == "reaction" && StringAt(e.metadata, "reaction").None?)
  {
    match e.kind
    case "message" => "   " + e.content + "\n"
    case "image" =>
      (match StringAt(e.metadata, "image_url")
       case Some(url) => "   " + CameraIcon + " " + e.content + "\n" + "   <" + url + "|View Image>\n"
       case None => "")
    case "reaction" =>
      (match StringAt(e.metadata, "reaction")
       case Some(name) => "   Reacted with :" + name + ": to:\n" + "   > " + e.content + "\n"
       case None => "")
    case "bot_interaction" => "   " + BotIcon + " " + e.content + "\n"
    case _ => "   " + e.content + "\n"
  }

  /** The block of one entry: nothing for a start entry, which the header
      already shows; otherwise the entry's icon, time and author, its
      content, and a blank line unless it is the last entry of the list. */
  function Block(e: Timeline.Entry, notLast: bool): (r: string)
    ensures r == "" <==> e.kind == "incident_start"
    ensures r != "" ==> |Icon(e.kind)| < |r| && r[..|Icon(e.kind)|] == Icon(e.kind)
  {
    if e.kind == "incident_start" then ""
    else
      var r := Icon(e.kind) + " *" + Clock.TimeOfDay(e.timestamp) + "* - @" + e.username + "\n"
        + Content(e) + (if notLast then "\n" else "");
      assert r[..|Icon(e.kind)|] == Icon(e.kind);
      r
  }

  /** The blocks of `entries[i..]`. */
  function Body(entries: seq<Timeline.Entry>, i: nat): string
    requires i <= |entries|
    decreases |entries| - i
  {
    if i == |entries| then ""
    else Block(entries[i], i < |entries| - 1) + Body(entries, i + 1)
  }

  /** The body is empty exactly when every entry from `i` on is a start
      entry. */
  lemma {:induction false} BodyEmptyIff(entries: seq<Timeline.Entry>, i: nat)
    requires i <= |entries|
    ensures Body(entries, i) == "" <==> forall k :: i <= k < |entries| ==> entries[k].kind == "incident_start"
    decreases |entries| - i
  {
    if i < |entries| {
      BodyEmptyIff(entries, i + 1);
    }
  }

  function Footer(lastUpdated: Clock.DateTime): string {
    "\n---\n*Timeline last updated: " + Clock.DateAndTime(lastUpdated) + "*"
  }

  function FormatWith(t: Timeline.Timeline, stringOnly: bool): string
  {
    if t.entries == [] then NoEntriesText
    else HeaderText(ReadHeader(t.entries, stringOnly)) + Body(t.entries, 0) + Footer(t.lastUpdated)
  }

  /** A header is longer than the text of an empty timeline. */
  lemma HeaderIsNotNoEntries(h: Header, rest: string)
    ensures HeaderText(h) + rest != NoEntriesText
  {
    assert |HeaderText(h)| > |NoEntriesText|;
  }

  /** The text of a timeline: the empty-timeline text exactly when there is
      no entry, and otherwise the header, then the body and the footer. */
  lemma {:induction false} FormatShape(t: Timeline.Timeline, stringOnly: bool)
    ensures t.entries == [] <==> FormatWith(t, stringOnly) == NoEntriesText
    ensures t.entries != [] ==>
              var r := FormatWith(t, stringOnly);
              var h := HeaderText(ReadHeader(t.entries, stringOnly));
              |h| <= |r| && r[..|h|] == h && r[|h|..] == Body(t.entries, 0) + Footer(t.lastUpdated)
  {
    hide HeaderText, Body, Footer, ReadHeader;
    if t.entries != [] {
      var h := HeaderText(ReadHeader(t.entries, stringOnly));
      var rest := Body(t.entries, 0) + Footer(t.lastUpdated);
      HeaderIsNotNoEntries(ReadHeader(t.entries, stringOnly), rest);
      var r := FormatWith(t, stringOnly);
      assert r == h + rest;
      assert r[..|h|] == h;
      assert r[|h|..] == rest;
    }
  }

  /** Every header opens with the clipboard icon. */
  lemma HeaderTextOpens(h: Header)
    ensures HeaderText(h) != [] && HeaderText(h)[0] == '\U{1F4CB}'
  {
  }

  lemma NoEntriesOpens()
    ensures NoEntriesText != [] && NoEntriesText[0] == '\U{1F4CB}'
  {
  }

  /** Every display text opens with the clipboard icon. */
  lemma DisplayOpens(t: Timeline.Timeline, stringOnly: bool)
    ensures FormatWith(t, stringOnly) != [] && FormatWith(t, stringOnly)[0] == '\U{1F4CB}'
  {
    hide *;
    FormatShape(t, stringOnly);
    if t.entries != [] {
      var h := HeaderText(ReadHeader(t.entries, stringOnly));
      HeaderTextOpens(ReadHeader(t.entries, stringOnly));
      assert FormatWith(t, stringOnly)[0] == FormatWith(t, stringOnly)[..|h|][0];
    } else {
      NoEntriesOpens();
    }
  }

  /** `formatTimelineForDisplay`, with the severity read whatever its type. */
  function FormatTimelineForDisplay(t: Timeline.Timeline): (r: string)
    ensures t.entries == [] <==> r == NoEntriesText
    ensures r == FormatWith(t, false)
  {
    hide HeaderText, Body, Footer, ReadHeader, FormatWith;
    FormatShape(t, false);
    FormatWith(t, false)
  }

  /** `formatTimelineForDisplay` as written: the severity is read by the
      `.(string)` assertion. */
  function FormatTimelineForDisplayAsWritten(t: Timeline.Timeline): (r: string)
    ensures t.entries == [] <==> r == NoEntriesText
    ensures r == FormatWith(t, true)
  {
    hide HeaderText, Body, Footer, ReadHeader, FormatWith;
    FormatShape(t, true);
    FormatWith(t, true)
  }

  /** The two readings differ only in the severity they show. */
  lemma ReadingsDifferInSeverityOnly(entries: seq<Timeline.Entry>)
    ensures ReadHeader(entries, true) == ReadHeader(entries, false).(severity := ReadHeader(entries, true).severity)
  {
  }

  /** As written, a freshly created timeline shows an empty severity,
      whatever the incident's severity is. */
  lemma AsWrittenHidesSeverity(m: Timeline.Manager, inc: Incident.Incident, channelID: string, dir: Timeline.Directory, now: Clock.DateTime)
    ensures var t := Timeline.CreateTimeline(m, inc, channelID, dir, now).timeline;
            ReadHeader(t.entries, true).severity == ""
  {
    Timeline.CreatedStartEntry(m, inc, channelID, dir, now);
    hide Timeline.CreateTimeline, Timeline.ResolveUsername, StringOr, RenderedOr, ReadHeader;
  }

  /** Read whatever its type, the header of a freshly created timeline shows
      the incident's title, severity, description, starter and start time. */
  lemma CorrectedShowsSeverity(m: Timeline.Manager, inc: Incident.Incident, channelID: string, dir: Timeline.Directory, now: Clock.DateTime)
    ensures var t := Timeline.CreateTimeline(m, inc, channelID, dir, now).timeline;
            var name := Timeline.ResolveUsername(m.userCache, dir, inc.startedBy).name;
            ReadHeader(t.entries, false) == Header(inc.title, inc.severity, inc.description, name, inc.startedAt)
  {
    Timeline.CreatedStartEntry(m, inc, channelID, dir, now);
    hide Timeline.CreateTimeline, Timeline.ResolveUsername, StringOr, RenderedOr, ReadHeader;
  }

  /** A freshly created timeline shows the header and the footer and no
      entry block. */
  lemma FreshTimelineDisplay(m: Timeline.Manager, inc: Incident.Incident, channelID: string, dir: Timeline.Directory, now: Clock.DateTime)
    ensures var t := Timeline.CreateTimeline(m, inc, channelID, dir, now).timeline;
            var name := Timeline.ResolveUsername(m.userCache, dir, inc.startedBy).name;
            FormatTimelineForDisplay(t)
              == HeaderText(Header(inc.title, inc.severity, inc.description, name, inc.startedAt)) + Footer(now)
  {
    hide *;
    var t := Timeline.CreateTimeline(m, inc, channelID, dir, now).timeline;
    Timeline.CreatedStartEntry(m, inc, channelID, dir, now);
    CorrectedShowsSeverity(m, inc, channelID, dir, now);
    BodyEmptyIff(t.entries, 0);
    FormatShape(t, false);
    var r := FormatWith(t, false);
    var h := HeaderText(ReadHeader(t.entries, false));
    assert r == r[..|h|] + r[|h|..];
  }
}
