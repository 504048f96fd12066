/**
 * What both copies of the timeline package share: entry metadata with its
 * dynamic value types, the icon of each entry type, and the layout of the
 * text posted to an incident channel.
 */
module Entries {
  import opened Wrappers
  import Clock

  /** A metadata value. Go stores these as `interface{}`; the dynamic type
      matters to the `.(string)` assertions that read them back, and the
      start entry stores its severity as an `incident.Severity`. */
  datatype MetaValue = Text(text: string) | SeverityValue(severity: string)

  /** `%v` prints either kind as its string. */
  function Render(v: MetaValue): string {
    match v
    case Text(s) => s
    case SeverityValue(s) => s
  }

  /** A metadata map as the list of its literal's pairs. */
  type Metadata = seq<(string, MetaValue)>

  /** The value stored under `key`. */
  function Lookup(md: Metadata, key: string): (r: Option<MetaValue>)
    ensures r.Some? <==> exists i :: 0 <= i < |md| && md[i].0 == key
    ensures r.Some? ==> exists i :: 0 <= i < |md| && md[i] == (key, r.value)
  {
    if md == [] then None
    else if md[0].0 == key then Some(md[0].1)
    else Lookup(md[1..], key)
  }

  /** `md[key].(string)`: present and stored as a plain string. */
  function StringAt(md: Metadata, key: string): (r: Option<string>)
    ensures r.Some? ==> Lookup(md, key) == Some(Text(r.value))
    ensures r.None? ==> Lookup(md, key).None? || Lookup(md, key).value.SeverityValue?
  {
    match Lookup(md, key)
    case Some(Text(s)) => Some(s)
    case _ => None
  }

  const StartIcon := "\U{1F6A8}"
  const MessageIcon := "\U{1F4AC}"
  const ImageIcon := "\U{1F5BC}\U{FE0F}"
  const ReactionIcon := "\U{1F446}"
  const BotIcon := "\U{1F916}"
  const OtherIcon := "\U{1F4DD}"

  /** `getEntryIcon` (and the Slack handler's `getTimelineEntryIcon`). */
  function Icon(kind: string): (r: string)
    ensures r == OtherIcon <==> kind !in {"incident_start", "message", "image", "reaction", "bot_interaction"}
    ensures r != []
  {
    match kind
    case "incident_start" => StartIcon
    case "message" => MessageIcon
    case "image" => ImageIcon
    case "reaction" => ReactionIcon
    case "bot_interaction" => BotIcon
    case _ => OtherIcon
  }

  /** The text posted for a timeline with no entries. */
  const EmptyTimelineText := "\U{1F4CB} *Timeline*\nNo entries yet."

  /** The first line of the text posted for a non-empty timeline. */
  const TimelineHeader := "\U{1F4CB} *Incident Timeline*\n\n"

  /** A non-empty text never reads as the empty one. */
  lemma HeaderIsNotEmptyText()
    ensures forall rest :: TimelineHeader + rest != EmptyTimelineText
  {
    forall rest ensures TimelineHeader + rest != EmptyTimelineText {
      var s := TimelineHeader + rest;
      if |s| == |EmptyTimelineText| {
        assert s[3] == 'I' && EmptyTimelineText[3] == 'T';
      }
    }
  }

  /** One "   • key: value" line per metadata pair. */
  function MetaLines(md: Metadata): string {
    if md == [] then "" else "   \U{2022} " + md[0].0 + ": " + Render(md[0].1) + "\n" + MetaLines(md[1..])
  }

  /** The lines of one entry in the posted text; every entry but the last is
      followed by a blank line. */
  function EntryBlock(kind: string, at: Clock.DateTime, name: string, content: string, md: Metadata, last: bool): string {
    Icon(kind) + " *" + Clock.TimeOfDay(at) + "* - @" + name + "\n"
      + "   " + content + "\n"
      + MetaLines(md)
      + (if last then "" else "\n")
  }

  /** Each block starts with its entry's icon. */
  lemma EntryBlockStartsWithIcon(kind: string, at: Clock.DateTime, name: string, content: string, md: Metadata, last: bool)
    ensures var b := EntryBlock(kind, at, name, content, md, last);
            |Icon(kind)| < |b| && b[..|Icon(kind)|] == Icon(kind)
  {
  }
}
