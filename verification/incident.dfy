/**
 * The live incident package: the closed severity set SEV0..SEV3, the
 * command parser over that set, the incident record and its channel name.
 */
module Incident {
  import opened Wrappers
  import opened Strings
  import CommandParser
  import Naming
  import Clock

  const Severity0 := "SEV0"
  const Severity1 := "SEV1"
  const Severity2 := "SEV2"
  const Severity3 := "SEV3"

  /** The list `isValidSeverity` scans. */
  const Severities := [Severity0, Severity1, Severity2, Severity3]

  /** An incident as the Slack handler assembles it. */
  datatype Incident = Incident(
    id: string,
    title: string,
    description: string,
    severity: string,
    channelName: string,
    startedBy: string,
    startedAt: Clock.DateTime)

  /** `isValidSeverity`: exactly the four upper-case names. */
  method IsValidSeverity(s: string) returns (ok: bool)
    ensures ok <==> s == "SEV0" || s == "SEV1" || s == "SEV2" || s == "SEV3"
  {
    ok := CommandParser.IsValidIn(Severities, s);
  }

  /** `ParseCommand`. */
  function ParseCommand(text: string): (r: Result<CommandParser.Command, CommandParser.ParseError>)
    ensures r.Success? ==> r.value.severity in {"SEV0", "SEV1", "SEV2", "SEV3"}
  {
    CommandParser.Parse(Severities, text)
  }

  /** `GenerateChannelName` for an incident record. */
  function ChannelName(inc: Incident): string {
    Naming.GenerateChannelName(inc.title, inc.startedAt)
  }

  /** `GetHelpMessage`. */
  const HelpMessage :=
    "Usage: /shift start <severity> incident <incident title> [-- <description>]\n\n"
    + "Examples:\n"
    + "  /shift start SEV0 incident the website is down\n"
    + "  /shift start SEV1 incident database connection issues -- Connection pool exhausted, affecting all users\n"
    + "  /shift start SEV2 incident slow response times -- API response times > 5s, investigating root cause\n\n"
    + "Valid severities:\n"
    + "  SEV0: Major Customer Impact\n"
    + "  SEV1: High Customer Impact\n"
    + "  SEV2: Low/No Customer Impact\n"
    + "  SEV3: Maintenance\n\n"
    + "This will create an incident channel and post a notification."

  /** `GenerateIncidentID`, with the random source and the clock as inputs:
      "inc_" and the hex of 8 random bytes, or, when the random source
      fails, "inc_" and the nanosecond Unix time. */
  function GenerateIncidentID(entropy: Option<seq<bv8>>, unixNanos: int): (r: string)
    requires entropy.Some? ==> |entropy.value| == 8
    ensures |r| > 4 && r[..4] == "inc_"
    ensures entropy.Some? ==> |r| == 20
  {
    match entropy
    case Some(bytes) => "inc_" + Hex(bytes)
    case None => "inc_" + IntToString(unixNanos)
  }

  /** Distinct random draws give distinct IDs. */
  lemma IncidentIDInjective(a: seq<bv8>, b: seq<bv8>, t1: int, t2: int)
    requires |a| == 8 && |b| == 8
    requires GenerateIncidentID(Some(a), t1) == GenerateIncidentID(Some(b), t2)
    ensures a == b
  {
    assert Hex(a) == GenerateIncidentID(Some(a), t1)[4..];
    assert Hex(b) == GenerateIncidentID(Some(b), t2)[4..];
    HexInjective(a, b);
  }

  /** Fallback IDs taken at different instants differ. */
  lemma FallbackIDInjective(t1: int, t2: int)
    requires GenerateIncidentID(None, t1) == GenerateIncidentID(None, t2)
    ensures t1 == t2
  {
    assert IntToString(t1) == GenerateIncidentID(None, t1)[4..];
    assert IntToString(t2) == GenerateIncidentID(None, t2)[4..];
    IntToStringInjective(t1, t2);
  }
}
