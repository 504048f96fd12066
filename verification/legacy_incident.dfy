/**
 * The legacy copy of the incident package: the same parser, slug and
 * channel naming and ID generation as the live copy, over the older
 * severity set SEV1..SEV5 and with the older help text.
 */
module LegacyIncident {
  import opened Wrappers
  import CommandParser
  import Incident

  const Severity1 := "SEV1"
  const Severity2 := "SEV2"
  const Severity3 := "SEV3"
  const Severity4 := "SEV4"
  const Severity5 := "SEV5"

  /** The list the legacy `isValidSeverity` scans. */
  const Severities := [Severity1, Severity2, Severity3, Severity4, Severity5]

  /** The legacy `isValidSeverity`. */
  method IsValidSeverity(s: string) returns (ok: bool)
    ensures ok <==> s == "SEV1" || s == "SEV2" || s == "SEV3" || s == "SEV4" || s == "SEV5"
  {
    ok := CommandParser.IsValidIn(Severities, s);
  }

  /** The legacy `ParseCommand`. */
  function ParseCommand(text: string): (r: Result<CommandParser.Command, CommandParser.ParseError>)
    ensures r.Success? ==> r.value.severity in {"SEV1", "SEV2", "SEV3", "SEV4", "SEV5"}
  {
    CommandParser.Parse(Severities, text)
  }

  /** The two copies agree on every command whose severity both accept,
      SEV1 to SEV3, and differ only in which severities they reject. */
  lemma ParsersAgree(text: string)
    ensures Incident.ParseCommand(text).Success? && ParseCommand(text).Success? ==>
              Incident.ParseCommand(text) == ParseCommand(text)
    ensures Incident.ParseCommand(text) != ParseCommand(text) ==>
              (Incident.ParseCommand(text).Failure? && Incident.ParseCommand(text).error.InvalidSeverity?)
              || (ParseCommand(text).Failure? && ParseCommand(text).error.InvalidSeverity?)
  {
    var shared := ["SEV1", "SEV2", "SEV3"];
    CommandParser.ParseWidens(shared, Severities, text);
    CommandParser.ParseWidens(shared, Incident.Severities, text);
  }

  /** The legacy `GetHelpMessage`. */
  const HelpMessage :=
    "Usage: /ohshift start <severity> incident <incident title> [-- <description>]\n\n"
    + "Examples:\n"
    + "  /ohshift start SEV1 incident the website is down\n"
    + "  /ohshift start SEV2 incident database connection issues -- Connection pool exhausted, affecting all users\n"
    + "  /ohshift start SEV3 incident slow response times -- API response times > 5s, investigating root cause\n\n"
    + "Valid severities: SEV1, SEV2, SEV3, SEV4, SEV5\n\n"
    + "This will create an incident channel and post a notification."
}
