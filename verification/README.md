# ohshift in Dafny

ohshift is a Slack bot for incident response. The `/shift start <severity>
incident <title> [-- <description>]` slash command opens an incident:

- it creates a channel named `_inc-YYYYMMDD-HHMMSS-<slug>`;
- it sets the channel's topic and purpose and invites the reporter;
- it posts a start message in the new channel and a notification in the
  notifications channel;
- it starts a timeline of the incident.

Later, the timeline gains entries from three sources:

- messages in the incident channel: every message, or only messages that
  link an image, depending on the configuration;
- call-out reactions (`point_up`, `point_up_2`) on a message;
- image files shared in the incident channel.

`/shift timeline` shows the timeline. The repository also carries an older
copy of the command parser, the timeline store and the configuration; that
copy has no entry IDs and a different severity set.

This project models the following as pure functions over immutable data:

- the command parser;
- the slug and channel-name generator;
- both timeline stores, as transitions from a `Manager` to a `Manager`;
- the bot's event classifiers, its incident-creation policy and its timeline
  display;
- the two configuration loaders.

Slack calls are not performed. Their outcomes are inputs, such as the user
directory, whether a post succeeded, or the channel that was created. The
calls an operation would make are returned as a list of `SlackApi.Call`
values, in the order they are made.

Modules, following the Go packages:

- `Wrappers`, `Strings`, `Clock`: option/result types; the `strings` and `fmt`
  functions the core uses; time rendered at fixed width.
- `CommandParser`: the parser shared by both copies, parameterised by the
  severity set. `Incident` and `LegacyIncident` instantiate it with
  SEV0–SEV3 and with SEV1–SEV5.
- `Naming`: `createSlug` and `GenerateChannelName`. Both copies are the same.
- `Entries`, `Timeline`, `LegacyTimeline`: the two timeline stores.
- `Display`, `Bot`, `SlackApi`: the handlers of `internal/slack`.
- `Config`, `LegacyConfig`: the two configuration loaders.
- `IncidentExamples`, `NamingExamples`: the cases of `TestParseCommand`,
  `TestIsValidSeverity`, `TestCreateSlug` and `TestGenerateChannelName` in
  `internal/incident/incident_test.go`. They are proved from the general
  lemmas, not by evaluation. The longer command texts are spelled as
  concatenations of their words.

The source and this model disagree in one place. `formatTimelineForDisplay`
reads the severity from the start entry with a string type assertion, but the
start entry stores an `incident.Severity`. As written, the header's severity
is therefore always blank. See "Findings": the model keeps the as-written
reading as evidence and uses the corrected one in the bot.

`Timeline.GetEntries`, `Timeline.GetLastUpdated` and their legacy twins
return the timeline's fields (copying a Go slice is the identity on a
sequence), so they carry no contract of their own.

## Model

| member | source | states |
|---|---|---|
| Strings.ToLower | internal/incident/incident.go:117 | lower-casing keeps the length and maps each character by the ASCII case mapping |
| Strings.ToUpper | internal/incident/incident.go:58 | upper-casing keeps the length and maps each character by the ASCII case mapping |
| Strings.ToLowerAppend | internal/incident/incident.go:117 | lower-casing distributes over concatenation |
| Strings.FindFrom | internal/incident/incident.go:73-74 | the first occurrence of a pattern at or after a position, or none when there is no occurrence there |
| Strings.Find | internal/incident/incident.go:73-74 | the first occurrence of a pattern, and none exactly when it occurs nowhere |
| Strings.FindAfter | internal/incident/incident.go:74 | a pattern placed after text that does not contain it is found right after that text |
| Strings.OccursInPrefix | internal/incident/incident.go:73 | an occurrence that fits inside a prefix is seen alike in the prefix and the whole |
| Strings.LastIndexOf | internal/incident/incident.go:130 | `strings.LastIndex` of one character: -1 or a position holding it, with none after it |
| Strings.LeadingCount | internal/incident/incident.go:124 | the length of the longest prefix in the class |
| Strings.TrailingCount | internal/incident/incident.go:124 | the length of the longest suffix in the class |
| Strings.LeadingCountOf | internal/incident/incident.go:124 | a run of class characters followed by a non-class character is counted exactly |
| Strings.TrailingCountOf | internal/incident/incident.go:124 | the mirror of LeadingCountOf for suffixes |
| Strings.TrimAround | internal/incident/incident.go:124 | trimming removes exactly the class characters around a core whose ends are outside the class |
| Strings.TrimKeepsCore | internal/incident/incident.go:124 | trimming keeps a leading core whose ends are outside the class |
| Strings.TrimSpace | internal/incident/incident.go:75-76 | `strings.TrimSpace`: no space at either end, empty exactly when the input is all space, identity on trimmed input |
| Strings.PrintableWord | internal/incident/incident.go:49 | printable ASCII without spaces is one field |
| Strings.WordLength | internal/incident/incident.go:49 | the length of the leading non-space run |
| Strings.WordLengthOfWord | internal/incident/incident.go:49 | a word followed by a space or the end is measured exactly |
| Strings.Fields | internal/incident/incident.go:49 | `strings.Fields` yields only non-empty words without spaces |
| Strings.FieldsSkipsSpace | internal/incident/incident.go:49 | a leading space does not change the fields |
| Strings.FieldsOfEmpty | internal/incident/incident.go:49 | the empty text has no fields |
| Strings.FieldsCons | internal/incident/incident.go:49 | a word and a space in front add that word in front of the fields |
| Strings.FieldsOfWord | internal/incident/incident.go:49 | a word is its own only field |
| Strings.FieldsOfJoin | internal/incident/incident.go:49-68 | splitting words joined by single spaces gives the words back (the inverse of `strings.Join`) |
| Strings.FieldsOfJoinStep | internal/incident/incident.go:49-68 | the inductive step of FieldsOfJoin |
| Strings.JoinAppend | internal/incident/incident.go:68 | joining two non-empty lists is joining each with the separator between |
| Strings.JoinOfWords | internal/incident/incident.go:68 | joined words are non-empty and have no space at either end |
| Strings.NatToString | internal/incident/incident.go:174 | `%d` of a natural: digits only and no leading zero |
| Strings.ParseNatToString | internal/incident/incident.go:174 | reading the digits back gives the number |
| Strings.NatToStringInjective | internal/incident/incident.go:174 | distinct naturals render differently |
| Strings.IntToStringInjective | internal/incident/incident.go:174 | distinct integers, signed, render differently |
| Strings.HexByte | internal/incident/incident.go:177 | `%x` of a byte is two characters |
| Strings.Hex | internal/incident/incident.go:177 | `%x` of a byte slice is two characters per byte |
| Strings.HexDigitValue | internal/incident/incident.go:177 | each hex digit reads back as its value |
| Strings.HexByteInjective | internal/incident/incident.go:177 | distinct bytes render differently |
| Strings.HexInjective | internal/incident/incident.go:177 | distinct byte slices of one length render differently |
| Clock.Digit | internal/incident/incident.go:94 | a decimal digit and its value |
| Clock.Pad2 | internal/incident/incident.go:94 | a two-digit zero-padded field |
| Clock.Pad4 | internal/incident/incident.go:94 | a four-digit zero-padded field |
| Clock.Pad2Injective | internal/incident/incident.go:94 | distinct two-digit values render differently |
| Clock.Pad4Injective | internal/incident/incident.go:94 | distinct four-digit values render differently |
| Clock.Stamp | internal/incident/incident.go:94 | the `20060102-150405` layout: 15 characters, digits except a hyphen at index 8 |
| Clock.StampInjective | internal/incident/incident.go:94 | the stamp determines the time to the second |
| Clock.TimeOfDay | internal/timeline/timeline.go:440 | the `15:04:05` layout is 8 characters |
| Clock.DateAndTime | internal/slack/slack.go:246 | the `2006-01-02 15:04:05` layout is 19 characters |
| CommandParser.IsValidIn | internal/incident/incident.go:139-148 | the membership loop answers true exactly for members of the set |
| CommandParser.SplitTitle | internal/incident/incident.go:67-77 | without " -- " the rejoined text is the title and the description is empty; the description is always trimmed |
| CommandParser.SplitTitleNonEmpty | internal/incident/incident.go:73-77 | a remainder that starts with a non-space gives a non-empty title |
| CommandParser.Parse | internal/incident/incident.go:48-89 | a parsed command has action "start", an accepted severity, a non-empty trimmed title, a trimmed description, and no user fields |
| CommandParser.TitleNeverEmpty | internal/incident/incident.go:79-81 | the empty-title error is never returned: the check is dead code |
| CommandParser.ParseSucceedsIff | internal/incident/incident.go:49-65 | parsing succeeds exactly when there are at least 4 fields, "start", an accepted upper-cased severity and "incident" |
| CommandParser.ParseErrorOrder | internal/incident/incident.go:50-65 | the four checks run in order and the first failing one decides the error, each an if-and-only-if |
| CommandParser.ParseWidens | internal/incident/incident.go:58-61 | a larger severity set changes only invalid-severity failures |
| CommandParser.ParseAccepts | internal/incident/incident.go:68-88 | an accepted command's title and description are the split of fields 3.. joined by single spaces |
| CommandParser.RemainderPlain | internal/incident/incident.go:68 | the words after "incident" when there is no description |
| CommandParser.RemainderDescribed | internal/incident/incident.go:68 | the words after "incident" when there is a description: title words, "--", description words |
| CommandParser.FieldsOfCommandText | internal/incident/incident.go:49 | a command built from words splits back into those words |
| CommandParser.ParsePlain | internal/incident/incident.go:68-71 | without a separator, the title is the title words joined and the description is empty |
| CommandParser.ParseDescribed | internal/incident/incident.go:73-77 | with a separator, the title and description are the two word groups joined |
| CommandParser.CommandTextPlain | internal/incident/incident_test.go:15-36 | the command text without a description, spelled out |
| CommandParser.CommandTextDescribed | internal/incident/incident_test.go:37-58 | the command text with a description, spelled out |
| CommandParser.ParsePlainText | internal/incident/incident_test.go:15-36 | every "start S incident t1 .. tn" text with a valid severity S parses to the joined title and no description |
| CommandParser.ParseDescribedText | internal/incident/incident_test.go:37-58 | every "start S incident t .. -- d .." text parses to the joined title and the joined description |
| CommandParser.NoSeparatorWithoutHyphen | internal/incident/incident.go:73 | text without a hyphen holds no separator |
| CommandParser.SplitDescribed | internal/incident/incident.go:73-77 | the split of title words, "--" and description words is at the first separator and gives both groups |
| CommandParser.SplitAtSeparator | internal/incident/incident.go:73-77 | a title with no earlier separator splits from the description at the first " -- " |
| CommandParser.MessageDetermines | internal/incident/incident.go:51-80 | the five error texts differ, and each quoting text determines the word it quotes |
| Incident.IsValidSeverity | internal/incident/incident.go:139-148 | exactly SEV0..SEV3, case-sensitive |
| Incident.ParseCommand | internal/incident/incident.go:48-89 | a parsed severity is one of SEV0..SEV3 |
| Incident.GenerateIncidentID | internal/incident/incident.go:169-178 | IDs start with "inc_"; with 8 random bytes they are 20 characters long |
| Incident.IncidentIDInjective | internal/incident/incident.go:177 | distinct random bytes give distinct IDs |
| Incident.FallbackIDInjective | internal/incident/incident.go:172-175 | distinct fallback timestamps give distinct IDs |
| IncidentExamples.InsufficientExample | internal/incident/incident_test.go:59-64 | "start SEV0" fails with insufficient arguments |
| IncidentExamples.NoTitleExample | internal/incident/incident_test.go:83-88 | "start SEV0 incident" fails with insufficient arguments, not with an empty title |
| IncidentExamples.UnknownActionExample | internal/incident/incident_test.go:65-70 | "stop SEV0 incident test" fails on the action |
| IncidentExamples.InvalidSeverityExample | internal/incident/incident_test.go:71-76 | "start SEV6 incident test" fails on the severity |
| IncidentExamples.MissingKeywordExample | internal/incident/incident_test.go:77-82 | "start SEV0 test incident" fails on the keyword |
| IncidentExamples.WebsiteDownExample | internal/incident/incident_test.go:15-25 | "start SEV0 incident the website is down" parses to that title and no description |
| IncidentExamples.LongTitleExample | internal/incident/incident_test.go:26-36 | "start SEV1 incident database connection issues causing slow response times" keeps the seven-word title whole |
| IncidentExamples.WebsiteDescribedExample | internal/incident/incident_test.go:37-47 | the SEV0 text with " -- " parses to "the website is down" and the description after the separator |
| IncidentExamples.DatabaseDescribedExample | internal/incident/incident_test.go:48-58 | the SEV1 text with " -- " parses to "database connection issues" and the description after the separator |
| IncidentExamples.ValidSeverityTable | internal/incident/incident_test.go:235-247 | SEV0 to SEV3 are valid; "SEV4", "sev0" and "" are not |
| IncidentExamples.LowerCaseSeverityExample | internal/incident/incident.go:58 | a lower-case severity is upper-cased before the check |
| LegacyIncident.IsValidSeverity | incident/incident.go:141-150 | exactly SEV1..SEV5, case-sensitive |
| LegacyIncident.ParseCommand | incident/incident.go:50-91 | a parsed severity is one of SEV1..SEV5 |
| LegacyIncident.ParsersAgree | incident/incident.go:50-91 | the two parsers differ only where one of them rejects the severity |
| Naming.NoDoubleHyphenAt | internal/incident/incident.go:120-121 | a text without "--" has no two adjacent hyphens |
| Naming.NoDoubleHyphenDrop | internal/incident/incident.go:128 | suffixes keep having no "--" |
| Naming.NoDoubleHyphenTake | internal/incident/incident.go:128-131 | prefixes keep having no "--" |
| Naming.AlnumsAppend | internal/incident/incident.go:120-121 | the kept characters of a concatenation are those of the parts |
| Naming.AlnumsOfOthers | internal/incident/incident.go:120 | text with no [a-z0-9] keeps nothing |
| Naming.AlnumsOfPrefix | internal/incident/incident.go:128 | a prefix keeps a prefix of the kept characters |
| Naming.RunLength | internal/incident/incident.go:120 | the length of a leading run of [^a-z0-9] |
| Naming.CollapseRuns | internal/incident/incident.go:120-121 | replacing runs by "-": empty exactly for empty text, and a leading hyphen exactly when the text starts outside [a-z0-9] |
| Naming.CollapseShape | internal/incident/incident.go:120-121 | the replacement leaves only [a-z0-9-] and no "--" |
| Naming.CollapseLast | internal/incident/incident.go:120-121 | it ends in a hyphen exactly when the text ends outside [a-z0-9] |
| Naming.CollapseKeepsAlnums | internal/incident/incident.go:120-121 | the replacement keeps every letter and digit, in order |
| Naming.SliceKeepsShape | internal/incident/incident.go:128-131 | slices keep the alphabet and the absence of "--" |
| Naming.TrimHyphensEdges | internal/incident/incident.go:124 | trimming hyphens leaves none at either end |
| Naming.AlnumsOfHyphens | internal/incident/incident.go:124 | hyphens keep no letters or digits |
| Naming.AlnumsOfMiddle | internal/incident/incident.go:124 | dropping letter-free ends keeps the letters |
| Naming.TrimHyphensAlnums | internal/incident/incident.go:124 | trimming hyphens keeps every letter and digit |
| Naming.AlnumsDropHyphens | internal/incident/incident.go:124 | dropping leading hyphens keeps every letter and digit |
| Naming.AlnumsTakeHyphens | internal/incident/incident.go:124 | dropping trailing hyphens keeps every letter and digit |
| Naming.TrimHyphens | internal/incident/incident.go:124 | `strings.Trim(s, "-")` leaves no edge hyphen and is the identity on text without one |
| Naming.TrimHyphensFixed | internal/incident/incident.go:124 | trimming text without edge hyphens changes nothing |
| Naming.TrimHyphensShape | internal/incident/incident.go:124 | trimming keeps the alphabet and the absence of "--" |
| Naming.Truncate | internal/incident/incident.go:127-133 | the cut is a prefix of at most the limit, the identity on short text, and otherwise the hard cut or the cut at the last hyphen past the floor |
| Naming.TruncateSeesPrefix | internal/incident/incident.go:127-133 | the cut depends only on the first `limit` characters |
| Naming.TruncateKeepsShape | internal/incident/incident.go:127-133 | the cut keeps the alphabet and leaves no "--" and no edge hyphen |
| Naming.IsCutOfUnique | internal/incident/incident.go:127-133 | the cut is determined uniquely |
| Naming.TruncateAtHyphen | internal/incident/incident.go:130-131 | with its last hyphen before the limit at index n > 20, the cut is the first n characters |
| Naming.Slug | internal/incident/incident.go:115-136 | a slug has at most 30 characters |
| Naming.SlugShape | internal/incident/incident.go:115-136 | a slug has only [a-z0-9-], no "--", no edge hyphen, and its letters are letters of the lower-cased title, in order |
| Naming.TrimmedSlug | internal/incident/incident.go:124-133 | trimming and then cutting text of the slug alphabet gives a slug |
| Naming.SlugIdentity | internal/incident/incident.go:115-136 | a slug is its own slug |
| Naming.LowerOfSlug | internal/incident/incident.go:117 | lower-casing a slug changes nothing |
| Naming.SlugIdempotent | internal/incident/incident.go:115-136 | applying the slug twice is applying it once |
| Naming.SlugOfWrapped | internal/incident/incident.go:120-124 | a replaced text of hyphens around a slug core has that core as its slug |
| Naming.SlugOfLong | internal/incident/incident.go:127-133 | a long word-bounded head decides the slug of a title |
| Naming.TruncateCollapsedHead | internal/incident/incident.go:120-133 | what follows a long head is cut off |
| Naming.SlugOfSplit | internal/incident/incident.go:117-121 | the replacement of a title split after a letter or digit is the replacement of each part |
| Naming.TruncateTrimmedCore | internal/incident/incident.go:124-133 | trailing text after a long core does not reach the cut |
| Naming.CollapseEdges | internal/incident/incident.go:120-121 | text bounded by letters or digits collapses to text with no edge hyphen |
| Naming.RunLengthOf | internal/incident/incident.go:120 | a gap followed by a letter or digit is one run |
| Naming.CollapseGap | internal/incident/incident.go:120-121 | a gap becomes one hyphen |
| Naming.CollapseAppend | internal/incident/incident.go:120-121 | replacement distributes over a split after a letter or digit |
| Naming.CollapseAppendWord | internal/incident/incident.go:120-121 | the case of CollapseAppend that starts with a letter or digit |
| Naming.CollapseAppendGap | internal/incident/incident.go:120-121 | the case of CollapseAppend that starts with a gap |
| Naming.RunLengthAppend | internal/incident/incident.go:120 | the leading run is not changed by text after a letter or digit |
| Naming.CollapseFixed | internal/incident/incident.go:120-121 | text of the slug alphabet without "--" is unchanged by the replacement |
| Naming.SlugWordShape | internal/incident/incident.go:120-121 | a run of letters and digits has the slug shape |
| Naming.InterleaveEnds | internal/incident/incident.go:120-121 | words interleaved with gaps start and end with a letter or digit |
| Naming.CollapseWordGap | internal/incident/incident.go:120-121 | a word and a gap become the word and one hyphen |
| Naming.CollapseWord | internal/incident/incident.go:120-121 | a word is unchanged by the replacement |
| Naming.CollapseWords | internal/incident/incident.go:120-121 | words separated by gaps become the words joined by single hyphens |
| Naming.CollapseWordsThen | internal/incident/incident.go:120-121 | the same with a trailing gap, which leaves one hyphen |
| Naming.CollapseFramed | internal/incident/incident.go:120-121 | the same with a gap on both sides |
| Naming.CollapseFront | internal/incident/incident.go:120-121 | a leading gap leaves one hyphen in front |
| Naming.JoinedWordsShape | internal/incident/incident.go:120-124 | words joined by hyphens have the slug shape |
| Naming.SlugOfWords | internal/incident/incident.go:115-136 | a title of at most 30 characters' worth of words separated by gaps slugs to the words joined by hyphens |
| Naming.MarkersAreHyphens | internal/incident/incident.go:120-121 | a gap's trace is hyphens only |
| Naming.SlugOfLongWords | internal/incident/incident.go:115-136 | a title whose words joined pass 30 characters, with an optional gap in front and anything after them, slugs to the cut of that join |
| Naming.GenerateChannelName | internal/incident/incident.go:92-112 | the name is "_inc-" + stamp + "-" + slug, of at most 51 characters, so the 64-character cut never fires |
| Naming.ChannelNameParts | internal/incident/incident.go:100 | the stamp and the slug can be read back out of a name |
| Naming.ChannelNameInjective | internal/incident/incident.go:92-112 | equal names have equal start times and equal slugs |
| Naming.ChannelNameAlphabet | internal/incident/incident.go:92-112 | a name has only "_", "-", and [a-z0-9] |
| NamingExamples.SlugWebsiteDown | internal/incident/incident_test.go:194-197 | "website down" slugs to "website-down" |
| NamingExamples.SlugDatabaseIssues | internal/incident/incident_test.go:199-202 | "Database Connection Issues!" slugs to "database-connection-issues" |
| NamingExamples.SlugApiFailing | internal/incident/incident_test.go:204-207 | "API v2.1 failing" slugs to "api-v2-1-failing" |
| NamingExamples.SlugMultipleSpaces | internal/incident/incident_test.go:209-212 | "  multiple   spaces  " slugs to "multiple-spaces" |
| NamingExamples.SlugEdgeHyphens | internal/incident/incident_test.go:214-217 | "-test-" slugs to "test" |
| NamingExamples.SlugLongText | internal/incident/incident_test.go:219-222 | the long text slugs to "this-is-a-very-long-text-that", cut back at the hyphen at index 29 |
| NamingExamples.SlugLongTitle | internal/incident/incident_test.go:163-170 | the long title slugs to "this-is-a-very-long-incident", cut back at the hyphen at index 28 |
| NamingExamples.StampOfTestTime | internal/incident/incident_test.go:131 | 2024-12-01 14:30:52 stamps as "20241201-143052" |
| NamingExamples.ChannelAtTestTime | internal/incident/incident_test.go:131 | every channel opened at that instant is named "_inc-20241201-143052-" + slug |
| NamingExamples.ChannelWebsiteDown | internal/incident/incident_test.go:139-145 | the channel of "website down" is "_inc-20241201-143052-website-down" |
| NamingExamples.ChannelDatabaseIssues | internal/incident/incident_test.go:147-153 | the channel of "Database Connection Issues!" is "_inc-20241201-143052-database-connection-issues" |
| NamingExamples.ChannelApiFailing | internal/incident/incident_test.go:155-161 | the channel of "API v2.1 failing" is "_inc-20241201-143052-api-v2-1-failing" |
| NamingExamples.ChannelLongTitle | internal/incident/incident_test.go:163-170 | the channel of the long title is "_inc-20241201-143052-this-is-a-very-long-incident", 49 characters |
| Entries.Lookup | internal/timeline/timeline.go:114-118 | a metadata key is found exactly when some pair has it, and the value found belongs to such a pair |
| Entries.StringAt | internal/slack/slack.go:226 | the `.(string)` assertion: a text value passes; a missing key or a severity value does not |
| Entries.Icon | internal/timeline/timeline.go:485-500 | the five known types have their own icons and everything else gets the note icon |
| Entries.HeaderIsNotEmptyText | internal/timeline/timeline.go:428-437 | the non-empty text never equals the empty-timeline text |
| Entries.EntryBlockStartsWithIcon | internal/timeline/timeline.go:439-447 | each block of the posted text starts with its entry's icon |
| Timeline.ResolveUsername | internal/timeline/timeline.go:56-88 | a cached name without a call; otherwise one lookup, and the name found, or the user ID, is cached and returned; the cache only grows |
| Timeline.ResolveTwice | internal/timeline/timeline.go:59-62 | a second lookup of a user makes no call and returns the same name |
| Timeline.EnsureUsername | internal/timeline/timeline.go:469-482 | the stored name, else the resolved user ID, else "unknown_user"; the name is empty only if the directory or the cache holds an empty name |
| Timeline.FormatBlocks | internal/timeline/timeline.go:439-459 | formatting only adds names to the cache |
| Timeline.FormatTimelineMessage | internal/timeline/timeline.go:428-466 | the empty list gives exactly the empty-timeline text and nothing else does; other texts start with the header |
| Timeline.NamedEntriesNeedNoLookup | internal/timeline/timeline.go:469-473 | entries that carry their names need no lookups and leave the cache alone |
| Timeline.BlocksOnlyLookUp | internal/timeline/timeline.go:439-459 | formatting makes no call other than user lookups |
| Timeline.HasEntry | internal/timeline/timeline.go:552-567 | false for an unknown incident, and otherwise true exactly when some entry has the ID |
| Timeline.GetTimeline | internal/timeline/timeline.go:145-162 | found exactly when the incident is registered, and then it is the registered timeline, whose entry IDs are distinct in a valid store |
| Timeline.StartMetadata | internal/timeline/timeline.go:114-118 | the start entry's metadata holds the severity, title and description |
| Timeline.CreateTimeline | internal/timeline/timeline.go:97-142 | registers one timeline with one entry under the incident ID, replacing any earlier one and leaving the others; makes no writing call |
| Timeline.CreatedStartEntry | internal/timeline/timeline.go:105-119 | the entry is "incident_start_"+ID of type incident_start at StartedAt, by the resolved starter, with the metadata |
| Timeline.CreateKeepsValid | internal/timeline/timeline.go:97-142 | creating keeps every entry ID unique within its timeline |
| Timeline.Acknowledge | internal/timeline/timeline.go:223-242 | a reaction is added only for message, image and highlighted entries that carry a message_id |
| Timeline.AddEntry | internal/timeline/timeline.go:165-251 | unknown incident: error and no change; duplicate ID: nil, no change, no call; only the one timeline changes; a post failure is the only other error |
| Timeline.AddEntryAppends | internal/timeline/timeline.go:200-203 | a fresh entry is appended at the end: earlier entries kept, time updated |
| Timeline.AddEntryThenHas | internal/timeline/timeline.go:186-203 | afterwards the timeline holds the entry's ID |
| Timeline.AddEntryTwice | internal/timeline/timeline.go:186-198 | adding an entry with the same ID a second time is a no-op with no calls |
| Timeline.AddEntryKeepsValid | internal/timeline/timeline.go:186-203 | adding keeps entry IDs pairwise distinct |
| Timeline.AddEntryCalls | internal/timeline/timeline.go:212-242 | the calls are user lookups, one post, and the acknowledgement only if the post succeeded; the append is kept when the post fails |
| Timeline.AddResolved | internal/timeline/timeline.go:254-383 | the constructors resolve the user first, and an unknown incident changes no timeline |
| Timeline.AddMessageEntry | internal/timeline/timeline.go:254-277 | an unknown incident changes no timeline and reports the error |
| Timeline.AddImageEntry | internal/timeline/timeline.go:280-305 | an unknown incident changes no timeline and reports the error |
| Timeline.AddReactionEntry | internal/timeline/timeline.go:308-333 | an unknown incident changes no timeline and reports the error |
| Timeline.AddBotInteractionEntry | internal/timeline/timeline.go:336-356 | an unknown incident changes no timeline and reports the error |
| Timeline.AddHighlightedEntry | internal/timeline/timeline.go:359-383 | an unknown incident changes no timeline and reports the error |
| Timeline.AddResolvedTwice | internal/timeline/timeline.go:186-198 | two constructor calls with one entry ID leave one entry |
| Timeline.AddResolvedAppends | internal/timeline/timeline.go:165-251 | a constructor call with an ID new to a known incident appends the entry built from the resolved name, keeps the earlier entries, sets the update time, and errs exactly when the post fails |
| Timeline.MessageAppended | internal/timeline/timeline.go:254-277 | a new message is appended as a "message" entry with the text, the user ID, the resolved name, the time now and the message ID as metadata |
| Timeline.ImageAppended | internal/timeline/timeline.go:280-305 | a new file is appended as an "image" entry with the caption, the resolved name, the time now, and the URL and file ID as metadata |
| Timeline.ReactionAppended | internal/timeline/timeline.go:308-333 | a new reaction is appended as a "reaction" entry with the message text, the resolved name, the time now, and the reaction and message ID as metadata |
| Timeline.BotInteractionAppended | internal/timeline/timeline.go:336-356 | a new bot interaction is appended as a "bot_interaction" entry with the interaction, the resolved name, the time now and no metadata |
| Timeline.MessageRecordedOnce | internal/timeline/timeline.go:264-265 | the same message ID is recorded once |
| Timeline.ImageRecordedOnce | internal/timeline/timeline.go:291-292 | the same file ID is recorded once |
| Timeline.ReactionRecordedOnce | internal/timeline/timeline.go:319-320 | the same message and reaction are recorded once |
| Timeline.HighlightRecordedOnce | internal/timeline/timeline.go:370-372 | the same message is highlighted once |
| Timeline.HighlightRecorded | internal/timeline/timeline.go:359-383 | a new highlight is appended at the end as a "highlighted" entry with the text, the resolved name, the original timestamp and the message ID; the timeline's update time is now; an error only when the post fails |
| Timeline.AddResolvedThenHas | internal/timeline/timeline.go:254-383 | afterwards the constructed entry's ID is held |
| Timeline.AddResolvedKeepsValid | internal/timeline/timeline.go:254-383 | the constructors keep entry IDs unique |
| Timeline.MessageThenHas | internal/timeline/timeline.go:264-265 | afterwards "message_"+id is held |
| Timeline.ImageThenHas | internal/timeline/timeline.go:291-292 | afterwards "image_"+id is held |
| Timeline.HighlightThenHas | internal/timeline/timeline.go:370-372 | afterwards "highlighted_"+id is held |
| Timeline.ConstructorIDs | internal/timeline/timeline.go:264-372 | each constructor's ID depends only on the message ID (and the reaction), and a highlight keeps the original timestamp |
| Timeline.MessageIDsDiffer | internal/timeline/timeline.go:264-372 | distinct message IDs give distinct entry IDs |
| LegacyTimeline.FormatTimelineMessage | timeline/timeline.go:306-341 | the empty list gives exactly "📋 *Timeline*\nNo entries yet." and nothing else does; others start with "📋 *Incident Timeline*\n\n" |
| LegacyTimeline.CreateTimeline | timeline/timeline.go:52-92 | one timeline with one incident_start entry at StartedAt by StartedBy, replacing any earlier one |
| LegacyTimeline.AddEntry | timeline/timeline.go:115-164 | unknown incident: error and no change; otherwise appended at the end with no dedup, posted, and an error exactly when the post fails |
| LegacyTimeline.AddEntryTwiceKeepsBoth | timeline/timeline.go:135-139 | adding the same entry twice keeps both copies |
| LegacyTimeline.AddManyLength | timeline/timeline.go:135-139 | n additions grow the timeline by n |
| LegacyTimeline.ConstructorTimes | timeline/timeline.go:166-261 | message, image, reaction and bot entries are stamped now; a highlight keeps the original timestamp |
| LegacyTimeline.AddMessageEntry | timeline/timeline.go:167-182 | unknown incident: error and no change; otherwise a "message" entry with the user, the text, the time now and no metadata is appended, with an error exactly when the post fails |
| LegacyTimeline.AddImageEntry | timeline/timeline.go:185-203 | unknown incident: error and no change; otherwise an "image" entry with the caption and the URL as metadata is appended, stamped now |
| LegacyTimeline.AddReactionEntry | timeline/timeline.go:206-224 | unknown incident: error and no change; otherwise a "reaction" entry with the message and the reaction as metadata is appended, stamped now |
| LegacyTimeline.AddBotInteractionEntry | timeline/timeline.go:227-242 | unknown incident: error and no change; otherwise a "bot_interaction" entry with the interaction and no metadata is appended, stamped now |
| LegacyTimeline.AddHighlightedEntry | timeline/timeline.go:245-261 | unknown incident: error and no change; otherwise a "highlighted" entry stamped with the original time and no metadata is appended |
| LegacyTimeline.GetTimeline | timeline/timeline.go:95-112 | found exactly when the incident is registered, and then it is the registered timeline |
| Display.StringOr | internal/slack/slack.go:226-236 | the value of a string-typed key, or "" |
| Display.RenderedOr | internal/slack/slack.go:230-232 | the printed value agrees with the string-only reading whenever that reading finds text, differs from it only on a severity value, which prints as its name, and is "" for a missing key |
| Display.ReadHeader | internal/slack/slack.go:219-240 | header fields come from entry 0 only if it is incident_start, and are blank otherwise |
| Display.Content | internal/slack/slack.go:265-283 | an entry's body is empty exactly for an image without image_url or a reaction without reaction |
| Display.Block | internal/slack/slack.go:254-287 | incident_start entries are omitted and every other block starts with its icon |
| Display.BodyEmptyIff | internal/slack/slack.go:253-288 | the body is empty exactly when every remaining entry is incident_start |
| Display.FormatShape | internal/slack/slack.go:211-294 | the no-entries text exactly for an empty list; otherwise the header, then the body, then the footer |
| Display.HeaderIsNotNoEntries | internal/slack/slack.go:215-217 | a rendered header never reads as the no-entries text |
| Display.HeaderTextOpens | internal/slack/slack.go:242 | the header opens with the clipboard icon |
| Display.NoEntriesOpens | internal/slack/slack.go:216 | so does the no-entries text |
| Display.DisplayOpens | internal/slack/slack.go:211-294 | every displayed timeline opens with the clipboard icon |
| Display.FormatTimelineForDisplay | internal/slack/slack.go:211-294 | the display the bot uses, with the severity read whatever its type: the no-entries text exactly for an empty timeline |
| Display.FormatTimelineForDisplayAsWritten | internal/slack/slack.go:211-294 | the display as written, with the string-only severity reading |
| Display.ReadingsDifferInSeverityOnly | internal/slack/slack.go:226-236 | the two readings of the header agree except for the severity |
| Display.AsWrittenHidesSeverity | internal/slack/slack.go:230-232 | as written, a fresh timeline's header shows a blank severity |
| Display.CorrectedShowsSeverity | internal/slack/slack.go:219-240 | corrected, a fresh timeline's header shows the incident's title, severity, description, starter and time |
| Display.FreshTimelineDisplay | internal/slack/slack.go:211-294 | a fresh timeline displays as the header and the footer only |
| Bot.FindIncidentIDByChannel | internal/slack/slack.go:801-816 | the mapped incident, and "" exactly when the channel is unmapped |
| Bot.HandleMessage | internal/slack/slack.go:527-589 | a message becomes an entry only for a "C" channel named "_inc-" mapped to an incident, when capture-all is on or the text links a Slack image; nothing else changes |
| Bot.MessageRecorded | internal/slack/slack.go:599 | a qualifying message is held as "message_"+ts |
| Bot.HandleReaction | internal/slack/slack.go:636-712 | only point_up and point_up_2 in a mapped channel with history make a highlighted entry of the first message |
| Bot.ReactionHighlights | internal/slack/slack.go:683-712 | the highlight is keyed by the message's ts and appended with its text and parsed time |
| Bot.HandleFile | internal/slack/slack.go:741-797 | only an image file in a mapped channel makes an image entry, keyed by the file ID |
| Bot.FileRecorded | internal/slack/slack.go:779 | a qualifying file is held as "image_"+file ID |
| Bot.FileAppended | internal/slack/slack.go:764-779 | a new qualifying image is appended as an "image" entry whose text is the file title, or its name when the title is empty, with the private URL and the file ID as metadata |
| Bot.FileSharedTwice | internal/slack/slack.go:779 | sharing the same file again adds nothing |
| Bot.NewIncident | internal/slack/slack.go:326-337 | the incident copies the command, starts now, is named by GenerateChannelName, and has an "inc_" ID |
| Bot.Notification | internal/slack/slack.go:406-413 | the notification has a description line exactly when the description is non-empty |
| Bot.CreateOutcome | internal/slack/slack.go:340-346 | a channel-creation failure returns its error after that one call; the call succeeds exactly when the channel and the notification succeed |
| Bot.CreateRecordsMapping | internal/slack/slack.go:415-434 | the channel is mapped to the incident only after the notification is posted |
| Bot.CreatedEffects | internal/slack/slack.go:348-415 | after a created channel: topic, purpose, invite, timeline, first post and notification in that order, whatever fails in between |
| Bot.PurposeNeverEmpty | internal/slack/slack.go:354-358 | the channel purpose of a parsed command is never empty |
| Bot.CreateKeepsWellMapped | internal/slack/slack.go:429-432 | every mapped channel maps to a non-empty incident ID |
| Bot.CreatedIncidentIsFound | internal/slack/slack.go:429-432 | after a successful creation the channel finds the incident, its timeline, and the timeline's display |
| Bot.RenderOpens | internal/slack/slack.go:117-199 | each reply opens as the source's text does, and the success text is sent only for a created incident |
| Bot.UsageNamesError | internal/slack/slack.go:115-121 | the usage reply shows the parse error's text, so different parse errors give different replies |
| Bot.UsageText | internal/slack/slack.go:119 | the usage reply is "Error: ", the error's text, a blank line and the help text |
| Bot.FailureNamesError | internal/slack/slack.go:131-139 | the failure reply shows the creation error after "Failed to create incident: " |
| Bot.RepliesOpen | internal/slack/slack.go:145-191 | the success reply opens with its own letter, and the two failure replies with the cross mark |
| Bot.TimelineAnswer | internal/slack/slack.go:154-208 | unmapped channel, missing timeline, or the timeline display |
| Bot.HandleSlash | internal/slack/slack.go:107-124 | the text "timeline" takes the timeline path; a parse failure answers with the error and the help; neither changes the bot |
| Bot.SlashCreates | internal/slack/slack.go:126-150 | a parsed command creates the incident with the user's ID and name and reports success or the failure |
| Bot.SlashChangesOnlyByCreation | internal/slack/slack.go:94-151 | the bot changes only when a parsed command got its channel; success is reported exactly when creation succeeded |
| Bot.TimelineCommandNeverParsed | internal/slack/slack.go:107-111 | "timeline" is never parsed as a command and changes nothing |
| Bot.TimelineTextDoesNotParse | internal/slack/slack.go:107-114 | "timeline" would fail to parse anyway, with insufficient arguments |
| Bot.HandlersKeepWellMapped | internal/slack/slack.go:94-151 | the slash handler keeps every mapped channel pointed at a non-empty ID |
| Config.GetEnv | internal/config/config.go:74-79 | the value when set and non-empty, the default otherwise |
| Config.EmptyIsUnset | internal/config/config.go:74-79 | an empty value reads as an unset one |
| Config.GetEnvBool | internal/config/config.go:82-94 | "true" and "false" in any case; any other value and no value give the default |
| Config.GetEnvBoolIgnoresCase | internal/config/config.go:84-88 | upper-casing a value does not change how it reads |
| Config.LowerOfUpper | internal/config/config.go:84-88 | lower-casing an upper-cased value is lower-casing the value |
| Config.ParseLogLevel | internal/config/config.go:41-54 | debug, warn and error in any case each give their level, and everything else gives info |
| Config.ParseLevelName | internal/config/config.go:41-54 | each level is reached by its name in either case |
| Config.Load | internal/config/config.go:24-38 | DB_URI and the credentials are read as set, and the command, channel and port are never empty |
| Config.LoadDefaults | internal/config/config.go:24-38 | an empty environment gives "/shift", "general", "8080", info and capture-all off |
| Config.LoadOverrides | internal/config/config.go:30-32 | set variables override the defaults |
| Config.LoadParses | internal/config/config.go:33-34 | the log level and the capture switch are parsed from their variables |
| Config.CheckTokens | internal/config/config.go:57-71 | bot token, then signing secret, then app token: the first empty one is reported |
| Config.Validate | internal/config/config.go:57-71 | nil exactly when all three credentials are set; DB_URI is not checked |
| Config.ValidateMessages | internal/config/config.go:57-71 | the first missing credential is reported with its variable's name and the source's message for it |
| Config.ReportedFieldIsUnset | internal/config/config.go:57-71 | the variable a loaded configuration is reported to miss is unset or empty in the environment |
| Config.LoadThenValidate | internal/config/config.go:57-71 | a loaded configuration is valid exactly when the environment sets all three credentials |
| Config.EmptyEnvReportsBotToken | internal/config/config.go:58-60 | an empty environment is first told about the bot token |
| LegacyConfig.Load | config/config.go:22-34 | the credentials are read as set, and the command, channel and port are never empty |
| LegacyConfig.LoadDefaults | config/config.go:22-34 | an empty environment gives "/ohshift", "general", "8080" and info |
| LegacyConfig.Validate | config/config.go:53-67 | nil exactly when all three credentials are set, checked bot token first, then signing secret, then app token |
| LegacyConfig.AgreesWithLive | config/config.go:22-67 | both loaders read and validate alike except for the default command |

## Left out

- Letter case: `strings.ToLower` and `strings.ToUpper` follow the ASCII case mapping only. Unicode case mapping (the Kelvin sign, dotted I, long s) is not modelled.
- Time: time is an abstract `Clock.DateTime` value with fixed-width renderings. `time.Now()` is an input. Time zones and the time-zone-dependent `time.Unix` are not modelled.
- Reaction time: the float parsing of the Slack timestamp in the reaction handler is an input, `parsedTime`.
- Randomness: `GenerateIncidentID`'s random bytes, or their failure, are an input. So is the nanosecond clock of the bot-interaction IDs.
- Metadata lines: metadata is an association list in the source's literal order. Go's random map iteration order in the metadata lines of `formatTimelineMessage` is not modelled.
- Slack calls: Slack API calls are not performed. Their outcomes are inputs, and the calls are returned as a list. The Socket Mode event loop, `handleEventsAPI` dispatch and JSON unmarshalling of events are not modelled.
- Ignored outcomes: the failures of the topic, purpose, invite, timeline and initial-post calls in `createIncident` are only logged. The model makes those calls and ignores their outcomes, as the source does.
- `sendSlashResponse`: not modelled. `Bot.Render` gives the reply's text.
- Concurrency: locking (`sync.RWMutex`) and concurrency are not modelled. Each operation is one atomic step.
- Logging: logging is not modelled. `logger/logger.go` is not part of this model.
- Export: `ExportTimeline` (`json.MarshalIndent`) is not modelled.
- Other code: `HealthCheck` and `Start` are not modelled. `main.go` and the generated ORM code under `models/` are not part of this model.
- `Bot.HandleSlash`: its contract covers the timeline and parse-failure paths. The creation path is stated in `Bot.SlashCreates` and `Bot.SlashChangesOnlyByCreation`, to keep each proof small.
- Timeline.AddMessageEntry: its own contract states only the unknown-incident case. The appended entry is stated in `Timeline.MessageAppended`, and the deduplication in `Timeline.MessageRecordedOnce`.
- Timeline.AddImageEntry: its own contract states only the unknown-incident case. The appended entry is stated in `Timeline.ImageAppended`, and the deduplication in `Timeline.ImageRecordedOnce`.
- Timeline.AddReactionEntry: its own contract states only the unknown-incident case. The appended entry is stated in `Timeline.ReactionAppended`, and the deduplication in `Timeline.ReactionRecordedOnce`.
- Timeline.AddBotInteractionEntry: its own contract states only the unknown-incident case. The appended entry is stated in `Timeline.BotInteractionAppended`.
- Timeline.AddHighlightedEntry: its own contract states only the unknown-incident case. The appended entry is stated in `Timeline.HighlightRecorded`, and the deduplication in `Timeline.HighlightRecordedOnce`.
- Bot.TimelineAnswer: the timeline it answers with is shown by `Display.FormatTimelineForDisplay`, the corrected reading (see "Findings"). Its header shows the severity, where the program as written shows a blank. `Display.FormatTimelineForDisplayAsWritten` models the as-written text.
- Bot.CreatedIncidentIsFound: the display it states is the corrected one, with the severity in the header. The as-written display leaves the severity blank, as `Display.AsWrittenHidesSeverity` shows.
- Tests: `TestGetHelpMessage` and the tests of the legacy `incident` package are not restated as examples. The legacy tests differ from the live ones only in their severities.
- `Naming.Slug`: its own contract states only the length bound. The alphabet and hyphen rules are in `Naming.SlugShape`.
- `NamingExamples.ChannelWebsiteDown`: it states the expected name as the 21-character prefix concatenated with the slug, rather than as one literal. The same holds for the other channel-name cases.

## Findings

| source | as written | input that shows it | evidently intended | confidence | as-written member | corrected member |
|---|---|---|---|---|---|---|
| internal/slack/slack.go:230-232 | the severity is read with `.(string)`, but `CreateTimeline` stores an `incident.Severity` (internal/timeline/timeline.go:115), so the assertion fails | any incident, e.g. `/shift start SEV1 incident outage`, then `/shift timeline` in its channel: the header shows `*Severity:* ` with nothing after it | the header shows the incident's severity, e.g. `*Severity:* SEV1` | not executed | Display.AsWrittenHidesSeverity | Display.CorrectedShowsSeverity |

The bot displays timelines with `Display.FormatTimelineForDisplay`, which uses
the corrected reading. `Display.FormatTimelineForDisplayAsWritten` keeps the
as-written reading.
