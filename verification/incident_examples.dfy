/**
 * The live parser on command texts from the incident package's examples.
 * Each example splits the literal text into its words once and then
 * reasons about the words symbolically.
 */
module IncidentExamples {
  import opened Wrappers
  import opened Strings
  import opened CommandParser
  import opened Incident

  lemma SpacedFour(a: string, b: string, c: string, d: string)
    ensures a + " " + b + " " + c + " " + d == a + " " + (b + " " + (c + " " + d))
  {
  }

  lemma FieldsOfFour(a: string, b: string, c: string, d: string)
    requires IsWord(a) && IsWord(b) && IsWord(c) && IsWord(d)
    ensures Fields(a + " " + b + " " + c + " " + d) == [a, b, c, d]
  {
    hide *;
    SpacedFour(a, b, c, d);
    FieldsCons(a, b + " " + (c + " " + d));
    FieldsCons(b, c + " " + d);
    FieldsCons(c, d);
    FieldsOfWord(d);
  }

  lemma FieldsOfTwo(a: string, b: string)
    requires IsWord(a) && IsWord(b)
    ensures Fields(a + " " + b) == [a, b]
  {
    hide *;
    FieldsCons(a, b);
    FieldsOfWord(b);
  }

  lemma FieldsOfThree(a: string, b: string, c: string)
    requires IsWord(a) && IsWord(b) && IsWord(c)
    ensures Fields(a + " " + b + " " + c) == [a, b, c]
  {
    hide *;
    assert a + " " + b + " " + c == a + " " + (b + " " + c);
    FieldsCons(a, b + " " + c);
    FieldsCons(b, c);
    FieldsOfWord(c);
  }

  lemma JoinOfFour(a: string, b: string, c: string, d: string)
    requires IsWord(a) && IsWord(b) && IsWord(c) && IsWord(d)
    ensures AllWords([a, b, c, d])
    ensures Join([a, b, c, d], " ") == a + " " + b + " " + c + " " + d
  {
    Join3(a, b, c, " ");
    JoinAppend([a, b, c], [d], " ");
    assert [a, b, c] + [d] == [a, b, c, d];
  }

  lemma OneWord(w: string)
    requires IsWord(w)
    ensures AllWords([w]) && Join([w], " ") == w
  {
  }

  lemma JoinOfThree(a: string, b: string, c: string)
    requires IsWord(a) && IsWord(b) && IsWord(c)
    ensures AllWords([a, b, c])
    ensures Join([a, b, c], " ") == a + " " + b + " " + c
  {
    Join3(a, b, c, " ");
  }

  /** Two runs of words joined into one. */
  lemma JoinSplit(ts: seq<string>, us: seq<string>)
    requires |ts| > 0 && |us| > 0 && AllWords(ts) && AllWords(us)
    ensures AllWords(ts + us)
    ensures Join(ts + us, " ") == Join(ts, " ") + " " + Join(us, " ")
  {
    JoinAppend(ts, us, " ");
  }

  /** Text without a hyphen. */
  predicate NoHyphen(s: string) {
    forall i :: 0 <= i < |s| ==> s[i] != '-'
  }

  lemma NoHyphenJoin(a: string, b: string)
    requires NoHyphen(a) && NoHyphen(b)
    ensures NoHyphen(a + " " + b)
  {
    var t := a + " " + b;
    forall i | 0 <= i < |t| ensures t[i] != '-' {
      if i < |a| { assert t[i] == a[i]; }
      else if i > |a| { assert t[i] == b[i - |a| - 1]; }
    }
  }

  /** A title without a hyphen holds no separator, not even with the start
      of one after it. */
  lemma TitleWithoutSeparator(s: string)
    requires NoHyphen(s)
    ensures !Contains(s, Separator) && !Contains(s + " --", Separator)
  {
    NoSeparatorWithoutHyphen(s);
  }

  // The texts, split into their words.

  lemma ShortText()
    ensures "start SEV0" == "start" + " " + "SEV0"
  {
  }

  lemma NoTitleText()
    ensures "start SEV0 incident" == "start" + " " + "SEV0" + " " + "incident"
  {
  }

  lemma StopText()
    ensures "stop SEV0 incident test" == "stop" + " " + "SEV0" + " " + "incident" + " " + "test"
  {
  }

  lemma Sev6Text()
    ensures "start SEV6 incident test" == "start" + " " + "SEV6" + " " + "incident" + " " + "test"
  {
  }

  lemma SwappedText()
    ensures "start SEV0 test incident" == "start" + " " + "SEV0" + " " + "test" + " " + "incident"
  {
  }

  lemma WebsiteText()
    ensures "start SEV0 incident the website is down" == "start SEV0 incident " + "the website is down"
  {
  }

  lemma WebsiteHead()
    ensures "start SEV0 incident " == "start " + "SEV0" + " incident "
  {
  }

  lemma WebsiteTitle()
    ensures "the website is down" == "the" + " " + "website" + " " + "is" + " " + "down"
  {
  }

  lemma OutageText()
    ensures "start sev1 incident outage" == "start " + "sev1" + " incident " + "outage"
  {
  }

  // The longer texts of the examples, spelled word by word: the single
  // words and spaces concatenate to the test texts.

  const DatabaseIssues := "database" + " " + "connection" + " " + "issues"
  const LongTitle := DatabaseIssues + " " + "causing" + " " + ("slow" + " " + "response" + " " + "times")
  const LongTitleCommand := "start " + "SEV1" + " incident " + LongTitle

  const WebsiteIsDown := "the" + " " + "website" + " " + "is" + " " + "down"
  const WebsiteDescription := "Users" + " " + "cannot" + " " + "access" + " " + "the"
    + " " + ("main" + " " + "application," + " " + "500" + " " + "errors")
  const WebsiteDescribedCommand := "start " + "SEV0" + " incident " + WebsiteIsDown + Separator + WebsiteDescription

  const PoolDescription := "Connection" + " " + "pool" + " " + "exhausted,"
    + " " + ("affecting" + " " + "all" + " " + "users")
  const DatabaseDescribedCommand := "start " + "SEV1" + " incident " + DatabaseIssues + Separator + PoolDescription

  lemma DatabaseNoHyphen()
    ensures NoHyphen(DatabaseIssues) && NoHyphen(LongTitle)
  {
    NoHyphenJoin("database", "connection");
    NoHyphenJoin("database" + " " + "connection", "issues");
    NoHyphenJoin(DatabaseIssues, "causing");
    NoHyphenJoin("slow", "response");
    NoHyphenJoin("slow" + " " + "response", "times");
    NoHyphenJoin(DatabaseIssues + " " + "causing", "slow" + " " + "response" + " " + "times");
  }

  lemma WebsiteNoHyphen()
    ensures NoHyphen(WebsiteIsDown)
  {
    NoHyphenJoin("the", "website");
    NoHyphenJoin("the" + " " + "website", "is");
    NoHyphenJoin("the" + " " + "website" + " " + "is", "down");
  }

  lemma Sev1Upper()
    ensures ToUpper("SEV1") == "SEV1"
  {
  }

  lemma Sev0Upper()
    ensures ToUpper("SEV0") == "SEV0"
  {
  }

  lemma Sev6Upper()
    ensures ToUpper("SEV6") == "SEV6" && "SEV6" !in Severities
  {
  }

  lemma WebsiteNoSeparator()
    ensures !Contains("the website is down", Separator)
  {
    NoSeparatorWithoutHyphen("the website is down");
  }

  // The examples.

  /** Two fields are too few. */
  lemma InsufficientExample()
    ensures ParseCommand("start SEV0") == Failure(InsufficientArguments)
  {
    hide Fields, IsWord, Parse, Join, ToUpper;
    PrintableWord("start");
    PrintableWord("SEV0");
    FieldsOfTwo("start", "SEV0");
    ShortText();
    ParseErrorOrder(Severities, "start SEV0");
  }

  /** A command with no title words fails on the field count, before the
      title check is reached. */
  lemma NoTitleExample()
    ensures ParseCommand("start SEV0 incident") == Failure(InsufficientArguments)
  {
    hide Fields, IsWord, Parse, Join, ToUpper;
    PrintableWord("start");
    PrintableWord("SEV0");
    PrintableWord("incident");
    FieldsOfThree("start", "SEV0", "incident");
    NoTitleText();
    ParseErrorOrder(Severities, "start SEV0 incident");
  }

  lemma UnknownActionExample()
    ensures ParseCommand("stop SEV0 incident test") == Failure(UnknownAction("stop"))
  {
    hide Fields, IsWord, Parse, Join, ToUpper;
    PrintableWord("stop");
    PrintableWord("SEV0");
    PrintableWord("incident");
    PrintableWord("test");
    FieldsOfFour("stop", "SEV0", "incident", "test");
    StopText();
    ParseErrorOrder(Severities, "stop SEV0 incident test");
  }

  lemma InvalidSeverityExample()
    ensures ParseCommand("start SEV6 incident test") == Failure(InvalidSeverity("SEV6"))
  {
    hide Fields, IsWord, Parse, Join;
    PrintableWord("start");
    PrintableWord("SEV6");
    PrintableWord("incident");
    PrintableWord("test");
    FieldsOfFour("start", "SEV6", "incident", "test");
    Sev6Text();
    Sev6Upper();
    ParseErrorOrder(Severities, "start SEV6 incident test");
  }

  lemma MissingKeywordExample()
    ensures ParseCommand("start SEV0 test incident") == Failure(MissingIncidentKeyword("test"))
  {
    hide Fields, IsWord, Parse, Join;
    PrintableWord("start");
    PrintableWord("SEV0");
    PrintableWord("incident");
    PrintableWord("test");
    FieldsOfFour("start", "SEV0", "test", "incident");
    SwappedText();
    Sev0Upper();
    ParseErrorOrder(Severities, "start SEV0 test incident");
  }

  lemma WebsiteDownExample()
    ensures ParseCommand("start SEV0 incident the website is down")
         == Success(Command("start", "SEV0", "the website is down", "", "", ""))
  {
    hide Fields, IsWord, Parse, Join, Contains, AllWords;
    PrintableWord("SEV0");
    PrintableWord("the");
    PrintableWord("website");
    PrintableWord("is");
    PrintableWord("down");
    JoinOfFour("the", "website", "is", "down");
    WebsiteText();
    WebsiteHead();
    WebsiteTitle();
    WebsiteNoSeparator();
    Sev0Upper();
    ParsePlainText(Severities, "SEV0", ["the", "website", "is", "down"]);
  }

  /** A lower-case severity is accepted and comes back upper-cased. */
  lemma LowerCaseSeverityExample()
    ensures ParseCommand("start sev1 incident outage")
         == Success(Command("start", "SEV1", "outage", "", "", ""))
  {
    hide Fields, IsWord, Parse, Join, Contains, AllWords;
    PrintableWord("sev1");
    PrintableWord("outage");
    OutageText();
    NoSeparatorWithoutHyphen("outage");
    assert ToUpper("sev1") == "SEV1";
    OneWord("outage");
    ParsePlainText(Severities, "sev1", ["outage"]);
  }

  /** A seven-word title is kept whole. */
  lemma LongTitleExample()
    ensures ParseCommand(LongTitleCommand) == Success(Command("start", "SEV1", LongTitle, "", "", ""))
  {
    hide Fields, IsWord, Parse, Join, Contains, AllWords, NoHyphen;
    PrintableWord("SEV1");
    PrintableWord("database");
    PrintableWord("connection");
    PrintableWord("issues");
    PrintableWord("causing");
    PrintableWord("slow");
    PrintableWord("response");
    PrintableWord("times");
    JoinOfFour("database", "connection", "issues", "causing");
    JoinOfThree("slow", "response", "times");
    JoinSplit(["database", "connection", "issues", "causing"], ["slow", "response", "times"]);
    DatabaseNoHyphen();
    TitleWithoutSeparator(LongTitle);
    Sev1Upper();
    ParsePlainText(Severities, "SEV1", ["database", "connection", "issues", "causing"] + ["slow", "response", "times"]);
  }

  /** The text after " -- " is the description. */
  lemma WebsiteDescribedExample()
    ensures ParseCommand(WebsiteDescribedCommand) == Success(Command("start", "SEV0", WebsiteIsDown, WebsiteDescription, "", ""))
  {
    hide Fields, IsWord, Parse, Join, Contains, AllWords, NoHyphen;
    PrintableWord("SEV0");
    PrintableWord("the");
    PrintableWord("website");
    PrintableWord("is");
    PrintableWord("down");
    PrintableWord("Users");
    PrintableWord("cannot");
    PrintableWord("access");
    PrintableWord("main");
    PrintableWord("application,");
    PrintableWord("500");
    PrintableWord("errors");
    JoinOfFour("the", "website", "is", "down");
    JoinOfFour("Users", "cannot", "access", "the");
    JoinOfFour("main", "application,", "500", "errors");
    JoinSplit(["Users", "cannot", "access", "the"], ["main", "application,", "500", "errors"]);
    WebsiteNoHyphen();
    TitleWithoutSeparator(WebsiteIsDown);
    Sev0Upper();
    ParseDescribedText(Severities, "SEV0", ["the", "website", "is", "down"],
      ["Users", "cannot", "access", "the"] + ["main", "application,", "500", "errors"]);
  }

  lemma DatabaseDescribedExample()
    ensures ParseCommand(DatabaseDescribedCommand) == Success(Command("start", "SEV1", DatabaseIssues, PoolDescription, "", ""))
  {
    hide Fields, IsWord, Parse, Join, Contains, AllWords, NoHyphen;
    PrintableWord("SEV1");
    PrintableWord("database");
    PrintableWord("connection");
    PrintableWord("issues");
    PrintableWord("Connection");
    PrintableWord("pool");
    PrintableWord("exhausted,");
    PrintableWord("affecting");
    PrintableWord("all");
    PrintableWord("users");
    JoinOfThree("database", "connection", "issues");
    JoinOfThree("Connection", "pool", "exhausted,");
    JoinOfThree("affecting", "all", "users");
    JoinSplit(["Connection", "pool", "exhausted,"], ["affecting", "all", "users"]);
    DatabaseNoHyphen();
    TitleWithoutSeparator(DatabaseIssues);
    Sev1Upper();
    ParseDescribedText(Severities, "SEV1", ["database", "connection", "issues"],
      ["Connection", "pool", "exhausted,"] + ["affecting", "all", "users"]);
  }

  /** `isValidSeverity` on the seven values of the package's table: the four
      severities are valid, and "SEV4", "sev0" and "" are not. */
  method ValidSeverityTable() returns (r: seq<bool>)
    ensures r == [true, true, true, true, false, false, false]
  {
    var v0 := IsValidSeverity("SEV0");
    var v1 := IsValidSeverity("SEV1");
    var v2 := IsValidSeverity("SEV2");
    var v3 := IsValidSeverity("SEV3");
    var v4 := IsValidSeverity("SEV4");
    var lower := IsValidSeverity("sev0");
    var empty := IsValidSeverity("");
    r := [v0, v1, v2, v3, v4, lower, empty];
  }
}
