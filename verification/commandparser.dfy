/**
 * The `/shift start <severity> incident <title> [-- <description>]` parser
 * shared by both copies of the incident package. The two copies differ only
 * in the closed set of severities they accept, which is a parameter here.
 *
 * The text is split into whitespace fields; four checks run in a fixed
 * order and the first that fails decides the error; then the fields after
 * "incident" are rejoined by single spaces and split at the first " -- "
 * into a title and a description, both trimmed.
 */
module CommandParser {
  import opened Wrappers
  import opened Strings

  /** A parsed slash command. The parser leaves the user fields empty; the
      Slack handler fills them in. */
  datatype Command = Command(
    action: string,
    severity: string,
    title: string,
    description: string,
    username: string,
    userID: string)

  /** The parser's errors, in the order the checks run. */
  datatype ParseError =
    | InsufficientArguments
    | UnknownAction(action: string)
    | InvalidSeverity(severity: string)
    | MissingIncidentKeyword(got: string)
    | EmptyTitle

  /** The text of each error as `fmt.Errorf` renders it. */
  function Message(e: ParseError): string {
    match e
    case InsufficientArguments => "insufficient arguments"
    case UnknownAction(a) => "unknown action: " + a
    case InvalidSeverity(s) => "invalid severity: " + s
    case MissingIncidentKeyword(g) => "expected 'incident' keyword, got: " + g
    case EmptyTitle => "incident title cannot be empty"
  }

  /** The first three letters of each error's text, which differ between
      the kinds of error. */
  function Head(e: ParseError): string {
    match e
    case InsufficientArguments => "ins"
    case UnknownAction(_) => "unk"
    case InvalidSeverity(_) => "inv"
    case MissingIncidentKeyword(_) => "exp"
    case EmptyTitle => "inc"
  }

  lemma MessageHead(e: ParseError)
    ensures |Message(e)| >= 3 && Message(e)[..3] == Head(e)
  {
    match e
    case InsufficientArguments =>
    case UnknownAction(a) => assert Message(e)[..3] == ("unknown action: " + a)[..3];
    case InvalidSeverity(v) => assert Message(e)[..3] == ("invalid severity: " + v)[..3];
    case MissingIncidentKeyword(g) => assert Message(e)[..3] == ("expected 'incident' keyword, got: " + g)[..3];
    case EmptyTitle =>
  }

  /** Different errors have different texts, so the text names the error,
      including the word it quotes. */
  lemma MessageDetermines(e1: ParseError, e2: ParseError)
    ensures Message(e1) == Message(e2) ==> e1 == e2
  {
    if Message(e1) == Message(e2) {
      MessageHead(e1);
      MessageHead(e2);
      assert Head(e1) == Head(e2);
      match e1
      case UnknownAction(a) =>
        assert a == Message(e1)[|"unknown action: "|..] == Message(e2)[|"unknown action: "|..];
      case InvalidSeverity(v) =>
        assert v == Message(e1)[|"invalid severity: "|..] == Message(e2)[|"invalid severity: "|..];
      case MissingIncidentKeyword(g) =>
        assert g == Message(e1)[|"expected 'incident' keyword, got: "|..] == Message(e2)[|"expected 'incident' keyword, got: "|..];
      case _ =>
    }
  }

  const Separator := " -- "

  /** `isValidSeverity`: a linear scan of the closed severity list. The
      comparison is exact, so case matters. */
  method IsValidIn(valid: seq<string>, s: string) returns (ok: bool)
    ensures ok <==> s in valid
  {
    ok := false;
    var i := 0;
    while i < |valid|
      invariant 0 <= i <= |valid|
      invariant !ok <==> s !in valid[..i]
    {
      if s == valid[i] {
        assert s in valid[..i + 1];
        return true;
      }
      assert valid[..i + 1] == valid[..i] + [valid[i]];
      i := i + 1;
    }
    assert valid[..i] == valid;
  }

  /** The title and description carried by the text after "incident": the
      whole text and "" without a separator, otherwise the trimmed halves
      around the first separator. */
  function SplitTitle(rest: string): (r: (string, string))
    ensures NoEdgeSpace(r.1)
    ensures !Contains(rest, Separator) ==> r == (rest, "")
  {
    match Find(rest, Separator)
    case None => (rest, "")
    case Some(i) => (TrimSpace(rest[..i]), TrimSpace(rest[i + |Separator|..]))
  }

  /** `ParseCommand`, for the severity list `valid`. */
  function Parse(valid: seq<string>, text: string): (r: Result<Command, ParseError>)
    ensures r.Success? ==> r.value.action == "start" && r.value.severity in valid
    ensures r.Success? ==> r.value.title != [] && NoEdgeSpace(r.value.title) && NoEdgeSpace(r.value.description)
    ensures r.Success? ==> r.value.username == "" && r.value.userID == ""
  {
    var parts := Fields(text);
    if |parts| < 4 then Failure(InsufficientArguments)
    else if parts[0] != "start" then Failure(UnknownAction(parts[0]))
    else if ToUpper(parts[1]) !in valid then Failure(InvalidSeverity(parts[1]))
    else if parts[2] != "incident" then Failure(MissingIncidentKeyword(parts[2]))
    else
      var rest := Join(parts[3..], " ");
      JoinOfWords(parts[3..]);
      var split := SplitTitle(rest);
      if split.0 == "" then Failure(EmptyTitle)
      else
        assert NoEdgeSpace(split.0) by {
          if Contains(rest, Separator) {
            var i := Find(rest, Separator).value;
            assert split.0 == TrimSpace(rest[..i]);
          }
        }
        Success(Command("start", ToUpper(parts[1]), split.0, split.1, "", ""))
  }

  // ---------------------------------------------------------------------
  // The empty-title error cannot happen
  // ---------------------------------------------------------------------

  /** Text that starts with a non-space character keeps a non-empty title
      whatever follows the first separator. */
  lemma SplitTitleNonEmpty(rest: string)
    requires rest != [] && !IsSpace(rest[0])
    ensures SplitTitle(rest).0 != []
  {
    match Find(rest, Separator)
    case None =>
    case Some(i) =>
      assert rest[i] == ' ';
      assert i > 0;
      var head := rest[..i];
      assert head[0] == rest[0];
      assert !(forall k :: 0 <= k < |head| ==> IsSpace(head[k]));
  }

  /** The fields after "incident" rejoin to text starting with a non-space
      character, so the title check at the end never fails. */
  lemma TitleNeverEmpty(valid: seq<string>, text: string)
    ensures Parse(valid, text) != Failure(EmptyTitle)
  {
    var parts := Fields(text);
    if |parts| >= 4 {
      JoinOfWords(parts[3..]);
      var rest := Join(parts[3..], " ");
      assert !IsSpace(rest[0]);
      SplitTitleNonEmpty(rest);
    }
  }

  /** Parsing succeeds exactly when the four checks pass. */
  lemma ParseSucceedsIff(valid: seq<string>, text: string)
    ensures var parts := Fields(text);
            Parse(valid, text).Success? <==>
              |parts| >= 4 && parts[0] == "start" && ToUpper(parts[1]) in valid && parts[2] == "incident"
  {
    TitleNeverEmpty(valid, text);
  }

  /** The checks run in order and the first failing one decides the error. */
  lemma ParseErrorOrder(valid: seq<string>, text: string)
    ensures var parts := Fields(text);
            |parts| < 4 <==> Parse(valid, text) == Failure(InsufficientArguments)
    ensures var parts := Fields(text);
            |parts| >= 4 ==>
              (parts[0] != "start" <==> Parse(valid, text) == Failure(UnknownAction(parts[0])))
    ensures var parts := Fields(text);
            |parts| >= 4 && parts[0] == "start" ==>
              (ToUpper(parts[1]) !in valid <==> Parse(valid, text) == Failure(InvalidSeverity(parts[1])))
    ensures var parts := Fields(text);
            |parts| >= 4 && parts[0] == "start" && ToUpper(parts[1]) in valid ==>
              (parts[2] != "incident" <==> Parse(valid, text) == Failure(MissingIncidentKeyword(parts[2])))
  {
  }

  /** Widening the severity list keeps every accepted command as it was;
      the only results that change are severity errors. */
  lemma ParseWidens(narrow: seq<string>, wide: seq<string>, text: string)
    requires forall s :: s in narrow ==> s in wide
    ensures Parse(narrow, text).Success? ==> Parse(wide, text) == Parse(narrow, text)
    ensures Parse(narrow, text) != Parse(wide, text) ==> Parse(narrow, text).Failure? && Parse(narrow, text).error.InvalidSeverity?
  {
  }

  // ---------------------------------------------------------------------
  // Round trips
  // ---------------------------------------------------------------------

  /** The command text made of a severity token, title words and optional
      description words. */
  function CommandText(token: string, titleWords: seq<string>, descWords: seq<string>): string {
    Join(["start", token, "incident"] + Remainder(titleWords, descWords), " ")
  }

  /** The fields after "incident": the title words, then "--" and the
      description words when there is a description. */
  function Remainder(titleWords: seq<string>, descWords: seq<string>): seq<string> {
    titleWords + (if descWords == [] then [] else ["--"] + descWords)
  }

  predicate AllWords(ws: seq<string>) {
    forall i :: 0 <= i < |ws| ==> IsWord(ws[i])
  }

  lemma RemainderPlain(ts: seq<string>)
    ensures Remainder(ts, []) == ts
  {
    assert ts + [] == ts;
  }

  lemma RemainderDescribed(ts: seq<string>, ds: seq<string>)
    requires ds != []
    ensures Remainder(ts, ds) == ts + (["--"] + ds)
  {
  }

  /** When the four checks pass, the result is the command built from the
      split of the rejoined remainder. */
  lemma ParseAccepts(valid: seq<string>, text: string)
    requires var parts := Fields(text);
             |parts| >= 4 && parts[0] == "start" && ToUpper(parts[1]) in valid && parts[2] == "incident"
    ensures var parts := Fields(text); var split := SplitTitle(Join(parts[3..], " "));
            Parse(valid, text) == Success(Command("start", ToUpper(parts[1]), split.0, split.1, "", ""))
  {
    TitleNeverEmpty(valid, text);
  }

  /** Fields of a command text are the words it was made from. */
  lemma FieldsOfCommandText(token: string, ts: seq<string>, ds: seq<string>)
    requires IsWord(token) && AllWords(ts) && AllWords(ds)
    ensures Fields(CommandText(token, ts, ds)) == ["start", token, "incident"] + Remainder(ts, ds)
  {
    var all := ["start", token, "incident"] + Remainder(ts, ds);
    assert IsWord("start") && IsWord("incident") && IsWord("--");
    assert forall i :: 0 <= i < |all| ==> IsWord(all[i]);
    FieldsOfJoin(all);
  }

  /** Without a description: the title words come back joined by single
      spaces, and the severity token upper-cased. */
  lemma ParsePlain(valid: seq<string>, token: string, ts: seq<string>)
    requires IsWord(token) && ToUpper(token) in valid
    requires |ts| > 0 && AllWords(ts)
    requires !Contains(Join(ts, " "), Separator)
    ensures Parse(valid, CommandText(token, ts, []))
         == Success(Command("start", ToUpper(token), Join(ts, " "), "", "", ""))
  {
    FieldsOfCommandText(token, ts, []);
    ParseAccepts(valid, CommandText(token, ts, []));
    hide *;
    var parts := ["start", token, "incident"] + Remainder(ts, []);
    assert parts[3..] == Remainder(ts, []);
    RemainderPlain(ts);
  }

  /** With a description: the split falls on the separator the text was
      built with, provided the title does not run into an earlier one. */
  lemma ParseDescribed(valid: seq<string>, token: string, ts: seq<string>, ds: seq<string>)
    requires IsWord(token) && ToUpper(token) in valid
    requires |ts| > 0 && AllWords(ts) && |ds| > 0 && AllWords(ds)
    requires !Contains(Join(ts, " ") + " --", Separator)
    ensures Parse(valid, CommandText(token, ts, ds))
         == Success(Command("start", ToUpper(token), Join(ts, " "), Join(ds, " "), "", ""))
  {
    FieldsOfCommandText(token, ts, ds);
    ParseAccepts(valid, CommandText(token, ts, ds));
    hide *;
    var parts := ["start", token, "incident"] + Remainder(ts, ds);
    assert parts[3..] == Remainder(ts, ds);
    RemainderDescribed(ts, ds);
    SplitDescribed(ts, ds);
  }

  /** The command text spelled out, without a description. */
  lemma CommandTextPlain(token: string, ts: seq<string>)
    requires ts != []
    ensures CommandText(token, ts, []) == "start " + token + " incident " + Join(ts, " ")
  {
    RemainderPlain(ts);
    JoinAppend(["start", token, "incident"], ts, " ");
    Join3("start", token, "incident", " ");
  }

  /** The command text spelled out, with a description. */
  lemma CommandTextDescribed(token: string, ts: seq<string>, ds: seq<string>)
    requires ts != [] && ds != []
    ensures CommandText(token, ts, ds)
         == "start " + token + " incident " + Join(ts, " ") + Separator + Join(ds, " ")
  {
    RemainderDescribed(ts, ds);
    assert CommandText(token, ts, ds) == Join(["start", token, "incident"] + (ts + (["--"] + ds)), " ");
    JoinAppend(["start", token, "incident"], ts + (["--"] + ds), " ");
    JoinAppend(ts, ["--"] + ds, " ");
    JoinAppend(["--"], ds, " ");
    Join3("start", token, "incident", " ");
    assert Join(["--"], " ") == "--";
    SpacedLiterals();
    hide *;
    Regroup("start", token, "incident", Join(ts, " "), "--", Join(ds, " "), " ", "start ", " incident ", Separator);
  }

  /** The fixed words with the spaces around them. */
  lemma SpacedLiterals()
    ensures "start" + " " == "start "
    ensures " " + "incident" + " " == " incident "
    ensures " " + "--" + " " == Separator
  {
  }

  /** The separators between the fields, regrouped. */
  lemma Regroup(a: string, b: string, c: string, t: string, m: string, d: string, sp: string, a': string, c': string, m': string)
    requires a + sp == a' && sp + c + sp == c' && sp + m + sp == m'
    ensures a + sp + b + sp + c + sp + (t + sp + (m + sp + d)) == a' + b + c' + t + m' + d
  {
  }

  /** `ParsePlain` on the spelled-out text. */
  lemma ParsePlainText(valid: seq<string>, token: string, ts: seq<string>)
    requires IsWord(token) && ToUpper(token) in valid
    requires |ts| > 0 && AllWords(ts)
    requires !Contains(Join(ts, " "), Separator)
    ensures Parse(valid, "start " + token + " incident " + Join(ts, " "))
         == Success(Command("start", ToUpper(token), Join(ts, " "), "", "", ""))
  {
    CommandTextPlain(token, ts);
    ParsePlain(valid, token, ts);
  }

  /** `ParseDescribed` on the spelled-out text. */
  lemma ParseDescribedText(valid: seq<string>, token: string, ts: seq<string>, ds: seq<string>)
    requires IsWord(token) && ToUpper(token) in valid
    requires |ts| > 0 && AllWords(ts) && |ds| > 0 && AllWords(ds)
    requires !Contains(Join(ts, " ") + " --", Separator)
    ensures Parse(valid, "start " + token + " incident " + Join(ts, " ") + Separator + Join(ds, " "))
         == Success(Command("start", ToUpper(token), Join(ts, " "), Join(ds, " "), "", ""))
  {
    CommandTextDescribed(token, ts, ds);
    ParseDescribed(valid, token, ts, ds);
  }

  /** Text without a hyphen holds no separator, even with " --" after it. */
  lemma NoSeparatorWithoutHyphen(s: string)
    requires forall i :: 0 <= i < |s| ==> s[i] != '-'
    ensures !Contains(s, Separator) && !Contains(s + " --", Separator)
  {
    var t := s + " --";
    forall j ensures !OccursAt(t, Separator, j) {
      if 0 <= j && j + 4 <= |t| {
        if j + 1 < |s| {
          assert t[j..j + 4][1] == s[j + 1];
        } else {
          assert t[j..j + 4][3] == '-';
        }
      }
    }
    forall j ensures !OccursAt(s, Separator, j) {
      if 0 <= j && j + 4 <= |s| {
        assert s[j..j + 4][1] == s[j + 1];
      }
    }
  }

  /** The rejoined text after "incident" splits back into the title words
      and the description words. */
  lemma SplitDescribed(ts: seq<string>, ds: seq<string>)
    requires |ts| > 0 && AllWords(ts) && |ds| > 0 && AllWords(ds)
    requires !Contains(Join(ts, " ") + " --", Separator)
    ensures SplitTitle(Join(ts + (["--"] + ds), " ")) == (Join(ts, " "), Join(ds, " "))
  {
    JoinDescribed(ts, ds);
    JoinOfWords(ts);
    JoinOfWords(ds);
    SplitAtSeparator(Join(ts, " "), Join(ds, " "));
  }

  /** Rejoining the words around "--" puts the separator between the title
      and the description. */
  lemma JoinDescribed(ts: seq<string>, ds: seq<string>)
    requires |ts| > 0 && |ds| > 0
    ensures Join(ts + (["--"] + ds), " ") == Join(ts, " ") + Separator + Join(ds, " ")
  {
    JoinAppend(ts, ["--"] + ds, " ");
    JoinAppend(["--"], ds, " ");
  }

  /** A title without an earlier separator and without edge spaces splits
      off the description that follows the first separator. */
  lemma SplitAtSeparator(title: string, desc: string)
    requires !Contains(title + " --", Separator)
    requires NoEdgeSpace(title) && NoEdgeSpace(desc)
    ensures SplitTitle(title + Separator + desc) == (title, desc)
  {
    var rest := title + Separator + desc;
    assert Separator[..|Separator| - 1] == " --";
    FindAfter(title, Separator, desc);
    assert rest[..|title|] == title;
    assert rest[|title| + |Separator|..] == desc;
  }

}
