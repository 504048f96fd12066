/**
 * The slug and channel-name cases of the incident package's tests, derived
 * from the general laws of `Naming` rather than by evaluation: each title is
 * described as its words and the gaps between them, and each literal fact
 * is kept to a few characters.
 */
module NamingExamples {
  import opened Strings
  import opened Naming
  import Clock

  /** 2024-12-01 14:30:52, the instant the channel-name cases start at. */
  const TestTime := Clock.DateTime(2024, 12, 1, 14, 30, 52)

  // ---------------------------------------------------------------------
  // Shapes of small interleavings
  // ---------------------------------------------------------------------

  lemma Interleave2(a: string, b: string, g: string)
    ensures Interleave([a, b], [g]) == a + g + b
  {
    assert [a, b][1..] == [b];
  }

  lemma Interleave3(a: string, b: string, c: string, g: string, h: string)
    ensures Interleave([a, b, c], [g, h]) == a + g + b + h + c
  {
    assert [a, b, c][1..] == [b, c];
    assert [g, h][1..] == [h];
    Interleave2(b, c, h);
    assert Interleave([a, b, c], [g, h]) == a + g + (b + h + c);
  }

  lemma Interleave4(a: string, b: string, c: string, d: string, g: string, h: string, k: string)
    ensures Interleave([a, b, c, d], [g, h, k]) == a + g + b + h + c + k + d
  {
    assert [a, b, c, d][1..] == [b, c, d];
    assert [g, h, k][1..] == [h, k];
    Interleave3(b, c, d, h, k);
    assert Interleave([a, b, c, d], [g, h, k]) == a + g + (b + h + c + k + d);
  }

  /** Words separated by single spaces interleave to their join. */
  lemma {:induction false} InterleaveSpaced(ws: seq<string>, gs: seq<string>)
    requires |ws| == |gs| + 1
    requires forall i :: 0 <= i < |gs| ==> gs[i] == " "
    ensures Interleave(ws, gs) == Join(ws, " ")
    decreases |gs|
  {
    if |gs| > 0 {
      InterleaveSpaced(ws[1..], gs[1..]);
    }
  }

  // ---------------------------------------------------------------------
  // Slugs of short titles. Each literal fact is a lemma of its own; the
  // cases combine them with everything else hidden.
  // ---------------------------------------------------------------------

  lemma WebsiteDownLower()
    ensures ToLower("website down") == "" + ("website" + " " + "down") + ""
  {
  }

  lemma WebsiteDownWords()
    ensures IsSlugWord("website") && IsSlugWord("down") && IsGap(" ")
  {
  }

  lemma WebsiteDownJoined()
    ensures "website" + "-" + "down" == "website-down" && |"website-down"| <= SlugLimit
  {
  }

  lemma SlugWebsiteDown()
    ensures Slug("website down") == "website-down"
  {
    WebsiteDownLower();
    WebsiteDownWords();
    WebsiteDownJoined();
    Interleave2("website", "down", " ");
    Join2("website", "down", "-");
    hide *;
    SlugOfWords("website down", "", ["website", "down"], [" "], "");
  }

  lemma DatabaseLower()
    ensures ToLower("Database Connection Issues!") == "database connection issues!"
  {
  }

  lemma DatabaseParts()
    ensures "database connection issues!" == "" + ("database" + " " + "connection" + " " + "issues") + "!"
  {
  }

  lemma DatabaseWords()
    ensures IsSlugWord("database") && IsSlugWord("connection") && IsSlugWord("issues")
  {
  }

  lemma DatabaseGaps()
    ensures IsGap(" ") && IsGap("!")
  {
  }

  lemma DatabaseJoined()
    ensures "database" + "-" + "connection" + "-" + "issues" == "database-connection-issues"
  {
  }

  lemma DatabaseFits()
    ensures |"database-connection-issues"| <= SlugLimit
  {
  }

  lemma SlugDatabaseIssues()
    ensures Slug("Database Connection Issues!") == "database-connection-issues"
  {
    DatabaseLower();
    DatabaseParts();
    DatabaseWords();
    DatabaseGaps();
    DatabaseJoined();
    DatabaseFits();
    Interleave3("database", "connection", "issues", " ", " ");
    Join3("database", "connection", "issues", "-");
    hide *;
    SlugOfWords("Database Connection Issues!", "", ["database", "connection", "issues"], [" ", " "], "!");
  }

  lemma ApiLower()
    ensures ToLower("API v2.1 failing") == "api v2.1 failing"
  {
  }

  lemma ApiParts()
    ensures "api v2.1 failing" == "" + ("api" + " " + "v2" + "." + "1" + " " + "failing") + ""
  {
  }

  lemma ApiWords()
    ensures IsSlugWord("api") && IsSlugWord("v2") && IsSlugWord("1") && IsSlugWord("failing")
  {
  }

  lemma ApiGaps()
    ensures IsGap(" ") && IsGap(".")
  {
  }

  lemma ApiJoined()
    ensures "api" + "-" + "v2" + "-" + ("1" + "-" + "failing") == "api-v2-1-failing"
  {
  }

  lemma ApiFits()
    ensures |"api-v2-1-failing"| <= SlugLimit
  {
  }

  lemma ApiList()
    ensures ["api", "v2"] + ["1", "failing"] == ["api", "v2", "1", "failing"]
  {
  }

  /** A dot separates words like a space does. */
  lemma SlugApiFailing()
    ensures Slug("API v2.1 failing") == "api-v2-1-failing"
  {
    ApiLower();
    ApiParts();
    ApiWords();
    ApiGaps();
    ApiJoined();
    ApiFits();
    ApiList();
    Interleave4("api", "v2", "1", "failing", " ", ".", " ");
    JoinAppend(["api", "v2"], ["1", "failing"], "-");
    Join2("api", "v2", "-");
    Join2("1", "failing", "-");
    hide *;
    SlugOfWords("API v2.1 failing", "", ["api", "v2", "1", "failing"], [" ", ".", " "], "");
  }

  lemma SpacesLower()
    ensures ToLower("  multiple   spaces  ") == "  multiple   spaces  "
  {
  }

  lemma SpacesParts()
    ensures "  multiple   spaces  " == "  " + ("multiple" + "   " + "spaces") + "  "
  {
  }

  lemma SpacesWords()
    ensures IsSlugWord("multiple") && IsSlugWord("spaces") && IsGap("  ") && IsGap("   ")
  {
  }

  lemma SpacesJoined()
    ensures "multiple" + "-" + "spaces" == "multiple-spaces" && |"multiple-spaces"| <= SlugLimit
  {
  }

  /** Runs of spaces inside and around the title leave single hyphens. */
  lemma SlugMultipleSpaces()
    ensures Slug("  multiple   spaces  ") == "multiple-spaces"
  {
    SpacesLower();
    SpacesParts();
    SpacesWords();
    SpacesJoined();
    Interleave2("multiple", "spaces", "   ");
    Join2("multiple", "spaces", "-");
    hide *;
    SlugOfWords("  multiple   spaces  ", "  ", ["multiple", "spaces"], ["   "], "  ");
  }

  lemma EdgeLower()
    ensures ToLower("-test-") == "-" + "test" + "-"
  {
  }

  lemma EdgeWords()
    ensures IsSlugWord("test") && IsGap("-") && |"test"| <= SlugLimit
  {
  }

  /** Hyphens at the ends of the title are trimmed. */
  lemma SlugEdgeHyphens()
    ensures Slug("-test-") == "test"
  {
    EdgeLower();
    EdgeWords();
    assert Interleave(["test"], []) == "test";
    assert Join(["test"], "-") == "test";
    hide *;
    SlugOfWords("-test-", "-", ["test"], [], "-");
  }

  // ---------------------------------------------------------------------
  // Slugs of long titles. A long title is written as three pieces whose
  // lower-case forms are the word groups the slug is made of.
  // ---------------------------------------------------------------------

  /** Three groups of words joined: each later group brings its separator. */
  lemma JoinGroups(a: seq<string>, b: seq<string>, c: seq<string>, sep: string)
    requires a != [] && b != [] && c != []
    ensures Join(a + b + c, sep) == Join(a, sep) + (sep + Join(b, sep)) + (sep + Join(c, sep))
  {
    JoinAppend(a + b, c, sep);
    JoinAppend(a, b, sep);
  }

  /** A prefix of a three-piece string that ends inside the third piece. */
  lemma PrefixInThird(x: string, y: string, z: string, k: nat)
    requires k <= |z|
    ensures (x + y + z)[..|x| + |y| + k] == x + y + z[..k]
  {
  }

  const LongHead := "This is a" + " very long text" + " that should"

  const LongText := LongHead + " be truncated to prevent overly long slugs"

  const LongJoined := "this-is-a" + "-very-long-text" + "-that-should"

  const LongA := ["this", "is", "a"]
  const LongB := ["very", "long", "text"]
  const LongC := ["that", "should"]

  lemma LongLowerA()
    ensures ToLower("This is a") == "this is a"
  {
  }

  lemma LongLowerB()
    ensures ToLower(" very long text") == " very long text"
  {
  }

  lemma LongLowerC()
    ensures ToLower(" that should") == " that should"
  {
  }

  lemma LongSpacedA()
    ensures Join(LongA, " ") == "this is a"
  {
    Join3("this", "is", "a", " ");
  }

  lemma LongSpacedB()
    ensures " " + Join(LongB, " ") == " very long text"
  {
    Join3("very", "long", "text", " ");
  }

  lemma LongSpacedC()
    ensures " " + Join(LongC, " ") == " that should"
  {
    Join2("that", "should", " ");
  }

  lemma LongHyphenA()
    ensures Join(LongA, "-") == "this-is-a"
  {
    Join3("this", "is", "a", "-");
  }

  lemma LongHyphenB()
    ensures "-" + Join(LongB, "-") == "-very-long-text"
  {
    Join3("very", "long", "text", "-");
  }

  lemma LongHyphenC()
    ensures "-" + Join(LongC, "-") == "-that-should"
  {
    Join2("that", "should", "-");
  }

  lemma LongTextWords()
    ensures forall i :: 0 <= i < |LongA + LongB + LongC| ==> IsSlugWord((LongA + LongB + LongC)[i])
    ensures IsGap(" ")
  {
  }

  lemma LongJoinedShape()
    ensures |LongJoined| == 36 && LongJoined[29] == '-'
  {
  }

  lemma LongCutPiece()
    ensures "-that-should"[..5] == "-that"
  {
  }

  lemma LongCutSpelled()
    ensures "this-is-a" + "-very-long-text" + "-that" == "this-is-a-very-long-text-that"
  {
  }

  /** The lower-case title is the eight words with single spaces, followed
      by the lower-case tail. */
  lemma LongTextLower()
    ensures ToLower(LongText) == Join(LongA + LongB + LongC, " ") + ToLower(" be truncated to prevent overly long slugs")
  {
    ToLowerAppend(LongHead, " be truncated to prevent overly long slugs");
    ToLowerAppend("This is a" + " very long text", " that should");
    ToLowerAppend("This is a", " very long text");
    LongLowerA();
    LongLowerB();
    LongLowerC();
    LongSpacedA();
    LongSpacedB();
    LongSpacedC();
    JoinGroups(LongA, LongB, LongC, " ");
  }

  /** The eight words joined by hyphens pass 30 characters. */
  lemma LongTextJoined()
    ensures Join(LongA + LongB + LongC, "-") == LongJoined
  {
    LongHyphenA();
    LongHyphenB();
    LongHyphenC();
    JoinGroups(LongA, LongB, LongC, "-");
  }

  /** The over-long slug case: the eight words joined pass 30 characters,
      and the cut falls back to the hyphen at index 29. */
  lemma SlugLongText()
    ensures Slug(LongText) == "this-is-a-very-long-text-that"
  {
    var gs := seq(7, _ => " ");
    LongTextLower();
    LongTextWords();
    LongTextJoined();
    LongJoinedShape();
    InterleaveSpaced(LongA + LongB + LongC, gs);
    PrefixInThird("this-is-a", "-very-long-text", "-that-should", 5);
    LongCutPiece();
    LongCutSpelled();
    hide *;
    SlugOfLongWords(LongText, "", LongA + LongB + LongC, gs, ToLower(" be truncated to prevent overly long slugs"));
    TruncateAtHyphen(LongJoined, SlugLimit, SlugCutFloor, 29);
  }

  const TitleHead := "This is a" + " very long incident" + " title"

  const TitleTail := " that should be truncated to fit within Slack's channel name limits"
    + " and ensure it doesn't exceed the maximum allowed length"

  const LongTitle := TitleHead + TitleTail

  const LongTitleJoined := "this-is-a" + "-very-long-incident" + "-title"

  const TitleB := ["very", "long", "incident"]
  const TitleC := ["title"]

  lemma TitleLowerB()
    ensures ToLower(" very long incident") == " very long incident"
  {
  }

  lemma TitleLowerC()
    ensures ToLower(" title") == " title"
  {
  }

  lemma TitleSpacedB()
    ensures " " + Join(TitleB, " ") == " very long incident"
  {
    Join3("very", "long", "incident", " ");
  }

  lemma TitleHyphenB()
    ensures "-" + Join(TitleB, "-") == "-very-long-incident"
  {
    Join3("very", "long", "incident", "-");
  }

  lemma TitleSingle()
    ensures " " + Join(TitleC, " ") == " title" && "-" + Join(TitleC, "-") == "-title"
  {
  }

  lemma LongTitleWords()
    ensures forall i :: 0 <= i < |LongA + TitleB + TitleC| ==> IsSlugWord((LongA + TitleB + TitleC)[i])
    ensures IsGap(" ")
  {
  }

  lemma TitleJoinedShape()
    ensures |LongTitleJoined| == 34 && LongTitleJoined[28] == '-'
    ensures NoHyphenBetween(LongTitleJoined, 28, SlugLimit)
  {
  }

  lemma TitleCutPiece()
    ensures "-title"[..0] == ""
  {
  }

  lemma TitleCutSpelled()
    ensures "this-is-a" + "-very-long-incident" + "" == "this-is-a-very-long-incident"
  {
  }

  lemma LongTitleLower()
    ensures ToLower(LongTitle) == Join(LongA + TitleB + TitleC, " ") + ToLower(TitleTail)
  {
    ToLowerAppend(TitleHead, TitleTail);
    ToLowerAppend("This is a" + " very long incident", " title");
    ToLowerAppend("This is a", " very long incident");
    LongLowerA();
    TitleLowerB();
    TitleLowerC();
    LongSpacedA();
    TitleSpacedB();
    TitleSingle();
    JoinGroups(LongA, TitleB, TitleC, " ");
  }

  lemma LongTitleJoinedFacts()
    ensures Join(LongA + TitleB + TitleC, "-") == LongTitleJoined
  {
    LongHyphenA();
    TitleHyphenB();
    TitleSingle();
    JoinGroups(LongA, TitleB, TitleC, "-");
  }

  /** The long title of the channel-name cases: the slug is cut back to the
      hyphen at index 28. */
  lemma SlugLongTitle()
    ensures Slug(LongTitle) == "this-is-a-very-long-incident"
  {
    var gs := seq(6, _ => " ");
    LongTitleLower();
    LongTitleWords();
    LongTitleJoinedFacts();
    TitleJoinedShape();
    InterleaveSpaced(LongA + TitleB + TitleC, gs);
    PrefixInThird("this-is-a", "-very-long-incident", "-title", 0);
    TitleCutPiece();
    TitleCutSpelled();
    hide *;
    SlugOfLongWords(LongTitle, "", LongA + TitleB + TitleC, gs, ToLower(TitleTail));
    TruncateAtHyphen(LongTitleJoined, SlugLimit, SlugCutFloor, 28);
  }

  // ---------------------------------------------------------------------
  // Channel names
  // ---------------------------------------------------------------------

  lemma TestTimeFields()
    ensures Clock.Pad4(2024) == "2024" && Clock.Pad2(12) == "12" && Clock.Pad2(1) == "01"
    ensures Clock.Pad2(14) == "14" && Clock.Pad2(30) == "30" && Clock.Pad2(52) == "52"
  {
  }

  lemma StampOfTestTime()
    ensures Clock.Stamp(TestTime) == "20241201-143052"
  {
    TestTimeFields();
    assert Clock.Stamp(TestTime) == "2024" + "12" + "01" + "-" + "14" + "30" + "52";
    hide *;
    assert "2024" + "12" + "01" + "-" + "14" + "30" + "52" == "20241201-143052";
  }

  /** Every channel opened at the test instant starts with the same 21
      characters, followed by the slug. */
  lemma ChannelAtTestTime(title: string)
    ensures GenerateChannelName(title, TestTime) == "_inc-20241201-143052-" + Slug(title)
  {
    StampOfTestTime();
    hide Slug, Clock.Stamp;
    assert ChannelPrefix + "20241201-143052" + "-" == "_inc-20241201-143052-";
  }

  lemma ChannelWebsiteDown()
    ensures GenerateChannelName("website down", TestTime) == "_inc-20241201-143052-" + "website-down"
  {
    SlugWebsiteDown();
    ChannelAtTestTime("website down");
  }

  lemma ChannelDatabaseIssues()
    ensures GenerateChannelName("Database Connection Issues!", TestTime)
         == "_inc-20241201-143052-" + "database-connection-issues"
  {
    SlugDatabaseIssues();
    ChannelAtTestTime("Database Connection Issues!");
  }

  lemma ChannelApiFailing()
    ensures GenerateChannelName("API v2.1 failing", TestTime) == "_inc-20241201-143052-" + "api-v2-1-failing"
  {
    SlugApiFailing();
    ChannelAtTestTime("API v2.1 failing");
  }

  /** The long title: the slug is cut to "this-is-a-very-long-incident", and
      the whole name (49 characters) needs no further cut. */
  lemma ChannelLongTitle()
    ensures GenerateChannelName(LongTitle, TestTime) == "_inc-20241201-143052-" + "this-is-a-very-long-incident"
  {
    SlugLongTitle();
    ChannelAtTestTime(LongTitle);
  }
}
