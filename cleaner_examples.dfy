/** The replies listed in the cleaner's test table, and two replies that show what the
    cleaner does to text it was not written for, worked through the cleaner. */
module CleanerExamples {
  import opened Text
  import opened Cleaner

  /** The reply the service is asked for: a list of three question strings. */
  const QList: string := "[\"Q1\", \"Q2\", \"Q3\"]"

  lemma QListIsPlain()
    ensures QuotesSeparated(QList) && '`' !in QList
    ensures QList == "[\"Q1\", " + "\"Q2\", " + "\"Q3\"]"
  {
    forall i | 0 <= i < |QList| - 1 && QList[i] == '"'
      ensures QList[i + 1] != '"' && !IsSpace(QList[i + 1])
    {
      assert i == 1 || i == 4 || i == 7 || i == 10 || i == 13 || i == 16;
    }
  }

  /** Test case 1: the plain list is already clean. */
  lemma CleanPlainList()
    ensures Clean(QList) == QList
    ensures InsertCommas(QList) == QList
  {
    QListIsPlain();
    CleanUnchanged(QList);
    InsertCommasPrefix(QList, []);
    assert QList + [] == QList;
  }

  lemma EscapeFirst()
    ensures EscapeQuotes("[\"Q1\", ") == "[\\\"Q1\\\", "
  {
    assert EscapeQuotes(", ") == ", ";
    assert EscapeQuotes("\", ") == "\\\", ";
    assert EscapeQuotes("Q1\", ") == "Q1\\\", ";
  }

  lemma EscapeSecond()
    ensures EscapeQuotes("\"Q2\", ") == "\\\"Q2\\\", "
  {
  }

  lemma EscapeThird()
    ensures EscapeQuotes("\"Q3\"]") == "\\\"Q3\\\"]"
  {
  }

  lemma EscapePieces(a: string, b: string, c: string)
    requires a == "[\"Q1\", " && b == "\"Q2\", " && c == "\"Q3\"]"
    ensures EscapeQuotes(a + b + c) == "[\\\"Q1\\\", " + "\\\"Q2\\\", " + "\\\"Q3\\\"]"
  {
    EscapeAppend(a, b);
    EscapeAppend(a + b, c);
    EscapeFirst();
    EscapeSecond();
    EscapeThird();
  }

  /** Escaping the list puts a backslash before each of its six quotes. */
  lemma EscapeQList()
    ensures EscapeQuotes(QList) == "[\\\"Q1\\\", " + "\\\"Q2\\\", " + "\\\"Q3\\\"]"
  {
    QListIsPlain();
    EscapePieces("[\"Q1\", ", "\"Q2\", ", "\"Q3\"]");
  }

  lemma DoubleEncodedText()
    ensures "\"[\\\"Q1\\\", \\\"Q2\\\", \\\"Q3\\\"]\""
      == "\"" + ("[\\\"Q1\\\", " + "\\\"Q2\\\", " + "\\\"Q3\\\"]") + "\""
  {
  }

  /** Test case 2: the list sent back as a quoted string with escaped quotes. */
  lemma CleanDoubleEncodedList()
    ensures Clean("\"[\\\"Q1\\\", \\\"Q2\\\", \\\"Q3\\\"]\"") == QList
  {
    QListIsPlain();
    EscapeQList();
    DoubleEncodedText();
    CleanDoubleEncoded(QList);
    CleanPlainList();
  }

  lemma QListEnds()
    ensures QList[0] == '[' && QList[|QList| - 1] == ']'
  {
  }

  /** Test case 3: the list inside a fenced block tagged `json`, one line each. */
  lemma CleanFencedList()
    ensures Clean("```json\n" + QList + "\n```") == QList
  {
    QListIsPlain();
    QListEnds();
    CleanFenced(QList);
    CleanPlainList();
  }

  lemma MissingCommaText()
    ensures "[\"Q1\" \"Q2\", \"Q3\"]" == "[\"Q1" + "\"" + " " + "\"" + "Q2\", \"Q3\"]"
    ensures "[\"Q1" + "\", \"" + "Q2\", \"Q3\"]" == QList
  {
  }

  lemma MissingCommaPieces()
    ensures QuotesSeparated("[\"Q1") && '`' !in "[\"Q1"
    ensures QuotesSeparated("Q2\", \"Q3\"]") && '`' !in "Q2\", \"Q3\"]"
  {
    var r := "Q2\", \"Q3\"]";
    forall i | 0 <= i < |r| - 1 && r[i] == '"'
      ensures r[i + 1] != '"' && !IsSpace(r[i + 1])
    {
      assert i == 2 || i == 5 || i == 8;
    }
  }

  lemma MissingCommaCase(a: string, w: string, r: string)
    requires a == "[\"Q1" && w == " " && r == "Q2\", \"Q3\"]"
    ensures Clean(a + "\"" + w + "\"" + r) == a + "\", \"" + r
  {
    MissingCommaPieces();
    CleanRepairsMissingComma(a, w, r);
  }

  /** Test case 4, which the test table lists as one that should fail: the cleaner
      repairs the missing comma, so the result is the well-formed list after all. */
  lemma CleanMissingComma()
    ensures Clean("[\"Q1\" \"Q2\", \"Q3\"]") == QList
  {
    MissingCommaText();
    MissingCommaCase("[\"Q1", " ", "Q2\", \"Q3\"]");
  }

  lemma NotJsonShape()
    ensures var s := "just a string, not json";
      !IsSpace(s[0]) && !IsSpace(s[|s| - 1]) && s[0] != '"' && s[|s| - 1] != '"'
    ensures '`' !in "just a string, not json"
    ensures '"' !in "just a string, not json"
  {
  }

  /** Test case 5: text that is not JSON passes through unchanged. */
  lemma CleanNotJson()
    ensures Clean("just a string, not json") == "just a string, not json"
  {
    NotJsonShape();
    NoQuoteSeparated("just a string, not json");
    CleanUnchanged("just a string, not json");
  }

  lemma NoQuoteSeparated(s: string)
    requires '"' !in s
    ensures QuotesSeparated(s)
  {
  }

  lemma EmptyStringText()
    ensures "[\"\"]" == "[" + ("\"" + [] + "\"" + "]")
    ensures "[" + ("\", \"" + "]") == "[\", \"]"
    ensures var s := "[\"\"]"; s[0] == '[' && s[|s| - 1] == ']' && '`' !in s
    ensures InsertCommas("]") == "]"
  {
  }

  /** An empty string inside a list is corrupted: `[""]` becomes `[", "]`, which is no
      longer valid JSON. */
  lemma CleanCorruptsEmptyString()
    ensures Clean("[\"\"]") == "[\", \"]"
  {
    EmptyStringText();
    CleanUnquoted("[\"\"]");
    InsertCommasPrefix("[", "\"" + [] + "\"" + "]");
    InsertCommasRun([], "]");
  }

  lemma QuotedX()
    ensures "\"\\\"x\\\"\"" == "\"" + EscapeQuotes("\"x\"") + "\""
  {
    assert EscapeQuotes("x\"") == "x\\\"";
  }

  lemma BareX()
    ensures "\"x\"" == "\"" + EscapeQuotes("x") + "\""
    ensures InsertCommas("x") == "x"
  {
  }

  lemma QuotedXCommas()
    ensures InsertCommas("\"x\"") == "\"x\""
  {
    QuotedXCommasAt("\"x\"", "x", "\"");
  }

  lemma QuotedXCommasAt(q: string, x: string, e: string)
    requires q == "\"x\"" && x == "x" && e == "\""
    ensures InsertCommas(q) == q
  {
    assert q[1..] == x + e && q == "\"" + (x + e);
    NoRunAtStart(q);
    assert QuotesSeparated(x);
    InsertCommasPrefix(x, e);
    assert InsertCommas(e) == e;
  }

  /** The cleaner is not idempotent: each pass strips one layer of quoting, so a quoted
      string loses its quotes on the second pass. */
  lemma CleanNotIdempotent()
    ensures Clean("\"\\\"x\\\"\"") == "\"x\""
    ensures Clean(Clean("\"\\\"x\\\"\"")) == "x"
  {
    QuotedX();
    BareX();
    QuotedXCommas();
    CleanDoubleEncoded("\"x\"");
    CleanDoubleEncoded("x");
  }
}
