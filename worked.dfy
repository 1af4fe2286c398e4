/**
 * Worked examples on concrete reports: a one-block example report, and a
 * block that is cut off after its id line.
 */
module Examples {
  import opened Wrappers
  import opened Text
  import opened Patterns
  import opened Records
  import opened Parser
  import opened Reports

  const Row1: seq<string> := ["q1", "h1", "95", "10", "20", "1e-10"]
  const Row2: seq<string> := ["q1", "h2", "88", "10", "20", "2.5e-5"]

  /** The block of the example report. */
  const Seq42: Block := Block('.', "seq42", "some genome", "123", [Row1, Row2])

  /** The example report: one block, closed by a second `>>`. */
  const ExampleLines: seq<string> := [
    ">>",
    "1. seq42",
    "Source: some genome",
    "Cumulative Blast bit score: 123",
    "Table of Blast hits",
    "q1\th1\t95\t10\t20\t1e-10",
    "q1\th2\t88\t10\t20\t2.5e-5",
    ">>"]

  /** The e-value and alignment columns of the example are numerals. */
  lemma ExampleNumerals()
    ensures IsNumeral("20") && IsNumeral("1e-10") && IsNumeral("2.5e-5")
  {
    var twenty := Numeral("20", None, None);
    var small := Numeral("1", None, Some(Exponent(true, "10")));
    var smaller := Numeral("2", Some("5"), Some(Exponent(true, "5")));
    assert NumeralText(twenty) == "20";
    assert NumeralText(small) == "1e-10";
    assert NumeralText(smaller) == "2.5e-5";
    NumeralIsNumeral(twenty);
    NumeralIsNumeral(small);
    NumeralIsNumeral(smaller);
  }

  lemma ExampleWellFormed()
    ensures WellFormed(Seq42)
  {
    ExampleNumerals();
    assert ColumnsFit(Row1, HitLayout) by {
      forall k | 0 <= k < 6 ensures ColumnText(Row1[k], HitLayout[k]) {
      }
    }
    assert ColumnsFit(Row2, HitLayout) by {
      forall k | 0 <= k < 6 ensures ColumnText(Row2[k], HitLayout[k]) {
      }
    }
    assert [Row1, Row2][..1] == [Row1];
    assert Table([Row1, Row2]);
  }

  /** Joining a first piece onto the rest. */
  lemma JoinCons(x: string, xs: seq<string>, sep: char)
    requires |xs| > 0
    ensures Join([x] + xs, sep) == x + [sep] + Join(xs, sep)
  {
    assert ([x] + xs)[1..] == xs;
  }

  lemma Row1Text()
    ensures Join(Row1, '\t') == "q1\th1\t95\t10\t20\t1e-10"
  {
    JoinCons("20", ["1e-10"], '\t');
    JoinCons("10", ["20", "1e-10"], '\t');
    JoinCons("95", ["10", "20", "1e-10"], '\t');
    JoinCons("h1", ["95", "10", "20", "1e-10"], '\t');
    JoinCons("q1", ["h1", "95", "10", "20", "1e-10"], '\t');
  }

  lemma Row2Text()
    ensures Join(Row2, '\t') == "q1\th2\t88\t10\t20\t2.5e-5"
  {
    JoinCons("20", ["2.5e-5"], '\t');
    JoinCons("10", ["20", "2.5e-5"], '\t');
    JoinCons("88", ["10", "20", "2.5e-5"], '\t');
    JoinCons("h2", ["88", "10", "20", "2.5e-5"], '\t');
    JoinCons("q1", ["h2", "88", "10", "20", "2.5e-5"], '\t');
  }

  lemma HeaderText()
    ensures HeaderLines(Seq42) ==
      [">>", "1. seq42", "Source: some genome", "Cumulative Blast bit score: 123", "Table of Blast hits"]
  {
    assert ['1', '.', ' '] + "seq42" == "1. seq42";
    assert SourcePrefix + "some genome" == "Source: some genome";
    assert BitscorePrefix + "123" == "Cumulative Blast bit score: 123";
  }

  /** The example's lines are the block's lines and a closing `>>`. */
  lemma ExampleLinesAreReport()
    ensures [] + ReportLines([Seq42]) + [Marker] == ExampleLines
  {
    assert [Seq42][..0] == [];
    assert ReportLines([Seq42]) == BlockLines(Seq42) by {
      assert [] + BlockLines(Seq42) == BlockLines(Seq42);
    }
    assert RowLines([Row1, Row2]) == [Join(Row1, '\t'), Join(Row2, '\t')] by {
      assert [Row1, Row2][..1] == [Row1];
      assert [Row1][..0] == [];
    }
    Row1Text();
    Row2Text();
    HeaderText();
  }

  /** The record of the example block. */
  const Seq42Record: Rec := Rec(Some("seq42"), Some("some genome"), Some("123"), [95, 88], ["1e-10", "2.5e-5"])

  lemma ExampleRecord()
    ensures WellFormed(Seq42) && RecordOf(Seq42) == Seq42Record
  {
    ExampleWellFormed();
    var h := Headed(Seq42);
    assert [Row1, Row2][..1] == [Row1];
    assert "95"[..1] == "9" && "88"[..1] == "8";
    assert DigitsValue("95") == 95 && DigitsValue("88") == 88;
    assert AddHits(h, [Row1]) == AddHit(h, 95, "1e-10") by {
      assert [Row1][..0] == [];
    }
    assert AddHits(h, [Row1, Row2]) == AddHit(AddHits(h, [Row1]), 88, "2.5e-5") by {
      assert [Row1, Row2][..1] == [Row1];
    }
  }

  /** The example yields exactly the one record. */
  lemma ExampleRecords()
    ensures ParseFile(ExampleLines) == [Seq42Record]
  {
    ExampleRecord();
    assert [Seq42][..0] == [];
    assert AllWellFormed([Seq42]);
    ExampleLinesAreReport();
    ParseClosedReport([], [Seq42]);
  }

  /** The percent identities 95 and 88, as `to_tab` writes them. */
  lemma ExamplePctField()
    ensures PctField([95, 88]) == "95,88"
  {
    assert NatToString(95) == "95" && NatToString(88) == "88";
    assert NatStrings([95, 88]) == ["95", "88"] by {
      assert [95, 88][..1] == [95];
      assert [95][..0] == [];
    }
    JoinCons("95", ["88"], ',');
  }

  /** The five fields of the record, as `to_tab` formats them. */
  lemma ExampleFields()
    ensures Fields(Seq42Record) == ["seq42", "some genome", "123", "95,88", "1e-10,2.5e-5"]
  {
    ExamplePctField();
    assert EvalueField(["1e-10", "2.5e-5"]) == "1e-10,2.5e-5" by {
      JoinCons("1e-10", ["2.5e-5"], ',');
      assert ["1e-10"] + ["2.5e-5"] == ["1e-10", "2.5e-5"];
    }
  }

  /** A block cut off after its id line. */
  const CutLines: seq<string> := [">>", "1. x"]

  /** The cut-off block is still printed at the end of the file, `None` standing for its source and bit score. */
  lemma CutAfterIdPrintsNone()
    ensures FileOutput(CutLines) == [Join(["x", "None", "None", "", ""], '\t')]
  {
    IdLineRoundTrip('.', "x", []);
    assert ['1', '.', ' '] + "x" + [] == CutLines[1];
    FeedThen(Initial, [], CutLines[0]);
    assert [] + [CutLines[0]] == CutLines[..1];
    FeedThen(Initial, CutLines[..1], CutLines[1]);
    assert CutLines[..1] + [CutLines[1]] == CutLines;
    assert Feed(Initial, CutLines) == Outcome(Session(HaveId, Fresh.(id := Some("x"))), []);
    UnsetFieldsPrintNone(CutLines);
    assert TabLines([]) == [];
  }

  /** The example report prints one line: `seq42`, `some genome`, `123`, `95,88` and `1e-10,2.5e-5`, tab-separated. */
  lemma ExampleOutput()
    ensures FileOutput(ExampleLines) == [Join(["seq42", "some genome", "123", "95,88", "1e-10,2.5e-5"], '\t')]
  {
    ExampleRecords();
    ExampleFields();
    assert [Seq42Record][..0] == [];
  }
}
