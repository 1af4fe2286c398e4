/**
 * Well-formed reports, built from their blocks, as an independent reference
 * for the parser: a block is `>>`, the id line, the `Source:` line, the bit
 * score line, the table heading and the hit rows, and a file made of such
 * blocks yields exactly one record per block, in order.
 */
module Reports {
  import opened Wrappers
  import opened Text
  import opened Patterns
  import opened Records
  import opened Parser

  /** One block of the report, by its values; `wild` is the character after the `1` of `1. <id>`. */
  datatype Block = Block(wild: char, id: string, source: string, bitscore: string, hits: seq<seq<string>>)

  /** Values the report format can carry: each line reads back as the value it was written from. */
  predicate WellFormed(b: Block)
  {
    && b.wild != '\n'
    && |b.id| > 0 && NoSpace(b.id)
    && |b.source| > 0 && '\n' !in b.source
    && |b.bitscore| > 0 && AllDigits(b.bitscore)
    && Table(b.hits)
  }

  /** Every row fits the hit-row layout. */
  predicate Table(hits: seq<seq<string>>)
  {
    |hits| == 0 || (Table(hits[..|hits| - 1]) && ColumnsFit(hits[|hits| - 1], HitLayout))
  }

  /** Every block is well formed. */
  predicate AllWellFormed(blocks: seq<Block>)
  {
    |blocks| == 0 || (AllWellFormed(blocks[..|blocks| - 1]) && WellFormed(blocks[|blocks| - 1]))
  }

  /** A hit row: its six columns separated by tabs. */
  function RowLines(hits: seq<seq<string>>): (lines: seq<string>)
    ensures |lines| == |hits|
  {
    if |hits| == 0 then [] else RowLines(hits[..|hits| - 1]) + [Join(hits[|hits| - 1], '\t')]
  }

  /** The five lines that open a block. */
  function HeaderLines(b: Block): (lines: seq<string>)
  {
    [Marker, ['1', b.wild, ' '] + b.id, SourcePrefix + b.source, BitscorePrefix + b.bitscore, StartHitsPrefix]
  }

  function BlockLines(b: Block): (lines: seq<string>)
  {
    HeaderLines(b) + RowLines(b.hits)
  }

  /** The blocks' lines, one block after the other. */
  function ReportLines(blocks: seq<Block>): (lines: seq<string>)
  {
    if |blocks| == 0 then [] else ReportLines(blocks[..|blocks| - 1]) + BlockLines(blocks[|blocks| - 1])
  }

  /** A row of the table's layout has six columns, the third made of digits. */
  lemma FitColumns(cols: seq<string>)
    requires ColumnsFit(cols, HitLayout)
    ensures |cols| == 6 && AllDigits(cols[2])
  {
    assert ColumnText(cols[2], HitLayout[2]);
  }

  /** The hit values the rows carry, appended in order: the third column as a number, the sixth as written. */
  function AddHits(r: Rec, hits: seq<seq<string>>): (r': Rec)
    requires Table(hits)
    ensures r'.id == r.id && r'.source == r.source && r'.bitscore == r.bitscore
    ensures |r'.pctIds| == |r.pctIds| + |hits| && |r'.evalues| == |r.evalues| + |hits|
  {
    if |hits| == 0 then r
    else
      var h := hits[|hits| - 1];
      FitColumns(h);
      AddHit(AddHits(r, hits[..|hits| - 1]), DigitsValue(h[2]), h[5])
  }

  /** The record a well-formed block stands for. */
  function RecordOf(b: Block): (r: Rec)
    requires WellFormed(b)
  {
    AddHits(Rec(Some(b.id), Some(b.source), Some(b.bitscore), [], []), b.hits)
  }

  function RecordsOf(blocks: seq<Block>): (recs: seq<Rec>)
    requires AllWellFormed(blocks)
    ensures |recs| == |blocks|
  {
    if |blocks| == 0 then [] else RecordsOf(blocks[..|blocks| - 1]) + [RecordOf(blocks[|blocks| - 1])]
  }

  /** A joined row holds a tab, so it is never the `>>` marker. */
  lemma RowIsNotMarker(cols: seq<string>)
    requires |cols| > 1
    ensures Join(cols, '\t') != Marker
  {
    var line := Join(cols, '\t');
    assert line == cols[0] + ['\t'] + Join(cols[1..], '\t');
    assert line[|cols[0]|] == '\t';
  }

  /** A well-formed row, joined, is not `>>` and matches with its hit values. */
  lemma RowMatch(cols: seq<string>)
    requires ColumnsFit(cols, HitLayout)
    ensures |cols| == 6 && AllDigits(cols[2])
    ensures Join(cols, '\t') != Marker
    ensures MatchHitRow(Join(cols, '\t')) == Some(Hit(DigitsValue(cols[2]), cols[5]))
  {
    FitColumns(cols);
    RowIsNotMarker(cols);
    HitRowRoundTrip(cols, []);
    assert Join(cols, '\t') + [] == Join(cols, '\t');
  }

  /** In the table, a well-formed row adds its hit and prints nothing. */
  lemma RowStep(cur: Rec, cols: seq<string>)
    requires ColumnsFit(cols, HitLayout)
    ensures |cols| == 6 && AllDigits(cols[2])
    ensures Step(Session(InHits, cur), Join(cols, '\t')) ==
      Transition(Session(InHits, AddHit(cur, DigitsValue(cols[2]), cols[5])), None)
  {
    RowMatch(cols);
    InHitsStep(Session(InHits, cur), Join(cols, '\t'));
  }

  /** In the table, each well-formed row adds its hit and prints nothing. */
  lemma {:induction false} RowsFeed(cur: Rec, hits: seq<seq<string>>)
    requires Table(hits)
    ensures Feed(Session(InHits, cur), RowLines(hits)) == Outcome(Session(InHits, AddHits(cur, hits)), [])
  {
    if |hits| > 0 {
      var init := hits[..|hits| - 1];
      var h := hits[|hits| - 1];
      RowsFeed(cur, init);
      RowStep(AddHits(cur, init), h);
      FeedThen(Session(InHits, cur), RowLines(init), Join(h, '\t'));
    }
  }

  /** The session a block's header leaves: in the table, with the three header fields set. */
  function Headed(b: Block): (r: Rec)
  {
    Rec(Some(b.id), Some(b.source), Some(b.bitscore), [], [])
  }

  /** `>>` from `start` with nothing collected, or from `in_hits`, opens a fresh record. */
  predicate Ready(s: Session)
  {
    s == Initial || s.state == InHits
  }

  /** What `>>` prints from a ready session: the record in the table, if any. */
  function Previous(s: Session): (recs: seq<Rec>)
  {
    if s.state == InHits then [s.cur] else []
  }

  /** `>>` from a ready session opens a fresh record, printing the one in the table, if any. */
  lemma OpenStep(s: Session)
    requires Ready(s)
    ensures Step(s, Marker) == Transition(Session(InRec, Fresh), if s.state == InHits then Some(s.cur) else None)
  {
  }

  /** The id line sets the id. */
  lemma IdStep(b: Block)
    requires WellFormed(b)
    ensures Step(Session(InRec, Fresh), HeaderLines(b)[1]) == Transition(Session(HaveId, Fresh.(id := Some(b.id))), None)
  {
    IdLineRoundTrip(b.wild, b.id, []);
    assert ['1', b.wild, ' '] + b.id + [] == HeaderLines(b)[1];
  }

  /** The `Source:` line sets the source. */
  lemma SourceStep(b: Block, r: Rec)
    requires WellFormed(b)
    ensures Step(Session(HaveId, r), HeaderLines(b)[2]) == Transition(Session(HaveSource, r.(source := Some(b.source))), None)
  {
    SourceLineRoundTrip(b.source);
  }

  /** The bit score line sets the bit score. */
  lemma BitscoreStep(b: Block, r: Rec)
    requires WellFormed(b)
    ensures Step(Session(HaveSource, r), HeaderLines(b)[3]) == Transition(Session(HaveBitscore, r.(bitscore := Some(b.bitscore))), None)
  {
    BitscoreLineRoundTrip(b.bitscore, []);
    assert BitscorePrefix + b.bitscore + [] == HeaderLines(b)[3];
  }

  /** The table heading starts the table. */
  lemma HeadingStep(b: Block, r: Rec)
    ensures Step(Session(HaveBitscore, r), HeaderLines(b)[4]) == Transition(Session(InHits, r), None)
  {
    StartHitsLine([]);
    assert StartHitsPrefix + [] == HeaderLines(b)[4];
  }

  /** `>>` and the id line: the record is opened and its id set. */
  lemma IdFeed(s: Session, b: Block)
    requires Ready(s) && WellFormed(b)
    ensures Feed(s, HeaderLines(b)[..2]) == Outcome(Session(HaveId, Fresh.(id := Some(b.id))), Previous(s))
  {
    var h := HeaderLines(b);
    OpenStep(s);
    FeedThen(s, [], h[0]);
    assert [] + [h[0]] == h[..1];
    IdStep(b);
    FeedThen(s, h[..1], h[1]);
    assert h[..1] + [h[1]] == h[..2];
  }

  /** The `Source:`, bit score and heading lines, from `have_id`: the two fields are set and the table starts. */
  lemma FieldsFeed(b: Block, r: Rec)
    requires WellFormed(b)
    ensures Feed(Session(HaveId, r), HeaderLines(b)[2..]) ==
      Outcome(Session(InHits, r.(source := Some(b.source), bitscore := Some(b.bitscore))), [])
  {
    var h := HeaderLines(b)[2..];
    var s := Session(HaveId, r);
    var r1 := r.(source := Some(b.source));
    SourceStep(b, r);
    FeedThen(s, [], h[0]);
    assert [] + [h[0]] == h[..1];
    BitscoreStep(b, r1);
    FeedThen(s, h[..1], h[1]);
    assert h[..1] + [h[1]] == h[..2];
    HeadingStep(b, r1.(bitscore := Some(b.bitscore)));
    FeedThen(s, h[..2], h[2]);
    assert h[..2] + [h[2]] == h;
  }

  /** The five header lines fill in the three fields, one per line, and reach the table. */
  lemma HeaderFeed(s: Session, b: Block)
    requires Ready(s) && WellFormed(b)
    ensures Feed(s, HeaderLines(b)) == Outcome(Session(InHits, Headed(b)), Previous(s))
  {
    var h := HeaderLines(b);
    IdFeed(s, b);
    FieldsFeed(b, Fresh.(id := Some(b.id)));
    FeedAppend(s, h[..2], h[2..]);
    assert h[..2] + h[2..] == h;
  }

  /** A block read from a ready session: the previous record is printed and the block's is collected. */
  lemma BlockFeed(s: Session, b: Block)
    requires Ready(s) && WellFormed(b)
    ensures Feed(s, BlockLines(b)) == Outcome(Session(InHits, RecordOf(b)), Previous(s))
  {
    HeaderFeed(s, b);
    RowsFeed(Headed(b), b.hits);
    FeedAppend(s, HeaderLines(b), RowLines(b.hits));
  }

  /** After one or more blocks, the last one's record is in the table and the earlier ones are printed. */
  lemma {:induction false} ReportFeed(blocks: seq<Block>)
    requires |blocks| > 0 && AllWellFormed(blocks)
    ensures Feed(Initial, ReportLines(blocks)) == Outcome(Session(InHits, RecordOf(Last(blocks))), RecordsOf(AllButLast(blocks)))
  {
    var init := AllButLast(blocks);
    var b := Last(blocks);
    if |blocks| == 1 {
      assert AllButLast(blocks) == [];
      assert ReportLines(blocks) == BlockLines(b) by {
        assert [] + BlockLines(b) == BlockLines(b);
      }
      BlockFeed(Initial, b);
    } else {
      ReportFeed(init);
      var o := Feed(Initial, ReportLines(init));
      BlockFeed(o.session, b);
      FeedAppend(Initial, ReportLines(init), BlockLines(b));
      RecordsSnoc(init);
    }
  }

  /** `have_id` ignores `>>` and an id line: neither is a `Source:` line. */
  lemma IgnoredInHaveId(b: Block, r: Rec)
    requires WellFormed(b)
    ensures Feed(Session(HaveId, r), HeaderLines(b)[..2]) == Outcome(Session(HaveId, r), [])
  {
    var h := HeaderLines(b);
    var s := Session(HaveId, r);
    WaitingStep(s, h[0]);
    FeedThen(s, [], h[0]);
    assert [] + [h[0]] == h[..1];
    assert !StartsWith(h[1], SourcePrefix) by {
      assert h[1][0] == '1';
    }
    WaitingStep(s, h[1]);
    FeedThen(s, h[..1], h[1]);
    assert h[..1] + [h[1]] == h[..2];
  }

  /**
   * A block cut off right after its id line does not vanish: `>>` is ignored
   * in `have_id`, so it takes the source, bit score and hits of the next
   * block, whose own id is lost.
   */
  lemma TruncatedBlockAbsorbsNext(s: Session, cut: Block, next: Block)
    requires Ready(s) && WellFormed(cut) && WellFormed(next)
    ensures Feed(s, HeaderLines(cut)[..2] + BlockLines(next)) ==
      Outcome(Session(InHits, RecordOf(next).(id := Some(cut.id))), Previous(s))
  {
    var h := HeaderLines(next);
    var r := Fresh.(id := Some(cut.id));
    IdFeed(s, cut);
    IgnoredInHaveId(next, r);
    FieldsFeed(next, r);
    FeedAppend(Session(HaveId, r), h[..2], h[2..]);
    assert h[..2] + h[2..] == h;
    var headed := r.(source := Some(next.source), bitscore := Some(next.bitscore));
    RowsFeed(headed, next.hits);
    FeedAppend(Session(HaveId, r), h, RowLines(next.hits));
    FeedAppend(s, HeaderLines(cut)[..2], BlockLines(next));
    AddHitsHeader(Headed(next), headed, next.hits);
  }

  /** Adding hits touches only the lists, so the header fields can be set before or after. */
  lemma {:induction false} AddHitsHeader(r: Rec, r2: Rec, hits: seq<seq<string>>)
    requires Table(hits) && r2.pctIds == r.pctIds && r2.evalues == r.evalues
    ensures AddHits(r2, hits) == AddHits(r, hits).(id := r2.id, source := r2.source, bitscore := r2.bitscore)
  {
    if |hits| > 0 {
      AddHitsHeader(r, r2, hits[..|hits| - 1]);
    }
  }

  /** A waiting state stays where it is over lines it does not expect, and prints nothing. */
  lemma {:induction false} IgnoredWhileWaiting(s: Session, lines: seq<string>)
    requires Waiting(s.state)
    requires forall k :: 0 <= k < |lines| ==> !Expected(s.state, lines[k])
    ensures Feed(s, lines) == Outcome(s, [])
  {
    if |lines| > 0 {
      var init := lines[..|lines| - 1];
      assert forall k :: 0 <= k < |init| ==> init[k] == lines[k];
      IgnoredWhileWaiting(s, init);
      WaitingStep(s, lines[|lines| - 1]);
    }
  }

  /** A line whose first character differs from the prefix's does not start with it. */
  lemma FirstCharDiffers(line: string, prefix: string)
    requires |line| > 0 && |prefix| > 0 && line[0] != prefix[0]
    ensures !StartsWith(line, prefix)
  {
  }

  /** None of a block's first three lines is a bit score line. */
  lemma NoBitscoreBefore(b: Block)
    requires WellFormed(b)
    ensures forall k :: 0 <= k < 3 ==> !Expected(HaveSource, HeaderLines(b)[k])
  {
    var h := HeaderLines(b);
    MarkerIsNotExpected(HaveSource);
    FirstCharDiffers(h[1], BitscorePrefix);
    FirstCharDiffers(h[2], BitscorePrefix);
  }

  /** None of a block's first four lines is the table heading. */
  lemma NoHeadingBefore(b: Block)
    requires WellFormed(b)
    ensures forall k :: 0 <= k < 4 ==> !Expected(HaveBitscore, HeaderLines(b)[k])
  {
    var h := HeaderLines(b);
    MarkerIsNotExpected(HaveBitscore);
    FirstCharDiffers(h[1], StartHitsPrefix);
    FirstCharDiffers(h[2], StartHitsPrefix);
    FirstCharDiffers(h[3], StartHitsPrefix);
  }

  /** A block read in `have_source`: only its bit score, its heading and its rows take effect. */
  lemma NextHeaderFromHaveSource(next: Block, r: Rec)
    requires WellFormed(next)
    ensures Feed(Session(HaveSource, r), HeaderLines(next)) ==
      Outcome(Session(InHits, r.(bitscore := Some(next.bitscore))), [])
  {
    var h := HeaderLines(next);
    var s := Session(HaveSource, r);
    var r1 := r.(bitscore := Some(next.bitscore));
    NoBitscoreBefore(next);
    assert forall k :: 0 <= k < 3 ==> h[..3][k] == h[k];
    IgnoredWhileWaiting(s, h[..3]);
    BitscoreStep(next, r);
    FeedThen(s, h[..3], h[3]);
    assert h[..3] + [h[3]] == h[..4];
    HeadingStep(next, r1);
    FeedThen(s, h[..4], h[4]);
    assert h[..4] + [h[4]] == h;
  }

  /** A block read in `have_bitscore`: only its heading and its rows take effect. */
  lemma NextHeaderFromHaveBitscore(next: Block, r: Rec)
    requires WellFormed(next)
    ensures Feed(Session(HaveBitscore, r), HeaderLines(next)) == Outcome(Session(InHits, r), [])
  {
    var h := HeaderLines(next);
    var s := Session(HaveBitscore, r);
    NoHeadingBefore(next);
    assert forall k :: 0 <= k < 4 ==> h[..4][k] == h[k];
    IgnoredWhileWaiting(s, h[..4]);
    HeadingStep(next, r);
    FeedThen(s, h[..4], h[4]);
    assert h[..4] + [h[4]] == h;
  }

  /** `>>`, the id line and the `Source:` line: the record has its id and its source. */
  lemma SourceCutFeed(s: Session, cut: Block)
    requires Ready(s) && WellFormed(cut)
    ensures Feed(s, HeaderLines(cut)[..3]) ==
      Outcome(Session(HaveSource, Fresh.(id := Some(cut.id), source := Some(cut.source))), Previous(s))
  {
    var h := HeaderLines(cut);
    IdFeed(s, cut);
    SourceStep(cut, Fresh.(id := Some(cut.id)));
    FeedThen(s, h[..2], h[2]);
    assert h[..2] + [h[2]] == h[..3];
  }

  /** The four lines before the heading: the record has its id, its source and its bit score. */
  lemma BitscoreCutFeed(s: Session, cut: Block)
    requires Ready(s) && WellFormed(cut)
    ensures Feed(s, HeaderLines(cut)[..4]) ==
      Outcome(Session(HaveBitscore, Headed(cut)), Previous(s))
  {
    var h := HeaderLines(cut);
    var r := Fresh.(id := Some(cut.id), source := Some(cut.source));
    SourceCutFeed(s, cut);
    BitscoreStep(cut, r);
    FeedThen(s, h[..3], h[3]);
    assert h[..3] + [h[3]] == h[..4];
  }

  /** A block cut off after its `Source:` line takes the bit score and hits of the next block. */
  lemma CutAfterSourceAbsorbsNext(s: Session, cut: Block, next: Block)
    requires Ready(s) && WellFormed(cut) && WellFormed(next)
    ensures Feed(s, HeaderLines(cut)[..3] + BlockLines(next)) ==
      Outcome(Session(InHits, RecordOf(next).(id := Some(cut.id), source := Some(cut.source))), Previous(s))
  {
    var r := Fresh.(id := Some(cut.id), source := Some(cut.source));
    var r1 := r.(bitscore := Some(next.bitscore));
    SourceCutFeed(s, cut);
    NextHeaderFromHaveSource(next, r);
    RowsFeed(r1, next.hits);
    FeedAppend(Session(HaveSource, r), HeaderLines(next), RowLines(next.hits));
    FeedAppend(s, HeaderLines(cut)[..3], BlockLines(next));
    AddHitsHeader(Headed(next), r1, next.hits);
  }

  /** A block cut off after its bit score line takes the hits of the next block, and nothing else of it. */
  lemma CutAfterBitscoreAbsorbsNext(s: Session, cut: Block, next: Block)
    requires Ready(s) && WellFormed(cut) && WellFormed(next)
    ensures Feed(s, HeaderLines(cut)[..4] + BlockLines(next)) ==
      Outcome(Session(InHits, RecordOf(next).(id := Some(cut.id), source := Some(cut.source), bitscore := Some(cut.bitscore))), Previous(s))
  {
    BitscoreCutFeed(s, cut);
    NextHeaderFromHaveBitscore(next, Headed(cut));
    RowsFeed(Headed(cut), next.hits);
    FeedAppend(Session(HaveBitscore, Headed(cut)), HeaderLines(next), RowLines(next.hits));
    FeedAppend(s, HeaderLines(cut)[..4], BlockLines(next));
    AddHitsHeader(Headed(next), Headed(cut), next.hits);
  }

  function Last(blocks: seq<Block>): (b: Block)
    requires |blocks| > 0
  {
    blocks[|blocks| - 1]
  }

  function AllButLast(blocks: seq<Block>): (init: seq<Block>)
    requires |blocks| > 0
  {
    blocks[..|blocks| - 1]
  }

  /** The records of some blocks: those of all but the last, then the last one's. */
  lemma RecordsSnoc(blocks: seq<Block>)
    requires |blocks| > 0 && AllWellFormed(blocks)
    ensures RecordsOf(blocks) == RecordsOf(AllButLast(blocks)) + [RecordOf(Last(blocks))]
  {
  }

  /** Lines without `>>` and then one or more blocks: the last block's record is in the table, the others are printed. */
  lemma ReportAfter(pre: seq<string>, blocks: seq<Block>)
    requires Marker !in pre
    requires |blocks| > 0 && AllWellFormed(blocks)
    ensures Feed(Initial, pre + ReportLines(blocks)) ==
      Outcome(Session(InHits, RecordOf(Last(blocks))), RecordsOf(AllButLast(blocks)))
  {
    IgnoredBeforeFirstMarker(pre);
    FeedAppend(Initial, pre, ReportLines(blocks));
    ReportFeed(blocks);
    var o := Feed(Initial, ReportLines(blocks));
    assert [] + o.emitted == o.emitted;
  }

  /**
   * A well-formed report, after any lines without `>>`, yields exactly the
   * blocks' records, in order: every block but the last is printed on the
   * next `>>`, and the last one by the final flush.
   */
  lemma ParseReport(pre: seq<string>, blocks: seq<Block>)
    requires Marker !in pre
    requires AllWellFormed(blocks)
    ensures ParseFile(pre + ReportLines(blocks)) == RecordsOf(blocks)
  {
    if |blocks| > 0 {
      ReportAfter(pre, blocks);
      var last := RecordOf(Last(blocks));
      assert last.id.Some?;
      RecordsSnoc(blocks);
    } else {
      assert pre + ReportLines(blocks) == pre;
      NoRecords(pre);
    }
  }

  /** Without `>>`, a file yields nothing. */
  lemma NoRecords(lines: seq<string>)
    requires Marker !in lines
    ensures ParseFile(lines) == []
  {
    IgnoredBeforeFirstMarker(lines);
  }

  /** A closing `>>` prints the last block's record on the spot, and the final flush then has nothing to print. */
  lemma ParseClosedReport(pre: seq<string>, blocks: seq<Block>)
    requires Marker !in pre
    requires |blocks| > 0 && AllWellFormed(blocks)
    ensures ParseFile(pre + ReportLines(blocks) + [Marker]) == RecordsOf(blocks)
  {
    var lines := pre + ReportLines(blocks);
    var last := RecordOf(Last(blocks));
    ReportAfter(pre, blocks);
    OpenStep(Session(InHits, last));
    FeedThen(Initial, lines, Marker);
    assert Feed(Initial, lines + [Marker]) == Outcome(Session(InRec, Fresh), RecordsOf(AllButLast(blocks)) + [last]);
    RecordsSnoc(blocks);
  }
}
