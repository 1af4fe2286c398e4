/**
 * The six-state line parser of `App.main`: one file's lines drive the state
 * machine, which fills the record under construction field by field, emits it
 * on `>>` once its hits table has started, and flushes the last record at the
 * end of the file. `Step` and `Feed` specify the loop; `ParseLines` and
 * `ProcessFiles` are the loops themselves, proved against them.
 */
module Parser {
  import opened Wrappers
  import opened Text
  import opened Patterns
  import opened Records

  /** `States`: the enum the loop dispatches on. */
  datatype State = Start | InRec | HaveId | HaveSource | HaveBitscore | InHits

  /** The loop's two working variables: `state` and `cur`. */
  datatype Session = Session(state: State, cur: Rec)

  /** Each file starts in `start` with a fresh `Rec()`. */
  const Initial: Session := Session(Start, Fresh)

  /** The record-start marker; it is compared with the whole line. */
  const Marker: string := ">>"

  /** What one line does: the next session, and the record printed on the way, if any. */
  datatype Transition = Transition(next: Session, emitted: Option<Rec>)

  /** `if cur.id:` on an optional string: set and not empty. */
  predicate Truthy(v: Option<string>)
  {
    v.Some? && v.value != ""
  }

  /** The states that wait for one expected line and ignore every other line, `>>` included. */
  predicate Waiting(st: State)
  {
    st == InRec || st == HaveId || st == HaveSource || st == HaveBitscore
  }

  /** The line a waiting state is looking for. */
  predicate Expected(st: State, line: string)
  {
    match st
    case InRec => MatchId(line).Some?
    case HaveId => MatchSource(line).Some?
    case HaveSource => MatchBitscore(line).Some?
    case HaveBitscore => MatchStartHits(line)
    case _ => false
  }

  /** One pass of the loop body: the `if`/`elif` chain on `state`. */
  function Step(s: Session, line: string): (t: Transition)
    ensures t.next.state == Start ==> s.state == Start
    ensures t.emitted.Some? ==> line == Marker && t.next == Session(InRec, Fresh)
    ensures Balanced(s.cur) ==> Balanced(t.next.cur)
  {
    match s.state
    case Start =>
      if line == Marker then
        if Truthy(s.cur.id) then Transition(Session(InRec, Fresh), Some(s.cur))
        else Transition(Session(InRec, s.cur), None)
      else Transition(s, None)
    case InRec =>
      (match MatchId(line)
      case Some(id) => Transition(Session(HaveId, s.cur.(id := Some(id))), None)
      case None => Transition(s, None))
    case HaveId =>
      (match MatchSource(line)
      case Some(source) => Transition(Session(HaveSource, s.cur.(source := Some(source))), None)
      case None => Transition(s, None))
    case HaveSource =>
      (match MatchBitscore(line)
      case Some(bitscore) => Transition(Session(HaveBitscore, s.cur.(bitscore := Some(bitscore))), None)
      case None => Transition(s, None))
    case HaveBitscore =>
      if MatchStartHits(line) then Transition(Session(InHits, s.cur), None)
      else Transition(s, None)
    case InHits =>
      if line == Marker then Transition(Session(InRec, Fresh), Some(s.cur))
      else
        match MatchHitRow(line)
        case Some(hit) => Transition(Session(InHits, AddHit(s.cur, hit.pctId, hit.evalue)), None)
        case None => Transition(s, None)
  }

  /** The session after some lines, and the records printed on the way, in order. */
  datatype Outcome = Outcome(session: Session, emitted: seq<Rec>)

  function OptionToSeq(r: Option<Rec>): (recs: seq<Rec>)
  {
    match r
    case None => []
    case Some(x) => [x]
  }

  /** The loop over a file's lines, from session `s`. */
  function Feed(s: Session, lines: seq<string>): (o: Outcome)
    ensures s.state != Start ==> o.session.state != Start
    ensures |o.emitted| <= |lines|
  {
    if |lines| == 0 then Outcome(s, [])
    else
      var o := Feed(s, lines[..|lines| - 1]);
      var t := Step(o.session, lines[|lines| - 1]);
      Outcome(t.next, o.emitted + OptionToSeq(t.emitted))
  }

  /** The last record: printed when its `id` `is not None`. */
  function Flush(s: Session): (last: seq<Rec>)
  {
    if s.cur.id.Some? then [s.cur] else []
  }

  /** All records one file yields, in the order they are printed. */
  function ParseFile(lines: seq<string>): (recs: seq<Rec>)
  {
    var o := Feed(Initial, lines);
    o.emitted + Flush(o.session)
  }

  /** The printed lines: `to_tab` of each record. */
  function TabLines(recs: seq<Rec>): (out: seq<string>)
    ensures |out| == |recs|
  {
    if |recs| == 0 then [] else TabLines(recs[..|recs| - 1]) + [ToTab(recs[|recs| - 1])]
  }

  /** Printing one more record prints one more line. */
  lemma TabLinesSnoc(recs: seq<Rec>, r: Rec)
    ensures TabLines(recs + [r]) == TabLines(recs) + [ToTab(r)]
  {
    assert (recs + [r])[..|recs|] == recs;
  }

  // ---------------------------------------------------------------------------
  // The invariant the loop keeps

  /** A captured id: what `\S+` matches, non-empty and without whitespace. */
  predicate GoodId(v: Option<string>)
  {
    v.Some? && |v.value| > 0 && NoSpace(v.value)
  }

  /** A captured bitscore: what `\d+` matches. */
  predicate GoodBitscore(v: Option<string>)
  {
    v.Some? && |v.value| > 0 && AllDigits(v.value)
  }

  /** Hits collected in the table: equal-length lists, each e-value one whole numeral. */
  predicate GoodHits(r: Rec)
  {
    Balanced(r) && forall k :: 0 <= k < |r.evalues| ==> IsNumeral(r.evalues[k])
  }

  /** A record fit to print: its id is set and non-empty, its hit lists are balanced. */
  predicate Emittable(r: Rec)
  {
    GoodId(r.id) && GoodHits(r)
  }

  /**
   * The shape of `cur` in each state: fields are set strictly in the order id,
   * source, bitscore, and hits are only collected once the table has started.
   */
  predicate Consistent(s: Session)
  {
    match s.state
    case Start => s.cur == Fresh
    case InRec => s.cur == Fresh
    case HaveId =>
      GoodId(s.cur.id) && s.cur.source == None && s.cur.bitscore == None && s.cur.pctIds == [] && s.cur.evalues == []
    case HaveSource =>
      GoodId(s.cur.id) && s.cur.source.Some? && s.cur.bitscore == None && s.cur.pctIds == [] && s.cur.evalues == []
    case HaveBitscore =>
      GoodId(s.cur.id) && s.cur.source.Some? && GoodBitscore(s.cur.bitscore) && s.cur.pctIds == [] && s.cur.evalues == []
    case InHits =>
      GoodId(s.cur.id) && s.cur.source.Some? && GoodBitscore(s.cur.bitscore) && GoodHits(s.cur)
  }

  /** Each line keeps the invariant, and whatever it prints is fit to print. */
  lemma StepConsistent(s: Session, line: string)
    requires Consistent(s)
    ensures Consistent(Step(s, line).next)
    ensures Step(s, line).emitted.Some? ==> Emittable(Step(s, line).emitted.value)
  {
    var t := Step(s, line);
    match s.state
    case InHits =>
      if line != Marker && MatchHitRow(line).Some? {
        var hit := MatchHitRow(line).value;
        HitEvalueIsNumeral(line);
        var r := t.next.cur;
        assert r == AddHit(s.cur, hit.pctId, hit.evalue);
        forall k | 0 <= k < |r.evalues|
          ensures IsNumeral(r.evalues[k])
        {
          if k < |s.cur.evalues| {
            assert r.evalues[k] == r.evalues[..|s.cur.evalues|][k];
          }
        }
      }
    case HaveBitscore =>
    case _ =>
  }

  /** The invariant holds after any lines, and every record printed on the way is fit to print. */
  lemma {:induction false} FeedConsistent(s: Session, lines: seq<string>)
    requires Consistent(s)
    ensures Consistent(Feed(s, lines).session)
    ensures forall k :: 0 <= k < |Feed(s, lines).emitted| ==> Emittable(Feed(s, lines).emitted[k])
  {
    if |lines| > 0 {
      var init := lines[..|lines| - 1];
      FeedConsistent(s, init);
      var o := Feed(s, init);
      StepConsistent(o.session, lines[|lines| - 1]);
    }
  }

  /** Every record a file yields has a non-empty id without whitespace and balanced hit lists. */
  lemma ParseFileEmittable(lines: seq<string>)
    ensures forall k :: 0 <= k < |ParseFile(lines)| ==> Emittable(ParseFile(lines)[k])
  {
    FeedConsistent(Initial, lines);
  }

  /** In `start` the record is always fresh, so the "print the previous record" branch never fires. */
  lemma StartNeverEmits(s: Session, line: string)
    requires Consistent(s) && s.state == Start
    ensures Step(s, line).emitted == None
  {
  }

  /** Lines before the first `>>` are ignored. */
  lemma {:induction false} IgnoredBeforeFirstMarker(pre: seq<string>)
    requires Marker !in pre
    ensures Feed(Initial, pre) == Outcome(Initial, [])
  {
    if |pre| > 0 {
      var init := pre[..|pre| - 1];
      assert forall k :: 0 <= k < |init| ==> init[k] == pre[k];
      IgnoredBeforeFirstMarker(init);
      assert pre[|pre| - 1] in pre;
    }
  }

  /** The first `>>` moves `start` to `in_rec` and prints nothing. */
  lemma FirstMarker(pre: seq<string>)
    requires Marker !in pre
    ensures Feed(Initial, pre + [Marker]) == Outcome(Session(InRec, Fresh), [])
  {
    IgnoredBeforeFirstMarker(pre);
    assert (pre + [Marker])[..|pre|] == pre;
  }

  /** Once past `start`, the machine never returns to it. */
  lemma NeverReturnsToStart(s: Session, lines: seq<string>)
    requires s.state != Start
    ensures forall k :: 0 <= k <= |lines| ==> Feed(s, lines[..k]).session.state != Start
  {
  }

  /** `>>` matches none of the patterns the waiting states look for. */
  lemma MarkerIsNotExpected(st: State)
    ensures !Expected(st, Marker)
  {
    assert !StartsWith(Marker, StartHitsPrefix);
    assert !StartsWith(Marker, SourcePrefix);
    assert !StartsWith(Marker, BitscorePrefix);
  }

  /**
   * A waiting state stays put, with its record untouched, exactly on the lines it
   * does not expect; so `>>` is ignored there, and a block that lacks a field
   * goes on to take it from the next block.
   */
  lemma WaitingStep(s: Session, line: string)
    requires Waiting(s.state)
    ensures Step(s, line) == Transition(s, None) <==> !Expected(s.state, line)
    ensures Step(s, line).emitted == None
    ensures line == Marker ==> Step(s, line) == Transition(s, None)
  {
    MarkerIsNotExpected(s.state);
  }

  /**
   * In `in_hits`: `>>` prints the record and starts a fresh one in `in_rec`; any
   * other line appends exactly the one hit it matches, or changes nothing.
   */
  lemma InHitsStep(s: Session, line: string)
    requires s.state == InHits
    ensures line == Marker ==> Step(s, line) == Transition(Session(InRec, Fresh), Some(s.cur))
    ensures line != Marker && MatchHitRow(line).Some? ==>
      var hit := MatchHitRow(line).value;
      Step(s, line) == Transition(Session(InHits, AddHit(s.cur, hit.pctId, hit.evalue)), None)
    ensures line != Marker && MatchHitRow(line).None? ==> Step(s, line) == Transition(s, None)
  {
  }

  // ---------------------------------------------------------------------------
  // How many records are printed

  /** The number of `>>` lines that arrive while the machine is in `in_hits`. */
  function MarkersInHits(s: Session, lines: seq<string>): (n: nat)
  {
    if |lines| == 0 then 0
    else
      var init := lines[..|lines| - 1];
      MarkersInHits(s, init) +
        (if lines[|lines| - 1] == Marker && Feed(s, init).session.state == InHits then 1 else 0)
  }

  /** From a consistent session, one record is printed per `>>` seen in `in_hits`, and no other. */
  lemma {:induction false} EmissionCount(s: Session, lines: seq<string>)
    requires Consistent(s)
    ensures |Feed(s, lines).emitted| == MarkersInHits(s, lines)
  {
    if |lines| > 0 {
      var init := lines[..|lines| - 1];
      EmissionCount(s, init);
      FeedConsistent(s, init);
      var o := Feed(s, init);
      if o.session.state == Start {
        StartNeverEmits(o.session, lines[|lines| - 1]);
      }
    }
  }

  /** A file yields one record per `>>` seen in `in_hits`, plus the last one if its id was set. */
  lemma ParseFileCount(lines: seq<string>)
    ensures |ParseFile(lines)| ==
      MarkersInHits(Initial, lines) + (if Feed(Initial, lines).session.cur.id.Some? then 1 else 0)
  {
    EmissionCount(Initial, lines);
  }

  /** The last record is printed exactly when its id was set, and then it is fit to print. */
  lemma FlushEmittable(lines: seq<string>)
    ensures var last := Feed(Initial, lines).session;
            (|Flush(last)| == 1 <==> last.cur.id.Some?) &&
            (|Flush(last)| == 1 ==> Emittable(Flush(last)[0]))
  {
    FeedConsistent(Initial, lines);
  }

  /**
   * A file that ends while its last record still waits for a field prints that
   * record anyway, with `None` for the fields not yet set and empty hit lists;
   * a file that ends before any id line prints nothing more.
   */
  lemma UnsetFieldsPrintNone(lines: seq<string>)
    ensures var o := Feed(Initial, lines);
            var r := o.session.cur;
            o.session.state == HaveId ==>
              && r.id.Some?
              && FileOutput(lines) == TabLines(o.emitted) + [Join([r.id.value, "None", "None", "", ""], '\t')]
    ensures var o := Feed(Initial, lines);
            var r := o.session.cur;
            o.session.state == HaveSource ==>
              && r.id.Some? && r.source.Some?
              && FileOutput(lines) == TabLines(o.emitted) + [Join([r.id.value, r.source.value, "None", "", ""], '\t')]
    ensures var o := Feed(Initial, lines);
            o.session.state == Start || o.session.state == InRec ==> FileOutput(lines) == TabLines(o.emitted)
  {
    var o := Feed(Initial, lines);
    var r := o.session.cur;
    FeedConsistent(Initial, lines);
    FileOutputFrom(lines, o.session, o.emitted);
    if o.session.state == HaveId || o.session.state == HaveSource {
      EmptyListsEmptyFields(r);
      TabLinesSnoc(o.emitted, r);
    } else if o.session.state == Start || o.session.state == InRec {
      assert o.emitted + [] == o.emitted;
    }
  }

  // ---------------------------------------------------------------------------
  // Lines processed in pieces, files processed one after another

  /** Feeding two runs of lines is feeding the second from where the first left off. */
  lemma {:induction false} FeedAppend(s: Session, a: seq<string>, b: seq<string>)
    ensures var oa := Feed(s, a);
            var ob := Feed(oa.session, b);
            Feed(s, a + b) == Outcome(ob.session, oa.emitted + ob.emitted)
    decreases |b|
  {
    if |b| == 0 {
      assert a + b == a;
    } else {
      var b' := b[..|b| - 1];
      FeedAppend(s, a, b');
      var oa := Feed(s, a);
      var ob' := Feed(oa.session, b');
      var t := Step(ob'.session, b[|b| - 1]);
      AppendInit(a, b);
      Assoc(oa.emitted, ob'.emitted, OptionToSeq(t.emitted));
    }
  }

  /** Dropping the last line of `a + b`, for a non-empty `b`. */
  lemma AppendInit(a: seq<string>, b: seq<string>)
    requires |b| > 0
    ensures (a + b)[..|a + b| - 1] == a + b[..|b| - 1]
    ensures (a + b)[|a + b| - 1] == b[|b| - 1]
  {
  }

  /** Concatenation is associative. */
  lemma Assoc<T>(x: seq<T>, y: seq<T>, z: seq<T>)
    ensures x + y + z == x + (y + z)
  {
  }

  /** The outputs of `f` for each name, one after the other. */
  function ConcatMap(names: seq<string>, f: string -> seq<string>): (out: seq<string>)
  {
    if |names| == 0 then [] else ConcatMap(names[..|names| - 1], f) + f(names[|names| - 1])
  }

  /** Concatenating over two lists of names is concatenating the two results. */
  lemma {:induction false} ConcatMapAppend(a: seq<string>, b: seq<string>, f: string -> seq<string>)
    ensures ConcatMap(a + b, f) == ConcatMap(a, f) + ConcatMap(b, f)
    decreases |b|
  {
    if |b| == 0 {
      assert a + b == a;
    } else {
      var b' := b[..|b| - 1];
      ConcatMapAppend(a, b', f);
      AppendInit(a, b);
      Assoc(ConcatMap(a, f), ConcatMap(b', f), f(b[|b| - 1]));
    }
  }

  /** One more name: its output comes last. */
  lemma ConcatMapSnoc(names: seq<string>, i: nat, f: string -> seq<string>)
    requires i < |names|
    ensures ConcatMap(names[..i + 1], f) == ConcatMap(names[..i], f) + f(names[i])
  {
    assert names[..i + 1][..i] == names[..i];
  }

  /** What one file prints: `to_tab` of each of its records. */
  function FileOutput(lines: seq<string>): (out: seq<string>)
  {
    TabLines(ParseFile(lines))
  }

  /** Everything printed for the files `names`, each read through `contents` and parsed from scratch. */
  function Report(names: seq<string>, contents: string -> seq<string>): (out: seq<string>)
  {
    ConcatMap(names, name => FileOutput(contents(name)))
  }

  /** Nothing carries over between files: the report of two lists of files is the two reports, one after the other. */
  lemma ReportAppend(a: seq<string>, b: seq<string>, contents: string -> seq<string>)
    ensures Report(a + b, contents) == Report(a, contents) + Report(b, contents)
  {
    ConcatMapAppend(a, b, name => FileOutput(contents(name)));
  }

  // ---------------------------------------------------------------------------
  // The loops

  /** The body of the loop: the `if`/`elif` chain, updating `state` and `cur` and saying what it prints. */
  method StepLine(state: State, cur: Rec, line: string) returns (state': State, cur': Rec, printed: Option<Rec>)
    ensures Transition(Session(state', cur'), printed) == Step(Session(state, cur), line)
  {
    state', cur', printed := state, cur, None;
    if state == Start && line == Marker {
      state' := InRec;
      if Truthy(cur.id) {
        printed := Some(cur);
        cur' := Fresh;
      }
    } else if state == InRec {
      var m := MatchId(line);
      if m.Some? {
        state' := HaveId;
        cur' := cur.(id := m);
      }
    } else if state == HaveId {
      var m := MatchSource(line);
      if m.Some? {
        state' := HaveSource;
        cur' := cur.(source := m);
      }
    } else if state == HaveSource {
      var m := MatchBitscore(line);
      if m.Some? {
        state' := HaveBitscore;
        cur' := cur.(bitscore := m);
      }
    } else if state == HaveBitscore {
      if MatchStartHits(line) {
        state' := InHits;
      }
    } else if state == InHits {
      if line == Marker {
        state' := InRec;
        printed := Some(cur);
        cur' := Fresh;
      } else {
        var m := MatchHitRow(line);
        if m.Some? {
          cur' := AddHit(cur, m.value.pctId, m.value.evalue);
        }
      }
    }
  }

  /** One more line: the step from where the earlier lines left off. */
  lemma FeedThen(s: Session, xs: seq<string>, line: string)
    ensures var o := Feed(s, xs);
            var t := Step(o.session, line);
            Feed(s, xs + [line]) == Outcome(t.next, o.emitted + OptionToSeq(t.emitted))
  {
    assert (xs + [line])[..|xs|] == xs;
  }

  /** One more line: the loop's two variables and the printed records after it. */
  lemma FeedStep(lines: seq<string>, n: nat, s: Session, printed: seq<Rec>, t: Transition)
    requires n < |lines|
    requires Feed(Initial, lines[..n]) == Outcome(s, printed)
    requires t == Step(s, lines[n])
    ensures Feed(Initial, lines[..n + 1]) == Outcome(t.next, printed + OptionToSeq(t.emitted))
  {
    FeedThen(Initial, lines[..n], lines[n]);
    assert lines[..n] + [lines[n]] == lines[..n + 1];
  }

  /** What a file prints, from where its lines leave the machine. */
  lemma FileOutputFrom(lines: seq<string>, s: Session, printed: seq<Rec>)
    requires Feed(Initial, lines) == Outcome(s, printed)
    ensures FileOutput(lines) == TabLines(printed + Flush(s))
  {
  }

  /** One pass of the loop on line `n`: the step, and the print when the step emits. */
  method ParseLine(lines: seq<string>, n: nat, state: State, cur: Rec, out: seq<string>, ghost printed: seq<Rec>)
    returns (state': State, cur': Rec, out': seq<string>, ghost printed': seq<Rec>)
    requires n < |lines|
    requires Feed(Initial, lines[..n]) == Outcome(Session(state, cur), printed)
    requires out == TabLines(printed)
    ensures Feed(Initial, lines[..n + 1]) == Outcome(Session(state', cur'), printed')
    ensures out' == TabLines(printed')
  {
    var p;
    state', cur', p := StepLine(state, cur, lines[n]);
    FeedStep(lines, n, Session(state, cur), printed, Transition(Session(state', cur'), p));
    if p.Some? {
      TabLinesSnoc(printed, p.value);
      out' := out + [ToTab(p.value)];
      printed' := printed + [p.value];
    } else {
      out', printed' := out, printed;
      assert printed + OptionToSeq(p) == printed;
    }
  }

  /** The loop over one file's lines, printing into `out`; then the last record. */
  method ParseLines(lines: seq<string>) returns (out: seq<string>)
    ensures out == FileOutput(lines)
  {
    var state := Start;
    var cur := Fresh;
    out := [];
    ghost var printed: seq<Rec> := [];
    var n := 0;
    while n < |lines|
      invariant n <= |lines|
      invariant Feed(Initial, lines[..n]) == Outcome(Session(state, cur), printed)
      invariant out == TabLines(printed)
    {
      state, cur, out, printed := ParseLine(lines, n, state, cur, out, printed);
      n := n + 1;
    }
    assert lines[..n] == lines;
    FileOutputFrom(lines, Session(state, cur), printed);
    if cur.id.Some? {
      TabLinesSnoc(printed, cur);
      out := out + [ToTab(cur)];
    } else {
      assert printed + [] == printed;
    }
  }

  /**
   * `main`: every file in turn, each parsed from a fresh start, all printed to
   * one output; with no file arguments, standard input, named `-`, is read.
   */
  method ProcessFiles(args: seq<string>, contents: string -> seq<string>) returns (out: seq<string>)
    ensures |args| == 0 ==> out == FileOutput(contents("-"))
    ensures |args| > 0 ==> out == Report(args, contents)
  {
    var files := args;
    if |files| == 0 {
      files := ["-"];
    }
    ghost var f := name => FileOutput(contents(name));
    out := [];
    var i := 0;
    while i < |files|
      invariant i <= |files|
      invariant out == ConcatMap(files[..i], f)
    {
      var fileOut := ParseLines(contents(files[i]));
      ConcatMapSnoc(files, i, f);
      out := out + fileOut;
      i := i + 1;
    }
    assert files[..i] == files;
    if |args| == 0 {
      assert files[..0] == [];
    }
  }
}
