# pull-hits: the BLAST report record extractor, modelled in Dafny

`pull-hits-1.py` reads text reports made of blocks that start with a `>>`
line. Each block holds:

- an id line, `1. <id>`;
- a `Source: <text>` line;
- a `Cumulative Blast bit score: <n>` line;
- a `Table of Blast hits` heading;
- tab-separated hit rows.

For each block the script prints one tab-separated line: the id, the source,
the bit score, the comma-joined percent identities and the comma-joined
e-values. It does this with a six-state machine (`States`) that fills a
mutable record holder (`Rec`) line by line.

This project models that core. It covers:

- the record and its rendering (`Rec`, `to_tab`);
- the five line patterns;
- the state machine;
- the loop over the lines of one file;
- the loop over the files.

It then proves what the code guarantees.

Files, one module each:

- `wrappers.dfy` (`Wrappers`): `Option`.
- `text.dfy` (`Text`): character classes (`\s`, `\d`, `.`), greedy maximal
  runs, `int`/`str` on natural numbers, and `join`/`split`.
- `patterns.dfy` (`Patterns`): the five regular expressions, written as
  recognisers. Each has a soundness lemma and a round-trip lemma against an
  independent description of the text it accepts. The hit-row pattern
  `^\S+\t\S+\t(\d+)\t\d+\t<num>\t(<num>)` is read column by column. Its
  number sub-pattern `\d+(?:\.\d+)?(?:e-?\d+)?` is a small scanner, proved to
  read exactly the texts of the `Numeral` values.
- `records.dfy` (`Records`): `Rec` as a value, appending a hit, and
  `to_tab`, with the lemmas that split its output back into its fields.
- `parser.dfy` (`Parser`): the state machine.
  - `Step` is one pass of the `if`/`elif` chain; `Feed` and `ParseFile`
    give the records one file yields; `Report` gives the whole output.
  - `StepLine`, `ParseLines` and `ProcessFiles` are the imperative loops of
    `main`, with their local variables `state`, `cur` and `files`. Each is
    proved equal to these functions.
  - The invariant `Consistent` states the shape of `cur` in each state. It
    gives the guarantees on every printed record: a non-empty id without
    whitespace, and as many percent identities as e-values.
- `reports.dfy` (`Reports`): reports built from well-formed blocks, as an
  independent reference. Parsing such a report yields exactly one record
  per block, in order. It also proves what happens to a block that is cut off.
- `worked.dfy` (`Examples`): a one-block example report, closed by a second
  `>>`, proved to print its one line, and a block cut off after its id line.
  The example report's lines are these (`\t` stands for a tab):

  ```
  >>
  1. seq42
  Source: some genome
  Cumulative Blast bit score: 123
  Table of Blast hits
  q1\th1\t95\t10\t20\t1e-10
  q1\th2\t88\t10\t20\t2.5e-5
  >>
  ```

Behaviour of the code that a reading of the format alone would not suggest:

- In the four states that wait for a header line, every other line is
  ignored, `>>` included. A block cut off after its id line therefore takes
  the source, the bit score and the hits of the next block, and the next
  block's id is lost (`Reports.TruncatedBlockAbsorbsNext`). A block cut off
  after its source line keeps its id and source and takes the next block's
  bit score and hits (`Reports.CutAfterSourceAbsorbsNext`). One cut off
  after its bit score line takes only the next block's hits
  (`Reports.CutAfterBitscoreAbsorbsNext`). Such a block is not dropped, and
  it is not printed with empty fields.
- A file that ends while its last record still waits for its source or bit
  score prints that record anyway, with `None` for the fields not yet set
  (`Parser.UnsetFieldsPrintNone`, `Examples.CutAfterIdPrintsNone`).
- The hit-row pattern has no end anchor: six columns of the layout are
  accepted whatever follows them (`Patterns.HitRowAccepts`). Text glued to
  the last column can lengthen the captured e-value, as in `1` followed by
  `.5`.
- A block without a matching id line prints nothing of its own: `in_rec`
  waits for the next id line.
- The "print the previous record" branch under `state == start` never fires.
  The record is always fresh there (`Parser.StartNeverEmits`).
- The last record of a file is printed when its id `is not None`. It is not
  printed on `if cur.id:`.
- The source text is `.+`, so it may hold a tab. The printed line then has
  more than five tab-separated fields. `Records.ToTabFields` therefore
  requires tab-free fields.

## Model

| member | source | states |
|---|---|---|
| Text.RunEndMaximal | pull-hits-1.py:82-86 | the greedy scan of a `\S+`, `\d+` or `.+` run stops exactly at the end of the maximal run of that class |
| Text.RunEndUnique | pull-hits-1.py:82-86 | a maximal run from a given start is unique: any maximal run ends where the scan does |
| Text.NatToString | pull-hits-1.py:49 | `str(i)` of a percent identity is a non-empty digit string without a leading zero |
| Text.NatToStringRoundTrip | pull-hits-1.py:49 | `int(str(n)) == n` |
| Text.SplitJoin | pull-hits-1.py:49 | joining on a separator is undone by splitting on it, when no piece holds the separator |
| Patterns.MatchId | pull-hits-1.py:82 | `^1. (\S+)` matches iff the line starts with `1`, a character other than a newline, a space, and a non-whitespace character; the capture is the maximal non-whitespace run from column 3, non-empty and without whitespace |
| Patterns.MatchPrefixedRun | pull-hits-1.py:83-84 | `^<prefix>(<class>+)` matches iff the line starts with the prefix and a character of the class follows it; the capture is the maximal run of that class |
| Patterns.IdLineRoundTrip | pull-hits-1.py:82 | a line of `1`, any character but a newline (the `.` is not escaped), a space and `<id>`, followed by whitespace or nothing, gives back exactly `<id>` |
| Patterns.PrefixedRunRoundTrip | pull-hits-1.py:83-84 | a prefix, then a run of the class that is not followed by that class, gives back exactly the run |
| Patterns.SourceLineRoundTrip | pull-hits-1.py:83 | `Source: <text>` gives back `<text>` for any non-empty text without a newline |
| Patterns.BitscoreLineRoundTrip | pull-hits-1.py:84 | the bit score line gives back its digit string when no digit follows it |
| Patterns.StartHitsLine | pull-hits-1.py:85 | every line starting with `Table of Blast hits` starts the table |
| Patterns.NumeralEnd | pull-hits-1.py:86 | the number sub-pattern matches at a position iff a digit stands there; the match is non-empty and stays in the line |
| Patterns.ScanWholePart | pull-hits-1.py:86 | the one-character-at-a-time scanner reads exactly what the three greedy parts `\d+`, `(?:\.\d+)?` and `(?:e-?\d+)?` read |
| Patterns.NumeralEndSound | pull-hits-1.py:86 | whatever the number sub-pattern reads is the text of a valid numeral: digits, optional `.digits`, optional `e[-]digits` |
| Patterns.NumeralEndRoundTrip | pull-hits-1.py:86 | a valid numeral followed by whitespace or the end of the line is read back exactly |
| Patterns.IsNumeralMeaning | pull-hits-1.py:86 | a text is one whole numeral iff it is the text of some valid `Numeral` |
| Patterns.NumeralIsNumeral | pull-hits-1.py:86 | the text of every valid `Numeral` is accepted as one whole numeral |
| Patterns.NumeralChars | pull-hits-1.py:86 | a numeral holds only digits, `.`, `e` and `-`, so never a tab or a comma |
| Patterns.ScanColumnFits | pull-hits-1.py:86 | each column the hit-row scan reads is a text of that column: a non-empty run of its class, or one whole numeral |
| Patterns.ScanColumnRoundTrip | pull-hits-1.py:86 | a column text followed by whitespace or the end of the line is scanned back exactly |
| Patterns.ScanColumnsSpell | pull-hits-1.py:86 | the columns read, joined by tabs, are the text the scan consumed |
| Patterns.ScanColumnsFit | pull-hits-1.py:86 | every column read fits its place in the six-column layout |
| Patterns.ScanColumnsRoundTrip | pull-hits-1.py:86 | fitting columns joined by tabs, followed by whitespace or nothing, are scanned back as exactly those columns |
| Patterns.MatchHitRowSound | pull-hits-1.py:86 | a hit row is accepted only when it begins with six tab-joined columns of the layout; it yields `int` of the third column and the sixth column |
| Patterns.HitEvalueIsNumeral | pull-hits-1.py:86 | the e-value a hit row yields is one whole numeral |
| Patterns.HitRowRoundTrip | pull-hits-1.py:86 | every six-column row of the layout, followed by whitespace or nothing, is accepted with its third column's value and its sixth column |
| Patterns.ScanColumnsAccept | pull-hits-1.py:86 | tab-joined columns of the layout are accepted whatever text follows them, every column but the last read back exactly |
| Patterns.HitRowAccepts | pull-hits-1.py:86 | the pattern has no end anchor: every six-column row of the layout, followed by any text at all, is accepted, with `int` of its third column as the percent identity |
| Patterns.HitRowMatches | pull-hits-1.py:86 | a line is accepted iff it begins with six tab-joined columns of the layout |
| Records.AddHit | pull-hits-1.py:133-134 | appending a hit grows each list by exactly that element, keeps the earlier ones and the header fields, and keeps the lists balanced iff they were |
| Records.NatStrings | pull-hits-1.py:49 | `str(i) for i in pct_ids` has one string per identity, each that identity's `str` |
| Records.ToTabFields | pull-hits-1.py:49 | when no field holds a tab, the `to_tab` line splits on tabs into exactly its five fields |
| Records.PctFieldChars | pull-hits-1.py:49 | the percent-identity field holds only digits and commas |
| Records.PctFieldRoundTrip | pull-hits-1.py:49 | the percent-identity field splits on commas into one digit string per identity, whose `int` is that identity |
| Records.EvalueFieldRoundTrip | pull-hits-1.py:49 | the e-value field splits on commas back into the e-values |
| Records.EmptyListsEmptyFields | pull-hits-1.py:37-49 | a record with no hits prints two empty list fields |
| Parser.Step | pull-hits-1.py:101-134 | one line of the loop: the machine returns to `start` only from `start`; printing happens only on `>>` and leads to `in_rec` with a fresh record; balanced lists stay balanced |
| Parser.Feed | pull-hits-1.py:100-134 | after `start` the machine never returns to it; at most one record is printed per line |
| Parser.StepLine | pull-hits-1.py:101-134 | the imperative `if`/`elif` chain updates `state` and `cur` and prints exactly as `Step` specifies |
| Parser.ParseLine | pull-hits-1.py:100-134 | one pass of the per-line loop keeps the loop's state equal to `Feed` of the lines read and `out` equal to the printed records |
| Parser.ParseLines | pull-hits-1.py:97-137 | the loop over one file's lines, then the final flush, prints exactly `to_tab` of `ParseFile` of those lines |
| Parser.ProcessFiles | pull-hits-1.py:90-137 | with no file arguments `main` prints exactly what standard input, `-`, yields; otherwise it prints, file after file in argument order, exactly `Report` of the arguments, each file parsed from a fresh start |
| Parser.StepConsistent | pull-hits-1.py:101-134 | each line keeps the per-state shape of `cur`, and any record it prints has a non-empty id without whitespace and balanced lists of numerals |
| Parser.FeedConsistent | pull-hits-1.py:100-134 | the shape invariant holds after any lines, and every record printed on the way is fit to print |
| Parser.ParseFileEmittable | pull-hits-1.py:97-137 | every record a file yields has a non-empty id without whitespace, as many percent identities as e-values, and only numeral e-values |
| Parser.FlushEmittable | pull-hits-1.py:135-137 | the final flush prints the last record iff its id is set, and then that record is fit to print |
| Parser.UnsetFieldsPrintNone | pull-hits-1.py:135-137 | a file ending in `have_id` or `have_source` still prints its last record, with the literal `None` for each unset field and two empty list fields; one ending in `start` or `in_rec` prints nothing more |
| Parser.StartNeverEmits | pull-hits-1.py:101-105 | in `start` the record is fresh, so `>>` there never prints |
| Parser.IgnoredBeforeFirstMarker | pull-hits-1.py:101 | lines before the first `>>` change nothing and print nothing |
| Parser.FirstMarker | pull-hits-1.py:101-105 | the first `>>` moves to `in_rec` with a fresh record and prints nothing |
| Parser.NeverReturnsToStart | pull-hits-1.py:101-134 | once past `start`, no prefix of the lines brings the machine back to `start` |
| Parser.MarkerIsNotExpected | pull-hits-1.py:82-85 | `>>` matches none of the four header patterns |
| Parser.WaitingStep | pull-hits-1.py:106-124 | a waiting state stays put, with its record unchanged, exactly on the lines it does not expect, `>>` among them; it never prints |
| Parser.InHitsStep | pull-hits-1.py:125-134 | in `in_hits`, `>>` prints the record and opens a fresh one in `in_rec`; a matching row appends exactly its hit; any other line changes nothing |
| Parser.EmissionCount | pull-hits-1.py:100-134 | the number of records printed while reading lines is the number of `>>` lines met in `in_hits` |
| Parser.ParseFileCount | pull-hits-1.py:97-137 | a file yields one record per `>>` met in `in_hits`, plus one if the last record's id is set |
| Parser.FeedAppend | pull-hits-1.py:100-134 | reading two runs of lines is reading the second from where the first left off, the printed records concatenated |
| Parser.ReportAppend | pull-hits-1.py:94-137 | no parser state carries over between files: the output for two lists of files is the two outputs one after the other |
| Reports.AddHits | pull-hits-1.py:131-134 | collecting a table's rows keeps the header fields and grows each list by the number of rows |
| Reports.RowMatch | pull-hits-1.py:86 | a well-formed hit row, tab-joined, is not `>>` and is accepted with its third column's value and its sixth column |
| Reports.RowStep | pull-hits-1.py:125-134 | in `in_hits`, a well-formed row appends its hit and prints nothing |
| Reports.RowsFeed | pull-hits-1.py:125-134 | in `in_hits`, well-formed rows append their hits in order and print nothing |
| Reports.OpenStep | pull-hits-1.py:101-105 | `>>` from `start` with a fresh record, or from `in_hits`, opens a fresh record in `in_rec` and prints the one in the table, if any |
| Reports.IdStep | pull-hits-1.py:106-110 | in `in_rec` an id line sets the id and moves to `have_id` |
| Reports.SourceStep | pull-hits-1.py:111-115 | in `have_id` a `Source:` line sets the source and moves to `have_source` |
| Reports.BitscoreStep | pull-hits-1.py:116-120 | in `have_source` a bit score line sets the bit score and moves to `have_bitscore` |
| Reports.HeadingStep | pull-hits-1.py:121-124 | in `have_bitscore` the table heading moves to `in_hits` |
| Reports.HeaderFeed | pull-hits-1.py:101-124 | a block's five header lines set id, source and bit score and reach `in_hits`, printing the previous record if there was one |
| Reports.BlockFeed | pull-hits-1.py:101-134 | a well-formed block prints the previous record and leaves its own record, with all its hits, in the table |
| Reports.ReportFeed | pull-hits-1.py:100-134 | after well-formed blocks, every block but the last has been printed, in order, and the last one's record is in the table |
| Reports.ParseReport | pull-hits-1.py:97-137 | a file of well-formed blocks, after any lines without `>>`, yields exactly one record per block, in order |
| Reports.ParseClosedReport | pull-hits-1.py:125-137 | the same holds when the report ends with a closing `>>`: the last record is printed there, and the final flush prints nothing |
| Reports.NoRecords | pull-hits-1.py:101 | a file without `>>` yields nothing |
| Reports.IgnoredInHaveId | pull-hits-1.py:111-115 | `have_id` ignores `>>` and an id line |
| Reports.TruncatedBlockAbsorbsNext | pull-hits-1.py:106-134 | a block cut off after its id line takes the source, bit score and hits of the next block, whose id is lost |
| Reports.IgnoredWhileWaiting | pull-hits-1.py:106-124 | a waiting state stays where it is, with its record, over lines it does not expect, and prints nothing |
| Reports.CutAfterSourceAbsorbsNext | pull-hits-1.py:111-134 | a block cut off after its `Source:` line keeps its id and source and takes the bit score and hits of the next block |
| Reports.CutAfterBitscoreAbsorbsNext | pull-hits-1.py:116-134 | a block cut off after its bit score line keeps its three header fields and takes only the hits of the next block |
| Examples.ExampleNumerals | pull-hits-1.py:86 | `20`, `1e-10` and `2.5e-5` are numerals of the hit-row pattern |
| Examples.ExampleRecords | pull-hits-1.py:97-137 | the one-block example report yields the one record `seq42`, `some genome`, `123`, `[95, 88]`, `[1e-10, 2.5e-5]` |
| Examples.ExampleOutput | pull-hits-1.py:49 | that report prints one line: `seq42`, `some genome`, `123`, `95,88`, `1e-10,2.5e-5`, tab-separated |
| Examples.CutAfterIdPrintsNone | pull-hits-1.py:97-137 | the file `>>`, `1. x` prints one line: `x`, `None`, `None` and two empty fields, tab-separated |

## Left out

- `open_any` (lines 20-32) is not modelled. Reading standard input, gzip
  and bz2 decompression, Latin-1 decoding and splitting into lines are
  replaced by the parameter `contents`, which gives each file name's lines.
  Its newlines are already removed, as by `l.rstrip('\n')`. I/O errors are
  not modelled.
- Parser.ProcessFiles: describes only runs in which every file opens in
  text mode, every percent identity converts, and `-` appears at most once.
  Under Python 3, `.gz` and `.bz2` files are opened in binary mode, so
  `l.rstrip('\n')` raises a `TypeError` on their first line and the run
  stops with a traceback. The model reads such files like any other. The
  `with` around each file closes standard input when the first `-` ends, so
  a second `-` raises `ValueError` and the run stops after the first one's
  records. The model's `contents` is a function of the name alone and reads
  standard input again. That closed stream is the one state that carries
  over from one file to the next; the parser's own state does not.
- Patterns.HitRowRoundTrip: `int()` of a percent identity longer than 4300
  digits raises a `ValueError` in current CPython, which stops the run. The
  model converts digit strings of any length, so this lemma,
  `Reports.RowStep` and `Reports.ParseReport` also cover such rows.
- `App.__init__` and `parse_options` (lines 59-80) are left out: argument
  parsing, `--verbose` and logging. Only the list of file arguments is kept.
- The `__main__` block (lines 141-155) is left out: exit codes, Ctrl-C and
  broken-pipe handling.
- `print` is modelled as appending to the output sequence. Interleaving
  with other output is not modelled.
- Records.ToTab: each e-value is printed as the captured text, not as
  Python's `repr` of `float(text)`. `2.5e-5` prints as `2.5e-05` in the
  source, and overflowing exponents print as `inf`. Floating point is left
  out.
- Examples.ExampleOutput: for the same reason, the example report's
  second e-value is `2.5e-5` here, where the source prints `2.5e-05`.
- `\d` is modelled as the ASCII digits. Python's `re` also accepts other
  Unicode decimal digits, and Latin-1-decoded files contain none. Input
  decoded some other way could differ.
- The regular-expression engine is not modelled. Each pattern is a
  hand-written recogniser. In the hit-row pattern, backtracking cannot find
  a match that the greedy column-by-column reading misses: a number never
  contains a tab, and a `\S+` run ends only at whitespace. This argument is
  not proved against a semantics of regular expressions.
- `Rec` is an immutable value. The parser only ever refers to the record
  under construction through `cur`, and a record is rendered as soon as it
  is printed. In-place field updates and list appends therefore cannot be
  told apart from rebuilding the value, and aliasing is not modelled.
- Python 2 execution (the `__future__` imports, byte strings) is not
  modelled. The model follows Python 3 semantics.
