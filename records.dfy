/**
 * The record holder `Rec` and its one-line, tab-separated rendering `to_tab`.
 * A record is a value here: the parser only ever refers to the record under
 * construction through one variable, so setting a field or appending a hit is
 * the same as building the updated value.
 */
module Records {
  import opened Wrappers
  import opened Text

  /** `Rec`: three optional header fields and the two hit lists, which grow together. */
  datatype Rec = Rec(
    id: Option<string>,
    source: Option<string>,
    bitscore: Option<string>,
    pctIds: seq<nat>,
    evalues: seq<string>)

  /** `Rec()`: every field unset, both lists empty. */
  const Fresh: Rec := Rec(None, None, None, [], [])

  /** One percent identity per e-value: the lists have equal length. */
  predicate Balanced(r: Rec)
  {
    |r.pctIds| == |r.evalues|
  }

  /** Appending one hit row's values: both lists grow by one, the rest of the record stays. */
  function AddHit(r: Rec, pctId: nat, evalue: string): (r': Rec)
    ensures Balanced(r') <==> Balanced(r)
    ensures |r'.pctIds| == |r.pctIds| + 1 && r'.pctIds[..|r.pctIds|] == r.pctIds && r'.pctIds[|r.pctIds|] == pctId
    ensures |r'.evalues| == |r.evalues| + 1 && r'.evalues[..|r.evalues|] == r.evalues && r'.evalues[|r.evalues|] == evalue
    ensures r'.id == r.id && r'.source == r.source && r'.bitscore == r.bitscore
  {
    r.(pctIds := r.pctIds + [pctId], evalues := r.evalues + [evalue])
  }

  /** `'{}'.format(v)` for an optional string: the text itself, or `None` when unset. */
  function Show(v: Option<string>): (t: string)
  {
    match v
    case None => "None"
    case Some(t) => t
  }

  /** `str(i) for i in xs`. */
  function NatStrings(xs: seq<nat>): (r: seq<string>)
    ensures |r| == |xs| && forall k :: 0 <= k < |xs| ==> r[k] == NatToString(xs[k])
  {
    if |xs| == 0 then [] else NatStrings(xs[..|xs| - 1]) + [NatToString(xs[|xs| - 1])]
  }

  /** The percent identities, comma-joined. */
  function PctField(xs: seq<nat>): (field: string)
  {
    Join(NatStrings(xs), ',')
  }

  /** The e-values, comma-joined. */
  function EvalueField(xs: seq<string>): (field: string)
  {
    Join(xs, ',')
  }

  /** The five values `to_tab` formats, in order. */
  function Fields(r: Rec): (fields: seq<string>)
  {
    [Show(r.id), Show(r.source), Show(r.bitscore), PctField(r.pctIds), EvalueField(r.evalues)]
  }

  /** `to_tab`: the five fields separated by tabs, with nothing escaped. */
  function ToTab(r: Rec): (line: string)
  {
    Join(Fields(r), '\t')
  }

  /** Every character of a joined text comes from a piece or is the separator. */
  lemma {:induction false} JoinChars(xs: seq<string>, sep: char, c: char)
    requires c != sep && forall i :: 0 <= i < |xs| ==> c !in xs[i]
    ensures c !in Join(xs, sep)
  {
    if |xs| > 1 {
      JoinChars(xs[1..], sep, c);
      assert Join(xs, sep) == xs[0] + [sep] + Join(xs[1..], sep);
    }
  }

  /** The percent-identity field holds only digits and commas. */
  lemma PctFieldChars(xs: seq<nat>, c: char)
    requires c != ',' && !IsDigit(c)
    ensures c !in PctField(xs)
  {
    var strs := NatStrings(xs);
    assert forall i :: 0 <= i < |strs| ==> c !in strs[i];
    JoinChars(strs, ',', c);
  }

  /** When no field holds a tab, the line splits on tabs back into exactly the five fields. */
  lemma ToTabFields(r: Rec)
    requires forall i :: 0 <= i < 5 ==> '\t' !in Fields(r)[i]
    ensures Split(ToTab(r), '\t') == Fields(r)
    ensures |Split(ToTab(r), '\t')| == 5
  {
    SplitJoin(Fields(r), '\t');
  }

  /** The percent-identity field reads back, through `int`, as the list it was made from. */
  lemma PctFieldRoundTrip(xs: seq<nat>)
    requires |xs| > 0
    ensures var parts := Split(PctField(xs), ',');
            |parts| == |xs| &&
            forall k :: 0 <= k < |xs| ==> AllDigits(parts[k]) && DigitsValue(parts[k]) == xs[k]
  {
    var strs := NatStrings(xs);
    assert forall i :: 0 <= i < |strs| ==> ',' !in strs[i];
    SplitJoin(strs, ',');
    forall k | 0 <= k < |xs|
      ensures DigitsValue(strs[k]) == xs[k]
    {
      NatToStringRoundTrip(xs[k]);
    }
  }

  /** An empty hit list renders as an empty field. */
  lemma EmptyListsEmptyFields(r: Rec)
    requires r.pctIds == [] && r.evalues == []
    ensures Fields(r)[3] == "" && Fields(r)[4] == ""
  {
    assert NatStrings([]) == [];
  }

  /** The e-value field splits on commas back into the lexemes, when none of them holds a comma. */
  lemma EvalueFieldRoundTrip(xs: seq<string>)
    requires |xs| > 0 && forall i :: 0 <= i < |xs| ==> ',' !in xs[i]
    ensures Split(EvalueField(xs), ',') == xs
  {
    SplitJoin(xs, ',');
  }
}
