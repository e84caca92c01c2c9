/** The result views of the Streamlit script: the "idx: url" options of the
    detail selector and the index read back from the chosen option, and the
    grouping of one URL's stored audits by category. */
module Views {
  import opened Options
  import Text
  import Seqs
  import opened Classify
  import opened Normalizer
  import opened Client
  import opened Batch

  // ---- the detail selector (lines 297 and 306) ----

  /** f"{idx}: {url}": reading the option back gives `idx`, and what follows the
      first ": " is the URL as shown. */
  function OptionLabel(idx: nat, url: Cell): (r: string)
    ensures SelectedIndex(r) == Some(idx)
    ensures |Text.BeforeFirst(r, ':')| + 2 <= |r| && r[|Text.BeforeFirst(r, ':')| + 2..] == CellText(url)
  {
    IndexRoundTrip(idx, CellText(url));
    Text.NatText(idx) + ": " + CellText(url)
  }

  /** One option per summary row, in row order; each option reads back as its
      row's index. */
  function OptionLabels(rows: seq<ResultRow>): (labels: seq<string>)
    ensures |labels| == |rows|
    ensures forall i :: 0 <= i < |rows| ==> labels[i] == OptionLabel(i, rows[i].url)
    ensures forall i :: 0 <= i < |rows| ==> SelectedIndex(labels[i]) == Some(i)
  {
    seq(|rows|, i requires 0 <= i < |rows| => OptionLabel(i, rows[i].url))
  }

  /** int(option.split(":")[0]): defined exactly when the text before the first
      colon is an integer literal once stripped; None where int() raises ValueError. */
  function SelectedIndex(option: string): (r: Option<int>)
    ensures r.Some? <==> Text.IsIntLiteral(Text.Strip(Text.BeforeFirst(option, ':')))
  {
    Text.ParseInt(Text.BeforeFirst(option, ':'))
  }

  /** The index written before ": " is the index read back, whatever follows it:
      str(idx) has no colon, so the split stops right after it. */
  lemma IndexRoundTrip(idx: nat, rest: string)
    ensures var option := Text.NatText(idx) + ": " + rest;
            && Text.BeforeFirst(option, ':') == Text.NatText(idx)
            && Text.ParseInt(Text.BeforeFirst(option, ':')) == Some(idx)
  {
    var digits := Text.NatText(idx);
    var option := digits + ": " + rest;
    assert option == digits + (": " + rest);
    assert forall k :: 0 <= k < |digits| ==> option[k] == digits[k] && digits[k] != ':';
    assert option[|digits|] == ':';
    BeforeFirstPrefix(option, digits, ':');
    Text.ParseIntText(idx);
  }

  /** s.split(sep)[0] of a string that starts with a sep-free prefix followed by sep. */
  lemma BeforeFirstPrefix(s: string, prefix: string, sep: char)
    requires |prefix| < |s| && s[..|prefix|] == prefix && s[|prefix|] == sep
    requires forall k :: 0 <= k < |prefix| ==> prefix[k] != sep
    ensures Text.BeforeFirst(s, sep) == prefix
  {
  }

  // ---- grouping by category (lines 319-326) ----

  /** a.get('category') == c.Name(): only an audit record has a category. */
  function InCategory(c: Category): Entry -> bool {
    (e: Entry) => e.Audit? && e.record.category == c
  }

  /** The entries none of the four lists shows: error markers and 'other' audits. */
  function Ungrouped(): Entry -> bool {
    (e: Entry) => !e.Audit? || e.record.category == Other
  }

  datatype Groups = Groups(failed: seq<Entry>, manual: seq<Entry>, passed: seq<Entry>, notApplicable: seq<Entry>) {
    function Total(): nat {
      |failed| + |manual| + |passed| + |notApplicable|
    }
  }

  /** The four lists of the detail view. Each holds exactly the entries of its
      category, in stored order; no entry is in two lists; 'other' audits are in
      none, so together they never hold more entries than were stored. */
  function Group(entries: seq<Entry>): (g: Groups)
    ensures forall e :: e in g.failed <==> e in entries && e.Audit? && e.record.category == Failed
    ensures forall e :: e in g.manual <==> e in entries && e.Audit? && e.record.category == ManualCheck
    ensures forall e :: e in g.passed <==> e in entries && e.Audit? && e.record.category == Passed
    ensures forall e :: e in g.notApplicable <==> e in entries && e.Audit? && e.record.category == NotApplicable
    ensures Seqs.IsSubseq(g.failed, entries) && Seqs.IsSubseq(g.manual, entries)
    ensures Seqs.IsSubseq(g.passed, entries) && Seqs.IsSubseq(g.notApplicable, entries)
    ensures g.Total() + Seqs.Count(entries, Ungrouped()) == |entries|
    ensures g.Total() <= |entries|
  {
    var g := Groups(Seqs.Filter(entries, InCategory(Failed)), Seqs.Filter(entries, InCategory(ManualCheck)),
                    Seqs.Filter(entries, InCategory(Passed)), Seqs.Filter(entries, InCategory(NotApplicable)));
    Seqs.FilterIsSubseq(entries, InCategory(Failed));
    Seqs.FilterIsSubseq(entries, InCategory(ManualCheck));
    Seqs.FilterIsSubseq(entries, InCategory(Passed));
    Seqs.FilterIsSubseq(entries, InCategory(NotApplicable));
    CategoryCounts(entries);
    g
  }

  /** Every stored entry is counted in exactly one of the four lists or among the
      ungrouped ones. */
  lemma {:induction false} CategoryCounts(entries: seq<Entry>)
    ensures Seqs.Count(entries, InCategory(Failed)) + Seqs.Count(entries, InCategory(ManualCheck))
            + Seqs.Count(entries, InCategory(Passed)) + Seqs.Count(entries, InCategory(NotApplicable))
            + Seqs.Count(entries, Ungrouped()) == |entries|
    decreases |entries|
  {
    if |entries| > 0 {
      CategoryCounts(entries[1..]);
      Seqs.CountStep(entries, InCategory(Failed));
      Seqs.CountStep(entries, InCategory(ManualCheck));
      Seqs.CountStep(entries, InCategory(Passed));
      Seqs.CountStep(entries, InCategory(NotApplicable));
      Seqs.CountStep(entries, Ungrouped());
    }
  }

  /** The lists are pairwise disjoint. */
  lemma GroupsDisjoint(entries: seq<Entry>, e: Entry)
    ensures var g := Group(entries);
            (e in g.failed ==> e !in g.manual && e !in g.passed && e !in g.notApplicable)
            && (e in g.manual ==> e !in g.passed && e !in g.notApplicable)
            && (e in g.passed ==> e !in g.notApplicable)
  {
  }

  // ---- the detail view (lines 299-326) ----

  /** What the detail section shows. */
  datatype View =
    | NoOptions                               // no rows to choose from
    | NothingSelected
    | BadSelection                            // int() or .loc[] raises
    | NothingFound(url: Cell)                 // no stored audits
    | PreviousError(url: Cell, error: string) // the stored error marker
    | Report(url: Cell, groups: Groups)

  /** Lines 311-326 for the row whose URL is `url` and whose stored list is
      `entries`: nothing stored gives the notice, a leading error marker gives
      its message, anything else the grouped audits; every view names the URL. */
  function EntriesView(url: Cell, entries: seq<Entry>): (v: View)
    ensures v.NothingFound? <==> |entries| == 0
    ensures v.PreviousError? <==> |entries| > 0 && entries[0].ErrorMarker?
    ensures v.PreviousError? ==> v.error == entries[0].error
    ensures v.Report? ==> v.groups == Group(entries) && entries[0].Audit?
    ensures v.NothingFound? || v.PreviousError? || v.Report?
    ensures v.url == url
  {
    if |entries| == 0 then NothingFound(url)
    else if entries[0].ErrorMarker? then PreviousError(url, entries[0].error)
    else Report(url, Group(entries))
  }

  /** Lines 297-326: the view for the chosen option of the summary table `rows`.
      With no rows there is nothing to choose; an option whose index does not
      parse or names no row is a bad selection; otherwise the view of that row. */
  function ShowDetails(rows: seq<ResultRow>, details: map<int, seq<Entry>>, option: string): (v: View)
    ensures v.NoOptions? <==> |rows| == 0
    ensures v.NothingSelected? <==> |rows| > 0 && option == ""
    ensures v.BadSelection? <==>
              && |rows| > 0 && option != ""
              && (SelectedIndex(option).None? || !(0 <= SelectedIndex(option).value < |rows|))
    ensures (v.NothingFound? || v.PreviousError? || v.Report?) ==>
              var i := SelectedIndex(option).value;
              && SelectedIndex(option).Some? && 0 <= i < |rows|
              && v == EntriesView(rows[i].url, if i in details then details[i] else [])
  {
    if |rows| == 0 then NoOptions
    else if option == "" then NothingSelected
    else
      match SelectedIndex(option)
      case None => BadSelection
      case Some(i) =>
        if 0 <= i < |rows| then EntriesView(rows[i].url, if i in details then details[i] else [])
        else BadSelection
  }

  /** Choosing the option of row i shows row i's URL and the audits stored for it. */
  lemma SelectingRow(rows: seq<ResultRow>, details: map<int, seq<Entry>>, i: nat)
    requires i < |rows|
    ensures ShowDetails(rows, details, OptionLabels(rows)[i])
            == EntriesView(rows[i].url, if i in details then details[i] else [])
  {
  }

  /** What the view makes of a recorded outcome: a failed call shows its error, a
      success with no audits shows the empty notice, otherwise the grouped audits. */
  lemma ViewOfRecorded(url: Cell, outcome: Outcome, score: string, entries: seq<Entry>)
    requires Recorded(outcome, score, entries)
    ensures outcome.Error? ==> EntriesView(url, entries) == PreviousError(url, outcome.error)
    ensures outcome.Scored? && outcome.audits == [] ==> EntriesView(url, entries) == NothingFound(url)
    ensures outcome.Scored? && outcome.audits != [] ==>
              EntriesView(url, entries) == Report(url, Group(AuditEntries(outcome.audits)))
  {
  }
}
