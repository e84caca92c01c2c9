/** The batch part of the Streamlit script: cleaning the uploaded `urls` column,
    the serial loop that scores every URL and fills the result store, and the
    session state deciding whether an upload is (re)processed. */
module Batch {
  import opened Options
  import Text
  import Seqs
  import opened Normalizer
  import opened Client

  // ---- row cleaning (lines 222-224) ----

  /** str(value) for a cell, as astype(str) and f-strings produce it. */
  function CellText(c: Cell): string {
    match c
    case Missing => "nan"
    case Text(s) => s
    case Number(shown) => shown
  }

  /** A row survives cleaning when its value is present and not blank. */
  predicate Usable(c: Cell) {
    !c.Missing? && Text.Strip(CellText(c)) != ""
  }

  /** dropna, then drop blank rows, then reset_index: the result's positions are
      the new row indices 0..n-1. */
  function CleanRows(cells: seq<Cell>): (urls: seq<Cell>)
    ensures |urls| <= |cells|
    ensures forall c :: c in urls <==> c in cells && Usable(c)
    ensures forall c :: multiset(urls)[c] == if Usable(c) then multiset(cells)[c] else 0
    ensures Seqs.IsSubseq(urls, cells)
  {
    Seqs.FilterIsSubseq(cells, Usable);
    Seqs.Filter(cells, Usable)
  }

  // ---- the result store ----

  /** One element of a stored audit list: an audit record, or the single
      {"error": msg} marker stored for a URL whose call failed. */
  datatype Entry = ErrorMarker(error: string) | Audit(record: AuditRecord)

  function AuditEntries(audits: seq<AuditRecord>): (entries: seq<Entry>)
    ensures |entries| == |audits|
    ensures forall k :: 0 <= k < |audits| ==> entries[k] == Audit(audits[k])
  {
    seq(|audits|, k requires 0 <= k < |audits| => Audit(audits[k]))
  }

  /** One row of the summary table: the URL and its score column. */
  datatype ResultRow = ResultRow(url: Cell, score: string)

  /** How lines 254-261 record one outcome: an error goes into the score column
      and is stored as the single-element error marker; a success stores its
      score and its audit list. */
  predicate Recorded(outcome: Outcome, score: string, entries: seq<Entry>) {
    && (outcome.Error? ==> score == outcome.error && entries == [ErrorMarker(outcome.error)])
    && (outcome.Scored? ==> score == outcome.score && entries == AuditEntries(outcome.audits))
  }

  /** Lines 254-261 for one outcome: the score column value and the stored list. */
  method Record(outcome: Outcome) returns (score: string, entries: seq<Entry>)
    ensures Recorded(outcome, score, entries)
    ensures outcome.Error? <==> |entries| > 0 && entries[0].ErrorMarker?
    ensures outcome.Scored? ==> forall k :: 0 <= k < |entries| ==> entries[k].Audit?
  {
    if outcome.Error? {
      score, entries := outcome.error, [ErrorMarker(outcome.error)];
    } else {
      score, entries := outcome.score, AuditEntries(outcome.audits);
    }
  }

  /** The loop of lines 232-265 over the outcomes of the calls, in row order: row
      i's score column value and stored list record outcome i. */
  method RecordAll(outcomes: seq<Outcome>) returns (scores: seq<string>, details: map<int, seq<Entry>>)
    ensures |scores| == |outcomes|
    ensures forall i :: i in details <==> 0 <= i < |outcomes|
    ensures forall i :: 0 <= i < |outcomes| ==> Recorded(outcomes[i], scores[i], details[i])
  {
    scores := [];
    details := map[];
    var i := 0;
    while i < |outcomes|
      invariant 0 <= i <= |outcomes|
      invariant |scores| == i
      invariant forall j :: j in details <==> 0 <= j < i
      invariant forall j :: 0 <= j < i ==> Recorded(outcomes[j], scores[j], details[j])
    {
      var score, entries := Record(outcomes[i]);
      forall j | 0 <= j < i
        ensures Recorded(outcomes[j], (scores + [score])[j], details[i := entries][j])
      {
        assert (scores + [score])[j] == scores[j];
      }
      scores := scores + [score];
      details := details[i := entries];
      i := i + 1;
    }
  }

  /** Lines 232-265: every URL is scored in order. A failed call puts its error
      in the score column and stores the single-element error marker; the loop
      goes on with the next URL either way. */
  method ProcessRows(urls: seq<Cell>, key: string, strategy: Strategy, fetch: Request -> Transport)
    returns (scores: seq<string>, details: map<int, seq<Entry>>)
    ensures |scores| == |urls|
    ensures forall i :: i in details <==> 0 <= i < |urls|
    ensures forall i :: 0 <= i < |urls| ==>
              Recorded(GetDetails(urls[i], key, strategy, fetch), scores[i], details[i])
  {
    var outcomes := seq(|urls|, j requires 0 <= j < |urls| => GetDetails(urls[j], key, strategy, fetch));
    scores, details := RecordAll(outcomes);
  }

  // ---- the session ----

  /** st.session_state: the summary table (None until a batch completes), the
      stored audit lists keyed by row index, and the last uploaded file name. */
  datatype Session = Session(
    results: Option<seq<ResultRow>>,
    details: map<int, seq<Entry>>,
    lastFilename: Option<string>)

  /** Lines 190-195: the state of a new session. */
  const InitialSession := Session(None, map[], None)

  /** The first upload of a new session is processed, on a session that is still
      empty apart from the file name. */
  lemma FirstUploadProcessed(name: string)
    ensures Decide(Some(name), InitialSession) == (true, Session(None, map[], Some(name)))
  {
  }

  /** What reading the uploaded CSV yields. */
  datatype Contents =
    | EmptyFile                 // pandas' EmptyDataError
    | Unreadable(reason: string) // any other exception while reading
    | NoUrlsColumn
    | UrlsColumn(cells: seq<Cell>)

  datatype Upload = Upload(name: string, contents: Contents)

  /** Lines 202-212: a file with a new name is processed, after clearing the
      previous results; the same file is processed again only when no results
      are stored for it; otherwise nothing happens. */
  function Decide(upload: Option<string>, s: Session): (d: (bool, Session))
    ensures d.0 <==> upload.Some? && (upload != s.lastFilename || s.results.None?)
    ensures upload.Some? && upload != s.lastFilename ==> d.1 == Session(None, map[], upload)
    ensures !(upload.Some? && upload != s.lastFilename) ==> d.1 == s
  {
    match upload
    case None => (false, s)
    case Some(name) =>
      if Some(name) != s.lastFilename then (true, Session(None, map[], Some(name)))
      else if s.results.None? then (true, s)
      else (false, s)
  }

  /** The session holds the outcome of a completed run over `urls`: one table row
      per URL with that URL and its score column value, and one stored audit
      list per row index, each recording what the call for that URL produced. */
  ghost predicate StoresRun(s: Session, urls: seq<Cell>, key: string, strategy: Strategy, fetch: Request -> Transport) {
    && s.results.Some? && |s.results.value| == |urls|
    && (forall i :: i in s.details <==> 0 <= i < |urls|)
    && forall i :: 0 <= i < |urls| ==>
         && s.results.value[i].url == urls[i]
         && Recorded(GetDetails(urls[i], key, strategy, fetch), s.results.value[i].score, s.details[i])
  }

  /** Lines 215-285: one processing run. An unreadable file clears the results; a
      missing `urls` column or a column with no usable value stops the script
      and leaves the session as it was; otherwise every usable URL is scored
      and the session holds the table and the audit lists of this run only. */
  method Process(s: Session, contents: Contents, key: string, strategy: Strategy, fetch: Request -> Transport)
    returns (s': Session)
    ensures contents.EmptyFile? || contents.Unreadable? ==> s' == s.(results := None, details := map[])
    ensures contents.NoUrlsColumn? ==> s' == s
    ensures contents.UrlsColumn? && CleanRows(contents.cells) == [] ==> s' == s
    ensures contents.UrlsColumn? && CleanRows(contents.cells) != [] ==>
              && s'.lastFilename == s.lastFilename
              && StoresRun(s', CleanRows(contents.cells), key, strategy, fetch)
  {
    match contents
    case EmptyFile =>
      s' := s.(results := None, details := map[]);
    case Unreadable(_) =>
      s' := s.(results := None, details := map[]);
    case NoUrlsColumn =>
      s' := s;
    case UrlsColumn(cells) =>
      var urls := CleanRows(cells);
      if urls == [] {
        s' := s;
      } else {
        var scores, details := ProcessRows(urls, key, strategy, fetch);
        var rows := seq(|urls|, i requires 0 <= i < |urls| => ResultRow(urls[i], scores[i]));
        s' := Session(Some(rows), details, s.lastFilename);
      }
  }

  /** One execution of the script with the current upload, if any. After a run
      that completes, the same upload on the next execution is not processed
      again. */
  method Rerun(s: Session, upload: Option<Upload>, key: string, strategy: Strategy, fetch: Request -> Transport)
    returns (s': Session, processed: bool)
    ensures upload.None? ==> s' == s && !processed
    ensures processed <==> upload.Some? && (Some(upload.value.name) != s.lastFilename || s.results.None?)
    ensures !processed ==> s' == s
    ensures processed ==> s'.lastFilename == Some(upload.value.name)
    ensures processed && !(upload.value.contents.UrlsColumn? && CleanRows(upload.value.contents.cells) != []) ==>
              s'.results.None?
    ensures processed && upload.value.contents.UrlsColumn? && CleanRows(upload.value.contents.cells) != [] ==>
              && StoresRun(s', CleanRows(upload.value.contents.cells), key, strategy, fetch)
              && !Decide(Some(upload.value.name), s').0
    ensures processed && (upload.value.contents.EmptyFile? || upload.value.contents.Unreadable?) ==>
              s'.details == map[]
    ensures processed && (upload.value.contents.NoUrlsColumn?
                          || (upload.value.contents.UrlsColumn? && CleanRows(upload.value.contents.cells) == [])) ==>
              s' == Decide(Some(upload.value.name), s).1
  {
    var name := if upload.Some? then Some(upload.value.name) else None;
    var decision := Decide(name, s);
    processed := decision.0;
    if processed {
      s' := Process(decision.1, upload.value.contents, key, strategy, fetch);
    } else {
      s' := decision.1;
    }
  }
}
