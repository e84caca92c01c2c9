/** The response normaliser inside get_psi_accessibility_details: it walks a
    decoded PageSpeed Insights response and yields the overall accessibility
    score and one canonical record per accessibility audit, or an error. Every
    Python exception raised on the way is returned as `Raised`; the client maps
    those to error strings. */
module Normalizer {
  import opened Options
  import opened Json
  import opened Py
  import opened Classify
  import Text
  import Seqs

  const Placeholder: string := " (No specific item snippet)"
  const NoLighthouseResult: string := "No lighthouseResult in API response."
  const ApiErrorTag: string := "API Error: "

  /** One audit as the app stores it; `id`, `title`, `description`, `score` and
      `displayMode` are copied from the response as they are. */
  datatype AuditRecord = AuditRecord(
    id: Json,
    title: Json,
    description: Json,
    score: Json,
    displayMode: Json,
    category: Category,
    snippet: Json)

  /** The dict the function returns: {'score', 'audits'} or {'error'}. */
  datatype Outcome = Scored(score: string, audits: seq<AuditRecord>) | Error(error: string)

  /** The category is the classifier's verdict on the record's own score and
      display mode, and the snippet is never empty. */
  predicate Canonical(a: AuditRecord) {
    a.category == CategoryOf(a.score, a.displayMode) && Truthy(a.snippet)
  }

  // ---- the snippet of one audit ----

  /** details.items[0] when details.items is a non-empty list, else None. */
  function FirstItem(data: Json): Json {
    var items := Field(Field(data, "details", Dict([])), "items", List([]));
    if items.List? && |items.items| > 0 then items.items[0] else Null
  }

  function NodeSnippet(data: Json): Json {
    Field(Field(FirstItem(data), "node", Dict([])), "snippet", Null)
  }

  function ItemSnippet(data: Json): Json {
    Field(FirstItem(data), "snippet", Str(""))
  }

  /** The snippet shown for an audit: the first item's node snippet if non-empty,
      else the first item's own snippet if non-empty, else the placeholder. */
  function ExpectedSnippet(data: Json): Json {
    if Truthy(NodeSnippet(data)) then NodeSnippet(data)
    else if Truthy(ItemSnippet(data)) then ItemSnippet(data)
    else Str(Placeholder)
  }

  /** Reading the snippet raises nothing: the audit and its details are dicts, and
      so is the node of a first item that is a dict. */
  predicate SnippetReadable(data: Json) {
    && data.Dict?
    && Field(data, "details", Dict([])).Dict?
    && (FirstItem(data).Dict? ==> Field(FirstItem(data), "node", Dict([])).Dict?)
  }

  /** Lines 102-108: the snippet before the placeholder is applied. */
  function SnippetOf(data: Json): (r: Raising<Json>)
    ensures r.Returned? <==> SnippetReadable(data)
    ensures r.Raised? ==> r.exception.AttributeError?
    ensures r.Returned? ==> r.value == (if Truthy(NodeSnippet(data)) then NodeSnippet(data) else ItemSnippet(data))
  {
    var details :- Get(data, "details", Dict([]));
    var items :- Get(details, "items", List([]));
    if Truthy(items) && items.List? && |items.items| > 0 then
      var first := items.items[0];
      if first.Dict? then ItemSnippetOf(first) else Returned(Str(""))
    else Returned(Str(""))
  }

  /** Line 108 for a first item that is a dict: its node's snippet if truthy,
      else its own snippet; raises AttributeError when the node is not a dict. */
  function ItemSnippetOf(first: Json): (r: Raising<Json>)
    requires first.Dict?
    ensures r.Returned? <==> Field(first, "node", Dict([])).Dict?
    ensures r.Raised? ==> r.exception.AttributeError?
    ensures r.Returned? ==>
              var fromNode := Field(Field(first, "node", Dict([])), "snippet", Null);
              r.value == if Truthy(fromNode) then fromNode else Field(first, "snippet", Str(""))
  {
    var node := Field(first, "node", Dict([]));
    var fromNode :- Get(node, "snippet", Null);
    if Truthy(fromNode) then Returned(fromNode) else Returned(Field(first, "snippet", Str("")))
  }

  /** Lines 98-122: the record for one audit object that was found. */
  function BuildRecord(id: Json, data: Json): (r: Raising<AuditRecord>)
    ensures r.Returned? <==> SnippetReadable(data)
    ensures r.Raised? ==> r.exception.AttributeError?
    ensures r.Returned? ==> Canonical(r.value) && r.value.id == id
    ensures r.Returned? ==> r.value.score == Field(data, "score", Null)
    ensures r.Returned? ==> r.value.displayMode == Field(data, "scoreDisplayMode", Null)
    ensures r.Returned? ==> r.value.snippet == ExpectedSnippet(data)
    ensures r.Returned? ==> r.value.title == Field(data, "title", Str("N/A"))
    ensures r.Returned? ==> r.value.description == Field(data, "description", Str("N/A"))
  {
    var score :- Get(data, "score", Null);
    // `data` is a dict from here on, so the remaining lookups cannot raise
    var displayMode := Field(data, "scoreDisplayMode", Null);
    var snippet :- SnippetOf(data);
    ExpectedSnippetOf(data);
    var title := Field(data, "title", Str("N/A"));
    var description := Field(data, "description", Str("N/A"));
    Returned(AuditRecord(id, title, description, score, displayMode, CategoryOf(score, displayMode),
                         if Truthy(snippet) then snippet else Str(Placeholder)))
  }

  /** The snippet a record shows is the one read at lines 102-108, or the
      placeholder when that one is empty. */
  lemma ExpectedSnippetOf(data: Json)
    requires SnippetOf(data).Returned?
    ensures var read := SnippetOf(data).value;
            ExpectedSnippet(data) == if Truthy(read) then read else Str(Placeholder)
    ensures Truthy(ExpectedSnippet(data))
  {
  }

  // ---- the audit references ----

  /** ref.get('id') on the success path. */
  function RefId(ref: Json): Json {
    Field(ref, "id", Null)
  }

  /** The audit object a reference names, or None when there is none. */
  function AuditFor(ref: Json, audits: Json): Json {
    var id := RefId(ref);
    if audits.Dict? && id.Str? then Lookup(audits.fields, id.s).GetOr(Null) else Null
  }

  /** Whether a reference yields a record: its audit object exists and is non-empty. */
  function Keeps(audits: Json): Json -> bool {
    ref => Truthy(AuditFor(ref, audits))
  }

  function RefIds(refs: seq<Json>): (ids: seq<Json>)
    ensures |ids| == |refs|
  {
    if |refs| == 0 then [] else [RefId(refs[0])] + RefIds(refs[1..])
  }

  function Ids(records: seq<AuditRecord>): (ids: seq<Json>)
    ensures |ids| == |records|
  {
    if |records| == 0 then [] else [records[0].id] + Ids(records[1..])
  }

  /** One reference is processed without raising. */
  predicate RefReadable(ref: Json, audits: Json) {
    && ref.Dict?
    && audits.Dict?
    && Hashable(RefId(ref))
    && (Truthy(AuditFor(ref, audits)) ==> SnippetReadable(AuditFor(ref, audits)))
  }

  /** The loop over the references raises nothing. */
  predicate RefsReadable(refs: seq<Json>, audits: Json) {
    forall k :: 0 <= k < |refs| ==> RefReadable(refs[k], audits)
  }

  /** Lines 90-122: one record per reference whose audit object is non-empty, in
      reference order; references to missing or empty audit objects are skipped. */
  function CollectAudits(refs: seq<Json>, audits: Json): (r: Raising<seq<AuditRecord>>)
    ensures r.Returned? ==> |r.value| <= |refs|
    ensures r.Returned? ==> forall k :: 0 <= k < |r.value| ==> Canonical(r.value[k])
    decreases |refs|
  {
    if |refs| == 0 then Returned([])
    else
      var id :- Get(refs[0], "id", Null);
      var data :- GetByKey(audits, id);
      if !Truthy(data) then
        CollectAudits(refs[1..], audits)
      else
        var record :- BuildRecord(id, data);
        var rest :- CollectAudits(refs[1..], audits);
        CanonicalCons(record, rest);
        Returned([record] + rest)
  }

  /** A canonical record in front of canonical records. */
  lemma CanonicalCons(record: AuditRecord, rest: seq<AuditRecord>)
    requires Canonical(record) && forall k :: 0 <= k < |rest| ==> Canonical(rest[k])
    ensures forall k :: 0 <= k < |rest| + 1 ==> Canonical(([record] + rest)[k])
  {
    forall k | 0 <= k < |rest| + 1 ensures Canonical(([record] + rest)[k]) {
      if k > 0 {
        assert ([record] + rest)[k] == rest[k - 1];
      }
    }
  }

  /** The loop raises exactly when some reference is unreadable. */
  lemma {:induction false} CollectAuditsRaises(refs: seq<Json>, audits: Json)
    ensures CollectAudits(refs, audits).Returned? <==> RefsReadable(refs, audits)
    decreases |refs|
  {
    if |refs| > 0 {
      CollectAuditsRaises(refs[1..], audits);
      assert RefsReadable(refs, audits) <==> RefReadable(refs[0], audits) && RefsReadable(refs[1..], audits) by {
        if RefReadable(refs[0], audits) && RefsReadable(refs[1..], audits) {
          forall k | 0 <= k < |refs| ensures RefReadable(refs[k], audits) {
            if k > 0 {
              assert refs[k] == refs[1..][k - 1];
            }
          }
        }
      }
    }
  }

  /** The records name, in order, exactly the references whose audit object is
      non-empty. */
  lemma {:induction false} CollectAuditsKeeps(refs: seq<Json>, audits: Json)
    requires CollectAudits(refs, audits).Returned?
    ensures Ids(CollectAudits(refs, audits).value) == RefIds(Seqs.Filter(refs, Keeps(audits)))
    decreases |refs|
  {
    if |refs| == 0 {
      assert CollectAudits(refs, audits).value == [];
    } else if Truthy(AuditFor(refs[0], audits)) {
      CollectAuditsStep(refs, audits);
      CollectAuditsKeeps(refs[1..], audits);
      IdsKeptStep(refs, audits);
    } else {
      RecordsDroppedStep(refs, audits);
      CollectAuditsKeeps(refs[1..], audits);
    }
  }

  /** A reference with a non-empty audit object puts its id in front. */
  lemma IdsKeptStep(refs: seq<Json>, audits: Json)
    requires |refs| > 0 && CollectAudits(refs, audits).Returned?
    requires Truthy(AuditFor(refs[0], audits))
    requires CollectAudits(refs[1..], audits).Returned?
    requires Ids(CollectAudits(refs[1..], audits).value) == RefIds(Seqs.Filter(refs[1..], Keeps(audits)))
    ensures Ids(CollectAudits(refs, audits).value) == RefIds(Seqs.Filter(refs, Keeps(audits)))
  {
    CollectAuditsStep(refs, audits);
    var kept := Seqs.Filter(refs, Keeps(audits));
    var records := CollectAudits(refs, audits).value;
    assert kept[0] == refs[0] && kept[1..] == Seqs.Filter(refs[1..], Keeps(audits));
    assert records[0].id == RefId(refs[0]);
    assert records[1..] == CollectAudits(refs[1..], audits).value;
  }

  /** One turn of the loop: the first reference contributes the record built from
      its audit object when that object is non-empty, and nothing otherwise. */
  lemma CollectAuditsStep(refs: seq<Json>, audits: Json)
    requires |refs| > 0 && CollectAudits(refs, audits).Returned?
    ensures CollectAudits(refs[1..], audits).Returned?
    ensures var rest := CollectAudits(refs[1..], audits).value;
            var built := BuildRecord(RefId(refs[0]), AuditFor(refs[0], audits));
            if Truthy(AuditFor(refs[0], audits)) then
              built.Returned? && CollectAudits(refs, audits).value == [built.value] + rest
            else CollectAudits(refs, audits).value == rest
  {
    assert Get(refs[0], "id", Null) == Returned(RefId(refs[0]));
    assert GetByKey(audits, RefId(refs[0])) == Returned(AuditFor(refs[0], audits));
  }

  /** `records[k]` is the record BuildRecord makes of `refs[k]` and its audit
      object, for every k, and there are as many records as references. */
  predicate BuiltInOrder(refs: seq<Json>, records: seq<AuditRecord>, audits: Json)
    decreases |refs|
  {
    if |refs| == 0 then |records| == 0
    else
      && |records| > 0
      && BuildRecord(RefId(refs[0]), AuditFor(refs[0], audits)) == Returned(records[0])
      && BuiltInOrder(refs[1..], records[1..], audits)
  }

  /** BuiltInOrder read at one position: the lists have equal length and the
      record at `k` is built from the reference at `k`. */
  lemma {:induction false} BuiltInOrderAt(refs: seq<Json>, records: seq<AuditRecord>, audits: Json, k: nat)
    requires BuiltInOrder(refs, records, audits) && k < |refs|
    ensures |records| == |refs|
    ensures BuildRecord(RefId(refs[k]), AuditFor(refs[k], audits)) == Returned(records[k])
    decreases k
  {
    BuiltInOrderLength(refs, records, audits);
    if k > 0 {
      BuiltInOrderAt(refs[1..], records[1..], audits, k - 1);
    }
  }

  lemma {:induction false} BuiltInOrderLength(refs: seq<Json>, records: seq<AuditRecord>, audits: Json)
    requires BuiltInOrder(refs, records, audits)
    ensures |records| == |refs|
    decreases |refs|
  {
    if |refs| > 0 {
      BuiltInOrderLength(refs[1..], records[1..], audits);
    }
  }

  /** A reference with a non-empty audit object puts its record in front. */
  lemma RecordsKeptStep(refs: seq<Json>, audits: Json)
    requires |refs| > 0 && CollectAudits(refs, audits).Returned?
    requires Truthy(AuditFor(refs[0], audits))
    requires CollectAudits(refs[1..], audits).Returned?
    requires BuiltInOrder(Seqs.Filter(refs[1..], Keeps(audits)), CollectAudits(refs[1..], audits).value, audits)
    ensures BuiltInOrder(Seqs.Filter(refs, Keeps(audits)), CollectAudits(refs, audits).value, audits)
  {
    CollectAuditsStep(refs, audits);
    var kept := Seqs.Filter(refs, Keeps(audits));
    var records := CollectAudits(refs, audits).value;
    assert kept[0] == refs[0] && kept[1..] == Seqs.Filter(refs[1..], Keeps(audits));
    assert records[1..] == CollectAudits(refs[1..], audits).value;
  }

  /** A reference whose audit object is missing or empty adds nothing. */
  lemma RecordsDroppedStep(refs: seq<Json>, audits: Json)
    requires |refs| > 0 && CollectAudits(refs, audits).Returned?
    requires !Truthy(AuditFor(refs[0], audits))
    ensures CollectAudits(refs[1..], audits).Returned?
    ensures Seqs.Filter(refs, Keeps(audits)) == Seqs.Filter(refs[1..], Keeps(audits))
    ensures CollectAudits(refs, audits).value == CollectAudits(refs[1..], audits).value
  {
    CollectAuditsStep(refs, audits);
  }

  /** Record k is the record BuildRecord makes for the k-th kept reference and its
      audit object: every field, the category and the snippet rule reach the list. */
  lemma {:induction false} CollectAuditsRecords(refs: seq<Json>, audits: Json)
    requires CollectAudits(refs, audits).Returned?
    ensures BuiltInOrder(Seqs.Filter(refs, Keeps(audits)), CollectAudits(refs, audits).value, audits)
    decreases |refs|
  {
    if |refs| == 0 {
      assert CollectAudits(refs, audits).value == [];
    } else if Truthy(AuditFor(refs[0], audits)) {
      CollectAuditsStep(refs, audits);
      CollectAuditsRecords(refs[1..], audits);
      RecordsKeptStep(refs, audits);
    } else {
      RecordsDroppedStep(refs, audits);
      CollectAuditsRecords(refs[1..], audits);
    }
  }

  // ---- the whole response ----

  function Lighthouse(body: Json): Json {
    Field(body, "lighthouseResult", Null)
  }

  function Accessibility(body: Json): Json {
    Field(Field(Lighthouse(body), "categories", Dict([])), "accessibility", Dict([]))
  }

  /** categories.accessibility.score; None when absent. */
  function RawScore(body: Json): Json {
    Field(Accessibility(body), "score", Null)
  }

  function AuditsOf(body: Json): Json {
    Field(Lighthouse(body), "audits", Dict([]))
  }

  /** The references the loop visits, in order. */
  function RefsOf(body: Json): seq<Json> {
    RefsIn(Accessibility(body))
  }

  /** The upstream message used when there is no lighthouseResult. */
  function ApiMessage(body: Json): Json {
    Field(Field(body, "error", Dict([])), "message", Str(NoLighthouseResult))
  }

  /** Exactly the responses the normaliser walks without raising. Absent fields
      take their defaults; only present fields of the wrong type make it raise. */
  predicate WellShaped(body: Json) {
    && body.Dict?
    && if !Truthy(Lighthouse(body)) then Field(body, "error", Dict([])).Dict?
       else
         && Lighthouse(body).Dict?
         && Field(Lighthouse(body), "categories", Dict([])).Dict?
         && Accessibility(body).Dict?
         && (RawScore(body).Null? || Percent(RawScore(body)).Returned?)
         && Iterate(Field(Accessibility(body), "auditRefs", List([]))).Returned?
         && RefsReadable(RefsOf(body), AuditsOf(body))
  }

  /** f"{int(score_raw * 100)}%": a whole-number percentage that reads back, and
      for a non-negative float the truncated percentage. Rendering an integer of
      more than 4300 digits raises ValueError. */
  function Percent(score: Json): (r: Raising<string>)
    ensures r.Returned? <==> TimesHundred(score).Returned? && Text.DigitCount(TimesHundred(score).value) <= MaxStrDigits
    ensures TimesHundred(score).Returned? && r.Raised? ==> r.exception.ValueError?
    ensures TimesHundred(score).Raised? ==> r == Raised(TimesHundred(score).exception)
    ensures r.Returned? ==> |r.value| > 1 && r.value[|r.value| - 1] == '%'
    ensures r.Returned? ==> Text.ParseInt(r.value[..|r.value| - 1]) == Some(TimesHundred(score).value)
    ensures r.Returned? && score.Float? && score.x >= 0.0 ==>
              var n := TimesHundred(score).value;
              n as real <= score.x * 100.0 < n as real + 1.0
  {
    var n :- TimesHundred(score);
    if Text.DigitCount(n) > MaxStrDigits then Raised(ValueError(TooManyDigitsForStr))
    else
      var digits := Text.IntText(n);
      Text.ParseIntText(n);
      assert (digits + "%")[..|digits|] == digits;
      Returned(digits + "%")
  }

  /** Lines 80-84: the overall score as shown, "N/A" when it is absent. */
  function ScoreDisplay(accessibility: Json): (r: Raising<string>)
    ensures r.Returned? <==>
              accessibility.Dict? && var raw := Field(accessibility, "score", Null);
              raw.Null? || Percent(raw).Returned?
    ensures r.Returned? ==> (r.value == "N/A" <==> Field(accessibility, "score", Null).Null?)
    ensures r.Returned? && r.value != "N/A" ==> Percent(Field(accessibility, "score", Null)) == r
  {
    var scoreRaw :- Get(accessibility, "score", Null);
    if scoreRaw.Null? then Returned("N/A") else Percent(scoreRaw)
  }

  /** Lines 87-122: the audit records of an accessibility category. */
  function AuditList(lighthouse: Json, accessibility: Json): (r: Raising<seq<AuditRecord>>)
    requires lighthouse.Dict? && accessibility.Dict?
    ensures r.Returned? ==> |r.value| <= |RefsIn(accessibility)|
    ensures r.Returned? ==> forall k :: 0 <= k < |r.value| ==> Canonical(r.value[k])
    ensures r.Returned? ==> r == CollectAudits(RefsIn(accessibility), Field(lighthouse, "audits", Dict([])))
    ensures r.Returned? <==>
              && Iterate(Field(accessibility, "auditRefs", List([]))).Returned?
              && RefsReadable(RefsIn(accessibility), Field(lighthouse, "audits", Dict([])))
  {
    var audits := Field(lighthouse, "audits", Dict([]));
    var refs :- Iterate(Field(accessibility, "auditRefs", List([])));
    CollectAuditsRaises(refs, audits);
    CollectAudits(refs, audits)
  }

  /** The references a loop over accessibility.auditRefs visits. */
  function RefsIn(accessibility: Json): seq<Json> {
    match Iterate(Field(accessibility, "auditRefs", List([])))
    case Returned(refs) => refs
    case Raised(_) => []
  }

  /** Lines 72-124. */
  function Normalize(body: Json): (r: Raising<Outcome>)
    ensures r.Returned? && r.value.Error? ==>
              !Truthy(Lighthouse(body)) && r.value.error == ApiErrorTag + Show(ApiMessage(body))
    ensures body.Dict? && !Truthy(Lighthouse(body)) && Field(body, "error", Dict([])).Dict? ==>
              r == Returned(Error(ApiErrorTag + Show(ApiMessage(body))))
    ensures r.Returned? && r.value.Scored? ==> Truthy(Lighthouse(body))
    ensures r.Returned? && r.value.Scored? ==> (r.value.score == "N/A" <==> RawScore(body).Null?)
    ensures r.Returned? && r.value.Scored? && r.value.score != "N/A" ==> Percent(RawScore(body)) == Returned(r.value.score)
    ensures r.Returned? && r.value.Scored? ==> |r.value.audits| <= |RefsOf(body)|
    ensures r.Returned? && r.value.Scored? ==> forall k :: 0 <= k < |r.value.audits| ==> Canonical(r.value.audits[k])
  {
    var lighthouse :- Get(body, "lighthouseResult", Null);
    if !Truthy(lighthouse) then
      var error := Field(body, "error", Dict([]));
      var message :- Get(error, "message", Str(NoLighthouseResult));
      Returned(Error(ApiErrorTag + Show(message)))
    else
      var categories :- Get(lighthouse, "categories", Dict([]));
      var accessibility :- Get(categories, "accessibility", Dict([]));
      var scoreDisplay :- ScoreDisplay(accessibility);
      var records :- AuditList(lighthouse, accessibility);
      Returned(Scored(scoreDisplay, records))
  }

  /** The normaliser raises exactly on responses that are not well shaped; a
      response missing any optional field is still processed. */
  lemma NormalizeRaises(body: Json)
    ensures Normalize(body).Returned? <==> WellShaped(body)
  {
  }

  /** On success with a score, the audit list is what the loop over the
      references collects. */
  lemma NormalizeAudits(body: Json)
    requires Normalize(body).Returned? && Normalize(body).value.Scored?
    ensures CollectAudits(RefsOf(body), AuditsOf(body)) == Returned(Normalize(body).value.audits)
  {
  }

  /** The audit list is the subsequence of the accessibility references whose
      audit object exists and is non-empty, in reference order. */
  lemma NormalizeKeeps(body: Json)
    requires Normalize(body).Returned? && Normalize(body).value.Scored?
    ensures Ids(Normalize(body).value.audits) == RefIds(Seqs.Filter(RefsOf(body), Keeps(AuditsOf(body))))
    ensures Seqs.IsSubseq(Seqs.Filter(RefsOf(body), Keeps(AuditsOf(body))), RefsOf(body))
  {
    NormalizeAudits(body);
    CollectAuditsKeeps(RefsOf(body), AuditsOf(body));
    Seqs.FilterIsSubseq(RefsOf(body), Keeps(AuditsOf(body)));
  }

  /** Each audit record is the one built from its reference's audit object. */
  lemma NormalizeRecords(body: Json)
    requires Normalize(body).Returned? && Normalize(body).value.Scored?
    ensures BuiltInOrder(Seqs.Filter(RefsOf(body), Keeps(AuditsOf(body))), Normalize(body).value.audits,
                         AuditsOf(body))
  {
    NormalizeAudits(body);
    CollectAuditsRecords(RefsOf(body), AuditsOf(body));
  }
}
