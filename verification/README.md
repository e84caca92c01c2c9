# PageSpeed Insights accessibility checker, modelled in Dafny

`psi_accessibility_app.py` is a Streamlit script. It reads a CSV with a `urls`
column and asks the Google PageSpeed Insights API for each URL's Lighthouse
accessibility result. It shows the overall score per URL and then, for a chosen
URL, that URL's audits grouped into failed, manual-check, passed and
not-applicable lists. This project models the script's core in pure Dafny
functions and a few methods:

- `Classify`: the audit classifier `get_audit_category`.
- `Client` and `Normalizer`: `get_psi_accessibility_details`.
  - `Client` covers URL clean-up, the single request, and how every transport,
    HTTP and parsing outcome becomes the result dict.
  - `Normalizer` covers how a decoded API response becomes a score text and a
    list of canonical audit records.
- `Batch`: cleaning the uploaded `urls` column, the serial loop that fills the
  summary column and the per-row audit store, and the session logic that
  decides whether an upload is processed again on a rerun.
- `Views`: the `"idx: url"` selector options, the index read back from the
  chosen option, and the grouping of a row's stored audits into the four lists.
- Supporting modules:
  - `Json`: Python values as `json.loads` produces them.
  - `Py`: `dict.get`, iteration, `==` against a number and `int(v * 100)`,
    including the exceptions they raise, as a `Raising` result.
  - `Text`: `strip`, `split`, `int()` and `str()` of integers.
  - `Seqs`: list comprehensions as order-preserving filters.
  - `Options`.
- `Scenarios`: concrete instances, e.g. 0.55 is shown as "55%".

The network is a parameter: `fetch` maps the request the app would send
(cleaned URL, key and strategy) to what the transport produced. That result is
a timeout, another request failure, some other exception, or a response with a
status, a raw text and a JSON-or-not body.

How the code behaves, and so how the model behaves:

- Each row whose cell is a non-blank string gets exactly one API call, with the
  one strategy picked in the radio button (desktop or mobile). Any other row is
  answered "Invalid URL provided" without a call. The per-row audit store is
  keyed by row index only.
- The script only fetches and displays results: it does no further analysis of
  the audits and keeps no analysis cache (the only cache, on the CSV export,
  is display code).
- The code sleeps after every call, the last one included. The sleep has no
  effect on results.
- Failures are free-text strings, not a typed taxonomy. Examples:
  `"Error: Timeout"`, `"API Error <code>: <message>"`, `"HTTP Error <status>: <text>"`,
  `"API Error: <message>"`, `"Error: Network Issue (...)"`,
  `"Error: Unexpected API Response Structure (...)"`, `"Error: Unexpected (...)"`.
  `Client.KindOf` reads the kind back from such a text, testing these forms in
  order.

## Model

| member | source | states |
|---|---|---|
| Classify.CategoryOf | psi_accessibility_app.py:15-35 | Each category is characterised independently, in both directions. Failed iff the score equals 0 (True/False compare as 1/0) and the mode is binary. Manual check iff the mode is manual or informative, whatever the score. Passed iff the score equals 1 and the mode is binary. Not applicable iff the mode is notApplicable. Other iff the mode is none of the four, or the mode is binary with a score that is neither 0 nor 1. |
| Classify.NamesDistinct | psi_accessibility_app.py:319-322 | The stored category labels are distinct, so the view's string comparisons select exactly one category. |
| Client.WithScheme | psi_accessibility_app.py:56-58 | A stripped URL is kept iff it already starts with http:// or https://; otherwise the result is "https://" + the URL. Either way the result has a scheme and is still stripped. |
| Client.CleanUrl | psi_accessibility_app.py:54-58 | Rejected iff the cell is not a string or is blank. An accepted URL has a scheme, has no surrounding whitespace, and equals the stripped input iff that input already had a scheme; otherwise it is "https://" + the stripped input. |
| Client.CleanUrlIdempotent | psi_accessibility_app.py:54-58 | Cleaning an already cleaned URL gives it back unchanged. |
| Client.RawHttpError | psi_accessibility_app.py:135 | The raw fallback message is "HTTP Error <status>: " followed by the first 200 characters of the response text, or the whole text when it is shorter. |
| Client.ApiErrorDetail | psi_accessibility_app.py:132-134 | Reading the body's error object succeeds iff the body is a dict whose 'error' entry (default {}) is a dict; a result starts with "API Error ". |
| Client.HttpErrorDetail | psi_accessibility_app.py:129-137 | For a 4xx/5xx response: a non-JSON body gives the raw "HTTP Error status: first 200 chars" text. A JSON dict whose 'error' is a dict gives "API Error code: message", with the status and "No details provided" as defaults. Any other JSON falls back to the raw text. The result starts with "API Error " exactly in the dict case. |
| Client.ExceptionMessage | psi_accessibility_app.py:141-147 | An AttributeError becomes "Error: Unexpected API Response Structure (<e>)" and any other exception "Error: Unexpected (<e>)", closing with ")". The kind read back from the text is the matching one, and the exception's text can be cut back out of it. |
| Client.Respond | psi_accessibility_app.py:67-147 | Each transport outcome has its own message. A timeout gives "Error: Timeout". A request failure gives "Error: Network Issue (<e>)", as does a 2xx body that is not JSON. Any other exception gives "Error: Unexpected (<e>)". A 4xx/5xx response gives its HTTP error detail. A JSON body gives the normaliser's result, its "API Error: " outcome included, or the message of the exception it raised. A scored result comes back iff the response is not 4xx/5xx, its body is JSON and well shaped, and the normaliser yields a score. |
| Client.RespondErrorKinds | psi_accessibility_app.py:126-147 | The kind read back from each failure's text is the one its path produces: timeout, network issue, unexpected, API status or raw HTTP status for a 4xx/5xx, network issue for a non-JSON 2xx body, the upstream API message for a falsy lighthouseResult, and bad structure or unexpected for an exception from the normaliser. No failure after validation reads as the invalid-URL message. |
| Client.RequestFor | psi_accessibility_app.py:54-68 | A request is made iff the URL cleans; it carries the cleaned URL, the key and the strategy. |
| Client.GetDetails | psi_accessibility_app.py:39-147 | An invalid URL gives "Invalid URL provided". A valid URL gives exactly the response mapping applied to what the network returns for the one request with the cleaned URL, key and strategy. Every error text has a recognisable kind, and that kind is "invalid input" iff the URL does not clean. |
| Client.NoRequestForInvalidUrl | psi_accessibility_app.py:54-55 | An invalid URL gets the same outcome whatever the network does: no request is made. |
| Client.OneRequestForValidUrl | psi_accessibility_app.py:56-70 | For a valid URL, two networks that answer the one request alike give the same outcome: that request is the only one used. |
| Normalizer.SnippetOf | psi_accessibility_app.py:102-108 | Reading the snippet raises iff the audit, its details, or the node of a dict first item is not a dict, and what it raises is AttributeError. Otherwise it is the node snippet if truthy, else the item's own snippet. |
| Normalizer.ItemSnippetOf | psi_accessibility_app.py:108 | For a dict first item: its node's snippet if truthy, else its own snippet; AttributeError exactly when the node is not a dict. |
| Normalizer.ExpectedSnippetOf | psi_accessibility_app.py:103-121 | The snippet a record shows is the one read from the first item, or the placeholder when that is empty, and is never empty. |
| Normalizer.BuildRecord | psi_accessibility_app.py:97-122 | A record is built iff the snippet is readable; otherwise the audit raises AttributeError. It carries the reference id, the audit's score and display mode, title and description defaulting to "N/A", the category the classifier gives for that score and mode, and the node snippet, else the item snippet, else the placeholder; the snippet is never empty. |
| Normalizer.CollectAudits | psi_accessibility_app.py:90-122 | Never more records than references, and every record is canonical. |
| Normalizer.CollectAuditsRaises | psi_accessibility_app.py:90-108 | The loop raises iff some reference is unreadable: the reference is not a dict, the audits container is not a dict, its id is unhashable, or its found audit's snippet is unreadable. |
| Normalizer.CollectAuditsKeeps | psi_accessibility_app.py:90-95 | The record ids are, in order, the ids of exactly those references whose audit object exists and is non-empty. |
| Normalizer.CollectAuditsRecords | psi_accessibility_app.py:90-122 | The k-th record is the record built from the k-th kept reference and its audit, and there is one record per kept reference. |
| Normalizer.BuiltInOrderAt | psi_accessibility_app.py:114-122 | When records were built in order from references, the two lists have the same length and record k is the one built from reference k. |
| Normalizer.Percent | psi_accessibility_app.py:83-84 | The text ends in '%' and the part before it parses back to int(score*100). For a non-negative float, that integer is the truncation of score*100. When int(score*100) succeeds, the call raises ValueError iff that integer has more than 4300 digits, which str() refuses to convert. When int(score*100) itself fails, the call raises what int() raises; for a string that is a ValueError, e.g. for a non-digit or over-long text. |
| Normalizer.ScoreDisplay | psi_accessibility_app.py:80-84 | The score is "N/A" iff accessibility.score is absent or null, else its percentage; it raises iff the category is not a dict or the score cannot be multiplied and converted. |
| Normalizer.AuditList | psi_accessibility_app.py:87-95 | The audit list is returned iff auditRefs is iterable and every reference is readable. It has no more records than references, all canonical, and equals the loop over the references. |
| Normalizer.Normalize | psi_accessibility_app.py:72-124 | A falsy lighthouseResult gives "API Error: " + the upstream message, and a scored result implies a truthy lighthouseResult. The score is "N/A" iff the raw score is null, otherwise its percentage. There are no more audits than references, and every audit is canonical. |
| Normalizer.NormalizeRaises | psi_accessibility_app.py:72-124 | The normaliser raises exactly on responses that are not well shaped. Missing optional fields take their defaults. |
| Normalizer.NormalizeAudits | psi_accessibility_app.py:87-124 | The returned audit list is the loop's result over the accessibility references and the audits dict. |
| Normalizer.NormalizeKeeps | psi_accessibility_app.py:87-95 | The audit list names, in order, the subsequence of accessibility references whose audit object exists and is non-empty. |
| Normalizer.NormalizeRecords | psi_accessibility_app.py:87-124 | Each returned audit is the record built from the corresponding kept reference: its score, mode, title, description, category and snippet are those of that reference's audit. |
| Batch.CleanRows | psi_accessibility_app.py:222-224 | Keeps exactly the present, non-blank cells, each as many times as it occurs, in their original order, as rows 0..n-1. |
| Batch.Record | psi_accessibility_app.py:254-261 | An error outcome is stored as its text plus a one-element error-marker list; a scored outcome as its score plus its audits. The stored list starts with an error marker iff the call failed, and a success stores only audits. |
| Batch.RecordAll | psi_accessibility_app.py:239-261 | One score per outcome, the store's keys are exactly 0..n-1, and row i records outcome i. |
| Batch.ProcessRows | psi_accessibility_app.py:232-265 | One score per URL. The store's keys are exactly 0..n-1. Row i holds what the call for URL i produced, and a failed call does not stop the loop. |
| Batch.Decide | psi_accessibility_app.py:202-212 | An upload is processed iff it has a new name, or the same name with no stored results; a new name clears results and details first. |
| Batch.Process | psi_accessibility_app.py:215-285 | An empty or unreadable file clears results and details. A missing urls column, or no usable rows, leaves the session as it was. Otherwise the table and the store hold exactly this run's rows and outcomes. |
| Batch.FirstUploadProcessed | psi_accessibility_app.py:190-212 | The first upload of a new session is processed, on a session that holds only its file name. |
| Batch.Rerun | psi_accessibility_app.py:199-285 | Processing happens iff Decide says so. When it does, the filename is recorded. A usable urls column leaves the session holding exactly this run: one row per cleaned URL with its score, and the audit lists of rows 0..n-1, each recording that URL's call; the same upload is then not processed again. An empty or unreadable file leaves no results and no stored audits. A missing column or no usable row leaves the session as Decide left it. |
| Views.OptionLabel | psi_accessibility_app.py:297 | The option f"{idx}: {url}" reads back as idx, and what follows the first ": " is the URL text. |
| Views.OptionLabels | psi_accessibility_app.py:297 | One option per summary row, in row order, and option i reads back as i. |
| Views.SelectedIndex | psi_accessibility_app.py:306 | int(option.split(':')[0]) is defined iff the text before the first colon is an integer literal once stripped. |
| Views.IndexRoundTrip | psi_accessibility_app.py:297-306 | The index parsed back from an option is the index written into it, whatever the URL text contains. |
| Views.SelectingRow | psi_accessibility_app.py:297-316 | Choosing the option of row i shows row i's URL and the audits stored for row i. |
| Views.BeforeFirstPrefix | psi_accessibility_app.py:306 | split(':')[0] of text that starts with a colon-free prefix followed by ':' is that prefix. |
| Views.EntriesView | psi_accessibility_app.py:311-322 | Nothing stored gives the no-audits notice, a leading error marker gives that marker's error, and anything else the grouped audits; every view names the row's URL. |
| Views.ShowDetails | psi_accessibility_app.py:297-322 | No rows means no options. Otherwise an index that does not parse or names no row is a bad selection. Any other option shows the entries view of the row it names, with its stored audits or none. |
| Views.Group | psi_accessibility_app.py:318-326 | Each list holds exactly the stored audits of its category, in stored order. The four counts plus the ungrouped entries (error markers and 'other' audits) add up to the number stored. |
| Views.CategoryCounts | psi_accessibility_app.py:319-326 | Every stored entry is counted in exactly one category list or among the ungrouped ones. |
| Views.GroupsDisjoint | psi_accessibility_app.py:319-322 | No entry appears in two lists. |
| Views.ViewOfRecorded | psi_accessibility_app.py:311-316 | A failed call shows its error, a success with no audits shows the empty notice, and any other success shows its grouped audits. |
| Py.Get | psi_accessibility_app.py:72-74 | dict.get raises AttributeError iff the receiver is not a dict. On a dict it yields the default iff the key is absent, and otherwise the value of the key's last occurrence. |
| Py.GetByKey | psi_accessibility_app.py:93 | all_audits_dict.get(id) raises iff the receiver is not a dict or the id is unhashable: AttributeError exactly when the receiver is not a dict, TypeError for an unhashable id on a dict. A string id yields its audit or None, and any other hashable id yields None. |
| Py.Iterate | psi_accessibility_app.py:88-91 | A for loop over auditRefs raises TypeError iff the value is not a list, dict or string. A list yields its items, a dict its keys in order, and a string its characters in order, each as a one-character string. |
| Py.Truncate | psi_accessibility_app.py:84 | int() of a real truncates toward zero. |
| Py.TimesHundred | psi_accessibility_app.py:84 | int(v*100) scales an int or bool exactly and bounds a float's result. It raises TypeError for a list, dict or None. On a string it succeeds iff the string is non-empty decimal digits and its 100 copies stay within int()'s 4300-digit limit, and then gives what int() reads from the 100 copies; otherwise it raises ValueError. |
| Py.RepeatedInt | psi_accessibility_app.py:84 | int(s * 100) of a string succeeds iff s is non-empty digits within the 4300-digit limit, raises ValueError otherwise, and on success is the value int() parses from the repeated text. |
| Json.Lookup | psi_accessibility_app.py:93 | A key is absent iff no pair has it. A found value is the one stored at the key's last occurrence, as json.loads keeps it. |
| Text.Strip | psi_accessibility_app.py:56 | strip() is empty iff the text is all whitespace; otherwise it neither starts nor ends with whitespace. |
| Text.StripSlice | psi_accessibility_app.py:56 | strip() is the slice of the text that starts after its leading whitespace, and everything after that slice is whitespace: only the outer whitespace is removed. |
| Text.StripIdempotent | psi_accessibility_app.py:56 | Stripping twice is stripping once. |
| Text.Take | psi_accessibility_app.py:135 | text[:200] is the prefix of length min(200, len). |
| Text.BeforeFirst | psi_accessibility_app.py:306 | split(sep)[0] is the longest sep-free prefix, ending at the first sep or the end. |
| Text.ParseInt | psi_accessibility_app.py:306 | int() succeeds iff the stripped text is an optional sign followed by digits. Unsigned or '+' digits give their value, '-' digits give its negation, and a negative result has a '-' sign. |
| Text.ParseIntDigits | psi_accessibility_app.py:84 | int() of a non-empty digit string is the number the digits write. |
| Text.ParseIntText | psi_accessibility_app.py:84 | int(str(i)) == i for every integer. |
| Seqs.Filter | psi_accessibility_app.py:319-322 | A comprehension keeps exactly the elements satisfying its condition, each as many times as it occurs. |
| Seqs.FilterIsSubseq | psi_accessibility_app.py:319-322 | It keeps them in their original order. |
| Scenarios.ScoreOfFiftyFive | psi_accessibility_app.py:84 | A score of 0.55 is shown as "55%". |
| Scenarios.ClassifierEdgeCases | psi_accessibility_app.py:26-35 | Binary true is passed, binary 0.0 is failed, manual 1 is a manual check, notApplicable is not applicable, and binary 0.5 is other. |
| Scenarios.CleaningExample | psi_accessibility_app.py:222-224 | ["example.com", NaN, "  "] cleans to ["example.com"]. |
| Scenarios.CleanedBareHost | psi_accessibility_app.py:57-58 | A stripped host without a scheme, such as "example.com", becomes "https://" + the host. |
| Scenarios.SchemeKept | psi_accessibility_app.py:57 | "http://x.org" is kept as it is. |
| Scenarios.BlankRejected | psi_accessibility_app.py:54-55 | A blank cell is an invalid URL. |

## Left out

- Streamlit rendering is not modelled. This covers:
  - titles, expanders and messages;
  - the progress bar and ETA text;
  - the Altair chart;
  - the pass-rate and count metrics;
  - the manual-testing tips;
  - the per-audit rendering of each list;
  - the CSV download button.
  These only display stored data. The model stops at the four grouped lists.
- The API key check and masking (lines 173-179) are not modelled: they run before any core logic. The key is a parameter.
- The HTTP transport, the 120 s timeout and the API endpoint are not modelled: they are the network. `fetch` is an oracle over the request.
- time.sleep and timing are not modelled: they have no effect on results.
- pandas CSV parsing is not modelled. That covers its NA strings ("NA", "null", ...) and column type inference. The model starts from the parsed `urls` cells: missing, string, or number with its str() text.
- `st.stop()` is modelled as "the session is left unchanged": it ends the script run, so nothing is displayed after it. The results table is always empty at that point, since processing only starts after a new name cleared it or when it was already empty.
- Python floats are exact reals here. So IEEE rounding in `score * 100` is not reflected: 0.29 * 100 is 28.999999999999996 in Python and shows as "28%".
- Normalizer.Percent: the float bound is stated only for non-negative scores, because the API's scores are in 0..1.
- Py.TimesHundred: a float's bound is stated loosely (at most score*100 + 1); Percent states the exact truncation for non-negative floats.
- NaN and Infinity, which Python's json module accepts, are not modelled: exact reals cannot represent them.
- `int()` is modelled only on ASCII digit strings. It does not accept Unicode digits or underscores.
- repr and str of floats use plain decimal notation, never exponent notation. repr of strings does not escape quotes or control characters. These texts only appear inside error messages.
- A JSON object with a repeated key is looked up by its last occurrence, as json.loads does. When such an object is iterated or printed, every occurrence is still kept.
- Calling `response.json()` on a 2xx body that is not JSON is treated as a RequestException, i.e. a network issue. This is the behaviour of requests 2.27 and later; older versions raise ValueError, which reads as "Unexpected".
- KeyError is not modelled: no lookup in get_psi_accessibility_details can raise it, since every access there uses `.get`. The `.loc` lookup at line 308 could raise it only for an index that names no row; the model reports such an index as a bad selection.
- The limit of 4300 digits on int/str conversion is the one CPython 3.11 and later apply by default (sys.get_int_max_str_digits). Older interpreters without the limit would show the percentage where the model raises ValueError.
- Text.Strip: its own contract states the emptiness and end characters of the result; that the result is exactly the text minus its outer whitespace is stated by Text.StripSlice, to keep every use of strip() cheap to verify.
- Client.HttpErrorDetail: a body that json.loads rejects with something other than a decoding error is read as not JSON. Examples are an integer literal past 4300 digits, nesting past the recursion limit, or the decoding error of simplejson when it is installed. In the source, such an error in a 4xx/5xx body escapes the handler of lines 131-135. It then leaves get_psi_accessibility_details and reaches the handler at line 281, which clears every stored result and aborts the batch. On a 2xx body it reads as "Error: Unexpected (...)". The model keeps a non-decodable body as a non-JSON body in both cases.
