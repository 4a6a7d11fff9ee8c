# render-yt-dlp: the stream-link endpoint, modelled in Dafny

render-yt-dlp is a small Flask service. Its one piece of decision logic is the
`/get_download_link` endpoint in `main.py`. The endpoint first refuses work
when the server status is not `ACTIVE` and when the form carries no URL. It
then asks the extraction library for the video's info dictionary. From the
info's `formats` list it picks the first format whose `str(format_id)` is
`'18'`; if none is found, it falls back to the info's top-level `url`.
Finally it answers with a JSON body (`status` of `"success"` or `"error"`) and
an HTTP code. The companion `/health` endpoint reports `ok`/200 or `error`/503
depending on the same server status.

The model is pure except for the handler's selection loop:

- `wrappers.dfy` — `Option`.
- `python_values.dfy` — the Python semantics the handler relies on:
  - `dict.get` with and without a default (`Field`). A key that is present
    with the value `None` is not replaced by the default.
  - truthiness of an optional string.
  - `str()` of a format identifier, including the decimal rendering of
    integers and its inverse.
- `extraction.dfy` — the info dictionary and the three ways an extraction
  call can end: an info dictionary, the library's `DownloadError`, or any
  other exception.
- `responses.dfy` — JSON bodies, HTTP codes and the fixed message texts.
- `format_selection.dfy` — first-match selection of the itag-18 format, as a
  specification function with lemmas.
- `download_link.dfy` — the endpoint. `Answer` is the specification.
  `GetDownloadLink` follows the steps of main.py's `get_download_link`, with the `for`/`break`
  selection loop, and is proved equal to `Answer`.
- `health.dfy` — the health endpoint and how it agrees with the endpoint's
  status gate.

The extraction library is a parameter `extract: string -> Outcome`. The
global `SERVER_STATUS` is a parameter `serverStatus`. The form field `url`
is an `Option<string>`. Passing the extractor as a parameter lets the model
state "extraction is not reached": the answer is the same for every
extractor.

Two points of main.py's behaviour that the model keeps as written:

- A missing or empty URL gets an error body with HTTP 200, Flask's default
  (main.py:110-111).
- A matched format is used even when its own `url` is absent, null or
  empty (main.py:138-139). The answer is then a success with a `null` (or
  empty) stream link.

## Model

| member | source | states |
|---|---|---|
| `PythonValues.StrIsEighteen` | main.py:133 | `str(v) == '18'` holds exactly for the string `'18'` and the integer 18. A missing or null identifier renders as `"None"` and never matches. |
| `PythonValues.DecimalRoundTrip` | main.py:133 | The decimal rendering used for `str()` of an integer reads back to the same number, so no other integer renders as `"18"`. |
| `FormatSelection.TargetIdentifiers` | main.py:133 | A format is a target exactly when its `format_id` is present and is `'18'` or `18`. |
| `FormatSelection.FirstTargetIndex` | main.py:131-135 | The chosen position holds a target and no earlier position does. There is no choice exactly when no format is a target. |
| `FormatSelection.FirstTargetIsFirst` | main.py:131-135 | Any target with no target before it is the one the selection returns. |
| `FormatSelection.LaterFormatsIgnored` | main.py:132-135 | Formats after the first target never change the choice (the loop breaks). |
| `FormatSelection.LeadingNonTargetsSkipped` | main.py:132-135 | Non-target formats in front of a list leave the choice unchanged. |
| `DownloadLink.Answer` | main.py:95-165 | Every answer has code 200, 400, 404, 500 or 503. 503 comes exactly when the server is not `ACTIVE`. A success always has 200. An error with 200 comes exactly when the server is active and the URL is missing or empty. |
| `DownloadLink.GetDownloadLink` | main.py:95-165 | The handler, with its first-match selection loop, answers exactly what `Answer` specifies. |
| `DownloadLink.InactiveServerRefuses` | main.py:100-101 | A server that is not `ACTIVE` answers the 503 "unavailable" error, whatever the extractor would do. |
| `DownloadLink.MissingUrlRefused` | main.py:110-111 | An active server given no URL, or an empty one, answers the "no URL" error with code 200, whatever the extractor would do. |
| `DownloadLink.ExtractsOnlyFormUrl` | main.py:127-128 | The answer depends on the extractor only through its outcome for the form's URL. |
| `DownloadLink.ExtractionFailures` | main.py:161-165 | A `DownloadError` answers 400 and any other exception answers 500. Both have status `"error"` and a message that carries the exception text. |
| `DownloadLink.FormatsKey` | main.py:132 | A missing `formats` key behaves as an empty list. A `None` value raises a TypeError that is answered with 500. |
| `DownloadLink.MatchedFormatWins` | main.py:138-139 | When a target exists, the answer is a 200 success whose link is the target's own `url`, even when that is null. The top-level `url` has no influence. |
| `DownloadLink.FallbackLink` | main.py:140-146 | Without a target, a truthy top-level `url` is the link of a 200 success. An absent, null or empty one answers the 404 "no stream" error. |
| `DownloadLink.SuccessCases` | main.py:148-159 | Success happens exactly when the server is active, the URL is given, extraction returns a formats list, and a target or a truthy top-level `url` exists. On success the title is the info title, or `不明な動画` when the key is absent (a null title stays null), and the message is the fixed success text. |
| `Health.HealthCheck` | main.py:45-63 | Status `"ok"` with 200 exactly when the server status is `ACTIVE`; otherwise status `"error"` with 503. |
| `Health.HealthMatchesGate` | main.py:51-63 | The health endpoint reports 503 exactly when the download endpoint answers 503. |

## Left out

- Flask routing, the `render_template` pages and the parsing of `request.form` (main.py:24-40, 103-104). These are HTTP and UI plumbing. The form's `url` field is an optional string.
- The extraction library call and its option dictionary (main.py:114-128). This is a foreign library doing network I/O; its outcome is the `extract` parameter.
- The `datetime.now()` timestamps in the health and status bodies. They are nondeterministic.
- The logging through `print` and `print_value_with_label`. It has no effect on the answers.
- The `/status` endpoint and `CURRENT_TASKS` (main.py:16, 69-89). The endpoint returns a fixed skeleton.
- `app.run` (main.py:167-168).
- JSON serialisation by `jsonify`. A body is a datatype, and `null` is `None`.
- Format identifiers other than strings, integers and `None`, such as floats or booleans. Their `str()` renderings are not modelled.
- Malformed info dictionaries are not modelled: entries of `formats` that are not dictionaries, or an info value that is not a dictionary. The source would answer 500 through its catch-all. Non-string `url` and `title` values are also not modelled.
- The text of an exception is an abstract string. The model does not cover how the library formats it.
