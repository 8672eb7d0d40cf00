# YouTube Video AI Analyzer — a Dafny model of its decision logic

`videosumerization/app.py` is a Streamlit page: the user enters a YouTube URL,
the script extracts the video identifier from it, asks the YouTube Data API
for the video's snippet, shows the title and description, and, when the user
presses "Analyze Video" with a non-empty question, sends a prompt built from
title, description and question to a Gemini-backed agent and shows its answer.

This project models the parts of that script that decide something:

- `py_str.dfy` (module `PyStr`): the operations line 53 applies,
  `str.split(sep)` and then `[-1]` and `[0]` on the resulting lists, together
  with `str.find`, `str.rfind`, `sep.join` and `sub in s`, which the script
  does not call but which serve to specify and prove what `split(...)[-1]`
  and `split(...)[0]` yield: the split/join round trip and the shape of the
  first and last pieces of a split.
- `video_id.dfy` (module `VideoId`): the identifier extractor of line 53,
  `youtube_url.split("v=")[-1].split("&")[0]`, written as that expression
  (`ExtractVideoId`) and proved equal to a positional definition: the text
  from just after the LAST `v=` (or from the start when there is none) up to
  the next `&` (or the end).
- `metadata.dfy` (module `Metadata`): the selection of lines 60-63 and
  107-108. The API response is abstract: an optional `items` list, each item
  with an optional `snippet` dictionary of strings.
- `analysis.dfy` (module `Analysis`): the empty-query guard and the prompt
  template of lines 77-95, with the template's exact text (including the
  32-space indentation the triple-quoted f-string carries). The prompt is
  proved to hold the title, description and query verbatim, by an inverse
  (`Recover`) that reads them back out.
- `app.dfy` (module `App`): one run of the script (lines 50-113). The data
  API call and the agent are function parameters; "the agent is never
  invoked" is stated as: the page does not depend on the agent outside the
  prompts listed by `AgentCalls`, and that list is empty for an empty query.

Behaviour of the code worth knowing, as the model states it:

- `[-1]` takes the text after the LAST `v=`, not the first, so a later `v=`
  (including the tail of a parameter such as `dev=`) wins
  (`LaterMarkerOverridesExample`, `ParameterEndingInVExample`).
- A URL without any `v=` is not rejected: the identifier is the whole URL cut
  at its first `&` (`NoMarkerFallback`).
- A first item without a `snippet` key raises a KeyError that the outer
  `except` turns into the generic error message; the model has this as
  `Selection.SnippetMissing` and `Page.Failed`.

## Model

| member | source | states |
|---|---|---|
| PyStr.Find | videosumerization/app.py:53 | `s.find(sub, start)` (the search `split` performs): a result is an occurrence of `sub` at or after `start` |
| PyStr.FindIsFirst | videosumerization/app.py:53 | `find` returns the first occurrence: none lies between `start` and its result, and no result means no occurrence from `start` on |
| PyStr.RFind | videosumerization/app.py:53 | `s.rfind(sub)`: a result is an occurrence of `sub` |
| PyStr.RFindIsLast | videosumerization/app.py:53 | `rfind` returns the last occurrence: none lies after its result, and no result means no occurrence anywhere |
| PyStr.Split | videosumerization/app.py:53 | `str.split(sep)` yields at least one piece; SplitSinglePiece, SplitJoin and SplitPiecesLackSeparator state what the pieces are |
| PyStr.SplitSinglePiece | videosumerization/app.py:53 | `str.split(sep)` yields exactly one piece when, and only when, `sep` does not occur |
| PyStr.Last | videosumerization/app.py:53 | `xs[-1]`: the list is its other elements followed by the result |
| PyStr.SplitJoin | videosumerization/app.py:53 | `str.split` loses nothing: joining its pieces with the separator gives back the string |
| PyStr.SplitPiecesLackSeparator | videosumerization/app.py:53 | no piece produced by `str.split` contains the separator |
| PyStr.SplitFirstPiece | videosumerization/app.py:53 | `split(sep)[0]` is the text before the first separator, or the whole string when there is none |
| PyStr.SplitLastPiece | videosumerization/app.py:53 | `split(sep)[-1]` is a suffix of the string that is either all of it or directly preceded by the separator |
| PyStr.FindInSuffix | videosumerization/app.py:53 | searching the slice `s[k..]` finds what searching `s` from `k` finds, shifted by `k` |
| VideoId.IdStart | videosumerization/app.py:53 | the identifier's start is 0 or directly follows a `v=` |
| VideoId.NoMarkerFromIdStart | videosumerization/app.py:53 | no `v=` occurs at or after the identifier's start, so it follows the LAST `v=` |
| VideoId.IdEnd | videosumerization/app.py:53 | the identifier's end lies between its start and the end of the URL, and is an `&` unless it is the end of the URL |
| VideoId.NoDelimiterBeforeIdEnd | videosumerization/app.py:53 | no `&` lies between the identifier's start and end, so the end is the FIRST `&` after the start |
| VideoId.AfterLastMarker | videosumerization/app.py:53 | `url.split("v=")[-1]` is exactly the text after the last `v=`, or the whole URL when there is none |
| VideoId.ExtractVideoId | videosumerization/app.py:53 | `youtube_url.split("v=")[-1].split("&")[0]`, written as that expression, is the contiguous, possibly empty, substring between IdStart and IdEnd |
| VideoId.IdHasNoDelimiter | videosumerization/app.py:53 | the identifier never contains `&` |
| VideoId.IdHasNoMarker | videosumerization/app.py:53 | the identifier never contains `v=` |
| VideoId.NoMarkerFallback | videosumerization/app.py:53 | without any `v=` the URL is not rejected: the identifier is the URL up to its first `&`, or the whole URL |
| VideoId.MarkerThenToken | videosumerization/app.py:53 | for `prefix + "v=" + X + R` with no `&` in X, R empty or starting with `&`, and no `v=` in X + R, the identifier is exactly X, whatever the prefix holds |
| VideoId.TrailingMarkerGivesEmptyId | videosumerization/app.py:53 | a URL ending in `v=` yields the empty identifier |
| VideoId.WatchUrlExample | videosumerization/app.py:53 | `https://example.com/watch?v=ABC123&t=5s` yields `ABC123` |
| VideoId.LaterMarkerOverridesExample | videosumerization/app.py:53 | a later `v=` parameter overrides an earlier one |
| VideoId.ParameterEndingInVExample | videosumerization/app.py:53 | a later parameter whose name ends in `v` (`dev=1`) is taken for the marker, yielding `1` |
| Metadata.GetOr | videosumerization/app.py:62-63 | `dict.get(key, default)`: the stored value when the key is present, the default only when it is absent |
| Metadata.SelectMetadata | videosumerization/app.py:60-63 | not found exactly when `items` is absent or empty; a first item without snippet is the KeyError case; otherwise title and description come from the first item's snippet, a present value (even empty) kept as is and a placeholder only for an absent key |
| Metadata.FirstItemDecides | videosumerization/app.py:61 | only the first item is used: items after it never change the outcome |
| Metadata.OtherKeysIgnored | videosumerization/app.py:61-63 | snippet keys other than `title` and `description` never change the outcome |
| Analysis.Fill | videosumerization/app.py:85-94 | the prompt is exactly as long as the template's fixed text plus the title, description and query, so nothing is added or dropped |
| Analysis.FillLayout | videosumerization/app.py:85-94 | the filled template places title, description and query verbatim at their offsets between the template's fixed parts |
| Analysis.Recover | videosumerization/app.py:85-94 | whatever is read back out of a prompt re-composes to that same prompt |
| Analysis.RecoverFilled | videosumerization/app.py:85-94 | round trip: title, description and query are read back unchanged from the filled template |
| Analysis.FillInjective | videosumerization/app.py:85-94 | equal prompts for equally long titles and descriptions come from equal inputs |
| Analysis.ComposePrompt | videosumerization/app.py:84-95 | the analysis prompt, the template of lines 85-94 filled in, contains the title, the description and the query |
| Analysis.DecideAnalysis | videosumerization/app.py:78-95 | an empty query gives the warning, and only an empty one; a non-empty query submits the composed prompt |
| App.AnalysisStep | videosumerization/app.py:77-105 | nothing without the button; the warning exactly for a pressed button with an empty query; a shown answer or error is what the agent returned for the composed prompt |
| App.Render | videosumerization/app.py:50-113 | the info prompt exactly for an empty URL; "unable to fetch" exactly when the response has no items; details only from a fetched response for the extracted identifier, with the analysis area given by AnalysisStep; an error page only for a raised API call or a missing snippet, showing the raised exception's own text, or `'snippet'` for the missing snippet |
| App.FetchCalls | videosumerization/app.py:50-58 | at most one API request per run, none for an empty URL |
| App.AgentCalls | videosumerization/app.py:77-98 | at most one agent call per run, none for an empty query, an unpressed button or an empty URL; every submitted prompt contains the query |
| App.FetchOnlyOnCalls | videosumerization/app.py:53-58 | the page depends on the data API only through the extracted identifier |
| App.AnalysisStepOnlyOnPrompt | videosumerization/app.py:77-98 | the analysis area depends on the agent only through its reply to the composed prompt |
| App.AgentOnlyOnCalls | videosumerization/app.py:77-98 | the page depends on the agent only through the prompts in AgentCalls |
| App.EmptyQueryNeverCallsAgent | videosumerization/app.py:78-79 | with an empty query the page is the same whatever the agent does, and a pressed button shows the warning |
| App.AgentFailureRecoverable | videosumerization/app.py:104-105 | an agent failure keeps the details on screen, and a later run with a query the agent answers shows that answer |

## Left out

- Streamlit rendering and widgets (page config, titles, text inputs, button, spinner, markdown, info/warning/error banners): presentation only; the model keeps which banner or area is shown, not its text or layout.
- `@st.cache_resource` and `initialize_agent` (lines 31-41): framework caching and construction of the external Gemini/DuckDuckGo agent; the agent is a function parameter.
- `load_dotenv`, `os.getenv`, `genai.configure` (lines 12-19): environment and credential I/O.
- The YouTube Data API client (`build`, `videos().list`, `execute`, lines 56-58): a network call; modelled only as a function from identifier to response or raised exception.
- `multimodal_Agent.run` and `response.content` (lines 98, 102): a remote language-model call; modelled as an uninterpreted function from prompt to reply or raised exception.
- The wording of the error banners (`f"An error occurred: {error}"` and the analysis variant): the model carries the exception's text, not the surrounding message.
- Exceptions other than those named (for example a non-list `items` or non-string snippet values): the abstract response types rule them out.
- PyStr.Split: an empty separator (ValueError in Python) is excluded by its precondition; the script only splits on `v=` and `&`.

