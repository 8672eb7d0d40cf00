/** One run of the app.py script (lines 50-113), as Streamlit executes it on
    every interaction: the URL, the query and whether the button was pressed
    are its inputs, and the page it shows is its result. The data API call and
    the agent are passed in as functions: `fetch` maps a video identifier to
    the API's response or the exception it raised, `agent` maps a prompt to
    the agent's reply or the exception it raised. */
module App {
  import opened PyStr
  import opened VideoId
  import opened Metadata
  import opened Analysis

  /** The outcome of `build(...).videos().list(...).execute()` (lines 56-58). */
  datatype FetchResult = Fetched(response: Response) | FetchRaised(error: string)

  /** The outcome of `multimodal_Agent.run(prompt).content` (lines 98, 102). */
  datatype AgentResult = Answered(content: string) | AgentRaised(error: string)

  /** The analysis area below the video details. */
  datatype AnalysisView =
    | NotRequested                       // button not pressed
    | QueryWarning                       // line 79
    | AnalysisResult(content: string)    // lines 101-102
    | AnalysisError(error: string)       // line 105

  /** What the page shows. */
  datatype Page =
    | AwaitingUrl                        // line 113
    | DetailsUnavailable                 // line 108
    | Failed(error: string)              // line 111
    | Details(meta: VideoMetadata, analysis: AnalysisView)

  /** The text of the KeyError raised by `response["items"][0]["snippet"]`. */
  const SnippetKeyError: string := "'snippet'"

  /** Lines 77-105: what the analysis area shows once the details are on screen. */
  function AnalysisStep(meta: VideoMetadata, query: string, pressed: bool,
                        agent: string -> AgentResult): (view: AnalysisView)
    ensures view.NotRequested? <==> !pressed
    ensures view.QueryWarning? <==> pressed && query == ""
    ensures view.AnalysisResult? ==> pressed && query != "" && agent(ComposePrompt(meta, query)) == Answered(view.content)
    ensures view.AnalysisError? ==> pressed && query != "" && agent(ComposePrompt(meta, query)) == AgentRaised(view.error)
  {
    if !pressed then NotRequested
    else match DecideAnalysis(meta, query)
      case Warn => QueryWarning
      case Submit(prompt) =>
        match agent(prompt)
        case Answered(content) => AnalysisResult(content)
        case AgentRaised(error) => AnalysisError(error)
  }

  /** Lines 50-113: one run of the script. */
  function Render(url: string, fetch: string -> FetchResult, query: string, pressed: bool,
                  agent: string -> AgentResult): (page: Page)
    ensures page.AwaitingUrl? <==> url == ""
    ensures page.Failed? ==> url != "" && (fetch(ExtractVideoId(url)).FetchRaised? ||
                                           SelectMetadata(fetch(ExtractVideoId(url)).response).SnippetMissing?)
    ensures url != "" && fetch(ExtractVideoId(url)).FetchRaised? ==>
              page == Failed(fetch(ExtractVideoId(url)).error)
    ensures url != "" && fetch(ExtractVideoId(url)).Fetched?
            && SelectMetadata(fetch(ExtractVideoId(url)).response).SnippetMissing? ==>
              page == Failed(SnippetKeyError)
    ensures page.DetailsUnavailable? <==>
              url != "" && fetch(ExtractVideoId(url)).Fetched?
              && (fetch(ExtractVideoId(url)).response.items.None? || fetch(ExtractVideoId(url)).response.items.value == [])
    ensures page.Details? ==>
              url != "" && fetch(ExtractVideoId(url)).Fetched?
              && SelectMetadata(fetch(ExtractVideoId(url)).response) == Found(page.meta)
              && page.analysis == AnalysisStep(page.meta, query, pressed, agent)
  {
    if url == "" then AwaitingUrl
    else match fetch(ExtractVideoId(url))
      case FetchRaised(error) => Failed(error)
      case Fetched(response) =>
        match SelectMetadata(response)
        case NotFound => DetailsUnavailable
        case SnippetMissing => Failed(SnippetKeyError)
        case Found(meta) => Details(meta, AnalysisStep(meta, query, pressed, agent))
  }

  /** The identifiers the run asks the data API about. */
  function FetchCalls(url: string): (ids: seq<string>)
    ensures |ids| <= 1
    ensures url == "" ==> ids == []
  {
    if url == "" then [] else [ExtractVideoId(url)]
  }

  /** The prompts the run submits to the agent. */
  function AgentCalls(url: string, fetch: string -> FetchResult, query: string, pressed: bool): (prompts: seq<string>)
    ensures |prompts| <= 1
    ensures query == "" || !pressed || url == "" ==> prompts == []
    ensures forall p :: p in prompts ==> Contains(p, query)
  {
    if url == "" || !pressed || query == "" then []
    else match fetch(ExtractVideoId(url))
      case FetchRaised(_) => []
      case Fetched(response) =>
        match SelectMetadata(response)
        case Found(meta) => [ComposePrompt(meta, query)]
        case _ => []
  }

  /** The data API is consulted only about the identifiers in FetchCalls: two
      APIs that agree there give the same page. */
  lemma FetchOnlyOnCalls(url: string, f1: string -> FetchResult, f2: string -> FetchResult,
                         query: string, pressed: bool, agent: string -> AgentResult)
    requires forall id :: id in FetchCalls(url) ==> f1(id) == f2(id)
    ensures Render(url, f1, query, pressed, agent) == Render(url, f2, query, pressed, agent)
  {
    if url != "" {
      assert ExtractVideoId(url) in FetchCalls(url);
    }
  }

  /** The analysis area depends on the agent only through the composed prompt. */
  lemma AnalysisStepOnlyOnPrompt(meta: VideoMetadata, query: string, pressed: bool,
                                 a1: string -> AgentResult, a2: string -> AgentResult)
    requires pressed && query != "" ==> a1(ComposePrompt(meta, query)) == a2(ComposePrompt(meta, query))
    ensures AnalysisStep(meta, query, pressed, a1) == AnalysisStep(meta, query, pressed, a2)
  {
  }

  /** The agent is consulted only about the prompts in AgentCalls: two agents
      that agree there give the same page. */
  lemma AgentOnlyOnCalls(url: string, fetch: string -> FetchResult, query: string, pressed: bool,
                         a1: string -> AgentResult, a2: string -> AgentResult)
    requires forall p :: p in AgentCalls(url, fetch, query, pressed) ==> a1(p) == a2(p)
    ensures Render(url, fetch, query, pressed, a1) == Render(url, fetch, query, pressed, a2)
  {
    if url != "" && fetch(ExtractVideoId(url)).Fetched? {
      var s := SelectMetadata(fetch(ExtractVideoId(url)).response);
      if s.Found? {
        if pressed && query != "" {
          assert ComposePrompt(s.meta, query) in AgentCalls(url, fetch, query, pressed);
        }
        AnalysisStepOnlyOnPrompt(s.meta, query, pressed, a1, a2);
      }
    }
  }

  /** An empty query never reaches the agent: the page is the same whatever
      the agent would answer, and a pressed button shows the warning. */
  lemma EmptyQueryNeverCallsAgent(url: string, fetch: string -> FetchResult, pressed: bool,
                                  a1: string -> AgentResult, a2: string -> AgentResult)
    ensures Render(url, fetch, "", pressed, a1) == Render(url, fetch, "", pressed, a2)
    ensures pressed && Render(url, fetch, "", pressed, a1).Details? ==>
              Render(url, fetch, "", pressed, a1).analysis == QueryWarning
  {
    AgentOnlyOnCalls(url, fetch, "", pressed, a1, a2);
  }

  /** An agent failure is not fatal: the details stay on screen, and the next
      run with a query the agent answers shows that answer. */
  lemma AgentFailureRecoverable(url: string, fetch: string -> FetchResult, q1: string, q2: string,
                                a1: string -> AgentResult, a2: string -> AgentResult)
    requires Render(url, fetch, q1, true, a1).Details?
    requires Render(url, fetch, q1, true, a1).analysis.AnalysisError?
    requires q2 != ""
    requires a2(ComposePrompt(Render(url, fetch, q1, true, a1).meta, q2)).Answered?
    ensures var meta := Render(url, fetch, q1, true, a1).meta;
            Render(url, fetch, q2, true, a2)
              == Details(meta, AnalysisResult(a2(ComposePrompt(meta, q2)).content))
  {
  }
}
