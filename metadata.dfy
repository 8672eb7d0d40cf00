/** The metadata selection of app.py lines 60-63 and 107-108: from the video
    data API's response, use the first item's snippet, with placeholders for a
    missing title or description. The response is modelled abstractly: an
    optional `items` list whose entries may or may not carry a `snippet`
    dictionary of strings. */
module Metadata {
  import opened PyStr

  /** One entry of `response["items"]`; `snippet` is None when the key is absent. */
  datatype Item = Item(snippet: Option<map<string, string>>)

  /** The API response; `items` is None when the key is absent. */
  datatype Response = Response(items: Option<seq<Item>>)

  datatype VideoMetadata = VideoMetadata(title: string, description: string)

  /** NotFound is the "Unable to fetch video details" branch (line 108);
      SnippetMissing is the KeyError that `items[0]["snippet"]` raises. */
  datatype Selection = NotFound | SnippetMissing | Found(meta: VideoMetadata)

  const TitleKey: string := "title"
  const DescriptionKey: string := "description"
  const TitlePlaceholder: string := "No Title Available"
  const DescriptionPlaceholder: string := "No Description Available"

  /** Python's `d.get(key, default)`. */
  function GetOr(d: map<string, string>, key: string, default: string): (v: string)
    ensures key in d ==> v == d[key]
    ensures key !in d ==> v == default
  {
    if key in d then d[key] else default
  }

  /** Lines 60-63: when `"items" in response and len(response["items"]) > 0`,
      pick the first item's snippet and read title and description from it;
      otherwise the details are not found. */
  function SelectMetadata(response: Response): (s: Selection)
    ensures s.NotFound? <==> response.items.None? || response.items.value == []
    ensures s.SnippetMissing? <==>
              response.items.Some? && response.items.value != [] && response.items.value[0].snippet.None?
    ensures s.Found? ==>
              var snippet := response.items.value[0].snippet.value;
              && (TitleKey in snippet ==> s.meta.title == snippet[TitleKey])
              && (TitleKey !in snippet ==> s.meta.title == TitlePlaceholder)
              && (DescriptionKey in snippet ==> s.meta.description == snippet[DescriptionKey])
              && (DescriptionKey !in snippet ==> s.meta.description == DescriptionPlaceholder)
  {
    if response.items.None? || response.items.value == [] then NotFound
    else match response.items.value[0].snippet
      case None => SnippetMissing
      case Some(snippet) =>
        Found(VideoMetadata(GetOr(snippet, TitleKey, TitlePlaceholder),
                            GetOr(snippet, DescriptionKey, DescriptionPlaceholder)))
  }

  /** Only the first item matters: whatever follows it is ignored. */
  lemma FirstItemDecides(first: Item, rest1: seq<Item>, rest2: seq<Item>)
    ensures SelectMetadata(Response(Some([first] + rest1)))
         == SelectMetadata(Response(Some([first] + rest2)))
  {
    assert ([first] + rest1)[0] == first == ([first] + rest2)[0];
  }

  /** Keys of the snippet other than title and description are ignored. */
  lemma OtherKeysIgnored(snippet: map<string, string>, key: string, value: string, rest: seq<Item>)
    requires key != TitleKey && key != DescriptionKey
    ensures SelectMetadata(Response(Some([Item(Some(snippet[key := value]))] + rest)))
         == SelectMetadata(Response(Some([Item(Some(snippet))] + rest)))
  {
  }
}
