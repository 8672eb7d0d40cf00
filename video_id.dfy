/** The identifier extractor of app.py line 53: the video identifier is
    `youtube_url.split("v=")[-1].split("&")[0]`. ExtractVideoId is that
    expression; IdStart and IdEnd locate the same text by position (just after
    the LAST "v=", up to the next "&"), and ExtractVideoId's contract and the
    lemmas connect the two. */
module VideoId {
  import opened PyStr

  /** The query-parameter marker the extractor splits on. */
  const Marker: string := "v="

  /** The query-parameter boundary at which the identifier is cut. */
  const Delimiter: string := "&"

  /** `youtube_url.split("v=")[-1].split("&")[0]`. Total: a malformed URL is
      not rejected, it just yields the contiguous, possibly empty, text
      between IdStart and IdEnd. */
  function ExtractVideoId(url: string): (id: string)
    ensures id == url[IdStart(url)..IdEnd(url)]
  {
    PiecesAreSpan(url);
    Split(Last(Split(url, Marker)), Delimiter)[0]
  }

  /** Helper for ExtractVideoId: the first "&"-piece of the last "v="-piece
      runs from IdStart to IdEnd. */
  lemma PiecesAreSpan(url: string)
    ensures Split(Last(Split(url, Marker)), Delimiter)[0] == url[IdStart(url)..IdEnd(url)]
  {
    AfterLastMarker(url);
    FirstPieceIsSpan(url, Last(Split(url, Marker)));
  }

  /** Where the identifier starts: just after the last "v=", or at 0 when
      there is none. */
  function IdStart(url: string): (k: nat)
    ensures k <= |url|
    ensures k == 0 || (k >= |Marker| && OccursAt(url, Marker, k - |Marker|))
  {
    match RFind(url, Marker)
    case None => 0
    case Some(i) => i + |Marker|
  }

  /** No "v=" starts at or after IdStart. */
  lemma NoMarkerFromIdStart(url: string, j: nat)
    requires IdStart(url) <= j
    ensures !OccursAt(url, Marker, j)
  {
    RFindIsLast(url, Marker, j);
  }

  /** Where the identifier ends: at the first "&" from IdStart on, or at the
      end of the URL. */
  function IdEnd(url: string): (e: nat)
    ensures IdStart(url) <= e <= |url|
    ensures e == |url| || OccursAt(url, Delimiter, e)
  {
    match Find(url, Delimiter, IdStart(url))
    case None => |url|
    case Some(j) => j
  }

  /** No "&" lies between IdStart and IdEnd. */
  lemma NoDelimiterBeforeIdEnd(url: string, j: nat)
    requires IdStart(url) <= j < IdEnd(url)
    ensures !OccursAt(url, Delimiter, j)
  {
    FindIsFirst(url, Delimiter, IdStart(url), j);
  }

  /** Where "v=" occurs, the text reads 'v' then '='. */
  lemma MarkerChars(s: string, j: nat)
    requires OccursAt(s, Marker, j)
    ensures s[j] == 'v' && s[j + 1] == '='
  {
    assert s[j..j + 2][0] == s[j] && s[j..j + 2][1] == s[j + 1];
  }

  /** Where "&" occurs, the text reads '&'. */
  lemma DelimiterChar(s: string, j: nat)
    requires OccursAt(s, Delimiter, j)
    ensures s[j] == '&'
  {
    assert s[j..j + 1][0] == s[j];
  }

  /** A position that is 0 or follows a "v=", with no "v=" from there on, is IdStart. */
  lemma MarkerEndIsIdStart(url: string, k: nat)
    requires k <= |url|
    requires k == 0 || (k >= 2 && OccursAt(url, Marker, k - 2))
    requires !Contains(url[k..], Marker)
    ensures k == IdStart(url)
  {
    match RFind(url, Marker)
    case None =>
      if k >= 2 {
        RFindIsLast(url, Marker, k - 2);
      }
    case Some(i) =>
      if i >= k {
        OccursInSuffix(url, Marker, k, i - k);
      }
      MarkerChars(url, i);
      if k >= 2 {
        MarkerChars(url, k - 2);
        if i < k - 2 {
          RFindIsLast(url, Marker, k - 2);
        }
      }
  }

  /** The text after the last "v=" (what `split("v=")[-1]` yields) starts at
      IdStart. */
  lemma AfterLastMarker(url: string)
    ensures Last(Split(url, Marker)) == url[IdStart(url)..]
  {
    var parts := Split(url, Marker);
    SplitLastPiece(url, Marker);
    SplitPiecesLackSeparator(url, Marker, |parts| - 1);
    LastSegmentFromIdStart(url, parts[|parts| - 1]);
  }

  /** Helper for AfterLastMarker: a last "v="-segment free of "v=" starts at IdStart. */
  lemma LastSegmentFromIdStart(url: string, p: string)
    requires IsLastSegment(url, Marker, p)
    requires !Contains(p, Marker)
    ensures p == url[IdStart(url)..]
  {
    MarkerEndIsIdStart(url, |url| - |p|);
  }

  /** Helper for ExtractVideoId: the first "&"-piece of `t`, the text of
      `url` from IdStart on, runs from IdStart to IdEnd. */
  lemma FirstPieceIsSpan(url: string, t: string)
    requires t == url[IdStart(url)..]
    ensures Split(t, Delimiter)[0] == url[IdStart(url)..IdEnd(url)]
  {
    var k := IdStart(url);
    SplitFirstPiece(t, Delimiter);
    FindInSuffix(url, Delimiter, k, 0);
    if Find(url, Delimiter, k).Some? {
      var j := Find(url, Delimiter, k).value;
      assert IdEnd(url) == j;
      assert Find(t, Delimiter, 0) == Some(j - k);
      assert t[..j - k] == url[k..j];
    } else {
      assert IdEnd(url) == |url|;
    }
  }

  /** The identifier never contains "&". */
  lemma IdHasNoDelimiter(url: string)
    ensures '&' !in ExtractVideoId(url)
  {
    SplitPiecesLackSeparator(Last(Split(url, Marker)), Delimiter, 0);
    ContainsChar(ExtractVideoId(url), '&');
  }

  /** The identifier never contains "v=": it is a prefix of the text after the
      last "v=". */
  lemma IdHasNoMarker(url: string)
    ensures !Contains(ExtractVideoId(url), Marker)
  {
    var id := ExtractVideoId(url);
    var k := IdStart(url);
    if Contains(id, Marker) {
      var j: nat :| j <= |id| && OccursAt(id, Marker, j);
      assert id == url[k..][..IdEnd(url) - k];
      OccursInPrefix(url[k..], Marker, IdEnd(url) - k, j);
      OccursInSuffix(url, Marker, k, j);
      NoMarkerFromIdStart(url, k + j);
    }
  }

  /** Without any "v=", the whole URL is used, cut at its first "&". */
  lemma NoMarkerFallback(url: string)
    requires !Contains(url, Marker)
    ensures ExtractVideoId(url) == match Find(url, Delimiter, 0)
                                   case None => url
                                   case Some(j) => url[..j]
  {
  }

  /** `prefix + "v=" + token + rest`, where `rest` is empty or starts a new
      parameter with "&", and no "v=" follows the marker: the identifier is
      exactly `token`, whatever `prefix` holds (an earlier "v=" there is
      overridden). */
  lemma MarkerThenToken(prefix: string, token: string, rest: string)
    requires '&' !in token
    requires rest == [] || rest[0] == '&'
    requires !Contains(token + rest, Marker)
    ensures ExtractVideoId(prefix + Marker + token + rest) == token
  {
    var url := prefix + Marker + token + rest;
    var k := |prefix| + 2;
    assert url[k..] == token + rest;
    assert IdStart(url) == k by {
      assert OccursAt(url, Marker, |prefix|) by {
        assert url[|prefix|..k] == Marker;
      }
      if RFind(url, Marker).None? || RFind(url, Marker).value < |prefix| {
        RFindIsLast(url, Marker, |prefix|);
      }
      var i := RFind(url, Marker).value;
      MarkerChars(url, |prefix|);
      MarkerChars(url, i);
      if i >= k {
        OccursInSuffix(url, Marker, k, i - k);
      }
    }
    assert IdEnd(url) == k + |token| by {
      var e := IdEnd(url);
      if e < |url| {
        DelimiterChar(url, e);
      }
      assert url[k..k + |token|] == token;
      if rest != [] {
        assert OccursAt(url, Delimiter, k + |token|) by {
          assert url[k + |token|..k + |token| + 1] == [rest[0]];
        }
        if k + |token| < e {
          NoDelimiterBeforeIdEnd(url, k + |token|);
        }
      }
    }
    assert url[k..k + |token|] == token;
  }

  /** A URL ending in "v=" gives the empty identifier. */
  lemma TrailingMarkerGivesEmptyId(prefix: string)
    ensures ExtractVideoId(prefix + Marker) == ""
  {
    MarkerThenToken(prefix, "", "");
    assert prefix + Marker + "" + "" == prefix + Marker;
  }

  /** A string without the letter 'v' holds no "v=". */
  lemma NoLetterVNoMarker(s: string)
    requires 'v' !in s
    ensures !Contains(s, Marker)
  {
    if Contains(s, Marker) {
      var j: nat :| j <= |s| && OccursAt(s, Marker, j);
      MarkerChars(s, j);
    }
  }

  /** The canonical watch URL yields the identifier between "v=" and "&". */
  lemma WatchUrlExample(url: string)
    requires url == "https://example.com/watch?v=ABC123&t=5s"
    ensures ExtractVideoId(url) == "ABC123"
  {
    NoLetterVNoMarker("ABC123&t=5s");
    assert "ABC123" + "&t=5s" == "ABC123&t=5s";
    assert url == "https://example.com/watch?" + Marker + "ABC123" + "&t=5s";
    MarkerThenToken("https://example.com/watch?", "ABC123", "&t=5s");
  }

  /** A later "v=" overrides an earlier one. */
  lemma LaterMarkerOverridesExample(url: string)
    requires url == "https://example.com/watch?v=AAA&list=L&v=BBB"
    ensures ExtractVideoId(url) == "BBB"
  {
    NoLetterVNoMarker("BBB");
    assert "BBB" + "" == "BBB";
    assert url == "https://example.com/watch?v=AAA&list=L&" + Marker + "BBB" + "";
    MarkerThenToken("https://example.com/watch?v=AAA&list=L&", "BBB", "");
  }

  /** Any later parameter whose name ends in "v" also counts as a marker. */
  lemma ParameterEndingInVExample(url: string)
    requires url == "https://www.youtube.com/watch?v=ABC123&dev=1"
    ensures ExtractVideoId(url) == "1"
  {
    NoLetterVNoMarker("1");
    assert "1" + "" == "1";
    assert url == "https://www.youtube.com/watch?v=ABC123&de" + Marker + "1" + "";
    MarkerThenToken("https://www.youtube.com/watch?v=ABC123&de", "1", "");
  }
}
