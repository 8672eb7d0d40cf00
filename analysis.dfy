/** The analyze step of app.py lines 77-98: an empty query only raises a
    warning; otherwise the title, description and query are interpolated into
    the fixed prompt template and the prompt goes to the agent. */
module Analysis {
  import opened PyStr
  import opened Metadata

  /** The indentation the triple-quoted template carries on each line. */
  const Indent: string := "                                "

  /** The template text around the three interpolated fields (lines 85-94). */
  const Head: string :=
    "\n" + Indent + "Analyze the following YouTube video details:\n" + Indent + "- Title: "
  const AfterTitle: string := "\n" + Indent + "- Description: "
  const AfterDescription: string :=
    "\n\n" + Indent
    + "Respond to the following query using the provided video insights and supplementary web research:\n"
    + Indent
  const Tail: string :=
    "\n\n" + Indent + "Provide a detailed, user-friendly, and actionable response.\n" + Indent

  /** A prompt template: the fixed text before the title, between title and
      description, between description and query, and after the query. */
  datatype Template = Template(head: string, afterTitle: string, afterDescription: string, tail: string)
  {
    /** Where the description starts for a title of `titleLen` characters. */
    function DescriptionOffset(titleLen: nat): nat {
      |head| + titleLen + |afterTitle|
    }

    /** Where the query starts for the given title and description lengths. */
    function QueryOffset(titleLen: nat, descLen: nat): nat {
      DescriptionOffset(titleLen) + descLen + |afterDescription|
    }
  }

  /** The template of lines 85-94. */
  const AppTemplate: Template := Template(Head, AfterTitle, AfterDescription, Tail)

  /** Interpolate title, description and query into a template. */
  function Fill(t: Template, meta: VideoMetadata, query: string): (prompt: string)
    ensures |prompt| == t.QueryOffset(|meta.title|, |meta.description|) + |query| + |t.tail|
  {
    t.head + meta.title + t.afterTitle + meta.description + t.afterDescription + query + t.tail
  }

  /** Each field lands verbatim at its place between the template's fixed parts. */
  lemma FillLayout(t: Template, meta: VideoMetadata, query: string)
    ensures var prompt := Fill(t, meta, query);
            && OccursAt(prompt, t.head, 0)
            && OccursAt(prompt, meta.title, |t.head|)
            && OccursAt(prompt, t.afterTitle, |t.head| + |meta.title|)
            && OccursAt(prompt, meta.description, t.DescriptionOffset(|meta.title|))
            && OccursAt(prompt, t.afterDescription, t.DescriptionOffset(|meta.title|) + |meta.description|)
            && OccursAt(prompt, query, t.QueryOffset(|meta.title|, |meta.description|))
            && OccursAt(prompt, t.tail, |prompt| - |t.tail|)
  {
    SevenParts(t.head, meta.title, t.afterTitle, meta.description, t.afterDescription, query, t.tail);
  }

  /** Each of seven concatenated strings occurs at the sum of the lengths
      before it. */
  lemma SevenParts(p1: string, p2: string, p3: string, p4: string, p5: string, p6: string, p7: string)
    ensures var s := p1 + p2 + p3 + p4 + p5 + p6 + p7;
            && OccursAt(s, p1, 0)
            && OccursAt(s, p2, |p1|)
            && OccursAt(s, p3, |p1| + |p2|)
            && OccursAt(s, p4, |p1| + |p2| + |p3|)
            && OccursAt(s, p5, |p1| + |p2| + |p3| + |p4|)
            && OccursAt(s, p6, |p1| + |p2| + |p3| + |p4| + |p5|)
            && OccursAt(s, p7, |p1| + |p2| + |p3| + |p4| + |p5| + |p6|)
  {
    var s1 := p1 + p2;
    var s2 := s1 + p3;
    var s3 := s2 + p4;
    var s4 := s3 + p5;
    var s5 := s4 + p6;
    OccursAtStart(p1, p2);
    OccursAtEnd(p1, p2);
    OccursAtEnd(s1, p3);
    OccursAtEnd(s2, p4);
    OccursAtEnd(s3, p5);
    OccursAtEnd(s4, p6);
    OccursAtEnd(s5, p7);
    AppendKeepsOccurrences(s1, p3);
    AppendKeepsOccurrences(s2, p4);
    AppendKeepsOccurrences(s3, p5);
    AppendKeepsOccurrences(s4, p6);
    AppendKeepsOccurrences(s5, p7);
  }

  /** A string occurs at the start of any extension of it. */
  lemma OccursAtStart(a: string, b: string)
    ensures OccursAt(a + b, a, 0)
  {
    assert (a + b)[..|a|] == a;
  }

  /** A string occurs at the end of anything it is appended to. */
  lemma OccursAtEnd(a: string, b: string)
    ensures OccursAt(a + b, b, |a|)
  {
    assert (a + b)[|a|..|a| + |b|] == b;
  }

  /** Appending text keeps every earlier occurrence in place. */
  lemma AppendKeepsOccurrences(a: string, b: string)
    ensures forall sub: string, i: nat :: OccursAt(a, sub, i) ==> OccursAt(a + b, sub, i)
  {
    forall sub: string, i: nat | OccursAt(a, sub, i)
      ensures OccursAt(a + b, sub, i)
    {
      assert (a + b)[i..i + |sub|] == a[i..i + |sub|];
    }
  }

  /** The fixed parts of `t` sit in `prompt` where a title of `titleLen` and a
      description of `descLen` characters put them. */
  predicate PartsMatch(t: Template, prompt: string, titleLen: nat, descLen: nat) {
    && t.QueryOffset(titleLen, descLen) + |t.tail| <= |prompt|
    && prompt[..|t.head|] == t.head
    && prompt[|t.head| + titleLen..t.DescriptionOffset(titleLen)] == t.afterTitle
    && prompt[t.DescriptionOffset(titleLen) + descLen..t.QueryOffset(titleLen, descLen)] == t.afterDescription
    && prompt[|prompt| - |t.tail|..] == t.tail
  }

  /** The inverse of Fill, given the lengths of title and description: read
      the three fields back out of a prompt, provided its fixed parts match. */
  function Recover(t: Template, prompt: string, titleLen: nat, descLen: nat): (r: Option<(VideoMetadata, string)>)
    ensures r.Some? ==> |r.value.0.title| == titleLen && |r.value.0.description| == descLen
    ensures r.Some? ==> Fill(t, r.value.0, r.value.1) == prompt
  {
    if PartsMatch(t, prompt, titleLen, descLen) then
      var d := t.DescriptionOffset(titleLen);
      var meta := VideoMetadata(prompt[|t.head|..|t.head| + titleLen], prompt[d..d + descLen]);
      var query := prompt[t.QueryOffset(titleLen, descLen)..|prompt| - |t.tail|];
      FillFromParts(t, prompt, titleLen, descLen);
      Some((meta, query))
    else None
  }

  /** Helper for Recover: a prompt whose fixed parts match the template is
      the template filled with the text between them. */
  lemma FillFromParts(t: Template, prompt: string, titleLen: nat, descLen: nat)
    requires PartsMatch(t, prompt, titleLen, descLen)
    ensures var d := t.DescriptionOffset(titleLen);
            var meta := VideoMetadata(prompt[|t.head|..|t.head| + titleLen], prompt[d..d + descLen]);
            Fill(t, meta, prompt[t.QueryOffset(titleLen, descLen)..|prompt| - |t.tail|]) == prompt
  {
    var d := t.DescriptionOffset(titleLen);
    var q := t.QueryOffset(titleLen, descLen);
    var e := |prompt| - |t.tail|;
    Reassemble(prompt, |t.head|, |t.head| + titleLen, d, d + descLen, q, e,
               t.head, prompt[|t.head|..|t.head| + titleLen], t.afterTitle,
               prompt[d..d + descLen], t.afterDescription, prompt[q..e], t.tail);
  }

  /** A string cut at ascending points, whose seven slices are known, is
      their concatenation. */
  lemma Reassemble(s: string, i1: nat, i2: nat, i3: nat, i4: nat, i5: nat, i6: nat,
                   p1: string, p2: string, p3: string, p4: string, p5: string, p6: string, p7: string)
    requires i1 <= i2 <= i3 <= i4 <= i5 <= i6 <= |s|
    requires s[..i1] == p1 && s[i1..i2] == p2 && s[i2..i3] == p3 && s[i3..i4] == p4
    requires s[i4..i5] == p5 && s[i5..i6] == p6 && s[i6..] == p7
    ensures s == p1 + p2 + p3 + p4 + p5 + p6 + p7
  {
    CutInSeven(s, i1, i2, i3, i4, i5, i6);
  }

  /** A string is the concatenation of its slices between ascending cut points. */
  lemma CutInSeven(s: string, i1: nat, i2: nat, i3: nat, i4: nat, i5: nat, i6: nat)
    requires i1 <= i2 <= i3 <= i4 <= i5 <= i6 <= |s|
    ensures s == s[..i1] + s[i1..i2] + s[i2..i3] + s[i3..i4] + s[i4..i5] + s[i5..i6] + s[i6..]
  {
    assert s == s[..i6] + s[i6..];
    assert s[..i6] == s[..i5] + s[i5..i6];
    assert s[..i5] == s[..i4] + s[i4..i5];
    assert s[..i4] == s[..i3] + s[i3..i4];
    assert s[..i3] == s[..i2] + s[i2..i3];
    assert s[..i2] == s[..i1] + s[i1..i2];
  }

  /** Round trip: the title, description and query can be read back out of
      a filled template, so none of them is altered or dropped. */
  lemma RecoverFilled(t: Template, meta: VideoMetadata, query: string)
    ensures Recover(t, Fill(t, meta, query), |meta.title|, |meta.description|) == Some((meta, query))
  {
    var prompt := Fill(t, meta, query);
    FillLayout(t, meta, query);
    assert prompt[t.QueryOffset(|meta.title|, |meta.description|)..|prompt| - |t.tail|] == query;
  }

  /** Two prompts for equally long titles and descriptions are equal only
      when the inputs are. */
  lemma FillInjective(t: Template, m1: VideoMetadata, q1: string, m2: VideoMetadata, q2: string)
    requires |m1.title| == |m2.title| && |m1.description| == |m2.description|
    requires Fill(t, m1, q1) == Fill(t, m2, q2)
    ensures m1 == m2 && q1 == q2
  {
    RecoverFilled(t, m1, q1);
    RecoverFilled(t, m2, q2);
  }

  /** Lines 84-95: the analysis prompt contains the title, the description
      and the query, each verbatim. */
  function ComposePrompt(meta: VideoMetadata, query: string): (prompt: string)
    ensures Contains(prompt, meta.title) && Contains(prompt, meta.description) && Contains(prompt, query)
  {
    var prompt := Fill(AppTemplate, meta, query);
    FillLayout(AppTemplate, meta, query);
    assert OccursAt(prompt, meta.title, |AppTemplate.head|);
    assert OccursAt(prompt, meta.description, AppTemplate.DescriptionOffset(|meta.title|));
    assert OccursAt(prompt, query, AppTemplate.QueryOffset(|meta.title|, |meta.description|));
    prompt
  }

  /** What pressing "Analyze Video" leads to. */
  datatype Decision = Warn | Submit(prompt: string)

  /** Lines 78-95: `if not user_query` warns; otherwise the composed prompt is
      submitted. */
  function DecideAnalysis(meta: VideoMetadata, query: string): (d: Decision)
    ensures d.Warn? <==> query == ""
    ensures d.Submit? ==> d.prompt == ComposePrompt(meta, query)
  {
    if query == "" then Warn else Submit(ComposePrompt(meta, query))
  }
}
