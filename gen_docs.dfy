/** The documentation-site generator's section splitter: cut a section of
    the README out by its level-two heading and turn each section found
    into a page with front matter.  The cut follows the two regular
    expressions of the generator: a heading line `## <title>` (matched
    literally, at the start of a line) up to the next line starting with
    "## ", or, when no such line follows, up to the end. */
module GenDocs {
  import opened Wrappers
  import opened Text
  import opened Selection

  /** What every level-two heading line starts with. */
  const Mark: string := "## "

  /** Position `p` is the start of a line (`^` in multi-line mode). */
  predicate LineStart(md: string, p: nat)
  {
    p == 0 || (p <= |md| && md[p - 1] == '\n')
  }

  /** A line starting at `p` begins with `h`. */
  predicate HeadingAt(md: string, h: string, p: nat)
  {
    LineStart(md, p) && MatchAt(md, h, p)
  }

  /** The first line start at or after `from` that begins with `h`, or -1. */
  function FindHeading(md: string, h: string, from: nat): (r: int)
    requires from <= |md|
    ensures r == -1 || (from <= r <= |md| && HeadingAt(md, h, r))
    ensures r == -1 ==> forall p :: from <= p <= |md| ==> !HeadingAt(md, h, p)
    ensures r >= 0 ==> forall p :: from <= p < r ==> !HeadingAt(md, h, p)
    decreases |md| - from
  {
    if HeadingAt(md, h, from) then from
    else if from == |md| then -1
    else FindHeading(md, h, from + 1)
  }

  /** The first pattern's leftmost match from `from` on: a heading `h`
      followed, somewhere after it, by a line starting with "## "; the
      lazy `.*?` stops at the first such line. */
  function MatchUntilNext(md: string, h: string, from: nat): (r: Option<(nat, nat)>)
    requires from <= |md| && |h| > 0
    ensures r.Some? ==> var (s, e) := r.value;
      && from <= s && s + |h| <= e <= |md| && HeadingAt(md, h, s)
      && e == FindHeading(md, Mark, s + |h|)
    ensures r.None? ==> forall s :: from <= s <= |md| - |h| && HeadingAt(md, h, s) ==> FindHeading(md, Mark, s + |h|) == -1
    decreases |md| - from
  {
    var s := FindHeading(md, h, from);
    if s < 0 then None
    else
      var e := FindHeading(md, Mark, s + |h|);
      if e >= 0 then Some((s, e))
      else MatchUntilNext(md, h, s + 1)
  }

  /** Python's `str.strip()`. */
  function Strip(s: string): string
  {
    TrimBy(s, PyIsSpace)
  }

  /** Where the section for heading line `h` lies: the first pattern's
      match, else the fallback pattern's, which runs to the end. */
  function SectionSpan(md: string, h: string): (r: Option<(nat, nat)>)
    requires |h| > 0
    ensures r.Some? ==> HeadingAt(md, h, r.value.0) && r.value.0 + |h| <= r.value.1 <= |md|
    ensures r.None? <==> forall p :: 0 <= p <= |md| ==> !HeadingAt(md, h, p)
  {
    match MatchUntilNext(md, h, 0)
    case Some(span) => Some(span)
    case None =>
      var s := FindHeading(md, h, 0);
      if s < 0 then None else Some((s, |md|))
  }

  /** `get_section`: the section's text, stripped. */
  function GetSection(md: string, title: string): Option<string>
  {
    match SectionSpan(md, Mark + title)
    case Some((s, e)) => Some(Strip(md[s..e]))
    case None => None
  }

  /** Without a line break in the heading, two heading lines never
      overlap: the second starts after the first one's heading text. */
  lemma {:induction false} HeadingsApart(md: string, h: string, s: nat, t: nat)
    requires '\n' !in h && HeadingAt(md, h, s) && s < t && LineStart(md, t)
    ensures s + |h| <= t
  {
    forall i | s <= i < s + |h| ensures md[i] != '\n' {
      assert md[i] == md[s..s + |h|][i - s];
    }
    assert md[t - 1] == '\n';
  }

  /** A heading line for a title is a level-two heading line. */
  lemma {:induction false} MarkAtHeading(md: string, h: string, t: nat)
    requires HasPrefix(h, Mark) && HeadingAt(md, h, t)
    ensures HeadingAt(md, Mark, t)
  {
    assert md[t..t + |Mark|] == md[t..t + |h|][..|Mark|];
  }

  /** `get_section` finds nothing exactly when no line starts with
      "## " followed by the title. */
  lemma {:induction false} GetSectionNone(md: string, title: string)
    ensures GetSection(md, title).None? <==> forall p :: 0 <= p <= |md| ==> !HeadingAt(md, Mark + title, p)
  {
  }

  /** Once the first heading has no level-two heading line after it, no
      later heading line for the same text has one either, so the first
      pattern finds nothing from there on. */
  lemma {:induction false} NoLaterMatch(md: string, h: string, s: nat)
    requires HasPrefix(h, Mark) && '\n' !in h && s < |md| && HeadingAt(md, h, s)
    requires FindHeading(md, Mark, s + |h|) < 0
    ensures MatchUntilNext(md, h, s + 1).None?
  {
    var later := MatchUntilNext(md, h, s + 1);
    if later.Some? {
      var t := later.value.0;
      HeadingsApart(md, h, s, t);
      MarkAtHeading(md, h, t);
      assert false;
    }
  }

  /** A heading without a line break cuts from its first line to the next
      level-two heading line, or to the end when there is none. */
  lemma {:induction false} SectionSpanFirst(md: string, h: string)
    requires HasPrefix(h, Mark) && '\n' !in h
    requires FindHeading(md, h, 0) >= 0
    ensures var s := FindHeading(md, h, 0);
      var e := FindHeading(md, Mark, s + |h|);
      SectionSpan(md, h) == Some((s, if e >= 0 then e else |md|))
  {
    var s := FindHeading(md, h, 0);
    var e := FindHeading(md, Mark, s + |h|);
    if e >= 0 {
      assert MatchUntilNext(md, h, 0) == Some((s, e));
    } else {
      NoLaterMatch(md, h, s);
      assert MatchUntilNext(md, h, 0).None?;
    }
  }

  /** The heading line for a title starts with the mark, and holds a line
      break only when the title does. */
  lemma {:induction false} HeadingText(title: string)
    ensures HasPrefix(Mark + title, Mark)
    ensures '\n' in Mark + title <==> '\n' in title
    ensures |title| > 0 ==> (Mark + title)[|Mark + title| - 1] == title[|title| - 1]
  {
    var h := Mark + title;
    assert h[..|Mark|] == Mark;
    assert forall i :: 0 <= i < |Mark| ==> Mark[i] != '\n';
    assert forall i :: 0 <= i < |title| ==> h[|Mark| + i] == title[i];
  }

  /** `get_section` strips the text of the span it finds. */
  lemma {:induction false} SectionOfSpan(md: string, title: string, s: nat, e: nat)
    requires s <= e <= |md| && SectionSpan(md, Mark + title) == Some((s, e))
    ensures GetSection(md, title) == Some(Strip(md[s..e]))
  {
  }

  /** For a title without a line break, the section is the text from the
      first heading line for it up to the next line starting with "## ",
      or up to the end when there is none, stripped; no line in between
      starts with "## ". */
  lemma {:induction false} GetSectionFirst(md: string, title: string) returns (s: nat, end: nat)
    requires '\n' !in title
    requires FindHeading(md, Mark + title, 0) >= 0
    ensures s == FindHeading(md, Mark + title, 0)
    ensures var e := FindHeading(md, Mark, s + |Mark + title|); end == if e >= 0 then e else |md|
    ensures s <= end <= |md| && GetSection(md, title) == Some(Strip(md[s..end]))
    ensures forall p :: s + |Mark + title| <= p < end ==> !HeadingAt(md, Mark, p)
  {
    var h := Mark + title;
    HeadingText(title);
    SectionSpanFirst(md, h);
    s := FindHeading(md, h, 0);
    var e := FindHeading(md, Mark, s + |h|);
    end := if e >= 0 then e else |md|;
    SectionOfSpan(md, title, s, end);
  }

  /** Stripping text that starts with a heading keeps its two marks, and
      the whole heading when it does not end in white space. */
  lemma {:induction false} StripKeepsHeading(x: string, h: string)
    requires HasPrefix(h, Mark) && HasPrefix(x, h)
    ensures HasPrefix(Strip(x), "##")
    ensures !PyIsSpace(h[|h| - 1]) ==> HasPrefix(Strip(x), h)
  {
    assert x[..2] == x[..|h|][..2] == h[..2] == h[..|Mark|][..2] == "##";
    TrimKeepsPrefix(x, "##", PyIsSpace);
    if !PyIsSpace(h[|h| - 1]) {
      assert h[0] == h[..|Mark|][0] == '#';
      TrimKeepsPrefix(x, h, PyIsSpace);
    }
  }

  /** The span behind a section that is found. */
  lemma {:induction false} SectionSpanOf(md: string, title: string) returns (s: nat, e: nat)
    requires GetSection(md, title).Some?
    ensures SectionSpan(md, Mark + title) == Some((s, e))
  {
    var span := SectionSpan(md, Mark + title);
    s, e := span.value.0, span.value.1;
  }

  /** The span's text starts with its heading line. */
  lemma {:induction false} SpanStartsWithHeading(md: string, h: string, s: nat, e: nat)
    requires |h| > 0 && SectionSpan(md, h) == Some((s, e))
    ensures s <= e <= |md| && HasPrefix(md[s..e], h)
  {
    assert md[s..e][..|h|] == md[s..s + |h|];
  }

  /** A section that is found keeps its heading: it starts with "##",
      and with the whole heading when the title does not end in white
      space.  So it is never empty. */
  lemma {:induction false} SectionStartsWithHeading(md: string, title: string, r: string)
    requires GetSection(md, title) == Some(r)
    ensures HasPrefix(r, "##")
    ensures |title| > 0 && !PyIsSpace(title[|title| - 1]) ==> HasPrefix(r, Mark + title)
  {
    var h := Mark + title;
    HeadingText(title);
    var s, e := SectionSpanOf(md, title);
    SpanStartsWithHeading(md, h, s, e);
    SectionOfSpan(md, title, s, e);
    StripKeepsHeading(md[s..e], h);
  }

  // ------------------------------------------------------------------ pages

  /** The pages cut out of the README: title, file and navigation order. */
  datatype DocSection = DocSection(title: string, filename: string, navOrder: nat)

  const Sections: seq<DocSection> := [
    DocSection("Installation", "installation.md", 2),
    DocSection("Quick Start", "getting-started.md", 3),
    DocSection("Usage Examples", "usage-examples.md", 4),
    DocSection("AI Agent Integration", "ai-integration.md", 5)
  ]

  datatype Page = Page(filename: string, text: string)

  /** The front matter written before a section page. */
  function FrontMatter(title: string, navOrder: nat): string
  {
    "---\nlayout: page\ntitle: " + title + "\nnav_order: " + Decimal(navOrder) + "\n---\n\n"
  }

  const RepoTree: string := "(https://github.com/veggiemonk/backlog/tree/main/"

  /** `replace_internal_links`. */
  function ReplaceInternalLinks(content: string): string
  {
    var a := ReplaceAll(content, "(./internal/mcp/prompt.md)", "(prompts/mcp.md)");
    var b := ReplaceAll(a, "(./.backlog)", RepoTree + ".backlog)");
    var c := ReplaceAll(b, "(./.gemini)", RepoTree + ".gemini)");
    ReplaceAll(c, "(./.claude)", RepoTree + ".claude)")
  }

  /** Text without a relative link `(./` is left as it is. */
  lemma {:induction false} NoRelativeLinksUnchanged(content: string)
    requires !Contains(content, "(./")
    ensures ReplaceInternalLinks(content) == content
  {
    var pats := ["(./internal/mcp/prompt.md)", "(./.backlog)", "(./.gemini)", "(./.claude)"];
    forall k | 0 <= k < |pats| ensures !Contains(content, pats[k]) {
      NotContainsExtension(content, "(./", pats[k]);
    }
    ReplaceAbsent(content, pats[0], "(prompts/mcp.md)");
    ReplaceAbsent(content, pats[1], RepoTree + ".backlog)");
    ReplaceAbsent(content, pats[2], RepoTree + ".gemini)");
    ReplaceAbsent(content, pats[3], RepoTree + ".claude)");
  }

  /** What one entry of the section table contributes: a page when its
      section is found and not empty. */
  function PageFor(readme: string): (nat, DocSection) -> Option<Page>
  {
    (i: nat, d: DocSection) =>
      match GetSection(readme, d.title)
      case Some(content) =>
        if content == "" then None
        else Some(Page(d.filename, FrontMatter(d.title, d.navOrder) + ReplaceInternalLinks(content)))
      case None => None
  }

  /** The section loop: the pages written, in table order. */
  function Pages(readme: string, sections: seq<DocSection>): seq<Page>
  {
    SelectFrom(sections, 0, PageFor(readme))
  }

  /** The loop over the section table: cut each section, skip it when it
      is missing or empty, otherwise write its page. */
  method WritePages(readme: string, sections: seq<DocSection>) returns (pages: seq<Page>)
    ensures pages == Pages(readme, sections)
  {
    pages := [];
    var i := 0;
    while i < |sections|
      invariant 0 <= i <= |sections|
      invariant pages + SelectFrom(sections, i, PageFor(readme)) == Pages(readme, sections)
    {
      SelectAdvance(pages, sections, i, PageFor(readme), Pages(readme, sections));
      var d := sections[i];
      i := i + 1;
      var content := GetSection(readme, d.title);
      if content.None? || content.value == "" {
        continue;
      }
      var contentForDocs := ReplaceInternalLinks(content.value);
      pages := pages + [Page(d.filename, FrontMatter(d.title, d.navOrder) + contentForDocs)];
    }
  }

  /** A page is written for exactly the table entries whose heading occurs
      in the README, in table order, each under its own file name and
      holding its front matter followed by its section with the links
      rewritten. */
  lemma {:induction false} PagesShape(readme: string, sections: seq<DocSection>)
    ensures var pages, idx := Pages(readme, sections), SelectedFrom(sections, 0, PageFor(readme));
      && |pages| == |idx|
      && (forall k :: 0 <= k < |idx| ==> (idx[k] < |sections| &&
            var d := sections[idx[k]];
            && GetSection(readme, d.title).Some?
            && pages[k] == Page(d.filename, FrontMatter(d.title, d.navOrder) + ReplaceInternalLinks(GetSection(readme, d.title).value))))
      && (forall k, l :: 0 <= k < l < |idx| ==> idx[k] < idx[l])
      && (forall j :: 0 <= j < |sections| ==>
            (j in idx <==> exists p :: 0 <= p <= |readme| && HeadingAt(readme, Mark + sections[j].title, p)))
  {
    var pick := PageFor(readme);
    SelectShape(sections, 0, pick);
    var idx := SelectedFrom(sections, 0, pick);
    forall j | 0 <= j < |sections|
      ensures j in idx <==> exists p :: 0 <= p <= |readme| && HeadingAt(readme, Mark + sections[j].title, p)
    {
      var d := sections[j];
      GetSectionNone(readme, d.title);
      if GetSection(readme, d.title).Some? {
        SectionStartsWithHeading(readme, d.title, GetSection(readme, d.title).value);
      }
      if j in idx {
        var k :| 0 <= k < |idx| && idx[k] == j;
      }
    }
  }
}
