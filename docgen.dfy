/** The reference-docs generator's README splitter: each README section
    gets a slug from its title, and only the sections whose slug is in a
    fixed list are written out.  Go's `unicode.IsLetter || unicode.IsNumber`
    is passed in as `isWord`; on ASCII it must agree with letters and
    digits. */
module DocGen {
  import opened Wrappers
  import opened Text
  import opened Selection

  /** The slugs of the sections written. */
  const SectionsToExtract: seq<string> := ["usage_examples", "quick_start", "ai_agent_integration"]

  /** A README section as the Markdown parser yields it. */
  datatype Section = Section(title: string, filename: string, content: string)

  /** `isWord` classifies ASCII characters as ASCII letters and digits. */
  predicate WordOnAscii(isWord: char -> bool)
  {
    forall c: char :: IsAscii(c) ==> (isWord(c) <==> IsAlnum(c))
  }

  /** What the slug's rune loop keeps. */
  function SlugKeeps(isWord: char -> bool): char -> bool
  {
    c => isWord(c) || c == '_'
  }

  /** Lower-case, turn spaces and hyphens into underscores. */
  function SlugSpaced(s: string): string
  {
    ReplaceAll(ReplaceAll(ToLower(s), " ", "_"), "-", "_")
  }

  /** The slug of a title. */
  function Slug(s: string, isWord: char -> bool): string
  {
    Filter(SlugSpaced(s), SlugKeeps(isWord))
  }

  /** `slugify`. */
  method Slugify(s: string, isWord: char -> bool) returns (r: string)
    ensures r == Slug(s, isWord)
  {
    var t := ToLower(s);
    t := ReplaceAll(t, " ", "_");
    t := ReplaceAll(t, "-", "_");
    r := KeepRunes(t, SlugKeeps(isWord));
  }

  /** Before filtering, each character is lowered, with space and hyphen
      turned into an underscore. */
  lemma {:induction false} SlugSpacedChars(s: string)
    ensures var t := SlugSpaced(s);
      && |t| == |s|
      && forall i :: 0 <= i < |s| ==> t[i] == (if s[i] == ' ' || s[i] == '-' then '_' else LowerChar(s[i]))
  {
    var l := ToLower(s);
    ReplaceAllChar(l, ' ', '_');
    var u := ReplaceAll(l, " ", "_");
    ReplaceAllChar(u, '-', '_');
  }

  /** A slug is no longer than its title, and holds only lower-case ASCII
      letters, ASCII digits, underscores and non-ASCII letters or digits. */
  lemma {:induction false} SlugShape(s: string, isWord: char -> bool)
    requires WordOnAscii(isWord)
    ensures var r := Slug(s, isWord);
      && |r| <= |s|
      && forall i :: 0 <= i < |r| ==>
           if IsAscii(r[i]) then IsLower(r[i]) || IsDigit(r[i]) || r[i] == '_' else isWord(r[i])
  {
    var t := SlugSpaced(s);
    SlugSpacedChars(s);
    var r := Slug(s, isWord);
    forall i | 0 <= i < |r|
      ensures if IsAscii(r[i]) then IsLower(r[i]) || IsDigit(r[i]) || r[i] == '_' else isWord(r[i])
    {
      assert SlugKeeps(isWord)(r[i]);
      var j :| 0 <= j < |t| && t[j] == r[i];
      assert !IsUpper(t[j]);
    }
  }

  /** The slug of a concatenation is the concatenation of the slugs. */
  lemma {:induction false} SlugConcat(a: string, b: string, isWord: char -> bool)
    ensures Slug(a + b, isWord) == Slug(a, isWord) + Slug(b, isWord)
  {
    ToLowerAppend(a, b);
    var la, lb := ToLower(a), ToLower(b);
    ReplaceAllCharConcat(la, lb, ' ', '_');
    var sa, sb := ReplaceAll(la, " ", "_"), ReplaceAll(lb, " ", "_");
    ReplaceAllCharConcat(sa, sb, '-', '_');
    FilterConcat(SlugSpaced(a), SlugSpaced(b), SlugKeeps(isWord));
  }

  /** The slug of a character that is neither a letter, a digit, an
      underscore, a space nor a hyphen is empty. */
  lemma {:induction false} SlugOfDropped(c: char, isWord: char -> bool)
    requires !isWord(LowerChar(c)) && c != '_' && c != ' ' && c != '-'
    ensures Slug([c], isWord) == ""
  {
    SlugSpacedChars([c]);
    var t := SlugSpaced([c]);
    assert t == [LowerChar(c)];
    assert !SlugKeeps(isWord)(t[0]);
    assert Filter(t, SlugKeeps(isWord)) == "" + Filter(t[1..], SlugKeeps(isWord));
  }

  /** Such a character leaves no trace in the slug of a longer title. */
  lemma {:induction false} SlugDrops(a: string, c: char, b: string, isWord: char -> bool)
    requires !isWord(LowerChar(c)) && c != '_' && c != ' ' && c != '-'
    ensures Slug(a + [c] + b, isWord) == Slug(a + b, isWord)
  {
    SlugConcat(a + [c], b, isWord);
    SlugConcat(a, [c], isWord);
    SlugConcat(a, b, isWord);
    SlugOfDropped(c, isWord);
  }

  /** A title made of ASCII letters, digits, spaces, hyphens and
      underscores keeps one character per character: lowered, with spaces
      and hyphens as underscores. */
  lemma {:induction false} SlugOfPlainTitle(s: string, isWord: char -> bool)
    requires WordOnAscii(isWord)
    requires forall i :: 0 <= i < |s| ==> IsAlnum(s[i]) || s[i] == ' ' || s[i] == '-' || s[i] == '_'
    ensures var r := Slug(s, isWord);
      && |r| == |s|
      && forall i :: 0 <= i < |s| ==> r[i] == (if s[i] == ' ' || s[i] == '-' then '_' else LowerChar(s[i]))
  {
    var t := SlugSpaced(s);
    SlugSpacedChars(s);
    forall i | 0 <= i < |t| ensures SlugKeeps(isWord)(t[i]) {
      if t[i] != '_' {
        assert IsAlnum(s[i]);
        assert IsAscii(t[i]) && IsAlnum(t[i]);
      }
    }
  }

  // ---------------------------------------------------------- the filter

  /** What one parsed section contributes: itself, when it has a title
      whose slug is in the list. */
  function WrittenIf(isWord: char -> bool): (nat, Section) -> Option<Section>
  {
    (i: nat, sec: Section) =>
      if sec.title == "" || Slug(sec.title, isWord) !in SectionsToExtract then None else Some(sec)
  }

  /** The sections the splitter writes. */
  function SectionsWritten(sections: seq<Section>, isWord: char -> bool): seq<Section>
  {
    SelectFrom(sections, 0, WrittenIf(isWord))
  }

  /** The loop of `splitReadMe` over the parsed sections: skip untitled
      sections and sections whose slug is not listed; write the rest. */
  method SplitReadMe(sections: seq<Section>, isWord: char -> bool) returns (written: seq<Section>)
    ensures written == SectionsWritten(sections, isWord)
  {
    written := [];
    var i := 0;
    while i < |sections|
      invariant 0 <= i <= |sections|
      invariant written + SelectFrom(sections, i, WrittenIf(isWord)) == SectionsWritten(sections, isWord)
    {
      SelectStep(sections, i, WrittenIf(isWord));
      var section := sections[i];
      i := i + 1;
      if section.title == "" {
        continue;
      }
      var slug := Slugify(section.title, isWord);
      if slug !in SectionsToExtract {
        continue;
      }
      written := written + [section];
    }
  }

  /** Exactly the titled sections whose slug is listed are written, in
      README order and unchanged. */
  lemma {:induction false} SectionsWrittenShape(sections: seq<Section>, isWord: char -> bool)
    ensures var w, idx := SectionsWritten(sections, isWord), SelectedFrom(sections, 0, WrittenIf(isWord));
      && |w| == |idx|
      && (forall k :: 0 <= k < |idx| ==> idx[k] < |sections| && w[k] == sections[idx[k]])
      && (forall k :: 0 <= k < |w| ==> w[k].title != "" && Slug(w[k].title, isWord) in SectionsToExtract)
      && (forall k, l :: 0 <= k < l < |idx| ==> idx[k] < idx[l])
      && (forall j :: 0 <= j < |sections| ==>
            (j in idx <==> sections[j].title != "" && Slug(sections[j].title, isWord) in SectionsToExtract))
  {
    var pick := WrittenIf(isWord);
    SelectShape(sections, 0, pick);
    var idx := SelectedFrom(sections, 0, pick);
    forall j | 0 <= j < |sections|
      ensures j in idx <==> sections[j].title != "" && Slug(sections[j].title, isWord) in SectionsToExtract
    {
      if j in idx {
        var k :| 0 <= k < |idx| && idx[k] == j;
      }
    }
  }
}
