/** Go's `filepath.Clean` on slash-separated paths, by its four lexical
    rules: runs of slashes become one, "." elements go, a ".." element
    removes the element before it, and ".." elements at the start of a
    rooted path go.  An empty result is ".". */
module Paths {
  import opened Text

  /** The surviving elements after reading the elements from `i` on, given
      the elements `kept` so far. */
  function CleanFrom(es: seq<string>, i: nat, rooted: bool, kept: seq<string>): (r: seq<string>)
    requires i <= |es|
    decreases |es| - i
  {
    if i == |es| then kept
    else
      var e := es[i];
      if e == "" || e == "." then CleanFrom(es, i + 1, rooted, kept)
      else if e == ".." then
        if |kept| > 0 && kept[|kept| - 1] != ".." then CleanFrom(es, i + 1, rooted, kept[..|kept| - 1])
        else if rooted then CleanFrom(es, i + 1, rooted, kept)
        else CleanFrom(es, i + 1, rooted, kept + [".."])
      else CleanFrom(es, i + 1, rooted, kept + [e])
  }

  function CleanElements(p: string): seq<string>
  {
    CleanFrom(Split(p, '/'), 0, |p| > 0 && p[0] == '/', [])
  }

  /** Go's `filepath.Clean`. */
  function Clean(p: string): string
  {
    if p == "" then "."
    else
      var body := Join(CleanElements(p), "/");
      if p[0] == '/' then "/" + body
      else if body == "" then "."
      else body
  }

  /** The ".." elements form a prefix of the kept elements: none follows
      an ordinary element. */
  predicate DotDotsLead(kept: seq<string>)
  {
    forall a, b :: 0 <= a < b < |kept| && kept[b] == ".." ==> kept[a] == ".."
  }

  lemma {:induction false} CleanFromKeepsLead(es: seq<string>, i: nat, rooted: bool, kept: seq<string>)
    requires i <= |es|
    requires DotDotsLead(kept)
    requires rooted ==> ".." !in kept
    ensures DotDotsLead(CleanFrom(es, i, rooted, kept))
    ensures rooted ==> ".." !in CleanFrom(es, i, rooted, kept)
    decreases |es| - i
  {
    if i < |es| {
      var e := es[i];
      if e == "" || e == "." {
        CleanFromKeepsLead(es, i + 1, rooted, kept);
      } else if e == ".." {
        if |kept| > 0 && kept[|kept| - 1] != ".." {
          CleanFromKeepsLead(es, i + 1, rooted, kept[..|kept| - 1]);
        } else if rooted {
          CleanFromKeepsLead(es, i + 1, rooted, kept);
        } else {
          assert forall a :: 0 <= a < |kept| ==> kept[a] == "..";
          CleanFromKeepsLead(es, i + 1, rooted, kept + [".."]);
        }
      } else {
        CleanFromKeepsLead(es, i + 1, rooted, kept + [e]);
      }
    }
  }

  /** Once the kept elements start with "..", they keep starting with it:
      a ".." is only removed by a later ".." when an ordinary element
      precedes it. */
  lemma {:induction false} CleanFromKeepsFirst(es: seq<string>, i: nat, rooted: bool, kept: seq<string>)
    requires i <= |es|
    requires DotDotsLead(kept)
    requires |kept| > 0 && kept[0] == ".."
    ensures var r := CleanFrom(es, i, rooted, kept); |r| > 0 && r[0] == ".."
    decreases |es| - i
  {
    if i < |es| {
      var e := es[i];
      if e == "" || e == "." {
        CleanFromKeepsFirst(es, i + 1, rooted, kept);
      } else if e == ".." {
        if |kept| > 0 && kept[|kept| - 1] != ".." {
          assert |kept| > 1;
          CleanFromKeepsFirst(es, i + 1, rooted, kept[..|kept| - 1]);
        } else if rooted {
          CleanFromKeepsFirst(es, i + 1, rooted, kept);
        } else {
          CleanFromKeepsFirst(es, i + 1, rooted, kept + [".."]);
        }
      } else {
        CleanFromKeepsFirst(es, i + 1, rooted, kept + [e]);
      }
    }
  }

  /** A rooted path never cleans to one with a ".." element: ".." at the
      root is dropped. */
  lemma {:induction false} RootedCleanHasNoDotDot(p: string)
    requires |p| > 0 && p[0] == '/'
    ensures ".." !in CleanElements(p)
    ensures Clean(p) == "/" + Join(CleanElements(p), "/")
  {
    CleanFromKeepsLead(Split(p, '/'), 0, true, []);
  }

  /** A relative path that starts with a ".." element cleans to one that
      still starts with "..": nothing before it can cancel it. */
  lemma {:induction false} LeadingDotDotSurvives(p: string)
    requires |p| >= 2 && p[..2] == ".."
    requires |p| == 2 || p[2] == '/'
    ensures var es := CleanElements(p); |es| > 0 && es[0] == ".."
    ensures HasPrefix(Clean(p), "..")
  {
    var parts := Split(p, '/');
    assert parts[0] == ".." by {
      if |p| == 2 {
        SplitNoSep(p, '/');
      } else {
        assert p == ".." + ['/'] + p[3..];
        SplitCons("..", '/', p[3..]);
      }
    }
    var none: seq<string> := [];
    assert none + [".."] == [".."];
    assert parts[0] != "" && parts[0] != ".";
    assert CleanFrom(parts, 0, false, none) == CleanFrom(parts, 1, false, [".."]);
    CleanFromKeepsFirst(parts, 1, false, [".."]);
    var es := CleanElements(p);
    var body := Join(es, "/");
    if |es| == 1 {
      assert body == "..";
    } else {
      assert body == es[0] + "/" + Join(es[1..], "/");
      assert body[..2] == "..";
    }
  }
}
