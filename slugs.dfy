/**
 * The two string pipelines the location code repeats in several files:
 * slugging (`.toLowerCase().replace(/\s+/g, "-").replace(/[^a-z0-9-]/g, "")`)
 * and title-casing (`.split("-").map(capitalise).join(" ")`).
 */
module Slugs {
  import opened JsString

  /** The characters of `[a-z0-9-]`. */
  predicate IsSlugChar(c: char) { IsAsciiLower(c) || IsAsciiDigit(c) || c == '-' }

  /** The characters of `[a-z0-9]`. */
  predicate IsAlnum(c: char) { IsAsciiLower(c) || IsAsciiDigit(c) }

  predicate IsSlugText(s: string) { forall i :: 0 <= i < |s| ==> IsSlugChar(s[i]) }

  predicate NoWhitespace(s: string) { forall i :: 0 <= i < |s| ==> !IsJsWhitespace(s[i]) }

  /** Drop the leading run of whitespace. */
  function SkipWhitespace(s: string): (r: string)
    decreases |s|
    ensures |r| <= |s|
    ensures r == [] || !IsJsWhitespace(r[0])
  {
    if s != [] && IsJsWhitespace(s[0]) then SkipWhitespace(s[1..]) else s
  }

  /** `.replace(/\s+/g, "-")`: each maximal run of whitespace becomes one `-`. */
  function CollapseWhitespace(s: string): (r: string)
    decreases |s|
    ensures NoWhitespace(r)
  {
    if s == [] then []
    else if IsJsWhitespace(s[0]) then "-" + CollapseWhitespace(SkipWhitespace(s[1..]))
    else [s[0]] + CollapseWhitespace(s[1..])
  }

  /** Text without whitespace is left unchanged. */
  lemma {:induction false} CollapseWhitespaceFixed(s: string)
    requires NoWhitespace(s)
    decreases |s|
    ensures CollapseWhitespace(s) == s
  {
    if s != [] {
      CollapseWhitespaceFixed(s[1..]);
    }
  }

  /** A whitespace-free prefix passes through unchanged. */
  lemma {:induction false} CollapseWhitespacePrefix(p: string, x: string)
    requires NoWhitespace(p)
    decreases |p|
    ensures CollapseWhitespace(p + x) == p + CollapseWhitespace(x)
  {
    if p == [] {
      assert p + x == x;
    } else {
      assert (p + x)[0] == p[0];
      assert (p + x)[1..] == p[1..] + x;
      CollapseWhitespacePrefix(p[1..], x);
    }
  }

  /** A run of whitespace is skipped up to the first other character. */
  lemma {:induction false} SkipWhitespaceRun(w: string, q: string)
    requires forall i :: 0 <= i < |w| ==> IsJsWhitespace(w[i])
    requires q == [] || !IsJsWhitespace(q[0])
    decreases |w|
    ensures SkipWhitespace(w + q) == q
  {
    if w != [] {
      assert (w + q)[0] == w[0];
      assert (w + q)[1..] == w[1..] + q;
      SkipWhitespaceRun(w[1..], q);
    }
  }

  /** A non-empty run of whitespace at the head becomes a single `-`. */
  lemma CollapseWhitespaceHeadRun(w: string, q: string)
    requires w != [] && forall i :: 0 <= i < |w| ==> IsJsWhitespace(w[i])
    requires q == [] || !IsJsWhitespace(q[0])
    ensures CollapseWhitespace(w + q) == "-" + CollapseWhitespace(q)
  {
    var x := w + q;
    assert x[0] == w[0];
    assert IsJsWhitespace(x[0]);
    assert x[1..] == w[1..] + q;
    SkipWhitespaceRun(w[1..], q);
    assert CollapseWhitespace(x) == "-" + CollapseWhitespace(SkipWhitespace(x[1..]));
  }

  /** `.replace(/\s+/g, "-")` on a maximal run: a whitespace-free prefix is
      kept, the whole non-empty run of whitespace after it becomes a single
      `-`, and the replace goes on with what follows the run. */
  lemma CollapseWhitespaceRun(p: string, w: string, q: string)
    requires NoWhitespace(p)
    requires w != [] && forall i :: 0 <= i < |w| ==> IsJsWhitespace(w[i])
    requires q == [] || !IsJsWhitespace(q[0])
    ensures CollapseWhitespace(p + w + q) == p + "-" + CollapseWhitespace(q)
  {
    var x := w + q;
    assert p + w + q == p + x;
    CollapseWhitespacePrefix(p, x);
    CollapseWhitespaceHeadRun(w, q);
  }

  /** A run of two spaces gives one `-`: `"new  york"` becomes `"new-york"`. */
  lemma CollapseWhitespaceDoubleSpace()
    ensures CollapseWhitespace("new  york") == "new-york"
  {
    var p, w, q := "new", "  ", "york";
    assert NoWhitespace(p) by {
      forall i | 0 <= i < |p| ensures !IsJsWhitespace(p[i]) { }
    }
    assert NoWhitespace(q) by {
      forall i | 0 <= i < |q| ensures !IsJsWhitespace(q[i]) { }
    }
    assert forall i :: 0 <= i < |w| ==> IsJsWhitespace(w[i]);
    assert p + w + q == "new  york";
    CollapseWhitespaceRun(p, w, q);
    CollapseWhitespaceFixed(q);
    assert p + "-" + q == "new-york";
  }

  /** `.replace(/[^a-z0-9-]/g, "")`: keep only the slug characters. */
  function StripNonSlug(s: string): (r: string)
    decreases |s|
    ensures IsSlugText(r)
    ensures |r| <= |s|
  {
    if s == [] then []
    else if IsSlugChar(s[0]) then [s[0]] + StripNonSlug(s[1..])
    else StripNonSlug(s[1..])
  }

  /** Text made only of slug characters is left unchanged. */
  lemma {:induction false} StripNonSlugFixed(s: string)
    requires IsSlugText(s)
    decreases |s|
    ensures StripNonSlug(s) == s
  {
    if s != [] {
      StripNonSlugFixed(s[1..]);
    }
  }

  /** The slug pipeline: lower-case, each whitespace run to one `-`, drop the
      rest. A slug is made of the characters `[a-z0-9-]` only, and slug text
      is a fixed point of the pipeline. */
  function Slugify(s: string): (r: string)
    ensures IsSlugText(r)
    ensures IsSlugText(s) ==> r == s
  {
    assert IsSlugText(s) ==> StripNonSlug(CollapseWhitespace(Lower(s))) == s by {
      if IsSlugText(s) {
        assert Lower(s) == s;
        CollapseWhitespaceFixed(s);
        StripNonSlugFixed(s);
      }
    }
    StripNonSlug(CollapseWhitespace(Lower(s)))
  }

  /** Slugging a slug changes nothing. */
  lemma SlugifyIdempotent(s: string)
    ensures Slugify(Slugify(s)) == Slugify(s)
  {
  }

  /** `word.charAt(0).toUpperCase() + word.slice(1)`: only the first
      character changes, to its upper-case form. */
  function Capitalize(w: string): (r: string)
    ensures |r| == |w|
    ensures w != [] ==> r[0] == ToUpperChar(w[0])
    ensures forall i :: 1 <= i < |w| ==> r[i] == w[i]
  {
    if w == [] then [] else [ToUpperChar(w[0])] + w[1..]
  }

  function CapitalizeAll(parts: seq<string>): (r: seq<string>)
    ensures |r| == |parts|
  {
    seq(|parts|, i requires 0 <= i < |parts| => Capitalize(parts[i]))
  }

  /** `s.split("-").map(capitalise).join(" ")`: no `-` remains. */
  function TitleCase(s: string): (r: string)
    ensures NoChar(r, '-')
  {
    var parts := SplitOn(s, "-");
    var caps := CapitalizeAll(parts);
    assert NoChar(Join(caps, " "), '-') by {
      SplitPiecesAvoidChar(s, '-');
      forall i | 0 <= i < |caps| ensures AllChars(caps[i], x => x != '-') {
        CapitalizeKeeps(parts[i], '-');
      }
      JoinAllChars(caps, " ", x => x != '-');
    }
    Join(caps, " ")
  }

  /** Capitalising never introduces a space or a hyphen. */
  lemma CapitalizeKeeps(w: string, c: char)
    requires c == '-' || c == ' '
    ensures NoChar(w, c) ==> NoChar(Capitalize(w), c)
  {
  }

  /** Without spaces in the input, the title-cased words are exactly the
      capitalised `-`-pieces, one word per piece. */
  lemma TitleCaseWords(s: string)
    requires NoChar(s, ' ')
    ensures SplitOn(TitleCase(s), " ") == CapitalizeAll(SplitOn(s, "-"))
    ensures |SplitOn(TitleCase(s), " ")| == |SplitOn(s, "-")|
  {
    var parts := SplitOn(s, "-");
    assert AllChars(Join(parts, "-"), x => x != ' ');
    PiecesAllChars(parts, "-", x => x != ' ');
    var caps := CapitalizeAll(parts);
    forall i | 0 <= i < |caps| ensures NoChar(caps[i], ' ') {
      assert AllChars(parts[i], x => x != ' ');
      CapitalizeKeeps(parts[i], ' ');
    }
    JoinThenSplit(caps, ' ');
  }

  /** All pieces except possibly the first and the last are non-empty. */
  predicate InnerPiecesNonEmpty(parts: seq<string>) {
    forall i :: 0 < i < |parts| - 1 ==> parts[i] != ""
  }

  predicate AlnumPieces(parts: seq<string>) {
    forall i :: 0 <= i < |parts| ==> AllChars(parts[i], IsAlnum)
  }

  lemma LowerCapitalize(w: string)
    requires AllChars(w, IsAlnum)
    ensures Lower(Capitalize(w)) == w
  {
    if w != [] {
      assert Capitalize(w) == [ToUpperChar(w[0])] + w[1..];
      assert Lower(Capitalize(w))[0] == w[0];
      assert forall i :: 1 <= i < |w| ==> Lower(Capitalize(w))[i] == w[i];
    }
  }

  /** Lower-casing a joined text lower-cases each piece. */
  lemma LowerJoinStep(a: string, rest: seq<string>, b: string, restLower: seq<string>)
    requires |rest| >= 1 && |restLower| >= 1
    requires Lower(a) == b && Lower(Join(rest, " ")) == Join(restLower, " ")
    ensures Lower(Join([a] + rest, " ")) == Join([b] + restLower, " ")
  {
    JoinCons(a, rest, " ");
    JoinCons(b, restLower, " ");
    LowerConcat(a + " ", Join(rest, " "));
    LowerConcat(a, " ");
  }

  lemma {:induction false} LowerJoinCapitalized(parts: seq<string>)
    requires AlnumPieces(parts)
    decreases |parts|
    ensures Lower(Join(CapitalizeAll(parts), " ")) == Join(parts, " ")
  {
    var caps := CapitalizeAll(parts);
    if |parts| == 1 {
      LowerCapitalize(parts[0]);
    } else if |parts| >= 2 {
      var rest := parts[1..];
      LowerJoinCapitalized(rest);
      LowerCapitalize(parts[0]);
      assert caps == [caps[0]] + CapitalizeAll(rest);
      assert parts == [parts[0]] + rest;
      LowerJoinStep(caps[0], CapitalizeAll(rest), parts[0], rest);
    }
  }

  /** Joined alphanumeric pieces, the first non-empty unless it is the only
      one, do not start with whitespace. */
  lemma JoinStartsWithoutWhitespace(parts: seq<string>)
    requires |parts| >= 1 && AlnumPieces(parts)
    requires parts[0] == "" ==> |parts| == 1
    ensures var j := Join(parts, " ");
            j == [] || !IsJsWhitespace(j[0])
  {
    assert AllChars(parts[0], IsAlnum);
    if |parts| >= 2 {
      JoinCons(parts[0], parts[1..], " ");
      assert parts == [parts[0]] + parts[1..];
    }
  }

  /** A whitespace-free piece, a space, and a text that does not start with
      whitespace: the space becomes `-`. */
  lemma CollapseSpaceStep(p: string, j: string)
    requires NoWhitespace(p) && (j == [] || !IsJsWhitespace(j[0]))
    ensures CollapseWhitespace(p + " " + j) == p + "-" + CollapseWhitespace(j)
  {
    assert p + " " + j == p + (" " + j);
    CollapseWhitespacePrefix(p, " " + j);
    assert (" " + j)[1..] == j;
    assert SkipWhitespace(j) == j;
  }

  lemma {:induction false} CollapseJoin(parts: seq<string>)
    requires |parts| >= 1 && AlnumPieces(parts) && InnerPiecesNonEmpty(parts)
    decreases |parts|
    ensures CollapseWhitespace(Join(parts, " ")) == Join(parts, "-")
  {
    var p := parts[0];
    assert NoWhitespace(p) by {
      assert AllChars(p, IsAlnum);
    }
    if |parts| == 1 {
      CollapseWhitespaceFixed(p);
    } else {
      var rest := parts[1..];
      assert forall i :: 0 <= i < |rest| ==> rest[i] == parts[i + 1];
      CollapseJoin(rest);
      JoinStartsWithoutWhitespace(rest);
      CollapseSpaceStep(p, Join(rest, " "));
      assert parts == [p] + rest;
      JoinCons(p, rest, " ");
      JoinCons(p, rest, "-");
    }
  }

  /** Title-casing `-`-joined alphanumeric pieces and slugging the result gives
      the `-`-joined pieces back, provided no inner piece is empty. */
  lemma SlugifyTitleCasePieces(parts: seq<string>)
    requires |parts| >= 1 && AlnumPieces(parts) && InnerPiecesNonEmpty(parts)
    ensures Slugify(Join(CapitalizeAll(parts), " ")) == Join(parts, "-")
  {
    LowerJoinCapitalized(parts);
    CollapseJoin(parts);
    forall i | 0 <= i < |parts| ensures AllChars(parts[i], IsSlugChar) {
      assert AllChars(parts[i], IsAlnum);
    }
    JoinAllChars(parts, "-", IsSlugChar);
    StripNonSlugFixed(Join(parts, "-"));
  }

  /** An empty inner piece of a split on `-` means the text holds `--`. */
  lemma EmptyInnerPieceMeansDoubleHyphen(s: string, i: nat)
    requires 0 < i < |SplitOn(s, "-")| - 1 && SplitOn(s, "-")[i] == ""
    ensures Includes(s, "--")
  {
    var parts := SplitOn(s, "-");
    JoinAt(parts, "-", i);
    var a := Join(parts[..i], "-");
    JoinCons(parts[i], parts[i + 1..], "-");
    assert parts[i..] == [parts[i]] + parts[i + 1..];
    assert s == a + "-" + ("" + "-" + Join(parts[i + 1..], "-"));
    assert s[|a|..|a| + 2] == "--";
    assert OccursAt(s, "--", |a|);
    IncludesIff(s, "--");
  }

  /** Round trip: a slug without `--`, title-cased for display and slugged
      again, is the slug itself (`"new-york"` to `"New York"` and back). */
  lemma SlugifyTitleCase(s: string)
    requires IsSlugText(s) && !Includes(s, "--")
    ensures Slugify(TitleCase(s)) == s
  {
    var parts := SplitOn(s, "-");
    SplitPiecesAvoidChar(s, '-');
    assert AllChars(Join(parts, "-"), IsSlugChar);
    PiecesAllChars(parts, "-", IsSlugChar);
    forall i | 0 <= i < |parts| ensures AllChars(parts[i], IsAlnum) {
      assert AllChars(parts[i], IsSlugChar) && NoChar(parts[i], '-');
    }
    forall i | 0 < i < |parts| - 1 ensures parts[i] != "" {
      if parts[i] == "" {
        EmptyInnerPieceMeansDoubleHyphen(s, i);
      }
    }
    SlugifyTitleCasePieces(parts);
  }

  /** Title-casing `-`-joined pieces capitalises each piece. */
  lemma TitleCaseOfPieces(parts: seq<string>)
    requires |parts| >= 1
    requires forall i :: 0 <= i < |parts| ==> NoChar(parts[i], '-')
    ensures TitleCase(Join(parts, "-")) == Join(CapitalizeAll(parts), " ")
  {
    JoinThenSplit(parts, '-');
  }
}
