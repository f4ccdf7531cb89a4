/**
 * The parts of JavaScript's String built-ins that the location and service
 * code relies on: ASCII case mapping, the `\s` character class, `indexOf`,
 * `includes`, `split`, `Array.prototype.join`, and `String.prototype.replace`
 * with a string pattern or a global regular expression without capture
 * groups, including the `$` patterns of the replacement string
 * (the GetSubstitution operation of the ECMAScript specification).
 */
module JsString {
  import opened Wrappers

  predicate IsAsciiUpper(c: char) { 'A' <= c <= 'Z' }
  predicate IsAsciiLower(c: char) { 'a' <= c <= 'z' }
  predicate IsAsciiDigit(c: char) { '0' <= c <= '9' }

  /** `toLowerCase` of one character, restricted to ASCII letters: an
      upper-case letter becomes the lower-case letter at the same place in
      the alphabet. */
  function ToLowerChar(c: char): (r: char)
    ensures IsAsciiUpper(c) ==> IsAsciiLower(r) && r as int - 'a' as int == c as int - 'A' as int
    ensures !IsAsciiUpper(c) ==> r == c
  {
    if IsAsciiUpper(c) then (c as int + 32) as char else c
  }

  /** `toUpperCase` of one character, restricted to ASCII letters: a
      lower-case letter becomes the upper-case letter at the same place in
      the alphabet, which lower-cases back to it. */
  function ToUpperChar(c: char): (r: char)
    ensures IsAsciiLower(c) ==> IsAsciiUpper(r) && r as int - 'A' as int == c as int - 'a' as int
    ensures IsAsciiLower(c) ==> ToLowerChar(r) == c
    ensures !IsAsciiLower(c) ==> r == c
  {
    if IsAsciiLower(c) then (c as int - 32) as char else c
  }

  /** `s.toLowerCase()`: character by character, so each upper-case ASCII
      letter becomes its lower-case letter, no upper-case ASCII letter is
      left, and every other character is kept. */
  function Lower(s: string): (r: string)
    ensures |r| == |s|
    ensures forall i :: 0 <= i < |s| && IsAsciiUpper(s[i]) ==>
              IsAsciiLower(r[i]) && r[i] as int - 'a' as int == s[i] as int - 'A' as int
    ensures forall i :: 0 <= i < |r| ==> !IsAsciiUpper(r[i])
    ensures forall i :: 0 <= i < |s| && !IsAsciiUpper(s[i]) ==> r[i] == s[i]
  {
    seq(|s|, i requires 0 <= i < |s| => ToLowerChar(s[i]))
  }

  lemma LowerConcat(a: string, b: string)
    ensures Lower(a + b) == Lower(a) + Lower(b)
  {
    assert forall i :: 0 <= i < |a + b| ==> Lower(a + b)[i] == (Lower(a) + Lower(b))[i];
  }

  /** JavaScript truthiness of a `string | undefined`: present and non-empty. */
  predicate Truthy(o: Option<string>) {
    o.Some? && o.value != ""
  }

  /** The characters `\s` matches: WhiteSpace and LineTerminator of ECMAScript. */
  predicate IsJsWhitespace(c: char) {
    var n := c as int;
    n == 0x09 || n == 0x0A || n == 0x0B || n == 0x0C || n == 0x0D || n == 0x20 ||
    n == 0xA0 || n == 0x1680 || (0x2000 <= n <= 0x200A) || n == 0x2028 ||
    n == 0x2029 || n == 0x202F || n == 0x205F || n == 0x3000 || n == 0xFEFF
  }

  /** No character of `s` is `c`. */
  predicate NoChar(s: string, c: char) {
    forall i :: 0 <= i < |s| ==> s[i] != c
  }

  /** `t` occurs in `s` starting at index `i`. */
  predicate OccursAt(s: string, t: string, i: int) {
    0 <= i && i + |t| <= |s| && s[i..i + |t|] == t
  }

  /** `s.indexOf(t, from)`, with `undefined` for -1. */
  function IndexOf(s: string, t: string, from: nat): (r: Option<nat>)
    decreases |s| - from
    ensures r.Some? ==> from <= r.value && OccursAt(s, t, r.value)
    ensures r.Some? ==> forall j :: from <= j < r.value ==> !OccursAt(s, t, j)
    ensures r.None? ==> forall j :: from <= j ==> !OccursAt(s, t, j)
  {
    if from + |t| > |s| then None
    else if s[from..from + |t|] == t then Some(from)
    else IndexOf(s, t, from + 1)
  }

  /** The first occurrence at or after `from` determines `IndexOf`. */
  lemma IndexOfIs(s: string, t: string, from: nat, k: nat)
    requires from <= k && OccursAt(s, t, k)
    requires forall j :: from <= j < k ==> !OccursAt(s, t, j)
    ensures IndexOf(s, t, from) == Some(k)
  {
  }

  /** No occurrence at or after `from` determines `IndexOf`. */
  lemma IndexOfNone(s: string, t: string, from: nat)
    requires forall j :: from <= j ==> !OccursAt(s, t, j)
    ensures IndexOf(s, t, from) == None
  {
  }

  /** Searching a suffix is searching the whole text from the suffix's start. */
  lemma {:induction false} IndexOfSuffix(s: string, t: string, from: nat)
    requires from <= |s|
    ensures IndexOf(s[from..], t, 0) ==
            (match IndexOf(s, t, from) case None => None case Some(k) => Some(k - from))
  {
    var u := s[from..];
    forall j | 0 <= j
      ensures OccursAt(u, t, j) <==> OccursAt(s, t, j + from)
    {
      if j + |t| <= |u| {
        assert u[j..j + |t|] == s[j + from..j + from + |t|];
      }
    }
    match IndexOf(s, t, from)
    case None =>
      forall j | 0 <= j ensures !OccursAt(u, t, j) {
        assert !OccursAt(s, t, j + from);
      }
      IndexOfNone(u, t, 0);
    case Some(k) =>
      assert OccursAt(u, t, k - from);
      forall j | 0 <= j < k - from ensures !OccursAt(u, t, j) {
        assert !OccursAt(s, t, j + from);
      }
      IndexOfIs(u, t, 0, k - from);
  }

  /** `s.includes(t)`. */
  predicate Includes(s: string, t: string) {
    IndexOf(s, t, 0).Some?
  }

  lemma IncludesIff(s: string, t: string)
    ensures Includes(s, t) <==> exists i :: OccursAt(s, t, i)
  {
    if !Includes(s, t) {
      forall i ensures !OccursAt(s, t, i) {
        if 0 <= i {
          assert !OccursAt(s, t, i);
        }
      }
    }
  }

  /** A text placed between two others is included in the whole. */
  lemma IncludesMiddle(p: string, x: string, q: string)
    ensures Includes(p + x + q, x)
  {
    var s := p + x + q;
    assert s[|p|..|p| + |x|] == x;
    assert OccursAt(s, x, |p|);
    IncludesIff(s, x);
  }

  /** A text with no two adjacent copies of `c` does not include `cc`. */
  lemma NoDoubledChar(s: string, c: char)
    requires forall i :: 0 <= i < |s| - 1 ==> s[i] != c || s[i + 1] != c
    ensures !Includes(s, [c, c])
  {
    forall i | 0 <= i ensures !OccursAt(s, [c, c], i) {
      if i + 2 <= |s| {
        assert s[i..i + 2][0] == s[i] && s[i..i + 2][1] == s[i + 1];
      }
    }
    IncludesIff(s, [c, c]);
  }

  /** `s.split(sep)` for a non-empty separator: cuts at the leftmost,
      non-overlapping occurrences, so joining the pieces with `sep` gives the
      text back. */
  function SplitOn(s: string, sep: string): (r: seq<string>)
    requires |sep| > 0
    decreases |s|
    ensures |r| >= 1
    ensures Join(r, sep) == s
  {
    match IndexOf(s, sep, 0)
    case None => [s]
    case Some(k) =>
      var rest := s[k + |sep|..];
      var pieces := SplitOn(rest, sep);
      JoinCons(s[..k], pieces, sep);
      assert s == s[..k] + s[k..k + |sep|] + rest;
      [s[..k]] + pieces
  }

  /** `parts.join(sep)`: the first piece comes first and, when there is a
      second, the separator right after it. */
  function Join(parts: seq<string>, sep: string): (r: string)
    decreases |parts|
    ensures |parts| >= 1 ==> |parts[0]| <= |r| && r[..|parts[0]|] == parts[0]
  {
    if |parts| == 0 then ""
    else if |parts| == 1 then parts[0]
    else parts[0] + sep + Join(parts[1..], sep)
  }

  /** Joining one more piece in front adds it and one separator. */
  lemma JoinCons(p: string, parts: seq<string>, sep: string)
    requires |parts| >= 1
    ensures Join([p] + parts, sep) == p + sep + Join(parts, sep)
  {
    assert ([p] + parts)[1..] == parts;
  }

  /** Every character of `s` satisfies `P`. */
  predicate AllChars(s: string, P: char -> bool) {
    forall i :: 0 <= i < |s| ==> P(s[i])
  }

  lemma AllCharsConcat(a: string, b: string, P: char -> bool)
    ensures AllChars(a + b, P) <==> AllChars(a, P) && AllChars(b, P)
  {
    if AllChars(a, P) && AllChars(b, P) {
      forall i | 0 <= i < |a + b| ensures P((a + b)[i]) {
        if i >= |a| {
          assert (a + b)[i] == b[i - |a|];
        }
      }
    }
    if AllChars(a + b, P) {
      forall i | 0 <= i < |a| ensures P(a[i]) {
        assert (a + b)[i] == a[i];
      }
      forall i | 0 <= i < |b| ensures P(b[i]) {
        assert (a + b)[i + |a|] == b[i];
      }
    }
  }

  /** A join has a character property when its pieces and separator have it. */
  lemma {:induction false} JoinAllChars(parts: seq<string>, sep: string, P: char -> bool)
    requires forall i :: 0 <= i < |parts| ==> AllChars(parts[i], P)
    requires AllChars(sep, P)
    decreases |parts|
    ensures AllChars(Join(parts, sep), P)
  {
    if |parts| >= 2 {
      JoinAllChars(parts[1..], sep, P);
      JoinCons(parts[0], parts[1..], sep);
      assert parts == [parts[0]] + parts[1..];
      AllCharsConcat(parts[0], sep, P);
      AllCharsConcat(parts[0] + sep, Join(parts[1..], sep), P);
    }
  }

  /** The pieces of a join have every character property the join has. */
  lemma {:induction false} PiecesAllChars(parts: seq<string>, sep: string, P: char -> bool)
    requires AllChars(Join(parts, sep), P)
    decreases |parts|
    ensures forall i :: 0 <= i < |parts| ==> AllChars(parts[i], P)
  {
    if |parts| >= 2 {
      JoinCons(parts[0], parts[1..], sep);
      assert parts == [parts[0]] + parts[1..];
      AllCharsConcat(parts[0] + sep, Join(parts[1..], sep), P);
      AllCharsConcat(parts[0], sep, P);
      PiecesAllChars(parts[1..], sep, P);
      assert forall i :: 1 <= i < |parts| ==> parts[i] == parts[1..][i - 1];
    }
  }

  /** A join splits at any inner piece boundary into two joins. */
  lemma {:induction false} JoinAt(parts: seq<string>, sep: string, i: nat)
    requires 0 < i < |parts|
    decreases i
    ensures Join(parts, sep) == Join(parts[..i], sep) + sep + Join(parts[i..], sep)
  {
    var head, tail := parts[0], parts[1..];
    assert parts == [head] + tail;
    JoinCons(head, tail, sep);
    if i == 1 {
      assert parts[..i] == [head];
    } else {
      JoinAt(tail, sep, i - 1);
      assert tail[..i - 1] == parts[1..i];
      assert tail[i - 1..] == parts[i..];
      JoinCons(head, parts[1..i], sep);
      assert parts[..i] == [head] + parts[1..i];
      var a, b := Join(parts[1..i], sep), Join(parts[i..], sep);
      assert Join(parts, sep) == head + sep + (a + sep + b);
      assert head + sep + (a + sep + b) == (head + sep + a) + sep + b;
    }
  }

  /** A one-character occurrence is that character. */
  lemma OccursAtChar(s: string, c: char, i: int)
    ensures OccursAt(s, [c], i) <==> 0 <= i < |s| && s[i] == c
  {
    if 0 <= i < |s| {
      assert s[i..i + 1] == [s[i]];
    }
  }

  /** Splitting a join on a character none of the pieces contains gives the
      pieces back. */
  lemma {:induction false} JoinThenSplit(parts: seq<string>, c: char)
    requires |parts| >= 1
    requires forall i :: 0 <= i < |parts| ==> NoChar(parts[i], c)
    decreases |parts|
    ensures SplitOn(Join(parts, [c]), [c]) == parts
  {
    var s := Join(parts, [c]);
    var p := parts[0];
    if |parts| == 1 {
      forall j | 0 <= j ensures !OccursAt(s, [c], j) {
        OccursAtChar(s, c, j);
      }
      IndexOfNone(s, [c], 0);
    } else {
      var rest := parts[1..];
      JoinThenSplit(rest, c);
      assert s == p + [c] + Join(rest, [c]);
      OccursAtChar(s, c, |p|);
      forall j | 0 <= j < |p| ensures !OccursAt(s, [c], j) {
        OccursAtChar(s, c, j);
        assert s[j] == p[j];
      }
      IndexOfIs(s, [c], 0, |p|);
      assert s[..|p|] == p;
      assert s[|p| + 1..] == Join(rest, [c]);
    }
  }

  /** The pieces of a split on a one-character separator never contain it. */
  lemma {:induction false} SplitPiecesAvoidChar(s: string, c: char)
    decreases |s|
    ensures forall i :: 0 <= i < |SplitOn(s, [c])| ==> NoChar(SplitOn(s, [c])[i], c)
  {
    match IndexOf(s, [c], 0)
    case None =>
      forall j | 0 <= j < |s| ensures s[j] != c {
        OccursAtChar(s, c, j);
      }
    case Some(k) =>
      SplitPiecesAvoidChar(s[k + 1..], c);
      forall j | 0 <= j < k ensures s[..k][j] != c {
        OccursAtChar(s, c, j);
      }
  }

  /** The text a replacement string `repl` stands for when the match of length
      `len` is at `pos` in `str`: `$$`, `$&`, `` $` `` and `$'` are expanded; with
      no capture groups every other `$` is literal, and a replacement string
      without `$` stands for itself. */
  function Substitution(repl: string, str: string, pos: nat, len: nat): (r: string)
    requires pos + len <= |str|
    decreases |repl|
    ensures NoChar(repl, '$') ==> r == repl
  {
    if |repl| == 0 then ""
    else if repl[0] == '$' && |repl| >= 2 && repl[1] == '$' then "$" + Substitution(repl[2..], str, pos, len)
    else if repl[0] == '$' && |repl| >= 2 && repl[1] == '&' then str[pos..pos + len] + Substitution(repl[2..], str, pos, len)
    else if repl[0] == '$' && |repl| >= 2 && repl[1] == '`' then str[..pos] + Substitution(repl[2..], str, pos, len)
    else if repl[0] == '$' && |repl| >= 2 && repl[1] == '\'' then str[pos + len..] + Substitution(repl[2..], str, pos, len)
    else [repl[0]] + Substitution(repl[1..], str, pos, len)
  }

  /** `str.replace(pat, repl)` with a string pattern: the first occurrence
      only. A text without the pattern is unchanged; with a `$`-free
      replacement, the first cut of the split is replaced and every later
      occurrence of the pattern is kept. */
  function ReplaceFirst(str: string, pat: string, repl: string): (r: string)
    ensures !Includes(str, pat) ==> r == str
    ensures |pat| > 0 && NoChar(repl, '$') ==>
              var parts := SplitOn(str, pat);
              r == if |parts| == 1 then str else parts[0] + repl + Join(parts[1..], pat)
  {
    match IndexOf(str, pat, 0)
    case None => str
    case Some(k) =>
      assert |pat| > 0 ==> SplitOn(str, pat) == [str[..k]] + SplitOn(str[k + |pat|..], pat) by {
        if |pat| > 0 {
          SplitOnAt(str, pat, k);
        }
      }
      str[..k] + Substitution(repl, str, k, |pat|) + str[k + |pat|..]
  }

  /** `str.replace(/pat/g, repl)` from index `from` on, for a pattern without
      special characters: each search resumes after the previous match. */
  function ReplaceAllFrom(str: string, pat: string, repl: string, from: nat): string
    requires |pat| > 0 && from <= |str|
    decreases |str| - from
  {
    match IndexOf(str, pat, from)
    case None => str[from..]
    case Some(k) => str[from..k] + Substitution(repl, str, k, |pat|) + ReplaceAllFrom(str, pat, repl, k + |pat|)
  }

  /** `str.replace(/pat/g, repl)`: a text without the pattern is unchanged,
      and a `$`-free replacement takes the place of every cut of the split. */
  function ReplaceAll(str: string, pat: string, repl: string): (r: string)
    requires |pat| > 0
    ensures !Includes(str, pat) ==> r == str
    ensures NoChar(repl, '$') ==> r == Join(SplitOn(str, pat), repl)
  {
    assert str[0..] == str;
    assert NoChar(repl, '$') ==> ReplaceAllFrom(str, pat, repl, 0) == Join(SplitOn(str, pat), repl) by {
      if NoChar(repl, '$') {
        ReplaceAllFromIsSplitJoin(str, pat, repl, 0);
      }
    }
    ReplaceAllFrom(str, pat, repl, 0)
  }

  /** Without a further match, the rest of the text is one piece and is kept. */
  lemma ReplaceAllFromLast(str: string, pat: string, repl: string, from: nat)
    requires |pat| > 0 && from <= |str|
    requires IndexOf(str, pat, from).None?
    ensures ReplaceAllFrom(str, pat, repl, from) == Join(SplitOn(str[from..], pat), repl)
  {
    IndexOfSuffix(str, pat, from);
    assert SplitOn(str[from..], pat) == [str[from..]];
  }

  /** Splitting the text from `from` on, when the next match is at `k`: the
      piece before it and the split of the rest. */
  lemma SplitOnSuffix(str: string, pat: string, from: nat, k: nat)
    requires |pat| > 0 && from <= |str|
    requires IndexOf(str, pat, from) == Some(k)
    ensures k + |pat| <= |str|
    ensures SplitOn(str[from..], pat) == [str[from..k]] + SplitOn(str[k + |pat|..], pat)
  {
    IndexOfSuffix(str, pat, from);
    var u := str[from..];
    var j := k - from;
    assert IndexOf(u, pat, 0) == Some(j);
    SplitOnAt(u, pat, j);
    assert u[..j] == str[from..k];
    assert u[j + |pat|..] == str[k + |pat|..];
  }

  /** Splitting at the first match `k`. */
  lemma SplitOnAt(s: string, sep: string, k: nat)
    requires |sep| > 0 && IndexOf(s, sep, 0) == Some(k)
    ensures k + |sep| <= |s|
    ensures SplitOn(s, sep) == [s[..k]] + SplitOn(s[k + |sep|..], sep)
  {
    var i := IndexOf(s, sep, 0);
    assert i == Some(k);
    assert OccursAt(s, sep, k);
  }

  /** One step of a global replace with a `$`-free replacement: if the rest
      after the match at `k` is split-then-join, so is the text from `from`. */
  lemma ReplaceAllFromStep(str: string, pat: string, repl: string, from: nat, k: nat)
    requires |pat| > 0 && from <= |str| && NoChar(repl, '$')
    requires IndexOf(str, pat, from) == Some(k)
    requires ReplaceAllFrom(str, pat, repl, k + |pat|) == Join(SplitOn(str[k + |pat|..], pat), repl)
    ensures ReplaceAllFrom(str, pat, repl, from) == Join(SplitOn(str[from..], pat), repl)
  {
    var tail := SplitOn(str[k + |pat|..], pat);
    ReplaceAllFromUnfold(str, pat, repl, from, k);
    SplitOnSuffix(str, pat, from, k);
    JoinCons(str[from..k], tail, repl);
  }

  /** A global replace when the next match is at `k`: the text before it, the
      substitution for the match, and the replace of the rest. */
  lemma ReplaceAllFromAt(str: string, pat: string, repl: string, from: nat, k: nat)
    requires |pat| > 0 && from <= |str|
    requires IndexOf(str, pat, from) == Some(k)
    ensures k + |pat| <= |str|
    ensures ReplaceAllFrom(str, pat, repl, from) ==
            str[from..k] + Substitution(repl, str, k, |pat|) + ReplaceAllFrom(str, pat, repl, k + |pat|)
  {
  }

  /** A global replace with no further match keeps the rest of the text. */
  lemma ReplaceAllFromNone(str: string, pat: string, repl: string, from: nat)
    requires |pat| > 0 && from <= |str|
    requires IndexOf(str, pat, from).None?
    ensures ReplaceAllFrom(str, pat, repl, from) == str[from..]
  {
  }

  /** Three adjacent slices make up one. */
  lemma SlicesJoin(s: string, a: nat, b: nat, c: nat)
    requires a <= b <= c <= |s|
    ensures s[a..b] + s[b..c] + s[c..] == s[a..]
  {
  }

  /** `$&` stands for the matched text. */
  lemma SubstitutionMatch(str: string, pos: nat, len: nat)
    requires pos + len <= |str|
    ensures Substitution("$&", str, pos, len) == str[pos..pos + len]
  {
    assert Substitution("", str, pos, len) == "";
    assert "$&"[2..] == "";
  }

  /** A global replace with a `$`-free replacement, when the next match is at
      `k`: the text before it, the replacement, and the replace of the rest. */
  lemma ReplaceAllFromUnfold(str: string, pat: string, repl: string, from: nat, k: nat)
    requires |pat| > 0 && from <= |str| && NoChar(repl, '$')
    requires IndexOf(str, pat, from) == Some(k)
    ensures k + |pat| <= |str|
    ensures ReplaceAllFrom(str, pat, repl, from) ==
            str[from..k] + repl + ReplaceAllFrom(str, pat, repl, k + |pat|)
  {
    ReplaceAllFromAt(str, pat, repl, from, k);
  }

  /** With a `$`-free replacement, a global replace is split-then-join. */
  lemma {:induction false} ReplaceAllFromIsSplitJoin(str: string, pat: string, repl: string, from: nat)
    requires |pat| > 0 && from <= |str| && NoChar(repl, '$')
    decreases |str| - from
    ensures ReplaceAllFrom(str, pat, repl, from) == Join(SplitOn(str[from..], pat), repl)
  {
    match IndexOf(str, pat, from)
    case None =>
      ReplaceAllFromLast(str, pat, repl, from);
    case Some(k) =>
      assert OccursAt(str, pat, k);
      assert ReplaceAllFrom(str, pat, repl, k + |pat|) == Join(SplitOn(str[k + |pat|..], pat), repl) by {
        ReplaceAllFromIsSplitJoin(str, pat, repl, k + |pat|);
      }
      ReplaceAllFromStep(str, pat, repl, from, k);
  }

}
