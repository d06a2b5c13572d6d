/**
 * The template-text test of the eleven-check classifier: six fixed regular
 * expressions built from literal words, `\s+` and `\w+`, searched for in
 * the lowered claim text.
 *
 * Rather than a regular-expression engine, each pattern is a list of
 * tokens matched greedily; for patterns in which a run is always followed
 * by something it cannot swallow, greedy matching accepts exactly what a
 * backtracking engine accepts (`MatchHereIffAccepts`).
 */
module Placeholder {
  import opened Text

  /** `\w` on ASCII text. */
  predicate IsWordChar(c: char)
  {
    'a' <= c <= 'z' || 'A' <= c <= 'Z' || '0' <= c <= '9' || c == '_'
  }

  datatype CharClass = Space | WordChar

  predicate InClass(k: CharClass, c: char)
  {
    match k
    case Space => IsSpace(c)
    case WordChar => IsWordChar(c)
  }

  /** No character is both whitespace and a word character. */
  lemma ClassesDisjoint(c: char)
    ensures !(InClass(Space, c) && InClass(WordChar, c))
  {
  }

  /** A pattern piece: literal text, or a run of one or more characters of a class (`\s+`, `\w+`). */
  datatype Token = Lit(text: string) | Run(cls: CharClass)

  type Pattern = seq<Token>

  predicate AllIn(k: CharClass, s: string)
  {
    forall j :: 0 <= j < |s| ==> InClass(k, s[j])
  }

  /** The length of the longest prefix of `s` in class `k`. */
  function RunLength(k: CharClass, s: string): (n: nat)
    ensures n <= |s|
    ensures AllIn(k, s[..n])
    ensures n < |s| ==> !InClass(k, s[n])
  {
    if s != [] && InClass(k, s[0]) then
      var n := 1 + RunLength(k, s[1..]);
      assert s[..n] == [s[0]] + s[1..][..n - 1];
      n
    else 0
  }

  /** Greedy matching at the start of `s`: every run takes as much as it can. */
  function MatchHere(p: Pattern, s: string): bool
    decreases |p|
  {
    if p == [] then true
    else
      match p[0]
      case Lit(w) => IsPrefix(w, s) && MatchHere(p[1..], s[|w|..])
      case Run(k) =>
        var n := RunLength(k, s);
        n > 0 && MatchHere(p[1..], s[n..])
  }

  /** What a backtracking engine accepts at the start of `s`: a run may take any non-empty prefix. */
  ghost predicate Accepts(p: Pattern, s: string)
    decreases |p|
  {
    if p == [] then true
    else
      match p[0]
      case Lit(w) => IsPrefix(w, s) && Accepts(p[1..], s[|w|..])
      case Run(k) => exists n :: 1 <= n <= |s| && AllIn(k, s[..n]) && Accepts(p[1..], s[n..])
  }

  /** Token `t` cannot begin with a character of class `k`. */
  predicate StartsOutside(k: CharClass, t: Token)
  {
    match t
    case Lit(w) => w != [] && !InClass(k, w[0])
    case Run(k2) => k2 != k
  }

  /** Every run is followed by the end of the pattern or by a token it cannot swallow. */
  predicate Separated(p: Pattern)
  {
    forall i :: 0 <= i < |p| - 1 && p[i].Run? ==> StartsOutside(p[i].cls, p[i + 1])
  }

  /** Whatever accepts `s` pins down its first character. */
  lemma AcceptsFirst(p: Pattern, s: string, k: CharClass)
    requires p != [] && StartsOutside(k, p[0]) && Accepts(p, s)
    ensures s != [] && !InClass(k, s[0])
  {
    match p[0]
    case Lit(w) =>
      assert s[..|w|][0] == w[0];
    case Run(k2) =>
      var n :| 1 <= n <= |s| && AllIn(k2, s[..n]) && Accepts(p[1..], s[n..]);
      assert InClass(k2, s[..n][0]);
      ClassesDisjoint(s[0]);
  }

  /** For separated patterns, greedy matching and backtracking agree. */
  lemma {:induction false} MatchHereIffAccepts(p: Pattern, s: string)
    requires Separated(p)
    ensures MatchHere(p, s) <==> Accepts(p, s)
    decreases |p|
  {
    if p != [] {
      assert Separated(p[1..]);
      match p[0]
      case Lit(w) =>
        if IsPrefix(w, s) {
          MatchHereIffAccepts(p[1..], s[|w|..]);
        }
      case Run(k) =>
        MatchHereIffAccepts(p[1..], s[RunLength(k, s)..]);
        RunGreedyIffAccepts(p, s, k);
    }
  }

  /**
   * One run step: a greedy run accepts exactly when some run does, given
   * that the rest of the pattern agrees with backtracking after the
   * longest run.
   */
  lemma RunGreedyIffAccepts(p: Pattern, s: string, k: CharClass)
    requires p != [] && p[0] == Run(k) && Separated(p)
    requires MatchHere(p[1..], s[RunLength(k, s)..]) <==> Accepts(p[1..], s[RunLength(k, s)..])
    ensures MatchHere(p, s) <==> Accepts(p, s)
  {
    var n := RunLength(k, s);
    assert MatchHere(p, s) <==> n > 0 && MatchHere(p[1..], s[n..]);
    if Accepts(p, s) {
      var m :| 1 <= m <= |s| && AllIn(k, s[..m]) && Accepts(p[1..], s[m..]);
      AcceptedRunIsLongest(p, s, k, m);
    }
  }

  /** A run that lets the rest of a separated pattern accept is the longest run. */
  lemma AcceptedRunIsLongest(p: Pattern, s: string, k: CharClass, m: nat)
    requires p != [] && p[0] == Run(k) && Separated(p)
    requires 1 <= m <= |s| && AllIn(k, s[..m]) && Accepts(p[1..], s[m..])
    ensures RunLength(k, s) > 0
    ensures p[1..] != [] ==> m == RunLength(k, s)
    ensures p[1..] == [] ==> MatchHere(p[1..], s[RunLength(k, s)..])
  {
    var n := RunLength(k, s);
    assert InClass(k, s[..m][0]);
    if p[1..] != [] && m < n {
      assert StartsOutside(k, p[1..][0]);
      AcceptsFirst(p[1..], s[m..], k);
    }
  }

  /** `re.search(p, s) is not None`: the pattern matches starting somewhere in `s`. */
  function Search(p: Pattern, s: string): (r: bool)
    ensures r <==> exists i :: 0 <= i <= |s| && MatchHere(p, s[i..])
  {
    if MatchHere(p, s) then
      assert s[0..] == s;
      true
    else if s == [] then false
    else
      assert forall i :: 1 <= i <= |s| ==> s[1..][i - 1..] == s[i..];
      Search(p, s[1..])
  }

  /** For separated patterns, `Search` is the regular-expression search. */
  lemma SearchIsRegexSearch(p: Pattern, s: string)
    requires Separated(p)
    ensures Search(p, s) <==> exists i :: 0 <= i <= |s| && Accepts(p, s[i..])
  {
    forall i | 0 <= i <= |s| {
      MatchHereIffAccepts(p, s[i..]);
    }
  }

  /** The six template phrases, in the order they are tried. */
  const PlaceholderPatterns: seq<Pattern> := [
    [Lit("enter"), Run(Space), Run(WordChar), Run(Space), Lit("name")],
    [Lit("enter"), Run(Space), Lit("claimed"), Run(Space), Lit("amount")],
    [Lit("provide"), Run(Space), Lit("any"), Run(Space), Lit("extra")],
    [Lit("patient"), Run(Space), Lit("name")],
    [Lit("hospital"), Run(Space), Lit("name")],
    [Lit("claim"), Run(Space), Lit("amount")]
  ]

  /** All six patterns are separated, so the greedy search decides them exactly. */
  lemma PlaceholderPatternsSeparated()
    ensures forall i :: 0 <= i < |PlaceholderPatterns| ==> Separated(PlaceholderPatterns[i])
  {
  }

  /** Some template phrase occurs in `text`. */
  predicate ContainsPlaceholder(text: string)
  {
    exists i :: 0 <= i < |PlaceholderPatterns| && Search(PlaceholderPatterns[i], text)
  }

  /**
   * The template test is the regular-expression test: some pattern, tried
   * in order, matches at some position of the text.
   */
  lemma ContainsPlaceholderIsRegexSearch(text: string)
    ensures ContainsPlaceholder(text) <==>
      exists i, j :: 0 <= i < |PlaceholderPatterns| && 0 <= j <= |text| && Accepts(PlaceholderPatterns[i], text[j..])
  {
    PlaceholderPatternsSeparated();
    forall i | 0 <= i < |PlaceholderPatterns| {
      SearchIsRegexSearch(PlaceholderPatterns[i], text);
    }
  }
}
