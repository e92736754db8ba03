/** Tag conversion between SRT and ASS text: ordered rewriting passes, the nesting
    they can undo, and the fixed point that stripping reaches. */
module Styling {
  import opened Strings

  datatype Kind = Bold | Italic | Underline

  function Letter(k: Kind): char {
    match k case Bold => 'b' case Italic => 'i' case Underline => 'u'
  }

  function SrtTag(k: Kind, open: bool): string {
    if open then ['<', Letter(k), '>'] else ['<', '/', Letter(k), '>']
  }

  function AssTag(k: Kind, open: bool): string {
    ['{', '\\', Letter(k), if open then '1' else '0', '}']
  }

  // ----- The conversions -----

  const FONT_OPEN := "<font color=\""

  function FirstIndexOf(s: string, c: char): (n: nat)
    ensures n <= |s| && c !in s[..n]
    ensures n < |s| ==> s[n] == c
  {
    if s == [] || s[0] == c then 0 else 1 + FirstIndexOf(s[1..], c)
  }

  lemma FirstIndexUnique(s: string, c: char, n: nat)
    requires n < |s| && s[n] == c && c !in s[..n]
    ensures FirstIndexOf(s, c) == n
  {
  }

  lemma Mismatch(s: string, p: string, i: nat)
    requires i < |p| && (i < |s| ==> s[i] != p[i])
    ensures !StartsWith(s, p)
  {
  }

  function TrimHashes(s: string): string {
    if s != [] && s[0] == '#' then TrimHashes(s[1..]) else s
  }

  /** `<font color="...">` with a non-empty colour becomes `{\c&H...&}`. */
  function ReplaceFontOpen(s: string): string {
    if s == [] then []
    else
      var q := if StartsWith(s, FONT_OPEN) then FirstIndexOf(s[|FONT_OPEN|..], '"') else 0;
      if q > 0 && StartsWith(s[|FONT_OPEN| + q..], "\">") then
        "{\\c&H" + TrimHashes(s[|FONT_OPEN|..|FONT_OPEN| + q]) + "&}" + ReplaceFontOpen(s[|FONT_OPEN| + q + 2..])
      else [s[0]] + ReplaceFontOpen(s[1..])
  }

  function ReplacePair(s: string, k: Kind): string {
    Replace(Replace(s, SrtTag(k, true), AssTag(k, true)), SrtTag(k, false), AssTag(k, false))
  }

  function ConvertSrtTagsToAss(s: string): string {
    Replace(ReplaceFontOpen(ReplacePair(ReplacePair(ReplacePair(s, Bold), Italic), Underline)), "</font>", "{\\c}")
  }

  /** One regular-expression pass: an open tag, a run without `{`, the close tag. */
  function PairPass(s: string, k: Kind): string
    decreases |s|
  {
    if s == [] then []
    else
      var n := if StartsWith(s, AssTag(k, true)) then FirstIndexOf(s[5..], '{') else 0;
      if StartsWith(s, AssTag(k, true)) && StartsWith(s[5 + n..], AssTag(k, false)) then
        SrtTag(k, true) + s[5..5 + n] + SrtTag(k, false) + PairPass(s[10 + n..], k)
      else [s[0]] + PairPass(s[1..], k)
  }

  function ConvertAssTagsToSrt(s: string): string {
    PairPass(PairPass(PairPass(s, Bold), Italic), Underline)
  }

  function StripAssTags(s: string): string
    decreases |s|
  {
    if s == [] then []
    else if s[0] == '{' && '}' in s then StripAssTags(s[FirstIndexOf(s, '}') + 1..])
    else [s[0]] + StripAssTags(s[1..])
  }

  // ----- Structured text -----

  /** Text as plain runs and nested tags. */
  datatype Forest = Empty | Run(text: string, next: Forest) | Tagged(kind: Kind, inner: Forest, next: Forest)

  predicate PlainRuns(f: Forest) {
    match f
    case Empty => true
    case Run(text, next) => '<' !in text && '{' !in text && PlainRuns(next)
    case Tagged(_, inner, next) => PlainRuns(inner) && PlainRuns(next)
  }

  /** The order of the passes. */
  function Rank(k: Kind): nat {
    match k case Bold => 1 case Italic => 2 case Underline => 3
  }

  /** Every tag has rank at most `n`, and contains only tags of lower rank than its own. */
  predicate NestedBelow(f: Forest, n: nat) {
    match f
    case Empty => true
    case Run(_, next) => NestedBelow(next, n)
    case Tagged(k, inner, next) => Rank(k) <= n && NestedBelow(inner, Rank(k) - 1) && NestedBelow(next, n)
  }

  function SrtText(f: Forest): string {
    match f
    case Empty => []
    case Run(text, next) => text + SrtText(next)
    case Tagged(k, inner, next) => SrtTag(k, true) + (SrtText(inner) + (SrtTag(k, false) + SrtText(next)))
  }

  function PlainText(f: Forest): string {
    match f
    case Empty => []
    case Run(text, next) => text + PlainText(next)
    case Tagged(_, inner, next) => PlainText(inner) + PlainText(next)
  }

  /** The text after the ASS passes of rank at most `n`: a tag is back in SRT form
      when its pass has run and everything inside had been converted before. */
  function Staged(f: Forest, n: nat): string {
    match f
    case Empty => []
    case Run(text, next) => text + Staged(next, n)
    case Tagged(k, inner, next) =>
      var back := Rank(k) <= n && NestedBelow(inner, Rank(k) - 1);
      if back then SrtTag(k, true) + (Staged(inner, n) + (SrtTag(k, false) + Staged(next, n)))
      else AssTag(k, true) + (Staged(inner, n) + (AssTag(k, false) + Staged(next, n)))
  }

  // ----- From SRT to ASS -----

  /** The text after the replacements in `done` (kind, opening?) have run. */
  function Mixed(f: Forest, done: set<(Kind, bool)>): string {
    match f
    case Empty => []
    case Run(text, next) => text + Mixed(next, done)
    case Tagged(k, inner, next) =>
      MixedTag(k, true, done) + (Mixed(inner, done) + (MixedTag(k, false, done) + Mixed(next, done)))
  }

  function MixedTag(k: Kind, open: bool, done: set<(Kind, bool)>): string {
    if (k, open) in done then AssTag(k, open) else SrtTag(k, open)
  }

  lemma {:induction false} ReplaceSkips(run: string, rest: string, pat: string, rep: string)
    requires pat != [] && pat[0] !in run
    ensures Replace(run + rest, pat, rep) == run + Replace(rest, pat, rep)
  {
    if run == [] {
      assert run + rest == rest;
    } else {
      assert (run + rest)[1..] == run[1..] + rest;
      assert (run + rest)[0] == run[0];
      ReplaceSkips(run[1..], rest, pat, rep);
    }
  }

  lemma ReplaceTag(k: Kind, open: bool, done: set<(Kind, bool)>, rest: string, p: (Kind, bool))
    requires p !in done
    ensures Replace(MixedTag(k, open, done) + rest, SrtTag(p.0, p.1), AssTag(p.0, p.1))
            == MixedTag(k, open, done + {p}) + Replace(rest, SrtTag(p.0, p.1), AssTag(p.0, p.1))
  {
    var pat, rep, tag := SrtTag(p.0, p.1), AssTag(p.0, p.1), MixedTag(k, open, done);
    var s := tag + rest;
    if (k, open) == p {
      assert s[..|pat|] == pat && s[|pat|..] == rest;
    } else {
      assert MixedTag(k, open, done + {p}) == tag;
      if (k, open) in done {
        ReplaceSkips(tag, rest, pat, rep);
      } else {
        OtherTag(tag, rest, pat, rep, k, open, p);
      }
    }
  }

  lemma OtherTag(tag: string, rest: string, pat: string, rep: string, k: Kind, open: bool, p: (Kind, bool))
    requires tag == SrtTag(k, open) && pat == SrtTag(p.0, p.1) && (k, open) != p
    ensures Replace(tag + rest, pat, rep) == tag + Replace(rest, pat, rep)
  {
    var s := tag + rest;
    Mismatch(s, pat, if !open && !p.1 then 2 else 1);
    assert '<' !in tag[1..] && pat[0] == '<';
    hide SrtTag;
    assert s[1..] == tag[1..] + rest && tag == [tag[0]] + tag[1..];
    ReplaceSkips(tag[1..], rest, pat, rep);
  }

  lemma TagShape(k: Kind, open: bool)
    ensures SrtTag(k, open) != [] && SrtTag(k, open)[0] == '<' && '{' !in SrtTag(k, open)
    ensures AssTag(k, open) != [] && AssTag(k, open)[0] == '{' && '<' !in AssTag(k, open)
  {
  }

  lemma {:induction false} ReplaceMixed(f: Forest, done: set<(Kind, bool)>, p: (Kind, bool), rest: string)
    requires PlainRuns(f) && p !in done
    ensures Replace(Mixed(f, done) + rest, SrtTag(p.0, p.1), AssTag(p.0, p.1))
            == Mixed(f, done + {p}) + Replace(rest, SrtTag(p.0, p.1), AssTag(p.0, p.1))
  {
    hide Replace, MixedTag, SrtTag, AssTag;
    var pat, rep := SrtTag(p.0, p.1), AssTag(p.0, p.1);
    assert pat != [] && pat[0] == '<' by { TagShape(p.0, p.1); }
    match f
    case Empty => assert Mixed(f, done) + rest == rest;
    case Run(text, next) =>
      assert Mixed(f, done) + rest == text + (Mixed(next, done) + rest);
      ReplaceSkips(text, Mixed(next, done) + rest, pat, rep);
      ReplaceMixed(next, done, p, rest);
    case Tagged(k, inner, next) =>
      var a, b := MixedTag(k, true, done), MixedTag(k, false, done);
      var tail := b + (Mixed(next, done) + rest);
      assert Mixed(f, done) + rest == a + (Mixed(inner, done) + tail);
      ReplaceTag(k, true, done, Mixed(inner, done) + tail, p);
      ReplaceMixed(inner, done, p, tail);
      ReplaceTag(k, false, done, Mixed(next, done) + rest, p);
      ReplaceMixed(next, done, p, rest);
  }

  lemma ReplaceWhole(f: Forest, done: set<(Kind, bool)>, p: (Kind, bool))
    requires PlainRuns(f) && p !in done
    ensures Replace(Mixed(f, done), SrtTag(p.0, p.1), AssTag(p.0, p.1)) == Mixed(f, done + {p})
  {
    ReplaceMixed(f, done, p, []);
    assert Mixed(f, done) + [] == Mixed(f, done);
  }

  lemma {:induction false} NoFont(s: string)
    requires '<' !in s
    ensures ReplaceFontOpen(s) == s
  {
    if s != [] {
      Mismatch(s, FONT_OPEN, 0);
      NoFont(s[1..]);
    }
  }

  const ALL_TAGS: set<(Kind, bool)> :=
    {(Bold, true), (Bold, false), (Italic, true), (Italic, false), (Underline, true), (Underline, false)}

  lemma AllTagsCovers(k: Kind)
    ensures (k, true) in ALL_TAGS && (k, false) in ALL_TAGS
  {
  }

  lemma {:induction false} MixedEnds(f: Forest)
    requires PlainRuns(f)
    ensures Mixed(f, {}) == SrtText(f)
    ensures Mixed(f, ALL_TAGS) == Staged(f, 0) && '<' !in Staged(f, 0)
  {
    hide SrtTag, AssTag, NestedBelow;
    match f
    case Empty =>
    case Run(_, next) => MixedEnds(next);
    case Tagged(k, inner, next) =>
      MixedEnds(inner);
      MixedEnds(next);
      TagShape(k, true);
      TagShape(k, false);
      AllTagsCovers(k);
      assert Staged(f, 0) == AssTag(k, true) + (Staged(inner, 0) + (AssTag(k, false) + Staged(next, 0)));
  }

  /** The six replacements and the font passes turn every tag, however nested, into
      its ASS form and change nothing else. */
  lemma SrtToAssTags(f: Forest)
    requires PlainRuns(f)
    ensures ConvertSrtTagsToAss(SrtText(f)) == Staged(f, 0)
  {
    hide Replace, Mixed, ReplaceFontOpen;
    MixedEnds(f);
    var d1 := {(Bold, true)};
    var d2 := d1 + {(Bold, false)};
    var d3 := d2 + {(Italic, true)};
    var d4 := d3 + {(Italic, false)};
    var d5 := d4 + {(Underline, true)};
    assert {} + {(Bold, true)} == d1;
    ReplaceWhole(f, {}, (Bold, true));
    ReplaceWhole(f, d1, (Bold, false));
    ReplaceWhole(f, d2, (Italic, true));
    ReplaceWhole(f, d3, (Italic, false));
    ReplaceWhole(f, d4, (Underline, true));
    ReplaceWhole(f, d5, (Underline, false));
    assert d5 + {(Underline, false)} == ALL_TAGS;
    NoFont(Staged(f, 0));
    NoFontClose(Staged(f, 0));
  }

  /** The six replacements in their literal form. */
  lemma TagsWritten(text: string)
    requires '<' !in text && '{' !in text
    ensures ConvertSrtTagsToAss("<b>" + text + "</b>") == "{\\b1}" + text + "{\\b0}"
    ensures ConvertSrtTagsToAss("<i>" + text + "</i>") == "{\\i1}" + text + "{\\i0}"
    ensures ConvertSrtTagsToAss("<u>" + text + "</u>") == "{\\u1}" + text + "{\\u0}"
  {
    TagWritten(text, Bold);
    TagWritten(text, Italic);
    TagWritten(text, Underline);
    hide ConvertSrtTagsToAss;
  }

  lemma TagWritten(text: string, k: Kind)
    requires '<' !in text && '{' !in text
    ensures ConvertSrtTagsToAss(SrtTag(k, true) + text + SrtTag(k, false))
            == AssTag(k, true) + text + AssTag(k, false)
  {
    hide ConvertSrtTagsToAss, SrtTag, AssTag;
    var run := Run(text, Empty);
    var f := Tagged(k, run, Empty);
    assert PlainRuns(run) && PlainRuns(Empty);
    SrtToAssTags(f);
    assert SrtText(run) == text + SrtText(Empty) == text;
    assert SrtText(f) == SrtTag(k, true) + (text + (SrtTag(k, false) + []))
                      == SrtTag(k, true) + text + SrtTag(k, false);
    assert Staged(run, 0) == text + Staged(Empty, 0) == text;
    assert Staged(f, 0) == AssTag(k, true) + (text + (AssTag(k, false) + []))
                        == AssTag(k, true) + text + AssTag(k, false);
  }

  lemma NoFontClose(s: string)
    requires '<' !in s
    ensures Replace(s, "</font>", "{\\c}") == s
  {
    ReplaceSkips(s, [], "</font>", "{\\c}");
    assert s + [] == s;
  }

  // ----- From ASS back to SRT -----

  lemma {:induction false} PassSkips(run: string, rest: string, k: Kind)
    requires '{' !in run
    ensures PairPass(run + rest, k) == run + PairPass(rest, k)
  {
    hide AssTag, SrtTag;
    TagShape(k, true);
    if run == [] {
      assert run + rest == rest;
    } else {
      var s := run + rest;
      assert s[0] == run[0] && s[1..] == run[1..] + rest;
      Mismatch(s, AssTag(k, true), 0);
      PassSkips(run[1..], rest, k);
    }
  }

  lemma TagStart(s: string, k: Kind, open: bool)
    ensures StartsWith(s, AssTag(k, open)) <==>
              && |s| >= 5 && s[0] == '{' && s[1] == '\\' && s[2] == Letter(k)
              && s[3] == (if open then '1' else '0') && s[4] == '}'
  {
  }

  lemma PassNoMatch(s: string, k: Kind)
    requires s != []
    requires !StartsWith(s, AssTag(k, true)) || !StartsWith(s[5 + FirstIndexOf(s[5..], '{')..], AssTag(k, false))
    ensures PairPass(s, k) == [s[0]] + PairPass(s[1..], k)
  {
    hide FirstIndexOf, StartsWith, SrtTag;
  }

  lemma PassMatch(s: string, k: Kind, n: nat)
    requires 10 + n <= |s| && StartsWith(s, AssTag(k, true))
    requires FirstIndexOf(s[5..], '{') == n && StartsWith(s[5 + n..], AssTag(k, false))
    ensures PairPass(s, k) == SrtTag(k, true) + s[5..5 + n] + SrtTag(k, false) + PairPass(s[10 + n..], k)
  {
    hide FirstIndexOf, StartsWith, SrtTag, AssTag;
  }

  lemma TagParts(k: Kind, open: bool, rest: string)
    ensures var s := AssTag(k, open) + rest;
            && s[5..] == rest && s[0] == '{' && |AssTag(k, open)| == 5
            && s[1..] == AssTag(k, open)[1..] + rest && '{' !in AssTag(k, open)[1..]
    ensures forall x: string :: ['{'] + (AssTag(k, open)[1..] + x) == AssTag(k, open) + x
  {
  }

  /** A tag that does not open a match is copied. */
  lemma PassCopiesTag(j: Kind, open: bool, rest: string, k: Kind)
    requires (j, open) != (k, true) ||
             !StartsWith(rest[FirstIndexOf(rest, '{')..], AssTag(k, false))
    ensures PairPass(AssTag(j, open) + rest, k) == AssTag(j, open) + PairPass(rest, k)
  {
    var s := AssTag(j, open) + rest;
    TagParts(j, open, rest);
    if (j, open) != (k, true) {
      Mismatch(s, AssTag(k, true), if j != k then 2 else 3);
    }
    hide FirstIndexOf, StartsWith, PairPass, AssTag;
    assert StartsWith(s, AssTag(k, true)) ==> s[5 + FirstIndexOf(s[5..], '{')..] == rest[FirstIndexOf(rest, '{')..];
    PassNoMatch(s, k);
    PassSkips(AssTag(j, open)[1..], rest, k);
  }

  lemma FirstIndexAfter(run: string, rest: string)
    requires '{' !in run && rest != [] && rest[0] == '{'
    ensures FirstIndexOf(run + rest, '{') == |run|
  {
    assert (run + rest)[..|run|] == run;
    FirstIndexUnique(run + rest, '{', |run|);
  }

  /** A pair around a run without `{` is converted. */
  lemma PassConverts(run: string, rest: string, k: Kind)
    requires '{' !in run
    ensures PairPass(AssTag(k, true) + (run + (AssTag(k, false) + rest)), k)
            == SrtTag(k, true) + (run + (SrtTag(k, false) + PairPass(rest, k)))
  {
    var tail := AssTag(k, false) + rest;
    var s := AssTag(k, true) + (run + tail);
    TagParts(k, true, run + tail);
    TagParts(k, false, rest);
    TagStart(s, k, true);
    TagStart(tail, k, false);
    FirstIndexAfter(run, tail);
    hide FirstIndexOf, StartsWith, AssTag, SrtTag, PairPass;
    var n := |run|;
    assert s[5 + n..] == tail;
    assert s[5..5 + n] == run && s[10 + n..] == tail[5..];
    PassMatch(s, k, n);
    Glue(SrtTag(k, true), run, SrtTag(k, false), PairPass(rest, k), []);
  }

  lemma Glue(a: string, x: string, b: string, y: string, z: string)
    ensures (a + (x + (b + y))) + z == a + (x + (b + (y + z)))
    ensures a + x + b + y == a + (x + (b + y)) == (a + (x + b)) + y
  {
  }

  lemma {:induction false} NestedGrows(f: Forest, m: nat, n: nat)
    requires m <= n && NestedBelow(f, m)
    ensures NestedBelow(f, n)
  {
    match f
    case Empty =>
    case Run(_, next) => NestedGrows(next, m, n);
    case Tagged(_, _, next) => NestedGrows(next, m, n);
  }

  /** Well nested text is completely back in SRT form at its stage. */
  lemma {:induction false} NestedIsSrt(f: Forest, n: nat)
    requires PlainRuns(f) && NestedBelow(f, n)
    ensures Staged(f, n) == SrtText(f) && '{' !in SrtText(f)
  {
    match f
    case Empty =>
    case Run(_, next) => NestedIsSrt(next, n);
    case Tagged(k, inner, next) =>
      NestedGrows(inner, Rank(k) - 1, n);
      NestedIsSrt(inner, n);
      NestedIsSrt(next, n);
  }

  /** Otherwise the first brace of the text opens an ASS tag. */
  lemma {:induction false} FirstBrace(f: Forest, n: nat) returns (p: string, j: Kind, z: string)
    requires PlainRuns(f) && !NestedBelow(f, n)
    ensures '{' !in p && Staged(f, n) == p + (AssTag(j, true) + z)
  {
    hide SrtTag, AssTag;
    match f
    case Run(text, next) =>
      p, j, z := FirstBrace(next, n);
      assert text + (p + (AssTag(j, true) + z)) == (text + p) + (AssTag(j, true) + z);
      p := text + p;
    case Tagged(k, inner, next) =>
      if Rank(k) <= n && NestedBelow(inner, Rank(k) - 1) {
        NestedGrows(inner, Rank(k) - 1, n);
        NestedIsSrt(inner, n);
        p, j, z := FirstBrace(next, n);
        var front := SrtTag(k, true) + (Staged(inner, n) + SrtTag(k, false));
        TagShape(k, true);
        TagShape(k, false);
        Glue(SrtTag(k, true), Staged(inner, n), SrtTag(k, false), Staged(next, n), []);
        assert Staged(f, n) == front + Staged(next, n) == (front + p) + (AssTag(j, true) + z);
        p := front + p;
      } else {
        p, j, z := [], k, Staged(inner, n) + (AssTag(k, false) + Staged(next, n));
        assert Staged(f, n) == p + (AssTag(j, true) + z);
      }
  }

  /** An open tag of the pass's kind whose inside is not yet clean does not match. */
  lemma UncleanDoesNotMatch(inner: Forest, n: nat, tail: string, k: Kind)
    requires PlainRuns(inner) && !NestedBelow(inner, n)
    ensures var rest := Staged(inner, n) + tail;
            !StartsWith(rest[FirstIndexOf(rest, '{')..], AssTag(k, false))
  {
    var p, j, z := FirstBrace(inner, n);
    var rest := Staged(inner, n) + tail;
    var here := AssTag(j, true) + (z + tail);
    assert rest == p + here;
    FirstIndexAfter(p, here);
    assert rest[|p|..] == here;
    TagStart(here, k, false);
  }

  lemma {:induction false} PassStages(f: Forest, k: Kind, rest: string)
    requires PlainRuns(f)
    ensures PairPass(Staged(f, Rank(k) - 1) + rest, k) == Staged(f, Rank(k)) + PairPass(rest, k)
  {
    hide PairPass, FirstIndexOf, AssTag, SrtTag, StartsWith, NestedBelow;
    var m, n := Rank(k) - 1, Rank(k);
    match f
    case Empty => assert Staged(f, m) + rest == rest;
    case Run(text, next) =>
      assert Staged(f, m) + rest == text + (Staged(next, m) + rest);
      PassSkips(text, Staged(next, m) + rest, k);
      PassStages(next, k, rest);
    case Tagged(j, inner, next) =>
      PassStages(next, k, rest);
      PassStages(inner, k, AssTag(j, false) + (Staged(next, m) + rest));
      PassTagged(j, inner, Staged(next, m), Staged(next, n), k, rest);
  }

  /** `Staged` of one tag, with the text after it given. */
  function StagedTag(j: Kind, inner: Forest, after: string, n: nat): string {
    if Rank(j) <= n && NestedBelow(inner, Rank(j) - 1)
    then SrtTag(j, true) + (Staged(inner, n) + (SrtTag(j, false) + after))
    else AssTag(j, true) + (Staged(inner, n) + (AssTag(j, false) + after))
  }

  lemma PassTagged(j: Kind, inner: Forest, after: string, after': string, k: Kind, rest: string)
    requires PlainRuns(inner)
    requires PairPass(after + rest, k) == after' + PairPass(rest, k)
    requires var close := AssTag(j, false) + (after + rest);
             PairPass(Staged(inner, Rank(k) - 1) + close, k) == Staged(inner, Rank(k)) + PairPass(close, k)
    ensures PairPass(StagedTag(j, inner, after, Rank(k) - 1) + rest, k)
            == StagedTag(j, inner, after', Rank(k)) + PairPass(rest, k)
  {
    hide PairPass, FirstIndexOf, AssTag, SrtTag, StartsWith, NestedBelow, Staged;
    var m, n := Rank(k) - 1, Rank(k);
    var x, x', p := Staged(inner, m), Staged(inner, n), PairPass(rest, k);
    Glue(AssTag(j, true), x, AssTag(j, false), after, rest);
    Glue(SrtTag(j, true), x, SrtTag(j, false), after, rest);
    Glue(AssTag(j, true), x', AssTag(j, false), after', p);
    Glue(SrtTag(j, true), x', SrtTag(j, false), after', p);
    if Rank(j) <= n && NestedBelow(inner, Rank(j) - 1) {
      AlreadyBack(j, inner, m, n);
      if Rank(j) <= m {
        TagShape(j, true);
        TagShape(j, false);
        var front := SrtTag(j, true) + (x + SrtTag(j, false));
        Glue(SrtTag(j, true), x, SrtTag(j, false), after + rest, []);
        Glue(SrtTag(j, true), x, SrtTag(j, false), after' + p, []);
        PassSkips(front, after + rest, k);
      } else {
        assert j == k;
        PassConverts(x, after + rest, k);
      }
    } else {
      var close := AssTag(j, false) + (after + rest);
      if j == k { UncleanDoesNotMatch(inner, m, close, k); }
      PassCopiesTag(j, true, x + close, k);
      PassCopiesTag(j, false, after + rest, k);
    }
  }

  lemma AlreadyBack(j: Kind, inner: Forest, m: nat, n: nat)
    requires PlainRuns(inner) && m <= n && Rank(j) <= m + 1 && NestedBelow(inner, Rank(j) - 1)
    ensures Staged(inner, m) == Staged(inner, n) == SrtText(inner) && '{' !in Staged(inner, m)
  {
    NestedGrows(inner, Rank(j) - 1, m);
    NestedIsSrt(inner, m);
    NestedGrows(inner, m, n);
    NestedIsSrt(inner, n);
  }

  /** The three ASS passes, on any structured text. */
  lemma AssPasses(f: Forest)
    requires PlainRuns(f)
    ensures ConvertAssTagsToSrt(Staged(f, 0)) == Staged(f, 3)
  {
    PassStages(f, Bold, []);
    PassStages(f, Italic, []);
    PassStages(f, Underline, []);
    assert forall n: nat :: Staged(f, n) + [] == Staged(f, n);
  }

  /** SRT to ASS and back is the identity exactly on text whose tags nest in pass
      order: bold inside italic inside underline, any level omitted, no tag inside
      its own kind or a lower one. */
  lemma NestedTagRoundTrip(f: Forest)
    requires PlainRuns(f)
    ensures ConvertAssTagsToSrt(ConvertSrtTagsToAss(SrtText(f))) == SrtText(f) <==> NestedBelow(f, 3)
  {
    SrtToAssTags(f);
    AssPasses(f);
    SrtHasNoBrace(f);
    if NestedBelow(f, 3) {
      NestedIsSrt(f, 3);
    } else {
      var p, j, z := FirstBrace(f, 3);
      assert Staged(f, 3)[|p|] == '{';
    }
  }

  lemma {:induction false} SrtHasNoBrace(f: Forest)
    requires PlainRuns(f)
    ensures '{' !in SrtText(f)
  {
    match f
    case Empty =>
    case Run(_, next) => SrtHasNoBrace(next);
    case Tagged(_, inner, next) => SrtHasNoBrace(inner); SrtHasNoBrace(next);
  }

  // ----- Stripping -----

  /** No opening brace has a closing brace after it. */
  ghost predicate Settled(s: string) {
    forall i, j | 0 <= i < j < |s| :: !(s[i] == '{' && s[j] == '}')
  }

  lemma {:induction false} StripSettles(s: string)
    ensures Settled(StripAssTags(s))
    ensures '}' !in s ==> '}' !in StripAssTags(s)
    decreases |s|
  {
    if s == [] {
    } else if s[0] == '{' && '}' in s {
      StripSettles(s[FirstIndexOf(s, '}') + 1..]);
    } else {
      StripSettles(s[1..]);
    }
  }

  lemma {:induction false} SettledIsFixed(s: string, k: Kind)
    requires Settled(s)
    ensures StripAssTags(s) == s && PairPass(s, k) == s
  {
    if s != [] {
      TagStart(s, k, true);
      SettledIsFixed(s[1..], k);
    }
  }

  /** Stripping leaves no `{` with a later `}`, changes a text exactly when it has
      such a pair, is idempotent, and leaves nothing for the tag conversion to do. */
  lemma StripReachesFixedPoint(s: string)
    ensures Settled(StripAssTags(s))
    ensures StripAssTags(s) == s <==> Settled(s)
    ensures StripAssTags(StripAssTags(s)) == StripAssTags(s)
    ensures ConvertAssTagsToSrt(StripAssTags(s)) == StripAssTags(s)
  {
    StripSettles(s);
    SettledIsFixed(StripAssTags(s), Bold);
    SettledIsFixed(StripAssTags(s), Italic);
    SettledIsFixed(StripAssTags(s), Underline);
    if Settled(s) { SettledIsFixed(s, Bold); }
  }

  // ----- Whole subtitles -----

  datatype Styles = Styles(bold: bool, italic: bool, underline: bool)

  datatype Entry = Entry(text: string, styling: Option<Styles>)

  predicate Contains(s: string, p: string) {
    StartsWith(s, p) || (s != [] && Contains(s[1..], p))
  }

  function ExtractSrtStyling(s: string): Styles {
    Styles(Contains(s, "<b>") || Contains(s, "<B>"),
           Contains(s, "<i>") || Contains(s, "<I>"),
           Contains(s, "<u>") || Contains(s, "<U>"))
  }

  function SrtToAssEntry(e: Entry, preserve: bool): Entry {
    Entry(ConvertSrtTagsToAss(e.text), if preserve then Some(ExtractSrtStyling(e.text)) else e.styling)
  }

  function AssToSrtEntry(e: Entry, preserve: bool): Entry {
    var text := StripAssTags(e.text);
    Entry(if preserve then ConvertAssTagsToSrt(text) else text, None)
  }

  ghost predicate Occurs(s: string, p: string) {
    exists before, after :: s == before + p + after
  }

  lemma OccursStep(s: string, p: string)
    requires s != []
    ensures Occurs(s, p) <==> StartsWith(s, p) || Occurs(s[1..], p)
  {
    if StartsWith(s, p) { assert s == [] + p + s[|p|..]; }
    if Occurs(s[1..], p) {
      var before, after :| s[1..] == before + p + after;
      assert s == ([s[0]] + before) + p + after;
    }
    if Occurs(s, p) {
      var before, after :| s == before + p + after;
      if before == [] {
        assert s == p + after;
      } else {
        assert s[1..] == before[1..] + p + after;
      }
    }
  }

  lemma {:induction false} ContainsExactly(s: string, p: string)
    ensures Contains(s, p) <==> Occurs(s, p)
  {
    if s != [] {
      hide Occurs, StartsWith;
      OccursStep(s, p);
      ContainsExactly(s[1..], p);
    } else if p == [] {
      assert s == [] + p + [];
    }
  }

  /** The styling read from any text: each style is set exactly when its tag, in
      either case, occurs. */
  lemma StylingExactly(s: string)
    ensures ExtractSrtStyling(s).bold <==> Occurs(s, "<b>") || Occurs(s, "<B>")
    ensures ExtractSrtStyling(s).italic <==> Occurs(s, "<i>") || Occurs(s, "<I>")
    ensures ExtractSrtStyling(s).underline <==> Occurs(s, "<u>") || Occurs(s, "<U>")
  {
    hide Contains, Occurs;
    ContainsExactly(s, "<b>");
    ContainsExactly(s, "<B>");
    ContainsExactly(s, "<i>");
    ContainsExactly(s, "<I>");
    ContainsExactly(s, "<u>");
    ContainsExactly(s, "<U>");
  }

  predicate HasTag(f: Forest, k: Kind) {
    match f
    case Empty => false
    case Run(_, next) => HasTag(next, k)
    case Tagged(j, inner, next) => j == k || HasTag(inner, k) || HasTag(next, k)
  }

  lemma {:induction false} ContainsAfterRun(run: string, rest: string, p: string)
    requires p != [] && p[0] !in run
    ensures Contains(run + rest, p) == Contains(rest, p)
  {
    if run == [] {
      assert run + rest == rest;
    } else {
      var s := run + rest;
      assert s[0] == run[0] && s[1..] == run[1..] + rest;
      Mismatch(s, p, 0);
      ContainsAfterRun(run[1..], rest, p);
    }
  }

  /** A tag is found where it stands, and no other tag is taken for it. */
  lemma ContainsAfterTag(k: Kind, open: bool, rest: string, c: char)
    ensures Contains(SrtTag(k, open) + rest, ['<', c, '>'])
            <==> (open && Letter(k) == c) || Contains(rest, ['<', c, '>'])
  {
    var tag, p := SrtTag(k, open), ['<', c, '>'];
    var s := tag + rest;
    assert s[1..] == tag[1..] + rest && '<' !in tag[1..];
    if open && Letter(k) == c {
      assert s[..3] == p;
    } else {
      Mismatch(s, p, if open || c != '/' then 1 else 2);
      ContainsAfterRun(tag[1..], rest, p);
    }
  }

  lemma {:induction false} ContainsTag(f: Forest, c: char, rest: string)
    requires PlainRuns(f)
    ensures Contains(SrtText(f) + rest, ['<', c, '>'])
            <==> (exists k :: Letter(k) == c && HasTag(f, k)) || Contains(rest, ['<', c, '>'])
  {
    hide Contains, SrtTag;
    match f
    case Empty => assert SrtText(f) + rest == rest;
    case Run(text, next) =>
      assert SrtText(f) + rest == text + (SrtText(next) + rest);
      ContainsAfterRun(text, SrtText(next) + rest, ['<', c, '>']);
      ContainsTag(next, c, rest);
    case Tagged(k, inner, next) =>
      var tail := SrtTag(k, false) + (SrtText(next) + rest);
      Glue(SrtTag(k, true), SrtText(inner), SrtTag(k, false), SrtText(next), rest);
      ContainsAfterTag(k, true, SrtText(inner) + tail, c);
      ContainsTag(inner, c, tail);
      ContainsAfterTag(k, false, SrtText(next) + rest, c);
      ContainsTag(next, c, rest);
  }

  lemma FindsTag(f: Forest, c: char, k: Kind)
    requires PlainRuns(f)
    ensures Letter(k) == c ==> Contains(SrtText(f), ['<', c, '>']) == HasTag(f, k)
    ensures (forall j :: Letter(j) != c) ==> !Contains(SrtText(f), ['<', c, '>'])
  {
    hide SrtText, HasTag;
    assert SrtText(f) + [] == SrtText(f);
    ContainsTag(f, c, []);
  }

  /** An entry converted with preserved styling carries exactly the styles of the
      tags in its text, whatever it carried before; otherwise its styling is kept. */
  lemma PreservedStyling(f: Forest, styling: Option<Styles>)
    requires PlainRuns(f)
    ensures SrtToAssEntry(Entry(SrtText(f), styling), true).styling
            == Some(Styles(HasTag(f, Bold), HasTag(f, Italic), HasTag(f, Underline)))
    ensures SrtToAssEntry(Entry(SrtText(f), styling), false).styling == styling
  {
    FindsTag(f, 'b', Bold);
    FindsTag(f, 'B', Bold);
    FindsTag(f, 'i', Italic);
    FindsTag(f, 'I', Italic);
    FindsTag(f, 'u', Underline);
    FindsTag(f, 'U', Underline);
    hide SrtText, HasTag, ConvertSrtTagsToAss, Contains;
  }

  lemma {:induction false} ReplaceAbsent(s: string, p: string, rep: string)
    requires p != [] && !Contains(s, p)
    ensures Replace(s, p, rep) == s
  {
    if s != [] { ReplaceAbsent(s[1..], p, rep); }
  }

  lemma {:induction false} TrimHashesExactly(hashes: string, colour: string)
    requires forall i | 0 <= i < |hashes| :: hashes[i] == '#'
    requires colour == [] || colour[0] != '#'
    ensures TrimHashes(hashes + colour) == colour
  {
    if hashes == [] {
      assert hashes + colour == colour;
    } else {
      assert (hashes + colour)[1..] == hashes[1..] + colour;
      TrimHashesExactly(hashes[1..], colour);
    }
  }

  /** Text whose only `<` are at the front and before `b` holds no tag that neither follows. */
  lemma AbsentBetween(a: string, b: string, p: string)
    requires |p| > 1 && p[0] == '<' && '<' !in p[1..] && '<' !in a && '<' !in b
    requires !StartsWith(a, p[1..]) && !StartsWith(b, p[1..])
    ensures !Contains(['<'] + (a + (['<'] + b)), p)
  {
    var tail := ['<'] + b;
    assert tail[1..] == b && b + [] == b;
    ContainsAfterRun(b, [], p);
    assert !Contains(tail, p);
    ContainsAfterRun(a, tail, p);
    var s := ['<'] + (a + tail);
    assert s[1..] == a + tail;
    RunEndsTag(a, tail, p[1..]);
    if |p| <= |s| { assert s[1..][..|p| - 1] == s[..|p|][1..]; }
  }

  lemma RunEndsTag(a: string, tail: string, q: string)
    requires tail != [] && tail[0] == '<' && '<' !in q && !StartsWith(a, q)
    ensures !StartsWith(a + tail, q)
  {
    if |a| < |q| {
      Mismatch(a + tail, q, |a|);
    } else {
      assert (a + tail)[..|q|] == a[..|q|];
    }
  }

  lemma AbsentInFont(a: string, b: string, k: Kind, open: bool)
    requires StartsWith(a, "font") && StartsWith(b, "/font") && '<' !in a && '<' !in b
    ensures Replace(['<'] + (a + (['<'] + b)), SrtTag(k, open), AssTag(k, open)) == ['<'] + (a + (['<'] + b))
  {
    var p := SrtTag(k, open);
    assert a[0] == 'f' && b[0] == '/' && b[1] == 'f';
    assert p[1] != 'f' && p[2] != 'f';
    hide SrtTag;
    AbsentBetween(a, b, p);
    ReplaceAbsent(['<'] + (a + (['<'] + b)), p, AssTag(k, open));
  }

  /** A font tag around text without tags becomes a colour override, with the
      hashes in front of the colour removed, and its closing tag resets the colour. */
  lemma FontBecomesColour(hashes: string, colour: string, text: string)
    requires forall i | 0 <= i < |hashes| :: hashes[i] == '#'
    requires colour == [] || colour[0] != '#'
    requires hashes + colour != [] && '"' !in colour && '<' !in colour && '<' !in text
    ensures ConvertSrtTagsToAss("<font color=\"" + (hashes + colour) + "\">" + text + "</font>")
            == "{\\c&H" + colour + "&}" + text + "{\\c}"
  {
    var c := hashes + colour;
    FontUntouched(c, text);
    FontReplaced(c, text);
    TrimHashesExactly(hashes, colour);
    FontCloseReplaced("{\\c&H" + colour + "&}", text);
    hide ReplaceFontOpen, Replace, ReplacePair, TrimHashes;
  }

  lemma FontCloseReplaced(colour: string, text: string)
    requires '<' !in colour && '<' !in text
    ensures Replace(colour + (text + "</font>"), "</font>", "{\\c}") == colour + text + "{\\c}"
  {
    var front := colour + text;
    assert front + "</font>" == colour + (text + "</font>");
    ReplaceSkips(front, "</font>", "</font>", "{\\c}");
    assert "</font>"[7..] == [];
  }

  lemma FontUntouched(c: string, text: string)
    requires '<' !in c && '<' !in text
    ensures var s := "<font color=\"" + c + "\">" + text + "</font>";
            ReplacePair(ReplacePair(ReplacePair(s, Bold), Italic), Underline) == s
  {
    var a, b := "font color=\"" + c + "\">" + text, "/font>";
    assert "<font color=\"" + c + "\">" + text + "</font>" == ['<'] + (a + (['<'] + b));
    assert a[..4] == "font";
    AbsentInFont(a, b, Bold, true);
    AbsentInFont(a, b, Bold, false);
    AbsentInFont(a, b, Italic, true);
    AbsentInFont(a, b, Italic, false);
    AbsentInFont(a, b, Underline, true);
    AbsentInFont(a, b, Underline, false);
    hide Replace, SrtTag, AssTag, StartsWith;
  }

  lemma FontReplaced(c: string, text: string)
    requires c != [] && '"' !in c && '<' !in text
    ensures ReplaceFontOpen("<font color=\"" + c + "\">" + text + "</font>")
            == "{\\c&H" + TrimHashes(c) + "&}" + (text + "</font>")
  {
    hide TrimHashes, FirstIndexOf, StartsWith, ReplaceFontOpen;
    var tail := text + "</font>";
    var s := FONT_OPEN + (c + ("\">" + tail));
    FontSplit(c, tail);
    FontCloseKept(text);
    FontMatch(s, |c|);
    Regroup(FONT_OPEN, c, "\">", text, "</font>");
  }

  lemma Regroup(a: string, b: string, c: string, d: string, e: string)
    ensures a + (b + (c + (d + e))) == a + b + c + d + e
  {
  }

  lemma FontMatch(s: string, q: nat)
    requires StartsWith(s, FONT_OPEN) && q > 0 && |FONT_OPEN| + q + 2 <= |s|
    requires FirstIndexOf(s[|FONT_OPEN|..], '"') == q && StartsWith(s[|FONT_OPEN| + q..], "\">")
    ensures ReplaceFontOpen(s)
            == "{\\c&H" + TrimHashes(s[|FONT_OPEN|..|FONT_OPEN| + q]) + "&}"
               + ReplaceFontOpen(s[|FONT_OPEN| + q + 2..])
  {
    hide TrimHashes, FirstIndexOf, StartsWith;
  }

  /** What the pattern of the font tag captures, and what follows the match. */
  lemma FontSplit(c: string, tail: string)
    requires c != [] && '"' !in c
    ensures var s := FONT_OPEN + (c + ("\">" + tail));
            && StartsWith(s, FONT_OPEN) && |FONT_OPEN| + |c| + 2 <= |s| && FirstIndexOf(s[|FONT_OPEN|..], '"') == |c|
            && StartsWith(s[|FONT_OPEN| + |c|..], "\">") && s[|FONT_OPEN|..|FONT_OPEN| + |c|] == c
            && s[|FONT_OPEN| + |c| + 2..] == tail
  {
    var rest := "\">" + tail;
    var s := FONT_OPEN + (c + rest);
    var n := |FONT_OPEN|;
    assert s[..n] == FONT_OPEN && s[n..] == c + rest;
    assert s[n + |c|..] == rest && s[n..n + |c|] == c;
    assert rest[..2] == "\">" && rest[2..] == tail;
    assert (c + rest)[..|c|] == c && rest[0] == '"';
    FirstIndexUnique(c + rest, '"', |c|);
  }

  lemma {:induction false} FontCloseKept(text: string)
    requires '<' !in text
    ensures ReplaceFontOpen(text + "</font>") == text + "</font>"
  {
    var s := text + "</font>";
    Mismatch(s, FONT_OPEN, if text == [] then 1 else 0);
    if text == [] {
      assert s[1..] == "/font>";
      NoFont(s[1..]);
    } else {
      assert s[1..] == text[1..] + "</font>";
      FontCloseKept(text[1..]);
    }
  }

  method SrtToAss(entries: array<Entry>, preserve: bool)
    modifies entries
    ensures forall i | 0 <= i < entries.Length :: entries[i] == SrtToAssEntry(old(entries[i]), preserve)
  {
    hide ConvertSrtTagsToAss, ExtractSrtStyling;
    for i := 0 to entries.Length
      invariant forall j | 0 <= j < i :: entries[j] == SrtToAssEntry(old(entries[j]), preserve)
      invariant forall j | i <= j < entries.Length :: entries[j] == old(entries[j])
    {
      var e := entries[i];
      if preserve {
        e := e.(styling := Some(ExtractSrtStyling(e.text)));
      }
      entries[i] := e.(text := ConvertSrtTagsToAss(e.text));
    }
  }

  /** The result does not depend on the preserve flag. */
  method AssToSrt(entries: array<Entry>, preserve: bool)
    modifies entries
    ensures forall i | 0 <= i < entries.Length :: entries[i] == Entry(StripAssTags(old(entries[i]).text), None)
  {
    hide ConvertAssTagsToSrt, StripAssTags;
    for i := 0 to entries.Length
      invariant forall j | 0 <= j < i :: entries[j] == Entry(StripAssTags(old(entries[j]).text), None)
      invariant forall j | i <= j < entries.Length :: entries[j] == old(entries[j])
    {
      var text := StripAssTags(entries[i].text);
      if preserve {
        StripReachesFixedPoint(entries[i].text);
        text := ConvertAssTagsToSrt(text);
      }
      entries[i] := Entry(text, None);
    }
  }

  lemma {:induction false} StripSkips(run: string, rest: string)
    requires '{' !in run
    ensures StripAssTags(run + rest) == run + StripAssTags(rest)
  {
    if run == [] {
      assert run + rest == rest;
    } else {
      var s := run + rest;
      assert s[0] == run[0] && s[1..] == run[1..] + rest;
      StripSkips(run[1..], rest);
    }
  }

  lemma StripTag(k: Kind, open: bool, rest: string)
    ensures StripAssTags(AssTag(k, open) + rest) == StripAssTags(rest)
  {
    var s := AssTag(k, open) + rest;
    assert s[4] == '}' && s[0] == '{' && s[5..] == rest;
    assert s[..4] == AssTag(k, open)[..4];
    FirstIndexUnique(s, '}', 4);
  }

  lemma {:induction false} StripStaged(f: Forest, rest: string)
    requires PlainRuns(f)
    ensures StripAssTags(Staged(f, 0) + rest) == PlainText(f) + StripAssTags(rest)
  {
    hide StripAssTags, AssTag, SrtTag, NestedBelow;
    match f
    case Empty => assert Staged(f, 0) + rest == rest;
    case Run(text, next) =>
      assert Staged(f, 0) + rest == text + (Staged(next, 0) + rest);
      StripSkips(text, Staged(next, 0) + rest);
      StripStaged(next, rest);
    case Tagged(k, inner, next) =>
      var tail := AssTag(k, false) + (Staged(next, 0) + rest);
      assert Staged(f, 0) == AssTag(k, true) + (Staged(inner, 0) + (AssTag(k, false) + Staged(next, 0)));
      Glue(AssTag(k, true), Staged(inner, 0), AssTag(k, false), Staged(next, 0), rest);
      hide Staged;
      StripTag(k, true, Staged(inner, 0) + tail);
      StripStaged(inner, tail);
      StripTag(k, false, Staged(next, 0) + rest);
      StripStaged(next, rest);
  }

  /** Converting whole subtitles to ASS and back keeps the words and drops every
      tag, whether or not styling is to be preserved. */
  lemma TransformDropsTags(f: Forest, styling: Option<Styles>, toAss: bool, toSrt: bool)
    requires PlainRuns(f)
    ensures AssToSrtEntry(SrtToAssEntry(Entry(SrtText(f), styling), toAss), toSrt) == Entry(PlainText(f), None)
  {
    SrtToAssTags(f);
    StripStaged(f, []);
    assert Staged(f, 0) + [] == Staged(f, 0) && PlainText(f) + [] == PlainText(f);
    StripReachesFixedPoint(Staged(f, 0));
  }
}
