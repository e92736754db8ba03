/** Line-ending normalisation and the raw block scanner, which must agree with
    "normalise, then split on blank lines". Characters stand for the bytes the
    scanner reads; carriage return and line feed are single bytes. */
module LineEndings {
  import opened Strings

  // ----- The simple form -----

  function NormalizeLineEndings(content: string): string {
    if '\r' !in content then content
    else Replace(Replace(content, "\r\n", "\n"), "\r", "\n")
  }

  /** Splitting on `\n\n`: leftmost, non-overlapping, with the current piece in `acc`. */
  function SplitFrom(acc: string, s: string): (r: seq<string>)
    ensures r != []
    decreases |s|
  {
    if s == [] then [acc]
    else if StartsWith(s, "\n\n") then [acc] + SplitFrom([], s[2..])
    else SplitFrom(acc + [s[0]], s[1..])
  }

  function SplitBlankLines(s: string): seq<string> {
    SplitFrom([], s)
  }

  // ----- The scanner -----

  /** Length of the line terminator at `i`, or 0. */
  function TermLenAt(s: string, i: nat): (t: nat)
    requires i < |s|
    ensures t <= 2 && i + t <= |s|
    ensures t == 0 <==> s[i] != '\r' && s[i] != '\n'
  {
    if s[i] == '\r' then (if i + 1 < |s| && s[i + 1] == '\n' then 2 else 1)
    else if s[i] == '\n' then 1 else 0
  }

  function SecondTerm(s: string, i: nat): (u: nat)
    requires i <= |s|
    ensures i + u <= |s|
  {
    if i < |s| then TermLenAt(s, i) else 0
  }

  /** From `i` on, the end of the current block and the start of the next one, at
      the first pair of adjacent terminators. */
  function Scan(s: string, i: nat): (r: Option<(nat, nat)>)
    requires i <= |s|
    ensures r.Some? ==> i <= r.value.0 < r.value.1 <= |s|
    decreases |s| - i
  {
    if i == |s| then None
    else
      var t := TermLenAt(s, i);
      if t == 0 then Scan(s, i + 1)
      else
        var u := SecondTerm(s, i + t);
        if u > 0 then Some((i, i + t + u)) else Scan(s, i + t)
  }

  /** The half-open ranges of the blocks from `start` on. */
  function Ranges(s: string, start: nat): (r: seq<(nat, nat)>)
    requires start <= |s|
    ensures r != [] && forall k | 0 <= k < |r| :: start <= r[k].0 <= r[k].1 <= |s|
    decreases |s| - start
  {
    match Scan(s, start)
    case None => [(start, |s|)]
    case Some((end, next)) => [(start, end)] + Ranges(s, next)
  }

  function Slices(s: string, ranges: seq<(nat, nat)>): (r: seq<string>)
    requires forall k | 0 <= k < |ranges| :: 0 <= ranges[k].0 <= ranges[k].1 <= |s|
    ensures |r| == |ranges|
  {
    seq(|ranges|, k requires 0 <= k < |ranges| => s[ranges[k].0..ranges[k].1])
  }

  function RawBlocksOf(s: string): seq<string> {
    Slices(s, Ranges(s, 0))
  }

  /** The iterator: source, position, and whether the trailing block was emitted. */
  class RawBlocks {
    const src: string
    var pos: nat
    var done: bool

    constructor (content: string)
      ensures src == content && pos == 0 && !done
    {
      src, pos, done := content, 0, false;
    }

    ghost predicate Valid()
      reads this
    {
      pos <= |src|
    }

    /** The blocks still to come. */
    ghost function Remaining(): seq<string>
      requires Valid()
      reads this
    {
      if done then [] else Slices(src, Ranges(src, pos))
    }

    /** The scanning loop of `next`. */
    static method FindSeparator(s: string, start: nat) returns (cut: Option<(nat, nat)>)
      requires start <= |s|
      ensures cut == Scan(s, start)
    {
      var i := start;
      while i < |s|
        invariant start <= i <= |s|
        invariant Scan(s, start) == Scan(s, i)
      {
        var first := TermLenAt(s, i);
        if first == 0 {
          i := i + 1;
          continue;
        }
        var after := i + first;
        var second := 0;
        if after < |s| {
          second := TermLenAt(s, after);
        }
        if second > 0 {
          return Some((i, after + second));
        }
        i := after;
      }
      return None;
    }

    method Next() returns (block: Option<string>)
      requires Valid()
      modifies this
      ensures Valid()
      ensures block.None? <==> old(Remaining()) == []
      ensures block.None? ==> Remaining() == [] && done == old(done)
      ensures block.Some? ==> old(Remaining()) == [block.value] + Remaining()
      ensures !old(done) ==> if done then pos == old(pos) else pos > old(pos)
    {
      if done {
        return None;
      }
      hide Slices, Ranges, Scan;
      FirstSlice(src, pos);
      var start := pos;
      var cut := FindSeparator(src, start);
      if cut.Some? {
        pos := cut.value.1;
        return Some(src[start..cut.value.0]);
      }
      done := true;
      block := Some(src[start..]);
    }
  }

  lemma FirstSlice(s: string, start: nat)
    requires start <= |s|
    ensures Scan(s, start).None? ==> Slices(s, Ranges(s, start)) == [s[start..]]
    ensures Scan(s, start).Some? ==>
              var cut := Scan(s, start).value;
              Slices(s, Ranges(s, start)) == [s[start..cut.0]] + Slices(s, Ranges(s, cut.1))
  {
    hide Scan, Slices;
    assert s[start..|s|] == s[start..];
    if Scan(s, start).Some? {
      var cut := Scan(s, start).value;
      SlicesCons(s, (start, cut.0), Ranges(s, cut.1));
    } else {
      SlicesCons(s, (start, |s|), []);
      assert [(start, |s|)] + [] == Ranges(s, start);
    }
  }

  lemma SlicesCons(s: string, head: (nat, nat), tail: seq<(nat, nat)>)
    requires head.0 <= head.1 <= |s|
    requires forall k | 0 <= k < |tail| :: 0 <= tail[k].0 <= tail[k].1 <= |s|
    ensures Slices(s, [head] + tail) == [s[head.0..head.1]] + Slices(s, tail)
    ensures Slices(s, []) == []
  {
  }

  method CollectRawBlocks(content: string) returns (blocks: seq<string>)
    ensures blocks == RawBlocksOf(content)
  {
    hide Slices, Ranges, Scan;
    var it := new RawBlocks(content);
    blocks := [];
    while true
      invariant it.Valid() && it.src == content
      invariant blocks + it.Remaining() == RawBlocksOf(content)
      invariant fresh(it)
      decreases if it.done then 0 else 1, |content| - it.pos
    {
      var b := it.Next();
      if b.None? {
        break;
      }
      blocks := blocks + [b.value];
    }
  }

  // ----- One-pass normalisation -----

  /** Every CRLF, and every other CR, becomes a single LF. */
  function Collapse(s: string): (r: string)
    ensures |r| <= |s|
  {
    if s == [] then []
    else if s[0] == '\r' then ['\n'] + Collapse(s[TermLenAt(s, 0)..])
    else [s[0]] + Collapse(s[1..])
  }

  lemma {:induction false} NormalizeIsCollapse(s: string)
    ensures NormalizeLineEndings(s) == Collapse(s)
  {
    if '\r' in s { TwoPasses(s); } else { CollapseWithoutCr(s); }
  }

  lemma {:induction false} CollapseWithoutCr(s: string)
    requires '\r' !in s
    ensures Collapse(s) == s
  {
    if s != [] {
      CollapseWithoutCr(s[1..]);
    }
  }

  lemma {:induction false} TwoPasses(s: string)
    ensures Replace(Replace(s, "\r\n", "\n"), "\r", "\n") == Collapse(s)
  {
    if s != [] {
      assert StartsWith(s, "\r\n") <==> |s| > 1 && s[0] == '\r' && s[1] == '\n';
      if StartsWith(s, "\r\n") {
        TwoPasses(s[2..]);
        ReplaceCons('\n', Replace(s[2..], "\r\n", "\n"));
        assert "\n" + Replace(s[2..], "\r\n", "\n") == ['\n'] + Replace(s[2..], "\r\n", "\n");
      } else {
        TwoPasses(s[1..]);
        ReplaceCons(s[0], Replace(s[1..], "\r\n", "\n"));
      }
    }
  }

  lemma ReplaceCons(c: char, rest: string)
    ensures Replace([c] + rest, "\r", "\n") == [if c == '\r' then '\n' else c] + Replace(rest, "\r", "\n")
  {
  }

  /** Width of the first character or terminator, as normalisation consumes it. */
  function Width(s: string): (t: nat)
    requires s != []
    ensures 1 <= t <= |s|
  {
    if s[0] == '\r' then TermLenAt(s, 0) else 1
  }

  lemma CollapseHead(s: string)
    requires s != []
    ensures Collapse(s) == [if s[0] == '\r' then '\n' else s[0]] + Collapse(s[Width(s)..])
  {
  }

  lemma WidthOfConcat(a: string, b: string)
    requires a != [] && !(b != [] && a[|a| - 1] == '\r' && b[0] == '\n')
    ensures Width(a + b) == Width(a) && (a + b)[Width(a)..] == a[Width(a)..] + b
  {
  }

  lemma Reassociate(x: string, y: string, z: string)
    ensures x + (y + z) == (x + y) + z
  {
  }

  /** Normalising is compositional at every point that is not inside a CRLF. */
  lemma {:induction false} CollapseConcat(a: string, b: string)
    requires !(a != [] && b != [] && a[|a| - 1] == '\r' && b[0] == '\n')
    ensures Collapse(a + b) == Collapse(a) + Collapse(b)
  {
    hide Collapse, Width;
    if a == [] {
      assert a + b == b && Collapse(a) == [] by { CollapseEmpty(); }
    } else {
      var rest, head := a[Width(a)..], [if a[0] == '\r' then '\n' else a[0]];
      WidthOfConcat(a, b);
      CollapseHead(a);
      CollapseHead(a + b);
      assert rest != [] ==> rest[|rest| - 1] == a[|a| - 1];
      CollapseConcat(rest, b);
      Reassociate(head, Collapse(rest), Collapse(b));
    }
  }

  lemma CollapseEmpty()
    ensures Collapse([]) == []
  {
  }

  // ----- The refinement -----

  predicate InsideCrLf(s: string, x: nat) {
    0 < x < |s| && s[x - 1] == '\r' && s[x] == '\n'
  }

  /** What splitting yields from a block open at `start` whose scan ends in `cut`. */
  function Pieces(s: string, start: nat, cut: Option<(nat, nat)>): seq<string>
    requires start <= |s| && (cut.Some? ==> start <= cut.value.0 && cut.value.0 < cut.value.1 <= |s|)
  {
    if cut.None? then [Collapse(s[start..])]
    else [Collapse(s[start..cut.value.0])] + SplitFrom([], Collapse(s[cut.value.1..]))
  }

  /** What splitting the normalised text yields when it has read up to `i` and its
      open piece began at `start`. */
  function SplitState(s: string, start: nat, i: nat): seq<string>
    requires start <= i <= |s|
  {
    SplitFrom(Collapse(s[start..i]), Collapse(s[i..]))
  }

  /** While the scanner is at `i` with its block open at `start`, splitting the
      normalised text is in the corresponding state. */
  lemma {:induction false} ScanRefinesSplit(s: string, start: nat, i: nat)
    requires start <= i <= |s| && !InsideCrLf(s, i)
    ensures SplitState(s, start, i) == Pieces(s, start, Scan(s, i))
    decreases |s| - i
  {
    hide *;
    ScanStep(s, i);
    if i == |s| {
      PiecesAtEnd(s, start);
    } else {
      var t := TermLenAt(s, i);
      if t > 0 && SecondTerm(s, i + t) > 0 {
        PiecesAtSeparator(s, start, i);
      } else {
        var step := if t == 0 then 1 else t;
        NoSeparator(s, start, i, step);
        ScanRefinesSplit(s, start, i + step);
      }
    }
  }

  /** A scan that starts outside a CRLF cuts outside of every CRLF. */
  lemma {:induction false} ScanCutsOutside(s: string, i: nat)
    requires i <= |s| && !InsideCrLf(s, i)
    ensures Scan(s, i).Some? ==> !InsideCrLf(s, Scan(s, i).value.0) && !InsideCrLf(s, Scan(s, i).value.1)
    decreases |s| - i
  {
    if i < |s| {
      var t := TermLenAt(s, i);
      if t == 0 {
        ScanCutsOutside(s, i + 1);
      } else if SecondTerm(s, i + t) == 0 {
        ScanCutsOutside(s, i + t);
      }
    }
  }

  lemma PiecesAtEnd(s: string, start: nat)
    requires start <= |s|
    ensures SplitState(s, start, |s|) == Pieces(s, start, None)
  {
    assert s[start..|s|] == s[start..];
    CollapseEmpty();
    SplitEnd(Collapse(s[start..]));
  }

  lemma PiecesAtSeparator(s: string, start: nat, i: nat)
    requires start <= i < |s| && TermLenAt(s, i) > 0 && SecondTerm(s, i + TermLenAt(s, i)) > 0
    ensures var n := i + TermLenAt(s, i) + SecondTerm(s, i + TermLenAt(s, i));
            SplitState(s, start, i) == Pieces(s, start, Some((i, n)))
  {
    hide Collapse, SplitFrom, TermLenAt, SecondTerm;
    Separator(s, Collapse(s[start..i]), i);
  }

  /** One turn of the scanning loop. */
  lemma ScanStep(s: string, i: nat)
    requires i <= |s|
    ensures i == |s| ==> Scan(s, i).None?
    ensures i < |s| ==>
              var t := TermLenAt(s, i);
              if t == 0 then Scan(s, i) == Scan(s, i + 1)
              else if SecondTerm(s, i + t) > 0 then Scan(s, i) == Some((i, i + t + SecondTerm(s, i + t)))
              else Scan(s, i) == Scan(s, i + t)
  {
  }

  lemma SplitEnd(acc: string)
    ensures SplitFrom(acc, []) == [acc]
  {
  }

  lemma Separator(s: string, acc: string, i: nat)
    requires i < |s| && TermLenAt(s, i) > 0 && SecondTerm(s, i + TermLenAt(s, i)) > 0
    ensures var n := i + TermLenAt(s, i) + SecondTerm(s, i + TermLenAt(s, i));
            SplitFrom(acc, Collapse(s[i..])) == [acc] + SplitFrom([], Collapse(s[n..]))
  {
    hide Collapse, StartsWith, TermLenAt, SecondTerm;
    TwoTerminators(s, i);
  }

  lemma TwoFeeds(x: string)
    ensures StartsWith(x, "\n\n") <==> |x| >= 2 && x[0] == '\n' && x[1] == '\n'
  {
  }

  /** Between separators the split only extends its open piece. */
  lemma NoSeparator(s: string, start: nat, i: nat, t: nat)
    requires start <= i < |s| && !InsideCrLf(s, i)
    requires t == if TermLenAt(s, i) == 0 then 1 else TermLenAt(s, i)
    requires TermLenAt(s, i) == 0 || SecondTerm(s, i + t) == 0
    ensures SplitState(s, start, i) == SplitState(s, start, i + t)
    ensures !InsideCrLf(s, i + t)
  {
    hide Collapse, SplitFrom, TermLenAt, SecondTerm;
    Advance(s, start, i, t);
    if TermLenAt(s, i) > 0 { OneTerminator(s, i); }
    SplitStep(Collapse(s[start..i]), if TermLenAt(s, i) == 0 then s[i] else '\n', Collapse(s[i + t..]));
  }

  lemma SplitStep(acc: string, c: char, rest: string)
    requires c != '\n' || rest == [] || rest[0] != '\n'
    ensures SplitFrom(acc, [c] + rest) == SplitFrom(acc + [c], rest)
  {
    TwoFeeds([c] + rest);
    assert ([c] + rest)[1..] == rest;
  }

  /** Moving one plain character or one whole terminator from the text to the
      open piece. */
  lemma Advance(s: string, start: nat, i: nat, t: nat)
    requires start <= i < |s| && !InsideCrLf(s, i)
    requires t == if TermLenAt(s, i) == 0 then 1 else TermLenAt(s, i)
    ensures var c := if TermLenAt(s, i) == 0 then s[i] else '\n';
            && Collapse(s[start..i + t]) == Collapse(s[start..i]) + [c]
            && Collapse(s[i..]) == [c] + Collapse(s[i + t..])
  {
    hide Collapse, TermLenAt;
    Front(s, i);
    var piece := s[i..i + t];
    assert s[start..i + t] == s[start..i] + piece;
    assert piece[0] == s[i];
    PieceCollapses(s, i, t);
    CollapseConcat(s[start..i], piece);
  }

  lemma PieceCollapses(s: string, i: nat, t: nat)
    requires i < |s| && t == if TermLenAt(s, i) == 0 then 1 else TermLenAt(s, i)
    ensures Collapse(s[i..i + t]) == [if TermLenAt(s, i) == 0 then s[i] else '\n']
  {
  }

  lemma TwoTerminators(s: string, i: nat)
    requires i < |s| && TermLenAt(s, i) > 0 && SecondTerm(s, i + TermLenAt(s, i)) > 0
    ensures var n := i + TermLenAt(s, i) + SecondTerm(s, i + TermLenAt(s, i));
            && Collapse(s[i..]) == "\n\n" + Collapse(s[n..])
            && StartsWith(Collapse(s[i..]), "\n\n") && Collapse(s[i..])[2..] == Collapse(s[n..])
  {
    hide Collapse, TermLenAt;
    var t := TermLenAt(s, i);
    var u := SecondTerm(s, i + t);
    Front(s, i);
    Front(s, i + t);
    assert Collapse(s[i..]) == ['\n'] + (['\n'] + Collapse(s[i + t + u..]));
  }

  lemma OneTerminator(s: string, i: nat)
    requires i < |s| && TermLenAt(s, i) > 0 && SecondTerm(s, i + TermLenAt(s, i)) == 0
    ensures var rest := Collapse(s[i + TermLenAt(s, i)..]); rest == [] || rest[0] != '\n'
    ensures !InsideCrLf(s, i + TermLenAt(s, i))
  {
  }

  /** What normalisation makes of the character or terminator at `i`. */
  lemma Front(s: string, i: nat)
    requires i < |s|
    ensures var t := TermLenAt(s, i);
            Collapse(s[i..]) == if t == 0 then [s[i]] + Collapse(s[i + 1..]) else ['\n'] + Collapse(s[i + t..])
  {
    var t := TermLenAt(s, i);
    assert s[i..][0] == s[i] && (i + 1 < |s| ==> s[i..][1] == s[i + 1]);
    assert s[i..][1..] == s[i + 1..];
    assert t > 0 ==> s[i..][t..] == s[i + t..];
  }

  lemma {:induction false} RangesRefineSplit(s: string, start: nat)
    requires start <= |s| && !InsideCrLf(s, start)
    ensures var r, pieces := Ranges(s, start), SplitFrom([], Collapse(s[start..]));
            && |r| == |pieces|
            && (forall k | 0 <= k < |r| :: Collapse(s[r[k].0..r[k].1]) == pieces[k])
            && (forall k | 0 <= k < |r| :: !InsideCrLf(s, r[k].0) && !InsideCrLf(s, r[k].1))
    decreases |s| - start
  {
    hide Scan, SplitFrom, Collapse;
    assert s[start..start] == [];
    CollapseEmpty();
    ScanRefinesSplit(s, start, start);
    ScanCutsOutside(s, start);
    var r, pieces := Ranges(s, start), SplitFrom([], Collapse(s[start..]));
    if Scan(s, start).None? {
      assert s[start..] == s[start..|s|];
      assert r == [(start, |s|)];
    } else {
      var cut := Scan(s, start).value;
      RangesRefineSplit(s, cut.1);
      var rest, more := Ranges(s, cut.1), SplitFrom([], Collapse(s[cut.1..]));
      assert r == [(start, cut.0)] + rest && pieces == [Collapse(s[start..cut.0])] + more;
      forall k | 0 <= k < |r|
        ensures Collapse(s[r[k].0..r[k].1]) == pieces[k]
        ensures !InsideCrLf(s, r[k].0) && !InsideCrLf(s, r[k].1)
      {
        assert k > 0 ==> r[k] == rest[k - 1] && pieces[k] == more[k - 1];
      }
    }
  }

  /** For every input: the raw blocks correspond one to one to the pieces of the
      normalised text split on blank lines, normalising the i-th block gives the i-th
      piece, no block is shorter than its piece, and no cut falls inside a CRLF. */
  lemma RawBlocksRefineSplit(content: string)
    ensures var blocks, pieces := RawBlocksOf(content), SplitBlankLines(NormalizeLineEndings(content));
            && |blocks| == |pieces|
            && (forall k | 0 <= k < |blocks| :: NormalizeLineEndings(blocks[k]) == pieces[k])
            && (forall k | 0 <= k < |blocks| :: |pieces[k]| <= |blocks[k]|)
    ensures forall k | 0 <= k < |Ranges(content, 0)| ::
              !InsideCrLf(content, Ranges(content, 0)[k].0) && !InsideCrLf(content, Ranges(content, 0)[k].1)
  {
    RangesRefineSplit(content, 0);
    assert content[0..] == content;
    NormalizeIsCollapse(content);
    var blocks := RawBlocksOf(content);
    forall k | 0 <= k < |blocks|
      ensures NormalizeLineEndings(blocks[k]) == Collapse(blocks[k])
    {
      NormalizeIsCollapse(blocks[k]);
    }
  }

  /** `[end, next)` is exactly two line terminators. */
  predicate BlankLine(s: string, end: nat, next: nat) {
    && end < next <= |s|
    && TermLenAt(s, end) > 0
    && end + TermLenAt(s, end) < next
    && next == end + TermLenAt(s, end) + SecondTerm(s, end + TermLenAt(s, end))
  }

  /** Nothing but blank-line separators is dropped: consecutive blocks are separated
      by exactly two line terminators, the first block starts the text and the last
      one ends it. */
  lemma {:induction false} GapsAreBlankLines(s: string, start: nat)
    requires start <= |s|
    ensures var r := Ranges(s, start);
            && r[0].0 == start && r[|r| - 1].1 == |s|
            && forall k | 0 <= k < |r| - 1 :: BlankLine(s, r[k].1, r[k + 1].0)
    decreases |s| - start
  {
    hide BlankLine;
    ScanAtPair(s, start);
    if Scan(s, start).Some? {
      var end, next := Scan(s, start).value.0, Scan(s, start).value.1;
      GapsAreBlankLines(s, next);
      var r, rest := Ranges(s, start), Ranges(s, next);
      assert r == [(start, end)] + rest;
      forall k | 0 <= k < |r| - 1
        ensures BlankLine(s, r[k].1, r[k + 1].0)
      {
        assert r[k + 1] == rest[k];
        assert k > 0 ==> r[k] == rest[k - 1];
      }
    }
  }

  lemma {:induction false} ScanAtPair(s: string, i: nat)
    requires i <= |s|
    ensures Scan(s, i).Some? ==> BlankLine(s, Scan(s, i).value.0, Scan(s, i).value.1)
    decreases |s| - i
  {
    if i < |s| {
      var t := TermLenAt(s, i);
      if t == 0 { ScanAtPair(s, i + 1); }
      else if SecondTerm(s, i + t) == 0 { ScanAtPair(s, i + t); }
    }
  }
}
