/** File paths, file-name splitting and numbered names, as used by the target
    allocator and by the conflict resolvers. A path is a directory plus one
    final component, so joining a directory with a file name is `Path(dir, name)`. */
module Paths {
  import opened Strings

  type Dir = seq<string>

  datatype Path = Path(dir: Dir, name: string)

  const U32_MAX: nat := 0xFFFF_FFFF

  // ----- Component-wise ordering of directories and names -----

  ghost predicate StrictTotal<T(!new)>(lt: (T, T) -> bool) {
    && (forall x :: !lt(x, x))
    && (forall x, y :: lt(x, y) || x == y || lt(y, x))
    && (forall x, y, z :: lt(x, y) && lt(y, z) ==> lt(x, z))
  }

  predicate LexLe<T(==)>(a: seq<T>, b: seq<T>, lt: (T, T) -> bool) {
    a == [] || (b != [] && (lt(a[0], b[0]) || (a[0] == b[0] && LexLe(a[1..], b[1..], lt))))
  }

  lemma LexTotal<T(!new)>(a: seq<T>, b: seq<T>, lt: (T, T) -> bool)
    requires StrictTotal(lt)
    ensures LexLe(a, b, lt) || LexLe(b, a, lt)
  {
  }

  lemma {:induction false} LexAntisymmetric<T(!new)>(a: seq<T>, b: seq<T>, lt: (T, T) -> bool)
    requires StrictTotal(lt) && LexLe(a, b, lt) && LexLe(b, a, lt)
    ensures a == b
  {
    if a != [] && b != [] {
      assert a[0] == b[0];
      LexAntisymmetric(a[1..], b[1..], lt);
      assert a == [a[0]] + a[1..] && b == [b[0]] + b[1..];
    }
  }

  lemma {:induction false} LexTransitive<T(!new)>(a: seq<T>, b: seq<T>, c: seq<T>, lt: (T, T) -> bool)
    requires StrictTotal(lt) && LexLe(a, b, lt) && LexLe(b, c, lt)
    ensures LexLe(a, c, lt)
  {
    if a != [] && a[0] == b[0] == c[0] {
      LexTransitive(a[1..], b[1..], c[1..], lt);
    }
  }

  predicate NameLe(a: string, b: string) {
    LexLe(a, b, (x: char, y: char) => x < y)
  }

  predicate DirLe(a: Dir, b: Dir) {
    LexLe(a, b, (x: string, y: string) => x != y && NameLe(x, y))
  }

  /** The order, without recursion: the first element that differs decides, and a
      proper prefix comes first. */
  lemma {:induction false} LexLeExactly<T>(a: seq<T>, b: seq<T>, lt: (T, T) -> bool)
    ensures LexLe(a, b, lt)
            <==> exists k: nat | k <= |a| && k <= |b| ::
                   a[..k] == b[..k] && (k == |a| || (k < |b| && lt(a[k], b[k])))
  {
    if a != [] && b != [] {
      LexLeExactly(a[1..], b[1..], lt);
      if k: nat :| k <= |a| - 1 && k <= |b| - 1 && a[1..][..k] == b[1..][..k]
                   && (k == |a| - 1 || (k < |b| - 1 && lt(a[1..][k], b[1..][k]))) {
        if a[0] == b[0] {
          assert a[..k + 1] == [a[0]] + a[1..][..k] && b[..k + 1] == [b[0]] + b[1..][..k];
        }
      }
      if k: nat :| 0 < k <= |a| && k <= |b| && a[..k] == b[..k] && (k == |a| || (k < |b| && lt(a[k], b[k]))) {
        assert a[0] == a[..k][0] && b[0] == b[..k][0];
        assert a[1..][..k - 1] == a[..k][1..] && b[1..][..k - 1] == b[..k][1..];
      }
      assert lt(a[0], b[0]) ==> a[..0] == b[..0];
    } else {
      assert a[..0] == b[..0];
    }
  }

  lemma NameLeExactly(a: string, b: string)
    ensures NameLe(a, b)
            <==> exists k: nat | k <= |a| && k <= |b| ::
                   a[..k] == b[..k] && (k == |a| || (k < |b| && a[k] < b[k]))
  {
    LexLeExactly(a, b, (x: char, y: char) => x < y);
  }

  /** Directories compare component by component, not as joined text. */
  lemma DirLeExactly(a: Dir, b: Dir)
    ensures DirLe(a, b)
            <==> exists k: nat | k <= |a| && k <= |b| ::
                   a[..k] == b[..k] && (k == |a| || (k < |b| && Before(a[k], b[k])))
  {
    LexLeExactly(a, b, (x: string, y: string) => x != y && NameLe(x, y));
    forall x: string, y: string
      ensures Before(x, y) <==> x != y && NameLe(x, y)
    {
      BeforeExactly(x, y);
    }
  }

  /** The first differing character is smaller, or `a` is a proper prefix. */
  predicate Before(a: string, b: string) {
    exists k: nat | k <= |a| && k < |b| :: a[..k] == b[..k] && (k == |a| || a[k] < b[k])
  }

  lemma BeforeExactly(a: string, b: string)
    ensures Before(a, b) <==> a != b && NameLe(a, b)
  {
    NameLeExactly(a, b);
    if a != b && NameLe(a, b) {
      var k: nat :| k <= |a| && k <= |b| && a[..k] == b[..k] && (k == |a| || (k < |b| && a[k] < b[k]));
      assert a[..|a|] == a && b[..|b|] == b;
    }
  }

  /** Sort key of the allocator: target directory first, then relative path. */
  datatype SortKey = SortKey(dir: Dir, relative: string)

  predicate KeyLe(a: SortKey, b: SortKey) {
    if a.dir == b.dir then NameLe(a.relative, b.relative) else DirLe(a.dir, b.dir)
  }

  lemma CharsStrictTotal()
    ensures StrictTotal((x: char, y: char) => x < y)
  {
  }

  lemma NamesStrictTotal()
    ensures StrictTotal((x: string, y: string) => x != y && NameLe(x, y))
  {
    CharsStrictTotal();
    var lt := (x: char, y: char) => x < y;
    forall x: string, y: string
      ensures NameLe(x, y) || NameLe(y, x)
      ensures NameLe(x, y) && NameLe(y, x) ==> x == y
    {
      LexTotal(x, y, lt);
      if NameLe(x, y) && NameLe(y, x) {
        LexAntisymmetric(x, y, lt);
      }
    }
    forall x: string, y: string, z: string | NameLe(x, y) && NameLe(y, z)
      ensures NameLe(x, z)
    {
      LexTransitive(x, y, z, lt);
    }
  }

  lemma KeyOrder(a: SortKey, b: SortKey, c: SortKey)
    ensures KeyLe(a, b) || KeyLe(b, a)
    ensures KeyLe(a, b) && KeyLe(b, a) ==> a == b
    ensures KeyLe(a, b) && KeyLe(b, c) ==> KeyLe(a, c)
  {
    NamesStrictTotal();
    CharsStrictTotal();
    var ltn := (x: string, y: string) => x != y && NameLe(x, y);
    var ltc := (x: char, y: char) => x < y;
    LexTotal(a.dir, b.dir, ltn);
    LexTotal(a.relative, b.relative, ltc);
    if KeyLe(a, b) && KeyLe(b, a) {
      if a.dir == b.dir { LexAntisymmetric(a.relative, b.relative, ltc); }
      else { LexAntisymmetric(a.dir, b.dir, ltn); }
    }
    if KeyLe(a, b) && KeyLe(b, c) {
      if a.dir == b.dir == c.dir { LexTransitive(a.relative, b.relative, c.relative, ltc); }
      else if a.dir == b.dir || b.dir == c.dir { }
      else {
        LexTransitive(a.dir, b.dir, c.dir, ltn);
        if a.dir == c.dir { LexAntisymmetric(a.dir, b.dir, ltn); }
      }
    }
  }

  // ----- File-name splitting -----

  /** Stem and extension (with its dot); a leading dot never starts an extension. */
  function SplitFilename(name: string): (r: (string, string))
    ensures r.0 + r.1 == name
  {
    var idx := LastIndexOf(name, '.');
    if idx > 0 then (name[..idx], name[idx..]) else (name, "")
  }

  /** Removes a trailing `.<digits>` whose value fits an unsigned 32-bit number. */
  function SplitNumericTail(stem: string): (string, Option<nat>) {
    var idx := LastIndexOf(stem, '.');
    if idx < 0 then (stem, None)
    else
      var tail := stem[idx + 1..];
      if tail != [] && AllDigits(tail) && ParseDecimal(tail) <= U32_MAX
      then (stem[..idx], Some(ParseDecimal(tail)))
      else (stem, None)
  }

  function BaseStem(name: string): string {
    SplitNumericTail(SplitFilename(name).0).0
  }

  function Extension(name: string): string {
    SplitFilename(name).1
  }

  function ExistingCounter(name: string): Option<nat> {
    SplitNumericTail(SplitFilename(name).0).1
  }

  /** First counter tried after a collision. The increment is 32-bit and wraps
      as an optimised build does; the floor of two then applies. */
  function StartCounter(name: string): (c: nat)
    ensures 2 <= c <= U32_MAX
  {
    match ExistingCounter(name)
    case None => 2
    case Some(n) => if n == 0 || n >= U32_MAX then 2 else n + 1
  }

  function Numbered(base: string, counter: nat, ext: string): string {
    base + "." + Decimal(counter) + ext
  }

  /** Different counters give different names. */
  lemma NumberedInjective(base: string, m: nat, n: nat, ext: string)
    requires Numbered(base, m, ext) == Numbered(base, n, ext)
    ensures m == n
  {
    var s := Numbered(base, m, ext);
    assert s[|base| + 1..|s| - |ext|] == Decimal(m);
    assert Numbered(base, n, ext)[|base| + 1..|s| - |ext|] == Decimal(n);
    DecimalInjective(m, n);
  }

  /** An extension, when there is one, is a dot followed by no further dot. */
  lemma ExtensionShape(name: string)
    ensures Extension(name) == "" || (Extension(name)[0] == '.' && '.' !in Extension(name)[1..])
  {
  }

  lemma SplitsAtExtension(name: string, stem: string, ext: string)
    requires name == stem + ext && stem != "" && ext != "" && ext[0] == '.' && '.' !in ext[1..]
    ensures SplitFilename(name) == (stem, ext)
  {
    assert name[|stem|] == '.' by { assert name[|stem|] == ext[0]; }
    forall i | |stem| < i < |name| ensures name[i] != '.' { assert name[i] == ext[1..][i - |stem| - 1]; }
    LastIndexUnique(name, '.', |stem|);
  }

  /** A numbered name taken apart again: the base stem, the counter and the
      extension come back exactly when the name has an extension or the base
      stem is empty. For an extensionless name such as `movie` the number of
      `movie.2` is read back as an extension instead. */
  lemma NumberedResplits(name: string, n: nat)
    requires n <= U32_MAX
    ensures var again := Numbered(BaseStem(name), n, Extension(name));
            (BaseStem(again) == BaseStem(name) && ExistingCounter(again) == Some(n)
              && Extension(again) == Extension(name))
            <==> (Extension(name) != "" || BaseStem(name) == "")
  {
    var base, ext := BaseStem(name), Extension(name);
    var stem := base + "." + Decimal(n);
    var again := Numbered(base, n, ext);
    assert again == stem + ext;
    StemResplits(base, n);
    ExtensionShape(name);
    if ext != "" {
      SplitsAtExtension(again, stem, ext);
    } else {
      assert again == stem;
      LastDotBeforeDigits(base, n);
    }
  }

  lemma LastDotBeforeDigits(base: string, n: nat)
    ensures LastIndexOf(base + "." + Decimal(n), '.') == |base|
  {
    DotThenDigits(base + "." + Decimal(n), base, Decimal(n));
  }

  lemma DotThenDigits(s: string, base: string, d: string)
    requires AllDigits(d) && s == base + "." + d
    ensures LastIndexOf(s, '.') == |base|
  {
    assert s[|base|] == '.';
  }

  lemma StemResplits(base: string, n: nat)
    requires n <= U32_MAX
    ensures SplitNumericTail(base + "." + Decimal(n)) == (base, Some(n))
  {
    LastDotBeforeDigits(base, n);
    var s := base + "." + Decimal(n);
    assert s[..|base|] == base && s[|base| + 1..] == Decimal(n);
    ParseOfDecimal(n);
  }

  /** The collision chain of a name with an extension: `movie.2.srt` is followed
      by `movie.3.srt`, never by `movie.2.2.srt`. */
  lemma NextAfterNumbered(name: string, n: nat)
    requires Extension(name) != "" && 1 <= n < U32_MAX
    ensures var again := Numbered(BaseStem(name), n, Extension(name));
            Numbered(BaseStem(again), StartCounter(again), Extension(again))
              == Numbered(BaseStem(name), n + 1, Extension(name))
  {
    NumberedResplits(name, n);
    hide LastIndexOf, Decimal, SplitNumericTail, SplitFilename, Numbered;
  }

  /** Without an extension, and with a base, the chain nests: `movie.2` is followed by
      `movie.2.2`, and `.hidden.2` by `.hidden.2.2`. */
  lemma NextAfterNumberedExtensionless(name: string, n: nat)
    requires Extension(name) == "" && BaseStem(name) != ""
    ensures BaseStem(name) == name
    ensures var again := Numbered(name, n, "");
            Numbered(BaseStem(again), StartCounter(again), Extension(again))
              == Numbered(name, 2, "." + Decimal(n))
  {
    hide LastIndexOf, Decimal, SplitNumericTail, SplitFilename;
    WholeIsBase(name);
    WholeName(name);
    var again := Numbered(name, n, "");
    var ext := "." + Decimal(n);
    assert again == name + "." + Decimal(n) == name + ext;
    assert ext[1..] == Decimal(n);
    SplitsAtExtension(again, name, ext);
  }

  lemma WholeName(name: string)
    requires Extension(name) == ""
    ensures SplitFilename(name) == (name, "")
  {
  }

  lemma WholeIsBase(name: string)
    requires Extension(name) == "" && BaseStem(name) != ""
    ensures SplitNumericTail(name) == (name, None)
  {
  }

  /** The name after a numbered one carries the next counter exactly when there is an
      extension or the base is empty. After zero and after the largest 32-bit number
      the next counter is two. */
  lemma NextNameExactly(name: string, n: nat)
    requires n <= 0xFFFF_FFFF
    ensures var again := Numbered(BaseStem(name), n, Extension(name));
            var next := if 1 <= n < 0xFFFF_FFFF then n + 1 else 2;
            Numbered(BaseStem(again), StartCounter(again), Extension(again))
              == Numbered(BaseStem(name), next, Extension(name))
            <==> (Extension(name) != "" || BaseStem(name) == "")
  {
    hide LastIndexOf, Decimal, SplitNumericTail, SplitFilename;
    NumberedResplits(name, n);
    if Extension(name) == "" && BaseStem(name) != "" {
      NextAfterNumberedExtensionless(name, n);
      NestedIsAnother(name, n, if 1 <= n < 0xFFFF_FFFF then n + 1 else 2);
    }
  }

  lemma NestedIsAnother(name: string, n: nat, next: nat)
    ensures Numbered(name, 2, "." + Decimal(n)) != Numbered(name, next, "")
  {
    var nested, other := Numbered(name, 2, "." + Decimal(n)), Numbered(name, next, "");
    hide Decimal;
    var at := |name| + 1 + |Decimal(2)|;
    assert nested[at] == '.';
    if at < |other| {
      assert other[at] == Decimal(next)[|Decimal(2)|];
    }
  }
}
