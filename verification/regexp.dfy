/**
  The fragment of ECMAScript regular expressions (ECMA-262, section 22.2) that
  the validation rules use: character classes with ranges, single characters,
  `\d` and `\s`; `.`; concatenation; `*`; positive lookahead `(?=...)`; and the
  anchors `^` and `$` without the multiline flag.

  `Matches(r, s, i, j)` holds when `r` can match `s[i..j]` starting at `i`.
  The standard describes a backtracking matcher; since none of these patterns
  has captures or back-references, whether `test` succeeds depends only on
  the set of positions each sub-pattern can reach, which is what this relation
  records. A `*` iteration that consumes nothing is not allowed, as in the
  standard's RepeatMatcher.

  In the proofs below, an `assert Matches(...)` that repeats an enclosing `if`
  guard is there to unfold the predicate, so that the following `:|` finds
  the witness the guard's existential provides.
 */
module RegExp {
  import opened JsText

  /** One item between the brackets of a character class. */
  datatype ClassItem =
    | Single(c: char)
    | Range(lo: char, hi: char)
    | DigitEscape
    | SpaceEscape

  predicate ItemMatches(item: ClassItem, c: char) {
    match item
    case Single(d) => c == d
    case Range(lo, hi) => lo <= c <= hi
    case DigitEscape => IsAsciiDigit(c)
    case SpaceEscape => IsRegExpSpace(c)
  }

  /** `c` belongs to the class `[items]`. */
  predicate InClass(c: char, items: seq<ClassItem>) {
    exists k | 0 <= k < |items| :: ItemMatches(items[k], c)
  }

  /** A pattern that consumes exactly one character. */
  datatype Atom = AnyButLineTerminator | Class(items: seq<ClassItem>)

  predicate AtomMatches(a: Atom, c: char) {
    match a
    case AnyButLineTerminator => !IsLineTerminator(c)
    case Class(items) => InClass(c, items)
  }

  datatype Regex =
    | Empty
    | Start
    | End
    | Char(atom: Atom)
    | Concat(left: Regex, right: Regex)
    | Star(body: Regex)
    | Lookahead(body: Regex)

  predicate Matches(r: Regex, s: string, i: nat, j: nat)
    requires i <= j <= |s|
    decreases r, j - i
  {
    match r
    case Empty => i == j
    case Start => i == 0 && j == 0
    case End => i == |s| && j == |s|
    case Char(a) => j == i + 1 && AtomMatches(a, s[i])
    case Concat(x, y) => exists k: nat | i <= k <= j :: Matches(x, s, i, k) && Matches(y, s, k, j)
    case Star(x) => i == j || exists k: nat | i < k <= j :: Matches(x, s, i, k) && Matches(r, s, k, j)
    case Lookahead(x) => i == j && exists k: nat | i <= k <= |s| :: Matches(x, s, i, k)
  }

  /** `RegExp.prototype.test` on a pattern without the global or sticky flag:
      is there a match starting anywhere in `s`? */
  predicate Test(r: Regex, s: string) {
    exists i: nat, j: nat | i <= j <= |s| :: Matches(r, s, i, j)
  }

  /** `.` */
  const Dot: Regex := Char(AnyButLineTerminator)

  /** `^r$` */
  function Anchored(r: Regex): Regex {
    Concat(Start, Concat(r, End))
  }

  /** `(?=.*[items])`: some later character before the next line terminator is in the class. */
  function Find(items: seq<ClassItem>): Regex {
    Lookahead(Concat(Star(Dot), Char(Class(items))))
  }

  /** `r{n,}`, written as `n` copies of `r` followed by `r*`, which has the same matches. */
  function AtLeast(r: Regex, n: nat): Regex {
    if n == 0 then Star(r) else Concat(r, AtLeast(r, n - 1))
  }

  /** `[t]` for a string `t` of literal characters. */
  function Singles(t: string): (items: seq<ClassItem>)
    ensures |items| == |t|
    ensures forall k | 0 <= k < |t| :: items[k] == Single(t[k])
  {
    seq(|t|, k requires 0 <= k < |t| => Single(t[k]))
  }

  predicate ZeroWidth(r: Regex) {
    r.Empty? || r.Start? || r.End? || r.Lookahead?
  }

  /** No character of `s[i..k]` is a line terminator. */
  predicate NoLineTerminator(s: string, i: nat, k: nat)
    requires i <= k <= |s|
  {
    forall m | i <= m < k :: !IsLineTerminator(s[m])
  }

  lemma SinglesMeaning(c: char, t: string)
    ensures InClass(c, Singles(t)) <==> c in t
  {
    if c in t {
      var k :| 0 <= k < |t| && t[k] == c;
      assert ItemMatches(Singles(t)[k], c);
    }
  }

  lemma InClassAppend(c: char, a: seq<ClassItem>, b: seq<ClassItem>)
    ensures InClass(c, a + b) <==> InClass(c, a) || InClass(c, b)
  {
    if InClass(c, a + b) {
      var k :| 0 <= k < |a + b| && ItemMatches((a + b)[k], c);
      if k >= |a| {
        assert ItemMatches(b[k - |a|], c);
      }
    }
    if InClass(c, a) {
      var k :| 0 <= k < |a| && ItemMatches(a[k], c);
      assert ItemMatches((a + b)[k], c);
    }
    if InClass(c, b) {
      var k :| 0 <= k < |b| && ItemMatches(b[k], c);
      assert ItemMatches((a + b)[|a| + k], c);
    }
  }

  /** `a*` matches exactly the runs of characters that `a` accepts one by one. */
  lemma {:induction false} StarOfAtom(a: Atom, s: string, i: nat, j: nat)
    requires i <= j <= |s|
    ensures Matches(Star(Char(a)), s, i, j) <==> forall k | i <= k < j :: AtomMatches(a, s[k])
    decreases j - i
  {
    if i < j {
      StarOfAtom(a, s, i + 1, j);
      var r := Star(Char(a));
      if Matches(r, s, i, j) {
        assert Matches(r, s, i, j);
        var k: nat :| i < k <= j && Matches(Char(a), s, i, k) && Matches(r, s, k, j);
        assert k == i + 1;
      } else {
        assert !(Matches(Char(a), s, i, i + 1) && Matches(r, s, i + 1, j));
      }
    }
  }

  /** `a{n,}` matches exactly the runs of at least `n` characters that `a` accepts. */
  lemma {:induction false} AtLeastOfAtom(a: Atom, n: nat, s: string, i: nat, j: nat)
    requires i <= j <= |s|
    ensures Matches(AtLeast(Char(a), n), s, i, j) <==> i + n <= j && forall k | i <= k < j :: AtomMatches(a, s[k])
    decreases n
  {
    if n == 0 {
      StarOfAtom(a, s, i, j);
    } else {
      var rest := AtLeast(Char(a), n - 1);
      assert AtLeast(Char(a), n) == Concat(Char(a), rest);
      if i < j {
        AtLeastOfAtom(a, n - 1, s, i + 1, j);
        if Matches(Concat(Char(a), rest), s, i, j) {
          assert Matches(Concat(Char(a), rest), s, i, j);
          var k: nat :| i <= k <= j && Matches(Char(a), s, i, k) && Matches(rest, s, k, j);
          assert k == i + 1;
        } else {
          assert !(Matches(Char(a), s, i, i + 1) && Matches(rest, s, i + 1, j));
        }
      }
    }
  }

  /** A zero-width assertion in front of `y` only tests the starting position. */
  lemma ZeroWidthThen(x: Regex, y: Regex, s: string, i: nat, j: nat)
    requires ZeroWidth(x)
    requires i <= j <= |s|
    ensures Matches(Concat(x, y), s, i, j) <==> Matches(x, s, i, i) && Matches(y, s, i, j)
  {
    if Matches(Concat(x, y), s, i, j) {
      assert Matches(Concat(x, y), s, i, j);
      var k: nat :| i <= k <= j && Matches(x, s, i, k) && Matches(y, s, k, j);
      assert k == i;
    }
  }

  /** A trailing `$` forces the match to end at the end of the input. */
  lemma ThenEnd(x: Regex, s: string, i: nat, j: nat)
    requires i <= j <= |s|
    ensures Matches(Concat(x, End), s, i, j) <==> j == |s| && Matches(x, s, i, j)
  {
    if Matches(Concat(x, End), s, i, j) {
      assert Matches(Concat(x, End), s, i, j);
      var k: nat :| i <= k <= j && Matches(x, s, i, k) && Matches(End, s, k, j);
      assert k == j;
    }
  }

  /** `^r$` is found by `test` exactly when `r` matches the whole input. */
  lemma AnchoredTest(r: Regex, s: string)
    ensures Test(Anchored(r), s) <==> Matches(r, s, 0, |s|)
  {
    if Test(Anchored(r), s) {
      var i: nat, j: nat :| i <= j <= |s| && Matches(Anchored(r), s, i, j);
      ZeroWidthThen(Start, Concat(r, End), s, i, j);
      ThenEnd(r, s, i, j);
    }
    if Matches(r, s, 0, |s|) {
      ThenEnd(r, s, 0, |s|);
      ZeroWidthThen(Start, Concat(r, End), s, 0, |s|);
      assert Matches(Anchored(r), s, 0, |s|);
    }
  }

  /** `(?=.*[items])` at `i` succeeds exactly when a character of the class
      occurs at or after `i` with no line terminator in between. */
  lemma FindMeaning(items: seq<ClassItem>, s: string, i: nat, j: nat)
    requires i <= j <= |s|
    ensures Matches(Find(items), s, i, j) <==>
      i == j && exists k: nat | i <= k < |s| :: InClass(s[k], items) && NoLineTerminator(s, i, k)
  {
    var body := Concat(Star(Dot), Char(Class(items)));
    if Matches(Find(items), s, i, j) {
      assert Matches(Find(items), s, i, j);
      var e: nat :| i <= e <= |s| && Matches(body, s, i, e);
      assert Matches(body, s, i, e);
      var k: nat :| i <= k <= e && Matches(Star(Dot), s, i, k) && Matches(Char(Class(items)), s, k, e);
      StarOfAtom(AnyButLineTerminator, s, i, k);
      assert InClass(s[k], items) && NoLineTerminator(s, i, k);
    }
    if i == j && exists k: nat | i <= k < |s| :: InClass(s[k], items) && NoLineTerminator(s, i, k) {
      var k: nat :| i <= k < |s| && InClass(s[k], items) && NoLineTerminator(s, i, k);
      StarOfAtom(AnyButLineTerminator, s, i, k);
      assert Matches(Char(Class(items)), s, k, k + 1);
      assert Matches(body, s, i, k + 1);
    }
  }

  /** `^[items]*$` accepts exactly the strings whose every character is in the class. */
  lemma AnchoredClassStar(items: seq<ClassItem>, s: string)
    ensures Test(Anchored(Star(Char(Class(items)))), s) <==> forall k | 0 <= k < |s| :: InClass(s[k], items)
  {
    AnchoredTest(Star(Char(Class(items))), s);
    StarOfAtom(Class(items), s, 0, |s|);
  }
}
