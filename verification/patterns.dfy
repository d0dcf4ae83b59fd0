/**
  The three regular-expression literals of the validation rules, written in
  the `RegExp` fragment as they appear in the source, each paired with a plain
  description of the strings it accepts and a proof that the two agree. The
  one rewriting is `{8,}`, which becomes eight copies of the class followed by
  a star (`AtLeast`); the two forms match the same strings.

  - password:  /^(?=.*[A-Za-z])(?=.*\d)(?=.*[@$!%*#?&])[A-Za-z\d@$!%*#?&]{8,}$/
  - name:      /^[a-zA-z\s]*$/   (note the range `A-z`, not `A-Z`)
  - username:  /^[a-zA-Z0-9]*$/
 */
module Patterns {
  import opened JsText
  import opened RegExp

  // ----- password -----

  const PasswordSymbols: string := "@$!%*#?&"

  /** `[A-Za-z]` */
  const LetterItems: seq<ClassItem> := [Range('A', 'Z'), Range('a', 'z')]

  /** `\d` */
  const DigitItems: seq<ClassItem> := [DigitEscape]

  /** `[@$!%*#?&]` */
  const SymbolItems: seq<ClassItem> := Singles(PasswordSymbols)

  /** `[A-Za-z\d@$!%*#?&]` */
  const PasswordItems: seq<ClassItem> := LetterItems + DigitItems + SymbolItems

  const PasswordPattern: Regex :=
    Anchored(
      Concat(Find(LetterItems),
      Concat(Find(DigitItems),
      Concat(Find(SymbolItems),
             AtLeast(Char(Class(PasswordItems)), 8)))))

  predicate IsPasswordSymbol(c: char) { c in PasswordSymbols }

  predicate IsPasswordChar(c: char) {
    IsAsciiLetter(c) || IsAsciiDigit(c) || IsPasswordSymbol(c)
  }

  /** The strong passwords, described without the pattern: at least eight
      characters, all letters, digits or symbols, with at least one of each. */
  predicate StrongPassword(s: string) {
    && |s| >= 8
    && (forall k | 0 <= k < |s| :: IsPasswordChar(s[k]))
    && (exists k | 0 <= k < |s| :: IsAsciiLetter(s[k]))
    && (exists k | 0 <= k < |s| :: IsAsciiDigit(s[k]))
    && (exists k | 0 <= k < |s| :: IsPasswordSymbol(s[k]))
  }

  lemma PasswordClasses(c: char)
    ensures InClass(c, LetterItems) <==> IsAsciiLetter(c)
    ensures InClass(c, DigitItems) <==> IsAsciiDigit(c)
    ensures InClass(c, SymbolItems) <==> IsPasswordSymbol(c)
    ensures InClass(c, PasswordItems) <==> IsPasswordChar(c)
    ensures IsPasswordChar(c) ==> !IsLineTerminator(c)
  {
    if IsAsciiUpper(c) {
      assert ItemMatches(LetterItems[0], c);
    } else if IsAsciiLower(c) {
      assert ItemMatches(LetterItems[1], c);
    }
    if IsAsciiDigit(c) {
      assert ItemMatches(DigitItems[0], c);
    }
    SinglesMeaning(c, PasswordSymbols);
    InClassAppend(c, LetterItems, DigitItems);
    InClassAppend(c, LetterItems + DigitItems, SymbolItems);
  }

  /** A lookahead for a class that holds no line terminator, tried at the start
      of a string made only of password characters, succeeds exactly when some
      character of the string is in the class. */
  lemma FindInPassword(items: seq<ClassItem>, s: string)
    requires forall k | 0 <= k < |s| :: IsPasswordChar(s[k])
    ensures Matches(Find(items), s, 0, 0) <==> exists k | 0 <= k < |s| :: InClass(s[k], items)
  {
    FindMeaning(items, s, 0, 0);
    if exists k | 0 <= k < |s| :: InClass(s[k], items) {
      var k :| 0 <= k < |s| && InClass(s[k], items);
      forall m | 0 <= m < k ensures !IsLineTerminator(s[m]) {
        PasswordClasses(s[m]);
      }
      assert NoLineTerminator(s, 0, k);
    }
  }

  /** The password pattern accepts exactly the strong passwords. */
  lemma PasswordPatternMeaning(s: string)
    ensures Test(PasswordPattern, s) <==> StrongPassword(s)
  {
    var body := AtLeast(Char(Class(PasswordItems)), 8);
    var d := Concat(Find(DigitItems), Concat(Find(SymbolItems), body));
    var l := Concat(Find(LetterItems), d);
    AnchoredTest(l, s);
    ZeroWidthThen(Find(LetterItems), d, s, 0, |s|);
    ZeroWidthThen(Find(DigitItems), Concat(Find(SymbolItems), body), s, 0, |s|);
    ZeroWidthThen(Find(SymbolItems), body, s, 0, |s|);
    AtLeastOfAtom(Class(PasswordItems), 8, s, 0, |s|);
    assert Matches(body, s, 0, |s|) <==> |s| >= 8 && forall k | 0 <= k < |s| :: IsPasswordChar(s[k]) by {
      forall k | 0 <= k < |s| ensures InClass(s[k], PasswordItems) <==> IsPasswordChar(s[k]) {
        PasswordClasses(s[k]);
      }
    }
    if forall k | 0 <= k < |s| :: IsPasswordChar(s[k]) {
      FindInPassword(LetterItems, s);
      FindInPassword(DigitItems, s);
      FindInPassword(SymbolItems, s);
      forall k | 0 <= k < |s|
        ensures InClass(s[k], LetterItems) <==> IsAsciiLetter(s[k])
        ensures InClass(s[k], DigitItems) <==> IsAsciiDigit(s[k])
        ensures InClass(s[k], SymbolItems) <==> IsPasswordSymbol(s[k])
      {
        PasswordClasses(s[k]);
      }
    }
  }

  /** The pattern does not care about letter case: lower-casing every letter
      never changes its verdict, so an upper-case letter is never needed. */
  lemma PasswordIgnoresLetterCase(s: string)
    ensures Test(PasswordPattern, AsciiLowerCase(s)) <==> Test(PasswordPattern, s)
  {
    var t := AsciiLowerCase(s);
    PasswordPatternMeaning(s);
    PasswordPatternMeaning(t);
    forall k | 0 <= k < |s|
      ensures IsPasswordChar(t[k]) <==> IsPasswordChar(s[k])
      ensures IsAsciiLetter(t[k]) <==> IsAsciiLetter(s[k])
      ensures IsAsciiDigit(t[k]) <==> IsAsciiDigit(s[k])
      ensures IsPasswordSymbol(t[k]) <==> IsPasswordSymbol(s[k])
    {
      if IsAsciiUpper(s[k]) {
        assert !IsPasswordSymbol(s[k]) && !IsPasswordSymbol(t[k]);
      }
    }
  }

  /** Concrete verdicts of the password pattern. */
  lemma PasswordExamples()
    ensures !Test(PasswordPattern, "abc12345")
    ensures !Test(PasswordPattern, "Ab1!")
    ensures Test(PasswordPattern, "Abc123!@")
    ensures Test(PasswordPattern, "abc123!@")
  {
    assert !Test(PasswordPattern, "abc12345") by {
      PasswordPatternMeaning("abc12345");
      var weak := "abc12345";
      forall k | 0 <= k < |weak| ensures !IsPasswordSymbol(weak[k]) { }
    }
    assert !Test(PasswordPattern, "Ab1!") by {
      PasswordPatternMeaning("Ab1!");
    }
    assert Test(PasswordPattern, "Abc123!@") by {
      PasswordPatternMeaning("Abc123!@");
      var ok := "Abc123!@";
      assert IsAsciiLetter(ok[0]) && IsAsciiDigit(ok[3]) && IsPasswordSymbol(ok[6]);
      forall k | 0 <= k < |ok| ensures IsPasswordChar(ok[k]) { }
    }
    assert Test(PasswordPattern, "abc123!@") by {
      PasswordPatternMeaning("abc123!@");
      var lower := "abc123!@";
      assert IsAsciiLetter(lower[0]) && IsAsciiDigit(lower[3]) && IsPasswordSymbol(lower[6]);
      forall k | 0 <= k < |lower| ensures IsPasswordChar(lower[k]) { }
    }
  }

  // ----- name -----

  /** `[a-zA-z\s]` */
  const NameItems: seq<ClassItem> := [Range('a', 'z'), Range('A', 'z'), SpaceEscape]

  const NamePattern: Regex := Anchored(Star(Char(Class(NameItems))))

  /** The six characters between `Z` and `a` in ASCII, which the range `A-z` takes in. */
  predicate IsRangePunctuation(c: char) {
    c == '[' || c == '\\' || c == ']' || c == '^' || c == '_' || c == '`'
  }

  /** A character the name pattern admits: an ASCII letter, one of the six
      punctuation characters of the `A-z` range, or a `\s` character. */
  predicate IsNameChar(c: char) {
    IsAsciiLetter(c) || IsRangePunctuation(c) || IsRegExpSpace(c)
  }

  predicate NameChars(s: string) {
    forall k | 0 <= k < |s| :: IsNameChar(s[k])
  }

  /** The class `[a-zA-z\s]` is the letters, the `\s` characters, and exactly
      the six punctuation characters `[ \ ] ^ _` and backquote. */
  lemma NameClassMeaning(c: char)
    ensures InClass(c, NameItems) <==> IsNameChar(c)
    ensures InClass(c, NameItems) && !IsAsciiLetter(c) && !IsRegExpSpace(c) <==> IsRangePunctuation(c)
  {
    if IsAsciiLower(c) {
      assert ItemMatches(NameItems[0], c);
    } else if 'A' <= c <= 'z' {
      assert ItemMatches(NameItems[1], c);
    } else if IsRegExpSpace(c) {
      assert ItemMatches(NameItems[2], c);
    }
  }

  /** The name pattern accepts exactly the strings made of name characters. */
  lemma NamePatternMeaning(s: string)
    ensures Test(NamePattern, s) <==> NameChars(s)
  {
    AnchoredClassStar(NameItems, s);
    forall k | 0 <= k < |s| ensures InClass(s[k], NameItems) <==> IsNameChar(s[k]) {
      NameClassMeaning(s[k]);
    }
  }

  /** Concrete verdicts of the name pattern. */
  lemma NamePatternExamples()
    ensures Test(NamePattern, "John  Doe")
    ensures Test(NamePattern, "John_Doe")
    ensures Test(NamePattern, "[^`]")
    ensures !Test(NamePattern, "John3")
    ensures !Test(NamePattern, "O'Brien")
  {
    NamePatternMeaning("John  Doe");
    NamePatternMeaning("John_Doe");
    NamePatternMeaning("[^`]");
    NamePatternMeaning("John3");
    NamePatternMeaning("O'Brien");
    assert !IsNameChar("John3"[4]);
    assert !IsNameChar("O'Brien"[1]);
  }

  // ----- username -----

  /** `[a-zA-Z0-9]` */
  const UsernameItems: seq<ClassItem> := [Range('a', 'z'), Range('A', 'Z'), Range('0', '9')]

  const UsernamePattern: Regex := Anchored(Star(Char(Class(UsernameItems))))

  predicate AsciiAlphanumeric(s: string) {
    forall k | 0 <= k < |s| :: IsAsciiAlphanumeric(s[k])
  }

  /** The username pattern accepts exactly the strings of ASCII letters and digits. */
  lemma UsernamePatternMeaning(s: string)
    ensures Test(UsernamePattern, s) <==> AsciiAlphanumeric(s)
  {
    AnchoredClassStar(UsernameItems, s);
    forall k | 0 <= k < |s| ensures InClass(s[k], UsernameItems) <==> IsAsciiAlphanumeric(s[k]) {
      var c := s[k];
      if IsAsciiLower(c) {
        assert ItemMatches(UsernameItems[0], c);
      } else if IsAsciiUpper(c) {
        assert ItemMatches(UsernameItems[1], c);
      } else if IsAsciiDigit(c) {
        assert ItemMatches(UsernameItems[2], c);
      }
    }
  }
}
