/** The four fixed character classes of the generator and the character
    tests the generator and the scorer apply to them. */
module CharacterSets {

  const Uppercase: string := "ABCDEFGHIJKLMNOPQRSTUVWXYZ"
  const Lowercase: string := "abcdefghijklmnopqrstuvwxyz"
  const Numbers: string := "0123456789"
  const Symbols: string := "!@#$%^&*()_+-=[]{}|;:,.<>?"

  /** The character classes, declared in the fixed order the generator uses. */
  datatype CharClass = Upper | Lower | Number | Symbol

  /** The position of a class in the fixed order upper, lower, numbers, symbols. */
  function Ordinal(k: CharClass): nat
  {
    match k
    case Upper => 0
    case Lower => 1
    case Number => 2
    case Symbol => 3
  }

  /** The characters of a class, as listed in the class string. */
  function Chars(k: CharClass): (s: string)
    ensures |s| > 0
  {
    match k
    case Upper => Uppercase
    case Lower => Lowercase
    case Number => Numbers
    case Symbol => Symbols
  }

  /** The per-character test of the regular expression used for a class:
      the ranges A-Z, a-z and 0-9, and for symbols the bracket expression,
      which lists exactly the characters of the symbol string. */
  predicate Matches(k: CharClass, ch: char)
  {
    match k
    case Upper => 'A' <= ch <= 'Z'
    case Lower => 'a' <= ch <= 'z'
    case Number => '0' <= ch <= '9'
    case Symbol => ch in Symbols
  }

  /** `regex.test(s)`: some character of `s` passes the class test. */
  predicate HasClass(s: string, k: CharClass)
  {
    exists i :: 0 <= i < |s| && Matches(k, s[i])
  }

  /** A class string whose characters are the consecutive code points from `first`. */
  predicate IsRange(s: string, first: char)
  {
    forall i :: 0 <= i < |s| ==> s[i] as int == first as int + i
  }

  lemma LettersAndDigitsAreRanges()
    ensures IsRange(Uppercase, 'A') && IsRange(Lowercase, 'a') && IsRange(Numbers, '0')
  {
    assert Uppercase == seq(26, i requires 0 <= i < 26 => ('A' as int + i) as char);
    assert Lowercase == seq(26, i requires 0 <= i < 26 => ('a' as int + i) as char);
    assert Numbers == seq(10, i requires 0 <= i < 10 => ('0' as int + i) as char);
  }

  lemma InRange(s: string, first: char, ch: char)
    requires IsRange(s, first)
    ensures ch in s <==> first as int <= ch as int < first as int + |s|
  {
    if first as int <= ch as int < first as int + |s| {
      assert s[ch as int - first as int] == ch;
    }
  }

  /** The regular-expression tests agree with membership in the class strings. */
  lemma MatchesIffInClass(k: CharClass, ch: char)
    ensures Matches(k, ch) <==> ch in Chars(k)
  {
    LettersAndDigitsAreRanges();
    match k
    case Upper => InRange(Uppercase, 'A', ch);
    case Lower => InRange(Lowercase, 'a', ch);
    case Number => InRange(Numbers, '0', ch);
    case Symbol =>
  }

  /** A string that contains a character of class `k`'s string passes the class test. */
  lemma HasClassFromMember(s: string, k: CharClass, i: int)
    requires 0 <= i < |s| && s[i] in Chars(k)
    ensures HasClass(s, k)
  {
    MatchesIffInClass(k, s[i]);
  }

  /** The class test only looks at which characters occur: a string with the
      same multiset of characters passes the same class tests. */
  lemma HasClassPermutation(s: string, t: string, k: CharClass)
    requires multiset(s) == multiset(t)
    ensures HasClass(s, k) <==> HasClass(t, k)
  {
    if HasClass(s, k) {
      var i :| 0 <= i < |s| && Matches(k, s[i]);
      assert s[i] in multiset(t);
      var j :| 0 <= j < |t| && t[j] == s[i];
    }
    if HasClass(t, k) {
      var j :| 0 <= j < |t| && Matches(k, t[j]);
      assert t[j] in multiset(s);
      var i :| 0 <= i < |s| && s[i] == t[j];
    }
  }

  /** ASCII punctuation: the code points between the digits and the letters
      and around them. */
  predicate IsPunctuation(ch: char)
  {
    ('!' <= ch <= '/') || (':' <= ch <= '@') || ('[' <= ch <= '`') || ('{' <= ch <= '~')
  }

  lemma SymbolIsPunctuation(ch: char)
    requires ch in Symbols
    ensures IsPunctuation(ch)
  {
  }

  /** No character belongs to two classes. */
  lemma ClassesDisjoint(k: CharClass, l: CharClass, ch: char)
    requires k != l
    ensures !(ch in Chars(k) && ch in Chars(l))
  {
    MatchesIffInClass(k, ch);
    MatchesIffInClass(l, ch);
    if ch in Symbols {
      SymbolIsPunctuation(ch);
    }
  }
}
