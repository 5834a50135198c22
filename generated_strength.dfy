/** What the scorer reports about the passwords the generator produces:
    for a policy with at least one class and at least four characters, the
    classes found in the password are exactly the enabled ones, so the score,
    tier and suggestions depend only on the policy. */
module GeneratedStrength {
  import opened CharacterSets
  import opened PasswordCriteria
  import opened Generator
  import opened StrengthScorer

  /** With a class enabled and room for the repair, a generated password
      contains a character of a class exactly when that class is enabled. */
  lemma GeneratedClassesExact(c: Criteria, bytes: seq<Byte>, picks: seq<nat>, swaps: seq<nat>, k: CharClass)
    requires ValidEntropy(c, bytes, picks, swaps)
    requires c.length >= 4 && AnyEnabled(c)
    ensures HasClass(Generated(c, bytes, picks, swaps), k) <==> Enabled(c, k)
  {
    var password := Generated(c, bytes, picks, swaps);
    GeneratedProperties(c, bytes, picks, swaps);
    if HasClass(password, k) {
      var i :| 0 <= i < |password| && Matches(k, password[i]);
      var ch := password[i];
      MatchesIffInClass(k, ch);
      CharsetMembers(c, ch);
      var other :| Enabled(c, other) && ch in Chars(other);
      if other != k {
        ClassesDisjoint(k, other, ch);
      }
    }
  }

  /** The default policy (12 characters; upper case, lower case, digits)
      always yields a "Strong" password of 70 points whose only suggestion
      is to include symbols. */
  lemma DefaultPolicyStrength(bytes: seq<Byte>, picks: seq<nat>, swaps: seq<nat>)
    requires ValidEntropy(DefaultCriteria, bytes, picks, swaps)
    ensures Strength(Generated(DefaultCriteria, bytes, picks, swaps))
              == StrengthResult(70, "Strong", [SymbolsHint])
  {
    var c := DefaultCriteria;
    var password := Generated(c, bytes, picks, swaps);
    GeneratedProperties(c, bytes, picks, swaps);
    GeneratedClassesExact(c, bytes, picks, swaps, Upper);
    GeneratedClassesExact(c, bytes, picks, swaps, Lower);
    GeneratedClassesExact(c, bytes, picks, swaps, Number);
    GeneratedClassesExact(c, bytes, picks, swaps, Symbol);
  }

  /** With every class enabled and at least 16 characters, the generated
      password reaches the maximum score with no suggestion. */
  lemma AllClassesLongStrength(c: Criteria, bytes: seq<Byte>, picks: seq<nat>, swaps: seq<nat>)
    requires ValidEntropy(c, bytes, picks, swaps)
    requires AllClassesEnabled(c) && c.length >= 16
    ensures Strength(Generated(c, bytes, picks, swaps)) == StrengthResult(100, "Very Strong", [])
  {
    GeneratedProperties(c, bytes, picks, swaps);
  }
}
