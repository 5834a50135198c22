/** The generation policy and its normalisation (`setCriteria`). */
module PasswordCriteria {
  import opened CharacterSets

  /** The requested length and the four class flags. The length is not
      validated or clamped here. */
  datatype Criteria = Criteria(
    length: int,
    includeUppercase: bool,
    includeLowercase: bool,
    includeNumbers: bool,
    includeSymbols: bool)

  /** The policy as first stored: 12 characters of upper case, lower case and digits. */
  const DefaultCriteria: Criteria := Criteria(12, true, true, true, false)

  /** The flag that selects class `k`. */
  predicate Enabled(c: Criteria, k: CharClass)
  {
    match k
    case Upper => c.includeUppercase
    case Lower => c.includeLowercase
    case Number => c.includeNumbers
    case Symbol => c.includeSymbols
  }

  predicate AnyEnabled(c: Criteria)
  {
    c.includeUppercase || c.includeLowercase || c.includeNumbers || c.includeSymbols
  }

  predicate AllClassesEnabled(c: Criteria)
  {
    c.includeUppercase && c.includeLowercase && c.includeNumbers && c.includeSymbols
  }

  /** The enabled classes, in the fixed order upper, lower, numbers, symbols. */
  function EnabledClasses(c: Criteria): (ks: seq<CharClass>)
    ensures |ks| <= 4
    ensures forall k :: k in ks <==> Enabled(c, k)
    ensures ks == [] <==> !AnyEnabled(c)
  {
    (if c.includeUppercase then [Upper] else [])
    + (if c.includeLowercase then [Lower] else [])
    + (if c.includeNumbers then [Number] else [])
    + (if c.includeSymbols then [Symbol] else [])
  }

  /** `setCriteria`: when no class is selected, lower case is switched on;
      nothing else is touched. */
  method SetCriteria(newCriteria: Criteria) returns (stored: Criteria)
    ensures AnyEnabled(stored)
    ensures stored.length == newCriteria.length
    ensures stored.includeUppercase == newCriteria.includeUppercase
    ensures stored.includeNumbers == newCriteria.includeNumbers
    ensures stored.includeSymbols == newCriteria.includeSymbols
    ensures stored.includeLowercase == (newCriteria.includeLowercase || !AnyEnabled(newCriteria))
    ensures AnyEnabled(newCriteria) ==> stored == newCriteria
  {
    stored := newCriteria;
    var hasAnyType := newCriteria.includeUppercase
                      || newCriteria.includeLowercase
                      || newCriteria.includeNumbers
                      || newCriteria.includeSymbols;
    if !hasAnyType {
      stored := stored.(includeLowercase := true);
    }
  }
}
