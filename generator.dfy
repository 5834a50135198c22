/** `generatePassword`: charset assembly, byte mapping, the class-coverage
    check, the repair of the leading positions and the Fisher-Yates shuffle.

    The random sources are parameters: `bytes` are the values written by
    `crypto.getRandomValues`, `picks` the character index chosen for each
    enabled class during the repair, and `swaps[i]` the index the shuffle
    exchanges with position `i`. */
module Generator {
  import opened CharacterSets
  import opened PasswordCriteria

  /** One element of the `Uint8Array` filled by the secure random source. */
  type Byte = x: int | 0 <= x < 256

  // ---------------------------------------------------------------------
  // Charset

  /** The class strings of `ks`, joined in order. */
  function Concat(ks: seq<CharClass>): (s: string)
  {
    if ks == [] then "" else Chars(ks[0]) + Concat(ks[1..])
  }

  /** The effective charset: the enabled class strings in the fixed class
      order, or the lower-case class when that is empty. */
  function Charset(c: Criteria): (charset: string)
  {
    var joined := Concat(EnabledClasses(c));
    if joined == "" then Lowercase else joined
  }

  lemma {:induction false} ConcatMembers(ks: seq<CharClass>, ch: char)
    ensures ch in Concat(ks) <==> exists t :: 0 <= t < |ks| && ch in Chars(ks[t])
    ensures |Concat(ks)| == 0 <==> ks == []
  {
    if ks != [] {
      ConcatMembers(ks[1..], ch);
      if ch in Concat(ks[1..]) {
        var t :| 0 <= t < |ks[1..]| && ch in Chars(ks[1..][t]);
        assert ch in Chars(ks[t + 1]);
      }
      if exists t :: 0 <= t < |ks| && ch in Chars(ks[t]) {
        var t :| 0 <= t < |ks| && ch in Chars(ks[t]);
        if t > 0 {
          assert ch in Chars(ks[1..][t - 1]);
        }
      }
    }
  }

  /** A character is in the charset exactly when it belongs to an enabled
      class, or, with no class enabled, when it is lower case. The charset
      is never empty. */
  lemma CharsetMembers(c: Criteria, ch: char)
    ensures |Charset(c)| > 0
    ensures ch in Charset(c) <==>
              (exists k :: Enabled(c, k) && ch in Chars(k))
              || (!AnyEnabled(c) && ch in Lowercase)
  {
    var ks := EnabledClasses(c);
    ConcatMembers(ks, ch);
    if !AnyEnabled(c) {
      assert Charset(c) == Lowercase;
    } else {
      if exists k :: Enabled(c, k) && ch in Chars(k) {
        var k :| Enabled(c, k) && ch in Chars(k);
        assert k in ks;
        var t :| 0 <= t < |ks| && ks[t] == k;
      }
    }
  }

  lemma {:induction false} ConcatAppend(ks: seq<CharClass>, ls: seq<CharClass>)
    ensures Concat(ks + ls) == Concat(ks) + Concat(ls)
  {
    if ks == [] {
      assert ks + ls == ls;
    } else {
      ConcatAppend(ks[1..], ls);
      assert (ks + ls)[1..] == ks[1..] + ls;
      var head := Chars(ks[0]);
      calc {
        Concat(ks + ls);
        head + Concat(ks[1..] + ls);
        head + (Concat(ks[1..]) + Concat(ls));
        (head + Concat(ks[1..])) + Concat(ls);
      }
    }
  }

  /** Appending a class string to the charset under construction appends
      that class to the classes joined so far. */
  lemma ConcatAppendOne(ks: seq<CharClass>, k: CharClass)
    ensures Concat(ks + [k]) == Concat(ks) + Chars(k)
  {
    ConcatAppend(ks, [k]);
    assert Concat([k]) == Chars(k) + Concat([]);
  }

  /** Builds the charset by appending the enabled class strings. */
  method BuildCharset(c: Criteria) returns (charset: string)
    ensures charset == Charset(c)
    ensures |charset| > 0
    ensures !AnyEnabled(c) ==> charset == Lowercase
  {
    charset := "";
    ghost var joined: seq<CharClass> := [];
    if c.includeUppercase {
      ConcatAppendOne(joined, Upper);
      charset, joined := charset + Uppercase, joined + [Upper];
    }
    if c.includeLowercase {
      ConcatAppendOne(joined, Lower);
      charset, joined := charset + Lowercase, joined + [Lower];
    }
    if c.includeNumbers {
      ConcatAppendOne(joined, Number);
      charset, joined := charset + Numbers, joined + [Number];
    }
    if c.includeSymbols {
      ConcatAppendOne(joined, Symbol);
      charset, joined := charset + Symbols, joined + [Symbol];
    }
    assert joined == EnabledClasses(c);
    assert charset == Concat(joined);
    ConcatMembers(joined, 'a');
    if charset == "" {
      charset := Lowercase;
    }
  }

  lemma ConcatPiece(flag: bool, k: CharClass)
    ensures Concat(if flag then [k] else []) == if flag then Chars(k) else ""
  {
    if flag {
      assert Concat([k]) == Chars(k) + Concat([]);
    }
  }

  /** The charset is the enabled class strings joined in the order upper,
      lower, numbers, symbols, and the lower-case class when none is enabled. */
  lemma CharsetIsJoin(c: Criteria)
    ensures Charset(c) ==
      var joined := (if c.includeUppercase then Uppercase else "")
                    + (if c.includeLowercase then Lowercase else "")
                    + (if c.includeNumbers then Numbers else "")
                    + (if c.includeSymbols then Symbols else "");
      if joined == "" then Lowercase else joined
  {
    var u := if c.includeUppercase then [Upper] else [];
    var l := if c.includeLowercase then [Lower] else [];
    var n := if c.includeNumbers then [Number] else [];
    var s := if c.includeSymbols then [Symbol] else [];
    assert EnabledClasses(c) == u + l + n + s;
    ConcatAppend(u + l + n, s);
    ConcatAppend(u + l, n);
    ConcatAppend(u, l);
    ConcatPiece(c.includeUppercase, Upper);
    ConcatPiece(c.includeLowercase, Lower);
    ConcatPiece(c.includeNumbers, Number);
    ConcatPiece(c.includeSymbols, Symbol);
  }

  // ---------------------------------------------------------------------
  // Candidate

  /** The unrepaired candidate: character `i` is `charset[bytes[i] % |charset|]`. */
  function Candidate(charset: string, bytes: seq<Byte>): (candidate: string)
    requires |charset| > 0
  {
    seq(|bytes|, i requires 0 <= i < |bytes| => charset[bytes[i] % |charset|])
  }

  /** Maps the random bytes onto the charset, one character per byte. */
  method MapBytes(charset: string, bytes: seq<Byte>) returns (result: string)
    requires |charset| > 0
    ensures |result| == |bytes|
    ensures forall i :: 0 <= i < |bytes| ==> result[i] == charset[bytes[i] % |charset|]
    ensures forall i :: 0 <= i < |result| ==> result[i] in charset
    ensures result == Candidate(charset, bytes)
  {
    result := "";
    for i := 0 to |bytes|
      invariant |result| == i
      invariant forall m :: 0 <= m < i ==> result[m] == charset[bytes[m] % |charset|]
    {
      result := result + [charset[bytes[i] % |charset|]];
    }
  }

  // ---------------------------------------------------------------------
  // Coverage check

  /** Some enabled class has no character in `s` (`needsRegeneration`). */
  predicate NeedsRegeneration(c: Criteria, s: string)
  {
    (c.includeUppercase && !HasClass(s, Upper))
    || (c.includeLowercase && !HasClass(s, Lower))
    || (c.includeNumbers && !HasClass(s, Number))
    || (c.includeSymbols && !HasClass(s, Symbol))
  }

  /** Every enabled class has a character in `s`. */
  predicate CoversEnabled(c: Criteria, s: string)
  {
    forall k :: Enabled(c, k) ==> HasClass(s, k)
  }

  lemma NeedsRegenerationIffUncovered(c: Criteria, s: string)
    ensures NeedsRegeneration(c, s) <==> !CoversEnabled(c, s)
  {
    if !NeedsRegeneration(c, s) {
      forall k | Enabled(c, k) ensures HasClass(s, k) {
        match k
        case Upper =>
        case Lower =>
        case Number =>
        case Symbol =>
      }
    }
  }

  // ---------------------------------------------------------------------
  // Repair

  /** The repair's random pick for each class is an index into that class;
      `picks[Ordinal(k)]` is the pick for class `k`, used only when `k` is enabled. */
  predicate ValidPicks(picks: seq<nat>)
  {
    |picks| == 4 && forall k: CharClass :: picks[Ordinal(k)] < |Chars(k)|
  }

  /** The required character drawn for class `k`. */
  function Draw(k: CharClass, picks: seq<nat>): (ch: char)
    requires ValidPicks(picks)
  {
    Chars(k)[picks[Ordinal(k)]]
  }

  /** The characters drawn for the classes `ks`, in order. */
  function DrawAll(ks: seq<CharClass>, picks: seq<nat>): (drawn: string)
    requires ValidPicks(picks)
  {
    if ks == [] then [] else [Draw(ks[0], picks)] + DrawAll(ks[1..], picks)
  }

  /** One required character per enabled class, in class order. */
  function RequiredChars(c: Criteria, picks: seq<nat>): (required: string)
    requires ValidPicks(picks)
  {
    DrawAll(EnabledClasses(c), picks)
  }

  lemma {:induction false} DrawAllAppendOne(ks: seq<CharClass>, k: CharClass, picks: seq<nat>)
    requires ValidPicks(picks)
    ensures DrawAll(ks + [k], picks) == DrawAll(ks, picks) + [Draw(k, picks)]
  {
    if ks == [] {
      assert [] + [k] == [k];
    } else {
      DrawAllAppendOne(ks[1..], k, picks);
      assert (ks + [k])[1..] == ks[1..] + [k];
    }
  }

  /** Position `t` of the drawn characters holds a character of class `ks[t]`. */
  lemma {:induction false} DrawAllAt(ks: seq<CharClass>, picks: seq<nat>, t: int)
    requires ValidPicks(picks) && 0 <= t < |ks|
    ensures |DrawAll(ks, picks)| == |ks|
    ensures DrawAll(ks, picks)[t] in Chars(ks[t])
    decreases ks
  {
    if t == 0 {
      DrawAllLength(ks[1..], picks);
    } else {
      DrawAllAt(ks[1..], picks, t - 1);
    }
  }

  lemma {:induction false} DrawAllLength(ks: seq<CharClass>, picks: seq<nat>)
    requires ValidPicks(picks)
    ensures |DrawAll(ks, picks)| == |ks|
  {
    if ks != [] {
      DrawAllLength(ks[1..], picks);
    }
  }

  /** Draws the required characters, pushing one per enabled class. */
  method PickRequired(c: Criteria, picks: seq<nat>) returns (required: string)
    requires ValidPicks(picks)
    ensures required == RequiredChars(c, picks)
    ensures |required| == |EnabledClasses(c)| <= 4
    ensures forall t :: 0 <= t < |required| ==> required[t] in Chars(EnabledClasses(c)[t])
  {
    required := [];
    ghost var drawn: seq<CharClass> := [];
    if c.includeUppercase {
      DrawAllAppendOne(drawn, Upper, picks);
      required, drawn := required + [Uppercase[picks[0]]], drawn + [Upper];
    }
    if c.includeLowercase {
      DrawAllAppendOne(drawn, Lower, picks);
      required, drawn := required + [Lowercase[picks[1]]], drawn + [Lower];
    }
    if c.includeNumbers {
      DrawAllAppendOne(drawn, Number, picks);
      required, drawn := required + [Numbers[picks[2]]], drawn + [Number];
    }
    if c.includeSymbols {
      DrawAllAppendOne(drawn, Symbol, picks);
      required, drawn := required + [Symbols[picks[3]]], drawn + [Symbol];
    }
    assert drawn == EnabledClasses(c);
    forall t | 0 <= t < |required| ensures required[t] in Chars(drawn[t]) {
      DrawAllAt(drawn, picks, t);
    }
  }

  /** `s` with its leading positions overwritten by `required`; positions
      beyond the end of `s` are skipped. */
  function Overwritten(s: string, required: string): (t: string)
  {
    seq(|s|, i requires 0 <= i < |s| => if i < |required| then required[i] else s[i])
  }

  /** Overwrites positions 0, 1, ... of `a` with the required characters. */
  method PlaceRequired(a: array<char>, required: string)
    modifies a
    ensures a[..] == Overwritten(old(a[..]), required)
    ensures forall i :: 0 <= i < a.Length && i < |required| ==> a[i] == required[i]
    ensures forall i :: |required| <= i < a.Length ==> a[i] == old(a[i])
  {
    for index := 0 to |required|
      invariant forall i :: 0 <= i < a.Length && i < index ==> a[i] == required[i]
      invariant forall i :: index <= i < a.Length ==> a[i] == old(a[i])
    {
      if index < a.Length {
        a[index] := required[index];
      }
    }
  }

  // ---------------------------------------------------------------------
  // Shuffle

  /** The shuffle's random choice at step `i` lies in [0, i]. */
  predicate ValidSwaps(swaps: seq<nat>, n: nat)
  {
    |swaps| == n && forall i :: 0 <= i < n ==> swaps[i] <= i
  }

  function Swap(s: string, i: nat, j: nat): (t: string)
    requires i < |s| && j < |s|
  {
    s[i := s[j]][j := s[i]]
  }

  /** The Fisher-Yates steps i, i-1, ..., 1 applied to `s`. */
  function FisherYates(s: string, swaps: seq<nat>, i: nat): (t: string)
    requires i < |s| && ValidSwaps(swaps, |s|)
    decreases i
  {
    if i == 0 then s else FisherYates(Swap(s, i, swaps[i]), swaps, i - 1)
  }

  /** The complete shuffle, from the last index down to 1. */
  function Shuffled(s: string, swaps: seq<nat>): (t: string)
    requires ValidSwaps(swaps, |s|)
  {
    if |s| == 0 then s else FisherYates(s, swaps, |s| - 1)
  }

  lemma SwapPermutes(s: string, i: nat, j: nat)
    requires i < |s| && j < |s|
    ensures |Swap(s, i, j)| == |s|
    ensures multiset(Swap(s, i, j)) == multiset(s)
  {
    var t := s[i := s[j]];
    assert multiset(t) == multiset(s) - multiset{s[i]} + multiset{s[j]};
    assert multiset(t[j := s[i]]) == multiset(t) - multiset{t[j]} + multiset{s[i]};
  }

  lemma {:induction false} FisherYatesPermutes(s: string, swaps: seq<nat>, i: nat)
    requires i < |s| && ValidSwaps(swaps, |s|)
    ensures |FisherYates(s, swaps, i)| == |s|
    ensures multiset(FisherYates(s, swaps, i)) == multiset(s)
    decreases i
  {
    if i > 0 {
      SwapPermutes(s, i, swaps[i]);
      FisherYatesPermutes(Swap(s, i, swaps[i]), swaps, i - 1);
    }
  }

  /** The shuffle is a permutation: same length, same multiset of characters. */
  lemma ShuffledPermutes(s: string, swaps: seq<nat>)
    requires ValidSwaps(swaps, |s|)
    ensures |Shuffled(s, swaps)| == |s|
    ensures multiset(Shuffled(s, swaps)) == multiset(s)
  {
    if |s| > 0 {
      FisherYatesPermutes(s, swaps, |s| - 1);
    }
  }

  /** Shuffles `a` in place with the descending Fisher-Yates loop. */
  method Shuffle(a: array<char>, swaps: seq<nat>)
    requires ValidSwaps(swaps, a.Length)
    modifies a
    ensures a[..] == Shuffled(old(a[..]), swaps)
    ensures multiset(a[..]) == multiset(old(a[..]))
  {
    var i := a.Length - 1;
    while i > 0
      invariant a.Length == 0 ==> i == -1
      invariant a.Length > 0 ==> 0 <= i < a.Length
      invariant a.Length > 0 ==> FisherYates(a[..], swaps, i) == Shuffled(old(a[..]), swaps)
    {
      var j := swaps[i];
      a[i], a[j] := a[j], a[i];
      i := i - 1;
    }
    ShuffledPermutes(old(a[..]), swaps);
  }

  // ---------------------------------------------------------------------
  // The whole generation

  /** The largest byte array `crypto.getRandomValues` fills; a larger one
      raises a quota error, so no password is produced. */
  const MaxRandomBytes: nat := 65536

  /** What the random inputs must satisfy for a policy whose length the
      random source accepts: non-negative and at most `MaxRandomBytes`. */
  predicate ValidEntropy(c: Criteria, bytes: seq<Byte>, picks: seq<nat>, swaps: seq<nat>)
  {
    0 <= c.length <= MaxRandomBytes && |bytes| == c.length
    && ValidPicks(picks) && ValidSwaps(swaps, c.length)
  }

  /** The password `generatePassword` produces from these random inputs. */
  function Generated(c: Criteria, bytes: seq<Byte>, picks: seq<nat>, swaps: seq<nat>): (password: string)
    requires ValidEntropy(c, bytes, picks, swaps)
  {
    var candidate := Candidate(Charset(c), bytes);
    if NeedsRegeneration(c, candidate) && c.length >= 4
    then Shuffled(Overwritten(candidate, RequiredChars(c, picks)), swaps)
    else candidate
  }

  /** Every character of `s` is in the charset of `c`. */
  predicate InCharset(c: Criteria, s: string)
  {
    forall i :: 0 <= i < |s| ==> s[i] in Charset(c)
  }

  lemma InCharsetPermutation(c: Criteria, s: string, t: string)
    requires multiset(s) == multiset(t) && InCharset(c, s)
    ensures InCharset(c, t)
  {
    forall i | 0 <= i < |t| ensures t[i] in Charset(c) {
      assert t[i] in multiset(s);
      var j :| 0 <= j < |s| && s[j] == t[i];
    }
  }

  /** The required characters all come from enabled classes, hence from the charset. */
  lemma RequiredInCharset(c: Criteria, picks: seq<nat>)
    requires ValidPicks(picks)
    ensures InCharset(c, RequiredChars(c, picks))
  {
    var ks := EnabledClasses(c);
    var req := RequiredChars(c, picks);
    DrawAllLength(ks, picks);
    forall t | 0 <= t < |req| ensures req[t] in Charset(c) {
      DrawAllAt(ks, picks, t);
      assert Enabled(c, ks[t]) && req[t] in Chars(ks[t]);
      CharsetMembers(c, req[t]);
    }
  }

  /** After the overwrite, each enabled class has its character among the
      leading positions, provided the password has room for all of them. */
  lemma RepairCovers(c: Criteria, candidate: string, picks: seq<nat>)
    requires ValidPicks(picks) && |candidate| >= 4
    ensures CoversEnabled(c, Overwritten(candidate, RequiredChars(c, picks)))
  {
    var ks := EnabledClasses(c);
    var req := RequiredChars(c, picks);
    var s := Overwritten(candidate, req);
    DrawAllLength(ks, picks);
    forall k | Enabled(c, k) ensures HasClass(s, k) {
      assert k in ks;
      var t :| 0 <= t < |ks| && ks[t] == k;
      DrawAllAt(ks, picks, t);
      assert s[t] == req[t];
      HasClassFromMember(s, k, t);
    }
  }

  /** The generated password has the requested length, uses only charset
      characters, and when it has at least four characters, contains a
      character of every enabled class. */
  lemma GeneratedProperties(c: Criteria, bytes: seq<Byte>, picks: seq<nat>, swaps: seq<nat>)
    requires ValidEntropy(c, bytes, picks, swaps)
    ensures |Generated(c, bytes, picks, swaps)| == c.length
    ensures InCharset(c, Generated(c, bytes, picks, swaps))
    ensures c.length >= 4 ==> CoversEnabled(c, Generated(c, bytes, picks, swaps))
  {
    CharsetMembers(c, 'a');
    var candidate := Candidate(Charset(c), bytes);
    var password := Generated(c, bytes, picks, swaps);
    if NeedsRegeneration(c, candidate) && c.length >= 4 {
      var req := RequiredChars(c, picks);
      var repaired := Overwritten(candidate, req);
      ShuffledPermutes(repaired, swaps);
      RequiredInCharset(c, picks);
      assert InCharset(c, repaired) by {
        forall i | 0 <= i < |repaired| ensures repaired[i] in Charset(c) {
          if i >= |req| {
            assert repaired[i] == candidate[i];
          }
        }
      }
      InCharsetPermutation(c, repaired, password);
      RepairCovers(c, candidate, picks);
      forall k | Enabled(c, k) ensures HasClass(password, k) {
        HasClassPermutation(repaired, password, k);
      }
    } else if c.length >= 4 {
      NeedsRegenerationIffUncovered(c, candidate);
    }
  }

  /** The repair branch: overwrite the leading positions with one required
      character per enabled class, then shuffle. */
  method Repair(c: Criteria, result: string, picks: seq<nat>, swaps: seq<nat>)
    returns (repaired: string)
    requires ValidPicks(picks) && ValidSwaps(swaps, |result|)
    ensures repaired == Shuffled(Overwritten(result, RequiredChars(c, picks)), swaps)
    ensures multiset(repaired) == multiset(Overwritten(result, RequiredChars(c, picks)))
  {
    var required := PickRequired(c, picks);
    var resultArray := new char[|result|](i requires 0 <= i < |result| => result[i]);
    assert resultArray[..] == result;
    PlaceRequired(resultArray, required);
    Shuffle(resultArray, swaps);
    repaired := resultArray[..];
  }

  /** `generatePassword`, with its random inputs made explicit. */
  method GeneratePassword(c: Criteria, bytes: seq<Byte>, picks: seq<nat>, swaps: seq<nat>)
    returns (password: string)
    requires ValidEntropy(c, bytes, picks, swaps)
    ensures password == Generated(c, bytes, picks, swaps)
    ensures |password| == c.length
    ensures forall i :: 0 <= i < |password| ==> password[i] in Charset(c)
    ensures c.length >= 4 ==> forall k :: Enabled(c, k) ==> HasClass(password, k)
    ensures (!NeedsRegeneration(c, Candidate(Charset(c), bytes)) || c.length < 4) ==>
              password == Candidate(Charset(c), bytes)
  {
    var charset := BuildCharset(c);
    var result := MapBytes(charset, bytes);

    var needsRegeneration := false;
    if c.includeUppercase && !HasClass(result, Upper) { needsRegeneration := true; }
    if c.includeLowercase && !HasClass(result, Lower) { needsRegeneration := true; }
    if c.includeNumbers && !HasClass(result, Number) { needsRegeneration := true; }
    if c.includeSymbols && !HasClass(result, Symbol) { needsRegeneration := true; }
    assert needsRegeneration == NeedsRegeneration(c, result);

    if needsRegeneration && c.length >= 4 {
      result := Repair(c, result, picks, swaps);
    }
    password := result;
    GeneratedProperties(c, bytes, picks, swaps);
  }
}
