# Secure password generator — verified model of the password engine

This project models the password engine of the secure password generator,
the `usePasswordGenerator` hook in `src/hooks/use-password-generator.ts`.
It covers three operations:

- **`setCriteria`**: normalises a policy (a length and four class flags). If
  no class is selected, it switches lower case on.
- **`generatePassword`**: builds the charset from the enabled classes in the
  fixed order upper, lower, numbers, symbols, and falls back to lower case if
  that is empty. It maps each secure random byte to `charset[byte % |charset|]`
  and tests every enabled class with its regular expression. When a class is
  missing and the length is at least 4, it overwrites the leading positions
  with one random character per enabled class and then runs a Fisher–Yates
  shuffle.
- **`getPasswordStrength`**: scores a password with an additive point table,
  maps the score to a tier ("Very Strong", "Strong", "Fair", "Weak") and lists
  one suggestion per failed check. The empty password gets a sentinel result.

Modules:

- `CharacterSets` (`character_sets.dfy`) holds the four class strings and the
  regular-expression character tests. It proves that each test agrees with
  membership in its class string.
- `PasswordCriteria` (`criteria.dfy`) holds the policy value and `SetCriteria`.
- `Generator` (`generator.dfy`) holds generation as imperative methods. The
  byte loop builds a string. The repair and the shuffle work in place on an
  `array<char>`. Each method is proved against a specification function
  (`Charset`, `Candidate`, `RequiredChars`, `Overwritten`, `Shuffled`,
  `Generated`), and the properties are proved about those functions.
- `StrengthScorer` (`strength.dfy`) holds the scorer. It is a method that
  accumulates the score and the suggestions, proved equal to the declarative
  table `Strength`.
- `GeneratedStrength` (`generated_strength.dfy`) connects the two halves.
  When at least one class is enabled and the length is at least 4, a
  generated password contains exactly the enabled classes, so its score
  follows from the policy.

The random sources are parameters:

- `bytes` stands for the values `crypto.getRandomValues` writes. It has one
  `Byte` (0..255) per requested character.
- `picks[Ordinal(k)]` stands for `Math.floor(Math.random() * |class k|)`, the
  repair's choice for class `k`. It is an index below the class size.
- `swaps[i]` stands for `Math.floor(Math.random() * (i + 1))`, the shuffle's
  choice at step `i`. It lies in `[0, i]`.

## Model

| member | source | states |
|---|---|---|
| `CharacterSets.MatchesIffInClass` | src/hooks/use-password-generator.ts:81-84 | the tests `/[A-Z]/`, `/[a-z]/`, `/[0-9]/` and the symbol bracket expression accept a character exactly when it is in the corresponding class string |
| `CharacterSets.ClassesDisjoint` | src/hooks/use-password-generator.ts:24-29 | no character belongs to two of the four class strings |
| `CharacterSets.HasClassPermutation` | src/hooks/use-password-generator.ts:129-138 | a class test depends only on the multiset of characters, so reordering a password does not change it |
| `PasswordCriteria.EnabledClasses` | src/hooks/use-password-generator.ts:60-63 | the enabled classes in fixed order: at most four, a class is listed exactly when its flag is set, and the list is empty exactly when no flag is set |
| `PasswordCriteria.SetCriteria` | src/hooks/use-password-generator.ts:43-55 | the stored policy has at least one class; if some flag was set, it equals the input; otherwise only `includeLowercase` changes, to true, and the length and other flags are untouched |
| `Generator.CharsetMembers` | src/hooks/use-password-generator.ts:58-67 | the charset is never empty; a character is in it exactly when it belongs to an enabled class, or, with no class enabled, when it is lower case |
| `Generator.CharsetIsJoin` | src/hooks/use-password-generator.ts:58-67 | the charset is exactly the concatenation of the enabled class strings in the order upper, lower, numbers, symbols, or the lower-case string when that concatenation is empty |
| `Generator.BuildCharset` | src/hooks/use-password-generator.ts:58-67 | appending the enabled class strings one flag at a time yields the charset; it is non-empty and is the lower-case class when no flag is set |
| `Generator.MapBytes` | src/hooks/use-password-generator.ts:73-76 | the candidate has one character per random byte, character `i` is the charset character at index `bytes[i]` modulo the charset length, and every character is in the charset |
| `Generator.NeedsRegenerationIffUncovered` | src/hooks/use-password-generator.ts:79-84 | the four flag-and-test checks set `needsRegeneration` exactly when some enabled class has no character in the candidate |
| `Generator.PickRequired` | src/hooks/use-password-generator.ts:88-92 | the required characters are one per enabled class, in class order; there are at most four, and the character at position `t` belongs to the `t`-th enabled class |
| `Generator.PlaceRequired` | src/hooks/use-password-generator.ts:95-100 | positions below the number of required characters receive them; all later positions keep the candidate's characters |
| `Generator.ShuffledPermutes` | src/hooks/use-password-generator.ts:103-106 | the Fisher–Yates pass keeps the length and the multiset of characters |
| `Generator.Shuffle` | src/hooks/use-password-generator.ts:103-106 | the descending in-place swap loop leaves the array equal to the specified shuffle of its old contents, a permutation of them |
| `Generator.RequiredInCharset` | src/hooks/use-password-generator.ts:88-92 | every repair character comes from an enabled class and is therefore in the charset |
| `Generator.RepairCovers` | src/hooks/use-password-generator.ts:86-100 | with at least four positions, the overwritten array contains a character of every enabled class |
| `Generator.Repair` | src/hooks/use-password-generator.ts:86-109 | the repair branch returns the shuffle of the overwritten candidate, a permutation of it |
| `Generator.GeneratedProperties` | src/hooks/use-password-generator.ts:57-112 | the password has exactly `length` characters, all in the charset, and for `length >= 4` it contains a character of every enabled class |
| `Generator.GeneratePassword` | src/hooks/use-password-generator.ts:57-112 | for a length the random source accepts (0 to 65536), the method produces the specified password, with the length, charset and coverage guarantees; when no class is missing or `length < 4`, it returns the unrepaired candidate unchanged |
| `StrengthScorer.GetPasswordStrength` | src/hooks/use-password-generator.ts:114-151 | the accumulated score, label and suggestions equal the point table; the score lies in [0, 100]; the sentinel label appears exactly for the empty password; at most five suggestions |
| `StrengthScorer.ScoreBounds` | src/hooks/use-password-generator.ts:119-150 | for a non-empty password the table gives 0 to 100 points, so the cap never changes the score; 100 is reached exactly with 16 or more characters and all four classes |
| `StrengthScorer.FeedbackExact` | src/hooks/use-password-generator.ts:122-139 | a class suggestion appears exactly when that class is absent; the length suggestion appears exactly when the password has fewer than 6 characters |
| `StrengthScorer.NoFeedbackIff` | src/hooks/use-password-generator.ts:122-139 | there are no suggestions exactly when the password has at least 6 characters and all four classes |
| `StrengthScorer.ExampleLowercaseEight` | src/hooks/use-password-generator.ts:114-150 | "abcdefgh" scores 30, "Weak", with the upper-case, numbers and symbols suggestions in that order |
| `StrengthScorer.ExampleAllClasses` | src/hooks/use-password-generator.ts:114-150 | "Abcdefghijkl1!" scores 90, "Very Strong", with no suggestion |
| `GeneratedStrength.GeneratedClassesExact` | src/hooks/use-password-generator.ts:57-112 | with a class enabled and `length >= 4`, a generated password contains a character of a class exactly when that class is enabled |
| `GeneratedStrength.DefaultPolicyStrength` | src/hooks/use-password-generator.ts:31-37 | every password generated with the default policy scores 70, "Strong", with the single suggestion to include symbols |
| `GeneratedStrength.AllClassesLongStrength` | src/hooks/use-password-generator.ts:114-151 | with all four classes and at least 16 characters, a generated password scores 100, "Very Strong", with no suggestion |

## Left out

- React plumbing is not modelled: `useKV` persistence of the criteria, `useState` for the password and `useCallback` memoisation. The policy and the password are plain parameters and results.
- The UI (`src/components/PasswordGenerator.tsx`, `src/App.tsx`) is not part of this model. This covers the animation delay, clipboard copy, toasts, sliders and checkboxes, and the colour and badge mappings of the score thresholds.
- The random sources `crypto.getRandomValues` and `Math.random` are parameters. Claims about distributions are out of scope: uniformity, the modulo bias of `byte % |charset|`, and that repeated calls differ.
- Negative and fractional lengths are out of scope. `GeneratePassword` requires `length >= 0`, because the source throws when allocating the byte array for a negative length.
- Generator.GeneratePassword: requires `length <= 65536` (`MaxRandomBytes`). For a longer length `crypto.getRandomValues` raises a quota error and no password is set; that error path is not modelled.
- PasswordCriteria.SetCriteria: returns the normalised policy as a new value. In the source the caller's object is mutated in place, and that aliasing is not modelled.
- Generator.GeneratePassword: the repair picks are indexed by class. In the source, `Math.random` is called only for enabled classes, in class order. This is equivalent, since unused picks are ignored. The shuffle choices are indexed by step, and `swaps[0]` is unused.
- Strings are sequences of Dafny characters, not UTF-16 code units. Every character the generator produces is ASCII, so the two agree.
- StrengthScorer.GetPasswordStrength: only string inputs are modelled. The source's `!password` test also treats `null` and `undefined` as "no password".
