/** `getPasswordStrength`: the point table, the label thresholds and the
    ordered improvement suggestions. */
module StrengthScorer {
  import opened CharacterSets

  datatype StrengthResult = StrengthResult(score: int, labelText: string, feedback: seq<string>)

  const NoPasswordLabel: string := "No password"
  const NoPasswordHint: string := "Generate a password to see strength analysis"

  const LengthHint: string := "Use at least 8 characters"
  const LowercaseHint: string := "Include lowercase letters"
  const UppercaseHint: string := "Include uppercase letters"
  const NumbersHint: string := "Include numbers"
  const SymbolsHint: string := "Include symbols for maximum security"

  /** The result reported before any password exists. */
  const NoPassword: StrengthResult := StrengthResult(0, NoPasswordLabel, [NoPasswordHint])

  /** Points for length: 25 from 12 characters, 15 from 8, 5 from 6, else none. */
  function LengthPoints(n: nat): (points: nat)
  {
    if n >= 12 then 25 else if n >= 8 then 15 else if n >= 6 then 5 else 0
  }

  /** Points for containing a character of class `k`. */
  function ClassPoints(k: CharClass): (points: nat)
  {
    if k == Symbol then 20 else 15
  }

  /** The suggestion given when class `k` is absent. */
  function ClassHint(k: CharClass): (hint: string)
  {
    match k
    case Lower => LowercaseHint
    case Upper => UppercaseHint
    case Number => NumbersHint
    case Symbol => SymbolsHint
  }

  function PointsIf(b: bool, points: nat): (earned: nat)
  {
    if b then points else 0
  }

  /** The additive point table. */
  function Points(p: string): (points: nat)
  {
    LengthPoints(|p|)
    + PointsIf(HasClass(p, Lower), ClassPoints(Lower))
    + PointsIf(HasClass(p, Upper), ClassPoints(Upper))
    + PointsIf(HasClass(p, Number), ClassPoints(Number))
    + PointsIf(HasClass(p, Symbol), ClassPoints(Symbol))
    + PointsIf(|p| >= 16, 10)
  }

  /** The tier for a score: thresholds 85, 70 and 50, checked from the top. */
  function Label(score: int): (labelText: string)
  {
    if score >= 85 then "Very Strong"
    else if score >= 70 then "Strong"
    else if score >= 50 then "Fair"
    else "Weak"
  }

  function HintIf(failed: bool, hint: string): (hints: seq<string>)
  {
    if failed then [hint] else []
  }

  /** One suggestion per failed check, in the order length, lower case,
      upper case, numbers, symbols. */
  function Feedback(p: string): (hints: seq<string>)
  {
    HintIf(|p| < 6, LengthHint)
    + HintIf(!HasClass(p, Lower), ClassHint(Lower))
    + HintIf(!HasClass(p, Upper), ClassHint(Upper))
    + HintIf(!HasClass(p, Number), ClassHint(Number))
    + HintIf(!HasClass(p, Symbol), ClassHint(Symbol))
  }

  /** The analysis of a password: the sentinel for the empty one, otherwise
      the capped table score, its tier and the suggestions. */
  function Strength(p: string): (r: StrengthResult)
  {
    if p == "" then NoPassword
    else
      var score := Points(p);
      StrengthResult(if score < 100 then score else 100, Label(score), Feedback(p))
  }

  /** `getPasswordStrength`, accumulating the score and the suggestions
      check by check. */
  method GetPasswordStrength(password: string) returns (r: StrengthResult)
    ensures r == Strength(password)
    ensures 0 <= r.score <= 100
    ensures password == "" <==> r.labelText == NoPasswordLabel
    ensures |r.feedback| <= 5
  {
    if password == "" {
      return NoPassword;
    }

    var score := 0;
    var feedback: seq<string> := [];

    if |password| >= 12 {
      score := score + 25;
    } else if |password| >= 8 {
      score := score + 15;
    } else if |password| >= 6 {
      score := score + 5;
    } else {
      feedback := feedback + ["Use at least 8 characters"];
    }
    assert score == LengthPoints(|password|) && feedback == HintIf(|password| < 6, LengthHint);

    if HasClass(password, Lower) {
      score := score + 15;
    } else {
      feedback := feedback + ["Include lowercase letters"];
    }
    assert score == LengthPoints(|password|) + PointsIf(HasClass(password, Lower), 15);
    assert feedback == HintIf(|password| < 6, LengthHint) + HintIf(!HasClass(password, Lower), ClassHint(Lower));
    if HasClass(password, Upper) {
      score := score + 15;
    } else {
      feedback := feedback + ["Include uppercase letters"];
    }
    assert score == LengthPoints(|password|) + PointsIf(HasClass(password, Lower), 15)
                    + PointsIf(HasClass(password, Upper), 15);
    assert feedback == HintIf(|password| < 6, LengthHint) + HintIf(!HasClass(password, Lower), ClassHint(Lower))
                       + HintIf(!HasClass(password, Upper), ClassHint(Upper));
    if HasClass(password, Number) {
      score := score + 15;
    } else {
      feedback := feedback + ["Include numbers"];
    }
    assert score == LengthPoints(|password|) + PointsIf(HasClass(password, Lower), 15)
                    + PointsIf(HasClass(password, Upper), 15) + PointsIf(HasClass(password, Number), 15);
    assert feedback == HintIf(|password| < 6, LengthHint) + HintIf(!HasClass(password, Lower), ClassHint(Lower))
                       + HintIf(!HasClass(password, Upper), ClassHint(Upper))
                       + HintIf(!HasClass(password, Number), ClassHint(Number));
    if HasClass(password, Symbol) {
      score := score + 20;
    } else {
      feedback := feedback + ["Include symbols for maximum security"];
    }
    assert feedback == Feedback(password);

    if |password| >= 16 {
      score := score + 10;
    }
    assert score == Points(password);

    var labelText := "Weak";
    if score >= 85 {
      labelText := "Very Strong";
    } else if score >= 70 {
      labelText := "Strong";
    } else if score >= 50 {
      labelText := "Fair";
    }

    r := StrengthResult(if score < 100 then score else 100, labelText, feedback);
  }

  /** The table's points never exceed 100, so the cap never changes the
      score of a non-empty password; the maximum is reached exactly by a
      password of 16 or more characters with all four classes. */
  lemma ScoreBounds(p: string)
    requires p != ""
    ensures 0 <= Points(p) <= 100
    ensures Strength(p).score == Points(p)
    ensures Points(p) == 100 <==>
              |p| >= 16 && HasClass(p, Lower) && HasClass(p, Upper)
              && HasClass(p, Number) && HasClass(p, Symbol)
  {
  }

  /** The five suggestions are different strings. */
  lemma HintsDistinct()
    ensures LengthHint != LowercaseHint && LengthHint != UppercaseHint
    ensures LengthHint != NumbersHint && LengthHint != SymbolsHint
    ensures LowercaseHint != UppercaseHint && LowercaseHint != NumbersHint
    ensures LowercaseHint != SymbolsHint && UppercaseHint != NumbersHint
    ensures UppercaseHint != SymbolsHint && NumbersHint != SymbolsHint
  {
    assert LengthHint[0] == 'U' && LowercaseHint[0] == 'I' && UppercaseHint[0] == 'I';
    assert NumbersHint[0] == 'I' && SymbolsHint[0] == 'I';
    assert LowercaseHint[8] == 'l' && UppercaseHint[8] == 'u';
    assert NumbersHint[8] == 'n' && SymbolsHint[8] == 's';
  }

  /** A suggestion for a class appears exactly when the class is absent, and
      the length suggestion exactly when the password is under 6 characters. */
  lemma FeedbackExact(p: string, k: CharClass)
    requires p != ""
    ensures ClassHint(k) in Strength(p).feedback <==> !HasClass(p, k)
    ensures LengthHint in Strength(p).feedback <==> |p| < 6
  {
    HintsDistinct();
    var f := Feedback(p);
    assert f == Strength(p).feedback;
    forall x
      ensures x in f <==>
                (|p| < 6 && x == LengthHint)
                || (!HasClass(p, Lower) && x == LowercaseHint)
                || (!HasClass(p, Upper) && x == UppercaseHint)
                || (!HasClass(p, Number) && x == NumbersHint)
                || (!HasClass(p, Symbol) && x == SymbolsHint)
    {
    }
  }

  /** No suggestion is given exactly when the password has at least 6
      characters and all four classes. */
  lemma NoFeedbackIff(p: string)
    requires p != ""
    ensures Strength(p).feedback == [] <==>
              |p| >= 6 && HasClass(p, Lower) && HasClass(p, Upper)
              && HasClass(p, Number) && HasClass(p, Symbol)
  {
  }

  lemma ExampleLowercaseEight()
    ensures Strength("abcdefgh") ==
              StrengthResult(30, "Weak", [UppercaseHint, NumbersHint, SymbolsHint])
  {
    var p := "abcdefgh";
    assert Matches(Lower, p[0]);
    assert !HasClass(p, Upper) && !HasClass(p, Number);
    assert !HasClass(p, Symbol) by {
      forall i | 0 <= i < |p| ensures !Matches(Symbol, p[i]) {
        MatchesIffInClass(Lower, p[i]);
        ClassesDisjoint(Lower, Symbol, p[i]);
      }
    }
  }

  lemma ExampleAllClasses()
    ensures Strength("Abcdefghijkl1!") == StrengthResult(90, "Very Strong", [])
  {
    var p := "Abcdefghijkl1!";
    assert Matches(Upper, p[0]) && Matches(Lower, p[1]);
    assert Matches(Number, p[12]) && Matches(Symbol, p[13]);
  }
}
