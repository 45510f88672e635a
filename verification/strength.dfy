/**
 * The strength rubric: four length thresholds and four character-class
 * tests each add one point, and the score maps to one of four levels.
 */
module Strength {
  import opened CharSets

  /** Some character of `p` falls in class `c`: the test `/[a-z]/`, `/[A-Z]/`,
      `/[0-9]/` or `/[^a-zA-Z0-9]/` depending on `c`. */
  predicate HasClass(p: string, c: CharClass)
  {
    exists i :: 0 <= i < |p| && ClassOf(p[i]) == c
  }

  /** All four class tests succeed. */
  predicate HasAllClasses(p: string)
  {
    HasClass(p, Lower) && HasClass(p, Upper) && HasClass(p, Digit) && HasClass(p, Symbol)
  }

  function Point(b: bool): nat
  {
    if b then 1 else 0
  }

  /** The rubric's score: one point per length threshold reached, one per class present. */
  function Score(p: string): (s: nat)
    ensures s <= 8
    ensures HasAllClasses(p) ==> s >= 4
    ensures s == 8 <==> |p| >= 24 && HasAllClasses(p)
    ensures |p| < 8 ==> s <= 4
  {
    Point(|p| >= 8) + Point(|p| >= 12) + Point(|p| >= 16) + Point(|p| >= 24)
    + Point(HasClass(p, Lower)) + Point(HasClass(p, Upper))
    + Point(HasClass(p, Digit)) + Point(HasClass(p, Symbol))
  }

  datatype Level = Weak | Fair | Good | Strong

  /** Position of a level, weakest first. */
  function Rank(l: Level): nat
  {
    match l
    case Weak => 0
    case Fair => 1
    case Good => 2
    case Strong => 3
  }

  /** The level a score falls into: two score points per level above Weak. */
  function LevelOf(score: nat): (l: Level)
    ensures Rank(l) == if score < 4 then 0 else if score >= 8 then 3 else score / 2 - 1
  {
    if score <= 3 then Weak
    else if score <= 5 then Fair
    else if score <= 7 then Good
    else Strong
  }

  /** The level as the lower-case word the page uses for styling. */
  function LevelName(l: Level): string
  {
    match l
    case Weak => "weak"
    case Fair => "fair"
    case Good => "good"
    case Strong => "strong"
  }

  function ToUpper(ch: char): char
  {
    if 'a' <= ch <= 'z' then (ch as int - 32) as char else ch
  }

  /** The word with its first letter upper-cased. */
  function Capitalize(w: string): string
  {
    if w == [] then w else [ToUpper(w[0])] + w[1..]
  }

  datatype StrengthResult = StrengthResult(level: Level, text: string)

  /** The assessment of a password: the level its score falls into, with the
      level's name capitalised as the label. */
  function CalculateStrength(p: string): (r: StrengthResult)
    ensures Rank(r.level) == if Score(p) < 4 then 0 else Score(p) / 2 - 1
    ensures r.text == Capitalize(LevelName(r.level))
  {
    var level := LevelOf(Score(p));
    match level
    case Weak => StrengthResult(Weak, "Weak")
    case Fair => StrengthResult(Fair, "Fair")
    case Good => StrengthResult(Good, "Good")
    case Strong => StrengthResult(Strong, "Strong")
  }

  /** The fixed thresholds: 0-3 weak, 4-5 fair, 6-7 good, 8 strong. */
  lemma LevelThresholds(p: string)
    ensures CalculateStrength(p).level == Weak <==> Score(p) <= 3
    ensures CalculateStrength(p).level == Fair <==> 4 <= Score(p) <= 5
    ensures CalculateStrength(p).level == Good <==> 6 <= Score(p) <= 7
    ensures CalculateStrength(p).level == Strong <==> Score(p) == 8
  {
  }

  /** A class present in `p` is present in any rearrangement of `p`. */
  lemma HasClassPermutation(p: string, q: string, c: CharClass)
    requires multiset(p) == multiset(q)
    ensures HasClass(p, c) ==> HasClass(q, c)
  {
    if HasClass(p, c) {
      var i :| 0 <= i < |p| && ClassOf(p[i]) == c;
      assert p[i] in multiset(q);
      var j :| 0 <= j < |q| && q[j] == p[i];
    }
  }

  /** The assessment depends only on which characters occur how often, not
      on their order: shuffling never changes a password's strength. */
  lemma StrengthIgnoresOrder(p: string, q: string)
    requires multiset(p) == multiset(q)
    ensures CalculateStrength(p) == CalculateStrength(q)
  {
    assert |p| == |multiset(p)| == |q|;
    forall c: CharClass
      ensures HasClass(p, c) == HasClass(q, c)
    {
      HasClassPermutation(p, q, c);
      HasClassPermutation(q, p, c);
    }
  }

  /** Appending characters never lowers the level. */
  lemma StrengthMonotone(p: string, q: string)
    ensures Rank(CalculateStrength(p).level) <= Rank(CalculateStrength(p + q).level)
  {
    forall c: CharClass | HasClass(p, c)
      ensures HasClass(p + q, c)
    {
      var i :| 0 <= i < |p| && ClassOf(p[i]) == c;
      assert (p + q)[i] == p[i];
    }
  }

  /** A password with all four classes is at least fair, and strong once it
      is 24 characters long. */
  lemma AllClassesAtLeastFair(p: string)
    requires HasAllClasses(p)
    ensures Rank(CalculateStrength(p).level) >= Rank(Fair)
    ensures |p| >= 24 ==> CalculateStrength(p).level == Strong
  {
  }

  /** Worked examples of the rubric. The empty password scores 0; eight
      lower-case letters score 2 (length 8, one class); "Passw0rd!" scores 5
      (length 8 and all four classes). */
  lemma RubricExamples()
    ensures CalculateStrength("") == StrengthResult(Weak, "Weak")
    ensures Score("password") == 2 && CalculateStrength("password").level == Weak
    ensures Score("Passw0rd!") == 5 && CalculateStrength("Passw0rd!") == StrengthResult(Fair, "Fair")
  {
    var p := "password";
    assert ClassOf(p[0]) == Lower;
    assert !HasClass(p, Upper) && !HasClass(p, Digit) && !HasClass(p, Symbol);
    var q := "Passw0rd!";
    assert ClassOf(q[0]) == Upper && ClassOf(q[1]) == Lower;
    assert ClassOf(q[5]) == Digit && ClassOf(q[8]) == Symbol;
  }
}
