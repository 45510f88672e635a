/**
 * What the two copies of the engine guarantee about the passwords they
 * produce, and where they part ways.
 */
module Guarantees {
  import opened CharSets
  import opened SecureRandom
  import opened Shuffle
  import opened Strength
  import opened Generation

  /** A character from an alphabet passes that class's pattern test. */
  lemma ContainsMeansHasClass(p: string, c: CharClass)
    ensures Contains(p, Alphabet(c)) ==> HasClass(p, c)
  {
    if Contains(p, Alphabet(c)) {
      var i :| 0 <= i < |p| && p[i] in Alphabet(c);
    var j :| 0 <= j < |Alphabet(c)| && Alphabet(c)[j] == p[i];
      assert ClassOf(p[i]) == c;
    }
  }

  /** A password with a character from every alphabet passes all four class tests. */
  lemma CoversMeansAllClasses(p: string)
    requires Covers(p)
    ensures HasAllClasses(p)
  {
    ContainsMeansHasClass(p, Lower);
    ContainsMeansHasClass(p, Upper);
    ContainsMeansHasClass(p, Digit);
    ContainsMeansHasClass(p, Symbol);
  }

  /** The shuffle never changes the strength of what was assembled. */
  lemma ShuffleKeepsStrength(v: Variant, length: int, d: seq<Word>)
    requires |d| >= DrawsNeeded(v, length)
    ensures CalculateStrength(Generate(v, length, d).password) == CalculateStrength(Assemble(v, length, d))
  {
    StrengthIgnoresOrder(Generate(v, length, d).password, Assemble(v, length, d));
  }

  /** Vite build: from length 4 on every class is present, so the password
      is at least fair, and from length 24 it is strong. */
  lemma ViteStrength(length: int, d: seq<Word>)
    requires |d| >= DrawsNeeded(ViteBuild, length)
    ensures length >= 4 ==> Rank(CalculateStrength(Generate(ViteBuild, length, d).password).level) >= Rank(Fair)
    ensures length >= 24 ==> CalculateStrength(Generate(ViteBuild, length, d).password).level == Strong
  {
    if length >= 4 {
      CoversMeansAllClasses(Generate(ViteBuild, length, d).password);
    }
  }

  /** Legacy script: every class is always present, so every password is at
      least fair, and from length 24 it is strong. */
  lemma LegacyStrength(length: int, d: seq<Word>)
    requires |d| >= DrawsNeeded(LegacyScript, length)
    ensures Rank(CalculateStrength(Generate(LegacyScript, length, d).password).level) >= Rank(Fair)
    ensures length >= 24 ==> CalculateStrength(Generate(LegacyScript, length, d).password).level == Strong
  {
    CoversMeansAllClasses(Generate(LegacyScript, length, d).password);
  }

  /** Legacy script, as written: a request for one character yields four. */
  lemma LegacyOverlong(d: seq<Word>)
    requires |d| >= DrawsNeeded(LegacyScript, 1)
    ensures |Generate(LegacyScript, 1, d).password| == 4
  {
  }

  /** A password made only of 'A' has no lower-case letter from the alphabet. */
  lemma OnlyAMissesLowercase(p: string)
    requires forall i :: 0 <= i < |p| ==> p[i] == 'A'
    ensures !Contains(p, Alphabet(Lower))
  {
    assert ClassOf('A') == Upper;
    assert !HasClass(p, Lower);
    ContainsMeansHasClass(p, Lower);
  }

  /** The Vite build's guard gives up coverage below length 4 to keep the
      length: when all five draws are 0, a three-character request yields "AAA". */
  lemma ViteShortMayMissClasses(d: seq<Word>)
    requires |d| == 5 && forall k :: 0 <= k < |d| ==> d[k] == 0
    ensures |Generate(ViteBuild, 3, d).password| == 3
    ensures !Covers(Generate(ViteBuild, 3, d).password)
  {
    var p := Generate(ViteBuild, 3, d).password;
    var assembled := Assemble(ViteBuild, 3, d);
    assert AllChars[0] == 'A';
    var fill := FillChars(AllChars, 3, d);
    forall i | 0 <= i < 3
      ensures fill[i] == 'A'
    {
      assert fill[i] == Pick(AllChars, 0);
    }
    assert assembled == fill;
    forall i | 0 <= i < |p|
      ensures p[i] == 'A'
    {
      assert p[i] in multiset(assembled);
    }
    OnlyAMissesLowercase(p);
  }
}
