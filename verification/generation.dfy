/**
 * Password generation. Seed one character from each alphabet, fill up to
 * the requested length from `AllChars`, then shuffle. The two copies of the
 * engine differ only in when they seed: the Vite build (`src/main.ts`) seeds
 * when the length is at least 4, the legacy script (`script.js`) always does.
 */
module Generation {
  import opened CharSets
  import opened SecureRandom
  import opened Shuffle

  /** Which copy of the engine runs. */
  datatype Variant = ViteBuild | LegacyScript

  /** Whether the variant seeds one character per class for this length. */
  predicate Seeds(v: Variant, length: int)
  {
    v == LegacyScript || length >= 4
  }

  /** Some character of `p` comes from alphabet `a`. */
  predicate Contains(p: string, a: string)
  {
    exists i :: 0 <= i < |p| && p[i] in a
  }

  /** `p` has a character from each of the four alphabets. */
  predicate Covers(p: string)
  {
    forall c :: Contains(p, Alphabet(c))
  }

  /** The character at the drawn index of a non-empty alphabet. */
  function Pick(a: string, r: Word): (ch: char)
    requires |a| >= 1
  {
    a[Below(r, |a|)]
  }

  /** The four seed characters, one per alphabet in declaration order, from the first four draws. */
  function SeedChars(d: seq<Word>): (s: string)
    requires |d| >= 4
    ensures |s| == 4
  {
    [Pick(Uppercase, d[0]), Pick(Lowercase, d[1]), Pick(Numbers, d[2]), Pick(Symbols, d[3])]
  }

  /** `k` filler characters, the `i`-th taken from alphabet `a` (the engine
      passes `AllChars`) by the `i`-th draw. */
  function FillChars(a: string, k: nat, d: seq<Word>): (f: string)
    requires |a| >= 1 && |d| >= k
    ensures |f| == k
    ensures forall i :: 0 <= i < k ==> f[i] in a
  {
    seq(k, i requires 0 <= i < k => Pick(a, d[i]))
  }

  function SeedCount(v: Variant, length: int): nat
  {
    if Seeds(v, length) then 4 else 0
  }

  /** Iterations of the fill loop, which runs from the seeded length up to `length`. */
  function FillCount(v: Variant, length: int): nat
  {
    if length > SeedCount(v, length) then length - SeedCount(v, length) else 0
  }

  /** Length of the password before and after the shuffle. */
  function Size(v: Variant, length: int): nat
  {
    SeedCount(v, length) + FillCount(v, length)
  }

  /** Draws one generation consumes: one per character, then the shuffle's. */
  function DrawsNeeded(v: Variant, length: int): nat
  {
    Size(v, length) + ShuffleDraws(Size(v, length))
  }

  /** The password before the shuffle: seed characters (if any), then filler. */
  function Assemble(v: Variant, length: int, d: seq<Word>): (s: string)
    requires |d| >= Size(v, length)
    ensures |s| == Size(v, length)
    ensures |s| >= length && (Seeds(v, length) ==> |s| >= 4)
    ensures |s| > 0 ==> |s| == length || (Seeds(v, length) && |s| == 4)
  {
    var seed := if Seeds(v, length) then SeedChars(d) else [];
    seed + FillChars(AllChars, FillCount(v, length), d[SeedCount(v, length)..])
  }

  /** Each seed character comes from its own alphabet, so the seed covers all four. */
  lemma SeedCovers(d: seq<Word>)
    requires |d| >= 4
    ensures Covers(SeedChars(d))
  {
    var s := SeedChars(d);
    assert s[0] in Alphabet(Upper) && s[1] in Alphabet(Lower);
    assert s[2] in Alphabet(Digit) && s[3] in Alphabet(Symbol);
  }

  /** Every character assembled belongs to `AllChars`, and the assembled
      password covers all four alphabets whenever the variant seeds. */
  lemma AssembleFromAllChars(v: Variant, length: int, d: seq<Word>)
    requires |d| >= Size(v, length)
    ensures forall i :: 0 <= i < |Assemble(v, length, d)| ==> Assemble(v, length, d)[i] in AllChars
    ensures Seeds(v, length) ==> Covers(Assemble(v, length, d))
  {
    var s := Assemble(v, length, d);
    var n := SeedCount(v, length);
    forall i | 0 <= i < |s|
      ensures s[i] in AllChars
    {
      if i < n {
        var c := [Upper, Lower, Digit, Symbol][i];
        assert s[i] in Alphabet(c);
        AllCharsIsUnion(s[i]);
      }
    }
    if Seeds(v, length) {
      SeedCovers(d);
      forall c: CharClass
        ensures Contains(s, Alphabet(c))
      {
        var j :| 0 <= j < 4 && SeedChars(d)[j] in Alphabet(c);
        assert s[j] == SeedChars(d)[j];
      }
    }
  }

  /** An alphabet present in `p` is present in any rearrangement of `p`. */
  lemma ContainsPermutation(p: string, q: string, a: string)
    requires multiset(p) == multiset(q)
    ensures Contains(p, a) ==> Contains(q, a)
  {
    if Contains(p, a) {
      var i :| 0 <= i < |p| && p[i] in a;
      assert p[i] in multiset(q);
      var j :| 0 <= j < |q| && q[j] == p[i];
    }
  }

  /** A rearrangement of a string drawn from alphabet `a` is drawn from `a`. */
  lemma DrawnFromPermutation(p: string, q: string, a: string)
    requires multiset(p) == multiset(q)
    requires forall i :: 0 <= i < |p| ==> p[i] in a
    ensures forall i :: 0 <= i < |q| ==> q[i] in a
  {
    forall i | 0 <= i < |q|
      ensures q[i] in a
    {
      assert q[i] in multiset(p);
    }
  }

  /** A rearrangement of a covering string covers. */
  lemma CoversPermutation(p: string, q: string)
    requires multiset(p) == multiset(q)
    ensures Covers(p) ==> Covers(q)
  {
    forall c: CharClass
      ensures Contains(p, Alphabet(c)) ==> Contains(q, Alphabet(c))
    {
      ContainsPermutation(p, q, Alphabet(c));
    }
  }

  datatype Generated = Generated(password: string, rest: seq<Word>)

  /** One generation: the shuffled password and the draws left unread.
      The password is a rearrangement of the assembled one, made only of
      `AllChars`, and has one character of each class whenever the variant seeds. */
  function Generate(v: Variant, length: int, d: seq<Word>): (g: Generated)
    requires |d| >= DrawsNeeded(v, length)
    ensures v == ViteBuild ==> |g.password| == (if length < 0 then 0 else length)
    ensures v == LegacyScript ==> |g.password| == (if length < 4 then 4 else length)
    ensures multiset(g.password) == multiset(Assemble(v, length, d))
    ensures forall i :: 0 <= i < |g.password| ==> g.password[i] in AllChars
    ensures Seeds(v, length) ==> Covers(g.password)
    ensures |d| == DrawsNeeded(v, length) + |g.rest| && g.rest == d[|d| - |g.rest|..]
  {
    var n := Size(v, length);
    var assembled := Assemble(v, length, d);
    var password := FisherYates(assembled, d[n..]);
    AssembleFromAllChars(v, length, d);
    DrawnFromPermutation(assembled, password, AllChars);
    CoversPermutation(assembled, password);
    Generated(password, d[DrawsNeeded(v, length)..])
  }

  /** Draws are consumed front to back and no further than `DrawsNeeded`:
      two draw sequences that agree on that prefix give the same password. */
  lemma GenerateReadsOnlyItsDraws(v: Variant, length: int, d: seq<Word>, e: seq<Word>)
    requires |d| >= DrawsNeeded(v, length) && |e| >= DrawsNeeded(v, length)
    requires d[..DrawsNeeded(v, length)] == e[..DrawsNeeded(v, length)]
    ensures Generate(v, length, d).password == Generate(v, length, e).password
  {
    var n, s := Size(v, length), SeedCount(v, length);
    var k := FillCount(v, length);
    assert forall i :: 0 <= i < DrawsNeeded(v, length) ==> d[i] == e[i] by {
      forall i | 0 <= i < DrawsNeeded(v, length)
        ensures d[i] == e[i]
      {
        assert d[..DrawsNeeded(v, length)][i] == e[..DrawsNeeded(v, length)][i];
      }
    }
    var fd, fe := FillChars(AllChars, k, d[s..]), FillChars(AllChars, k, e[s..]);
    forall i | 0 <= i < k
      ensures fd[i] == fe[i]
    {
      assert d[s..][i] == e[s..][i];
    }
    assert Assemble(v, length, d) == Assemble(v, length, e);
    var sd, se := Schedule(n, d[n..]), Schedule(n, e[n..]);
    forall i | 0 <= i < |sd|
      ensures sd[i] == se[i]
    {
      assert d[n..][i] == e[n..][i];
    }
    assert sd == se;
  }

  /** One more iteration of the fill loop appends the character the next draw picks. */
  lemma FillCharsStep(a: string, m: nat, e: seq<Word>)
    requires |a| >= 1 && |e| > m
    ensures FillChars(a, m + 1, e) == FillChars(a, m, e) + [Pick(a, e[m])]
  {
    var longer, shorter := FillChars(a, m + 1, e), FillChars(a, m, e);
    forall i | 0 <= i < m
      ensures longer[i] == shorter[i]
    {
      assert longer[i] == Pick(a, e[i]) == shorter[i];
    }
  }

  /** The fill loop: append one character of `a`, picked by the next draw,
      until the password reaches `length`. The engine runs it with `AllChars`. */
  method FillLoop(prefix: string, a: string, length: int, d: seq<Word>) returns (password: string)
    requires |a| >= 1
    requires |d| >= |prefix| + (if length > |prefix| then length - |prefix| else 0)
    ensures |password| == if length > |prefix| then length else |prefix|
    ensures password == prefix + FillChars(a, |password| - |prefix|, d[|prefix|..])
  {
    password := prefix;
    var k := |prefix|;
    while |password| < length
      invariant k == |password| >= |prefix|
      invariant k <= |prefix| || k <= length
      invariant password == prefix + FillChars(a, k - |prefix|, d[|prefix|..])
    {
      FillCharsStep(a, k - |prefix|, d[|prefix|..]);
      password := password + [Pick(a, d[k])];
      k := k + 1;
    }
  }

  /** The first two steps of the engine's generation: seed (when the variant
      does), then fill up to `length` from `AllChars`. Returns the password
      before the shuffle. */
  method SeedAndFill(v: Variant, length: int, d: seq<Word>) returns (password: string)
    requires |d| >= Size(v, length)
    ensures password == Assemble(v, length, d)
  {
    password := [];
    if Seeds(v, length) {
      password := password + [Pick(Uppercase, d[0])];
      password := password + [Pick(Lowercase, d[1])];
      password := password + [Pick(Numbers, d[2])];
      password := password + [Pick(Symbols, d[3])];
    }
    assert password == if Seeds(v, length) then SeedChars(d) else [];
    password := FillLoop(password, AllChars, length, d);
  }

  /** The engine's generation: seed and fill, then shuffle the result with
      the draws that follow. */
  method GeneratePassword(v: Variant, length: int, d: seq<Word>) returns (password: string, rest: seq<Word>)
    requires |d| >= DrawsNeeded(v, length)
    ensures Generated(password, rest) == Generate(v, length, d)
  {
    password := SeedAndFill(v, length, d);
    var n := |password|;
    password := ShuffleString(password, d[n..]);
    rest := d[n + ShuffleDraws(n)..];
  }
}
