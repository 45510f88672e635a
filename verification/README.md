# passgen password engine in Dafny

A model of the password engine of passgen: the bounded random draw, the
Fisher–Yates shuffle, password generation with guaranteed class coverage, and
the strength rubric. The engine exists in two copies: `src/main.ts` (the Vite
build) and `script.js` (the legacy standalone script). Apart from the seeding
guard, the type annotations and the default argument of `generatePassword`,
their engine code is the same token for token:

| piece | src/main.ts | script.js |
|---|---|---|
| alphabets and `ALL_CHARS` | 23-30 | 5-13 |
| `getSecureRandomNumber` | 61-65 | 29-33 |
| `shuffleString` | 72-79 | 63-70 |
| `generatePassword` | 90-112 | 40-56 |
| `calculateStrength` | 123-143 | 77-97 |

One Dafny definition serves both copies for the identical pieces. The one
difference is the seeding guard. The Vite build seeds one character per class
only when `length >= 4` (src/main.ts:94). The legacy script seeds
unconditionally (script.js:44-47). `Generation.Variant` (`ViteBuild` or
`LegacyScript`) selects the guard.

The platform's secure generator is an input. Each operation takes a sequence
of 32-bit draws (`SecureRandom.Word`) and consumes them front to back: one per
seed or filler character, then one per shuffle step. `Generation.Generate`
returns the password together with the draws it did not read. This makes
generation a deterministic function whose results can be stated.

Modules:

- `CharSets` (charsets.dfy): the four alphabets, `AllChars`, and the ASCII
  classification used by the rubric's regular expressions.
- `SecureRandom` (secure_random.dfy): `getSecureRandomNumber` as `Below`.
- `Shuffle` (shuffle.dfy): the swap schedule, a functional Fisher–Yates, and
  the in-place array loop proved equal to it.
- `Strength` (strength.dfy): `calculateStrength`, with score, level and label.
- `Generation` (generation.dfy): seeding, filling and shuffling, both as a
  function and as the imperative loop.
- `Guarantees` (guarantees.dfy): what each copy promises about the strength of
  its output, and where the copies differ.

## Model

| member | source | states |
|---|---|---|
| `CharSets.Alphabet` | src/main.ts:23-28 | every character of each alphabet falls in that alphabet's ASCII class, so each alphabet sits inside its own class; each has at least 10 characters |
| `CharSets.AlphabetsDisjoint` | src/main.ts:23-28 | a character that lies in two alphabets forces them to be the same alphabet: the four are pairwise disjoint |
| `CharSets.AllCharsIsUnion` | src/main.ts:30 | a character is in `ALL_CHARS` exactly when it is in one of the four alphabets; `ALL_CHARS` has 88 positions |
| `SecureRandom.Below` | src/main.ts:61-65 | for every bound `max >= 1` the reduced draw lies in `[0, max)`, and a draw already below `max` is returned unchanged |
| `SecureRandom.BelowIsOnto` | script.js:29-33 | for every bound up to 2^32, every value of `[0, max)` is produced by some 32-bit draw |
| `Shuffle.Swap` | src/main.ts:76 | the destructuring swap exchanges positions `i` and `j` and leaves every other position alone |
| `Shuffle.SwapPermutes` | src/main.ts:76 | a swap keeps the multiset of characters |
| `Shuffle.Schedule` | src/main.ts:74-75 | a string of length `n` gets `n - 1` swaps (none for `n <= 1`); the `k`-th exchanges index `i = n - 1 - k >= 1` with a drawn `j <= i` |
| `Shuffle.ScheduleAt` | src/main.ts:75 | the `k`-th swap takes its `j` from the `k`-th draw reduced below `i + 1` |
| `Shuffle.ApplySwaps` | src/main.ts:74-77 | applying a sequence of swaps keeps the length |
| `Shuffle.ApplySwapsPermutes` | src/main.ts:74-77 | applying a sequence of swaps keeps the multiset of characters |
| `Shuffle.ApplySwapsStep` | src/main.ts:74-77 | one loop iteration performs the next scheduled swap and leaves the rest of the schedule to run |
| `Shuffle.FisherYates` | src/main.ts:72-79 | the shuffle returns a permutation of its input (same length, same multiset) and returns strings of length 0 or 1 unchanged |
| `Shuffle.ShuffleString` | script.js:63-70 | the in-place array loop computes exactly the functional shuffle, hence a permutation of its input |
| `Strength.Score` | src/main.ts:124-136 | the score lies in `[0, 8]`; it is at least 4 when all four class tests pass; it is 8 exactly when the password has 24 or more characters and all four classes; below 8 characters it is at most 4 |
| `Strength.LevelOf` | src/main.ts:139-142 | the level's rank is 0 for scores 0-3 and `score / 2 - 1` from 4 to 8: two score points per level above weak |
| `Strength.CalculateStrength` | src/main.ts:123-143 | the level's rank follows the score as above, and the label is always the level's lower-case name with its first letter capitalised |
| `Strength.LevelThresholds` | script.js:93-96 | level weak exactly for scores 0-3, fair for 4-5, good for 6-7, strong for 8 |
| `Strength.HasClassPermutation` | src/main.ts:133-136 | a class test that passes on a password passes on every rearrangement of it |
| `Strength.StrengthIgnoresOrder` | script.js:77-97 | two passwords with the same multiset of characters get the same level and label |
| `Strength.StrengthMonotone` | src/main.ts:127-136 | appending characters to a password never lowers its level |
| `Strength.AllClassesAtLeastFair` | src/main.ts:127-142 | a password with all four classes is at least fair, and strong from 24 characters on |
| `Strength.RubricExamples` | src/main.ts:123-143 | the empty password is weak; `password` scores 2 and is weak; `Passw0rd!` scores 5 and is fair |
| `Generation.FillChars` | src/main.ts:106-108 | the filler has exactly the requested number of characters, each from the alphabet drawn from |
| `Generation.Assemble` | src/main.ts:91-108 | before the shuffle the password has at least `length` characters and at least 4 when seeded; a non-empty one has exactly `length` characters, or is the bare 4-character seed |
| `Generation.SeedCovers` | src/main.ts:94-103 | the four seed characters include one from each alphabet |
| `Generation.AssembleFromAllChars` | script.js:44-52 | every assembled character is in `ALL_CHARS`, and a seeded password has a character from each alphabet |
| `Generation.CoversPermutation` | src/main.ts:111 | a rearrangement of a password with all four alphabets still has all four |
| `Generation.Generate` | src/main.ts:90-112 | Vite build: exactly `length` characters, none for `length <= 0`; legacy script: `max(length, 4)` characters; a permutation of the assembled password; every character in `ALL_CHARS`; one character per alphabet whenever the copy seeds; exactly the needed draws consumed |
| `Generation.GenerateReadsOnlyItsDraws` | src/main.ts:94-111 | draws beyond the ones generation consumes never affect the password |
| `Generation.FillCharsStep` | src/main.ts:106-108 | one more fill iteration appends the character the next draw picks |
| `Generation.FillLoop` | src/main.ts:106-108 | the loop stops at `length` characters, or at once when the seed is already that long, having appended exactly the filler characters the draws pick |
| `Generation.SeedAndFill` | src/main.ts:91-108 | the seeding step and the fill loop build exactly the assembled password |
| `Generation.GeneratePassword` | script.js:40-56 | the imperative seed, fill and shuffle produce the same password and leave the same draws as `Generate` |
| `Guarantees.ContainsMeansHasClass` | src/main.ts:133-136 | a character from an alphabet makes that class's pattern test pass |
| `Guarantees.CoversMeansAllClasses` | src/main.ts:133-136 | a password with a character from every alphabet passes all four class tests |
| `Guarantees.ShuffleKeepsStrength` | src/main.ts:111 | the shuffled password has the same strength as the assembled one |
| `Guarantees.ViteStrength` | src/main.ts:94-103 | Vite build: from length 4 every password is at least fair, from length 24 strong |
| `Guarantees.LegacyStrength` | script.js:44-47 | legacy script: every password is at least fair, and strong from length 24 |
| `Guarantees.LegacyOverlong` | script.js:44-52 | legacy script: a request for one character yields four |
| `Guarantees.OnlyAMissesLowercase` | src/main.ts:133 | a password made only of `A` has no lower-case letter |
| `Guarantees.ViteShortMayMissClasses` | src/main.ts:94 | Vite build: with all draws 0, a three-character request yields three characters that miss some alphabet, so coverage is not promised below length 4 |

## Left out

- The page: `updateStrengthIndicator`, `generateAndDisplay`, `init` and the event listeners (src/main.ts:153-247, script.js:103-193). They are DOM plumbing around the engine.
- `copyToClipboard` (src/main.ts:178-208, script.js:128-158). It is an asynchronous clipboard call with a timer.
- `updateSliderProgress` (src/main.ts:167-173, script.js:117-123). It is floating-point arithmetic on DOM attributes.
- `crypto.getRandomValues`. It is a platform call; its values are the draw sequence passed in.
- Statistical properties: uniformity, the modulo bias of `Below`, and whether the shuffle is unbiased. They are probabilistic and not contracts.
- Running out of draws. The platform generator never runs out, so every operation requires at least the draws it consumes (`DrawsNeeded`, `ShuffleDraws`). The model has no error for an unavailable generator.
- `SecureRandom.Below`: requires `max >= 1`. With `max == 0` the source returns `NaN`; every caller passes a positive bound.
- `Generation.Generate`: takes an integer length. `parseInt` returning `NaN`, non-integer lengths and the default arguments (`DEFAULT_LENGTH` at src/main.ts:32 and 90, the undeclared `PASSWORD_LENGTH` at script.js:40) are not modelled.
- Negative lengths have no error path. The Vite build returns the empty string and the legacy script returns four characters, as the code does.
- Characters are Unicode scalar values. JavaScript strings are UTF-16, so a surrogate pair counts twice in `password.length`; this is not modelled.
- The level's string literal type (`"weak" | "fair" | "good" | "strong"`) is the `Strength.Level` datatype plus `LevelName`.
- vite.config.ts is build configuration with no engine logic.

## Findings

| source | as written | input that shows it | evidently intended | confidence | as-written member | corrected member |
|---|---|---|---|---|---|---|
| script.js:44-52 | seeds four characters unconditionally, then fills while the length is below `length` | `length = 1` (any draws) yields a 4-character password | a password of exactly `length` characters, which src/main.ts:94 restores by seeding only when `length >= 4` | low; not executed; whether the page ever requests fewer than 4 characters depends on slider bounds outside this model | `Guarantees.LegacyOverlong` | `Generation.Generate` |
