# Password generator: the generate handler

This project models the logic of the password generator app's single React
component: the handler behind the "Generate" button and the effect that clears
the warning when a character class is selected again.

- `charset.dfy`, module `Charset`: the four class alphabets (26 upper-case
  letters, 26 lower-case letters, 10 digits, 24 symbols), the selection made by
  the four include flags, and the combined alphabet that is built by appending the
  enabled alphabets in the order upper, lower, numbers, symbols. The lemmas show
  what that alphabet contains. It holds exactly the characters of the enabled
  classes and none of a disabled one. Its length is the sum of the enabled
  classes' sizes. It is empty only when no class is enabled. It repeats no
  character, because the four alphabets are pairwise disjoint and none repeats a
  character of its own.
- `app.dfy`, module `App`: the component state as the class `PasswordApp`, with
  the fields `password`, `length`, the four include flags and `warning`.
  `HandleGenerate` assembles the alphabet with conditional appends. With no
  class selected it sets the warning, clears the password and draws nothing.
  Otherwise it clears the warning and calls `DrawPassword`, which appends
  `length` characters in a loop. `SyncWarning` is the effect: it clears the
  warning when any flag is set and otherwise leaves it unchanged.

The random index `Math.floor(Math.random() * characters.length)` is replaced by
an index oracle. The caller supplies a sequence `draws` of naturals, and the
i-th character drawn is `characters[draws[i]]`. Each index used must be below
the alphabet's length, as `Math.floor(Math.random() * characters.length)` always
is for a non-empty alphabet. The oracle is constrained only when some class is
selected, because the failure path draws nothing.

The generator draws uniformly with replacement from the combined alphabet. It
does not guarantee one character per selected class, and it does not shuffle.
There is no strength classifier either: the strength readout in
`src/App.jsx:143-151` is fixed markup ("Medium", two of four bars). The model
claims none of them.

## Model

| member | source | states |
|---|---|---|
| `Charset.Characters` | src/App.jsx:34-38 | the combined alphabet's length is 26, 26, 10 and 24 summed over the enabled classes, and it is non-empty exactly when at least one flag is set |
| `Charset.CharactersInOrder` | src/App.jsx:29-38 | the combined alphabet equals the upper, lower, numbers and symbols strings appended in that order, each only when its flag is set |
| `Charset.ConcatInOrder` | src/App.jsx:34-38 | concatenating the enabled alphabets along the class order gives the same string as the four conditional appends |
| `Charset.ConcatMembership` | src/App.jsx:34-38 | a character is in a concatenation of enabled alphabets exactly when some enabled class of the list has it in its alphabet |
| `Charset.CharactersMembership` | src/App.jsx:34-38 | a character is in the combined alphabet exactly when it belongs to the alphabet of its own class and that class is enabled |
| `Charset.DisabledClassExcluded` | src/App.jsx:34-38 | no character of a disabled class's alphabet is in the combined alphabet |
| `Charset.AlphabetClass` | src/App.jsx:29-32 | every character of an alphabet is classified as that alphabet's class (A-Z, a-z, 0-9, or outside all three ranges) |
| `Charset.AlphabetsDisjoint` | src/App.jsx:29-32 | no character belongs to two different class alphabets |
| `Charset.AlphabetNoDuplicates` | src/App.jsx:29-32 | no class alphabet repeats a character |
| `Charset.CharactersNoDuplicates` | src/App.jsx:29-38 | the combined alphabet repeats no character, whatever the selection |
| `App.DrawPassword` | src/App.jsx:53-57 | the loop yields exactly `length` characters (none for a negative length), the i-th being the alphabet's character at the i-th drawn index, so every character is in the alphabet |
| `App.OnlyEnabledClasses` | src/App.jsx:54-56 | a string drawn from the combined alphabet contains no character of a disabled class |
| `App.PasswordApp.constructor` | src/App.jsx:6-12 | the initial state: empty password, length 12, upper, lower and numbers selected, symbols not, no warning |
| `App.PasswordApp.SyncWarning` | src/App.jsx:17-24 | the warning becomes "" when any flag is set and is unchanged when all are clear; nothing else changes |
| `App.PasswordApp.HandleGenerate` | src/App.jsx:28-60 | with no class selected: warning is "Please select at least one character type." and password is ""; otherwise warning is "", the password has `length` characters, the i-th is the combined alphabet's character at the i-th drawn index, and none is from a disabled class; `length` and the flags never change |

## Left out

- Rendering: the JSX, the form submission, the displayed value `warning ? warning : password` and the footer year (`src/App.jsx:62-165`). These are presentation, and the year is a clock read.
- The checkbox and slider change handlers (`src/App.jsx:95`, `104`, `115`, `126`, `137`). They are plain setters of the fields, which the model leaves as field assignments by a caller. The slider's 6..32 range is not a precondition: the handler is modelled for any integer `length`.
- The `document.title` assignment in the effect (`src/App.jsx:15`). It is DOM I/O.
- `Math.random` and `Math.floor` (`src/App.jsx:55`). They are floating point and a foreign random source, replaced by the index oracle `draws`. Nothing about the distribution of the draws is modelled.
- React's `useState`/`useEffect` scheduling. Setters are immediate field assignments, and the effect is the explicit call `SyncWarning`.
- A non-integer `length`. The slider only produces integers, so `length` is an `int`.
