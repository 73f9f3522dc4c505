# Arc Boosts manager, modelled in Dafny

The program keeps a small catalogue of Arc "boosts" in `arc-boosts.json` and renders
it to `README.md`. Two versions of it exist and both are modelled:

- `index.js` (modules `ArcLink`, `Versioning`, `Registry`, `Rendering`, `Cli`): each key
  maps to `{ link, version }`. A link is accepted when it starts with
  `https://arc.net/boost/` followed by a character that is not a line terminator.
  `addBoost` returns a spread copy with one key set. `saveChanges` folds a list of
  accepted entries over the catalogue loaded at start-up and writes both files.
  `incrementVersion` raises the patch number by one. `init` dispatches on the
  command-line arguments. The interactive session collects entries in `newBoosts` and
  saves after each one.
- `src/index.js` (module `Legacy`): each key maps to a link. `addBoost` assigns into the
  caller's object and returns it. `generateReadme` builds the text in a loop.

A JavaScript object is modelled as the sequence of its `(key, value)` properties in
insertion order (module `OrderedMap`). That is the order `Object.entries` reports and
the order the README follows. Assigning to a key that exists keeps its position.
Assigning to a new key appends it. The JavaScript library calls the program uses
(`trim`, `split('.')`, `Number` on digit strings, number-to-string, `map(...).join('')`)
are written out in module `Text`.

Points of the code's behaviour the model keeps:

- `incrementVersion` reads only the first three pieces of the version, so `1.2.3.4`
  increments to `1.2.4`.
- In the interactive flow the code computes `incrementVersion(existingBoost.version)`
  before it looks at the typed version. For a key that was not loaded, `existingBoost` is
  undefined and this throws, even when a version was typed. The model returns this as an
  error outcome (`ChooseVersion` gives `Err(MissingEntry)` and `EnterLinkAndVersion`
  returns `Crashed`, closes the session and saves nothing). It is not a precondition. As a
  consequence, an interactive session can only overwrite keys that were loaded
  (`SessionSaveShape`).
- The version prompt has no exit test. A typed `exit` there is stored as the version.
- The session holds the key that passed the key prompt (`pending`) until the link prompt
  answers, so the link prompt can only follow a key that was neither blank nor `exit`.

Rendering is a Dafny function, so rendering the same catalogue twice gives the same
text by construction. `addBoost` in `index.js` works on values, so it cannot change its
input. Its mutating counterpart in `src/index.js` is the class method
`Legacy.BoostData.AddBoost`.

## Model

| member | source | states |
|---|---|---|
| `ArcLink.IsValidArcLink` | index.js:9 | a link is accepted if and only if it is longer than `https://arc.net/boost/`, starts with it, and the next character is not a line terminator |
| `ArcLink.ValidArcLinkAnyTail` | index.js:9 | prefix + c + any rest is accepted exactly when c is not a line terminator: the pattern is not anchored at the end |
| `ArcLink.PrefixMismatchRefused` | index.js:9 | a link differing from the prefix at any position is refused |
| `ArcLink.AcceptedExample` | index.js:9 | `https://arc.net/boost/x` is accepted |
| `ArcLink.RefusedExamples` | index.js:9 | `http://…`, another host, the empty string, the bare prefix and a line break after the prefix are refused |
| `OrderedMap.Put` | index.js:12 | assigning a key: the dictionary gets `key := value` and all else is kept; an existing key keeps its place, a new key goes last |
| `OrderedMap.PutDistinct` | src/index.js:31 | assignment keeps keys distinct; the property count grows by one only for a new key |
| `OrderedMap.PutCount` | src/index.js:26-31 | overwriting an existing key keeps the number of keys; a new key adds one |
| `Registry.AddBoost` | index.js:11-13 | the result maps `key` to `{link, version}`, every other key keeps its boost, and the key order is kept with a new key last |
| `Registry.ApplyBatchAppend` | index.js:24 | the fold applies entries in list order: folding `xs + ys` is folding `ys` over the fold of `xs` |
| `Registry.LastEntryWins` | index.js:24 | when a key appears several times in the batch, its last entry decides its boost |
| `Registry.UntouchedKey` | index.js:24 | a key absent from the batch keeps its loaded boost, or stays absent |
| `Registry.ApplyBatchKeys` | index.js:24 | the result's key set is the loaded keys plus the batch keys |
| `Registry.ApplyBatch` | index.js:24 | the `reduce` of `addBoost` over the entries: loaded keys keep their positions at the front; new keys follow |
| `Registry.ApplyBatchDistinct` | index.js:24 | the fold keeps keys distinct |
| `Registry.ApplyBatchKeepsLinksValid` | index.js:24 | folding entries with validated links over a catalogue of valid links gives a catalogue of valid links |
| `Versioning.ParseVersion` | index.js:86 | a version reads as numbers exactly when it has at least three '.'-separated pieces and the first three are non-empty digit runs; the numbers are those pieces' decimal values |
| `Versioning.IncrementVersion` | index.js:85-88 | defined exactly when the first three pieces are numbers; the result reads back as the same major and minor and patch + 1, with no carry |
| `Versioning.ParseFormat` | index.js:86-87 | a version written as three numbers joined by '.' reads back as itself |
| `Versioning.IncrementFormatted` | index.js:85-88 | `a.b.c` increments to `a.b.(c+1)` for all naturals a, b, c |
| `Versioning.NoCarryExample` | index.js:85-88 | `2.9.9` increments to `2.9.10` |
| `Versioning.ExtraPiecesIgnored` | index.js:86 | pieces after the third are ignored: `a.b.c.rest` increments to `a.b.(c+1)` |
| `Rendering.Block` | index.js:17 | a boost's block opens with the `## key` heading and closes with the reference line binding the key to its link with the title `I want this!` |
| `Rendering.ReadmeContent` | index.js:16-18 | the text starts with `# Arc Boosts\n\n`, and an empty catalogue renders to exactly that |
| `Rendering.ReadmeAppend` | index.js:16-18 | rendering distributes over appending an entry: render(m + [(k, b)]) == render(m) + block(k, b), the block being the `## key`, `Version:`, button and reference lines |
| `Rendering.ReadmeBlockAt` | index.js:16-18 | the i-th entry's block stands right after the rendering of the entries before it: one block per key, in key order |
| `Text.Trim` | index.js:46 | trimming removes only whitespace from the two ends, leaves no whitespace at either end, and is empty exactly for an all-whitespace input |
| `Text.Split` | index.js:86 | splitting always yields at least one piece |
| `Text.SplitNoSeparator` | index.js:86 | a string without the separator splits to itself alone |
| `Text.SplitAtFirst` | index.js:86 | splitting at the first separator gives the piece before it, then the split of the rest |
| `Text.NatToString` | index.js:87 | a number is written as non-empty decimal digits, without a leading zero, whose value is the number |
| `Text.ParseNat` | index.js:86 | a piece reads as a number exactly when it is a non-empty run of digits, and the number is their decimal value (leading zeros allowed) |
| `Text.JoinAppend` | index.js:16-18 | joining the mapped pieces distributes over concatenation of the list |
| `Cli.SaveChanges` | index.js:23-28 | what is saved has the loaded keys plus the entries' keys, the loaded keys in their places at the front, and the README is the rendering of exactly what is saved |
| `Cli.Init` | index.js:106-120 | no arguments start the session; `-a key link version` with a valid link saves exactly that one boost (key set, all else kept; an existing key keeps its place, a new key goes last) and its README; `-a` with an invalid link, and any other shape, save nothing |
| `Cli.IsExit` | index.js:46 | a prompt ends the session exactly when its input is all whitespace or trims to `exit` |
| `Cli.ChooseVersion` | index.js:76-78 | key not loaded: error (the throw); typed version non-blank: its trimmed text; blank: the increment of the loaded version, one patch above it |
| `Cli.AutoVersionNotCompounded` | index.js:76-79 | a loaded key entered twice with a blank version is saved with the last link and one patch above its loaded version, not two |
| `Cli.SessionSaveShape` | index.js:77-79 | what a session saves has exactly the loaded keys, and keeps all links valid when the loaded ones were |
| `Cli.InteractiveSession.constructor` | index.js:42 | a session starts open, with no accepted entries and nothing written |
| `Cli.InteractiveSession.EnterKey` | index.js:45-50 | a blank or `exit` key closes the session and changes nothing else; any other key is held for the link prompt |
| `Cli.InteractiveSession.EnterLinkAndVersion` | index.js:62-83 | only after a held key; blank/`exit` link closes; invalid link re-prompts; unloaded key throws and closes; otherwise the entry is appended to `newBoosts` and the files hold the fold of ALL accepted entries over the catalogue as loaded at start-up, and its README |
| `Legacy.Heading` | src/index.js:14 | the heading line is `## `, the key, and a blank line |
| `Legacy.Button` | src/index.js:15 | the button line shows `Get it from Arc!` and refers to the key's reference |
| `Legacy.Reference` | src/index.js:16 | the reference line binds the key to the link as given, titled `Get it from Arc` |
| `Legacy.LegacyBlock` | src/index.js:14-16 | an entry's text opens with its heading and closes with its reference line |
| `Legacy.LegacyReadme` | src/index.js:11-19 | an empty catalogue renders to exactly `# Arc Boosts\n\n` |
| `Legacy.LegacyReadmeAppend` | src/index.js:13-17 | rendering distributes over appending an entry: the `## key`, `Get it from Arc!` button and reference lines go last |
| `Legacy.GenerateReadme` | src/index.js:10-20 | the loop returns the header followed by each entry's block in key order |
| `Legacy.BoostData.AddBoost` | src/index.js:24-34 | the object itself is changed and returned; `key` maps to the link as given, without validation; other keys are kept; the key count is unchanged for an existing key and grows by one for a new one |

## Left out

- File access: `existsSync`, `readFileSync` and `writeFileSync`. A save is modelled as the pair of values written to `arc-boosts.json` and `README.md` (`Cli.Snapshot`).
- `JSON.parse`, `JSON.stringify` and the fallback to `{}` when loading fails. The loaded catalogue is a parameter.
- `readline` prompting and `rl.close`. One round of prompts is a method call with the typed strings as arguments. The order of the prompts is kept: `EnterKey` holds the key in `pending`, and `EnterLinkAndVersion` can only be called while a key is held.
- `chalk` colouring and all console messages, including the "Current boosts" listing and the overwrite warnings.
- The `commander` set-up of src/index.js (src/index.js:62-90) and its prompt flow (src/index.js:37-52). They feed typed or command-line input to `addBoost` and `generateReadme`, which are modelled.
- The file writes of src/index.js (src/index.js:46, 57, 84) are file access and are not modelled. Module `Legacy` has no counterpart of `Cli.Snapshot`.
- The argument branch of src/index.js (src/index.js:82-87) is not modelled. No `.option('-a …')` is declared (src/index.js:62-65), so `options.add` is never set and that branch never runs as written.
- Versioning.IncrementVersion: returns `None` whenever a piece is not a non-empty run of digits. `Number` would instead give NaN, read `""` as 0, or accept spaces, hexadecimal or exponent forms, and the code would then write pieces such as `NaN`.
- Cli.InteractiveSession.constructor: requires every loaded version to read as three numbers, because the NaN results above are not modelled.
- JavaScript's ordering of integer-like keys ahead of other keys, and keys such as `__proto__` or `toString` that an object inherits, are not modelled. Every key behaves as an ordinary string key.
- Numbers beyond 2^53 lose precision in `Number`, and numbers from 1e21 up are written in exponent form. Versions here are unbounded naturals.
- JavaScript strings are UTF-16 code units. Here a string is a sequence of Unicode characters, which matters only for the regular expression's `.` on surrogate pairs.
