# random_note: a verified model of the note drill

random_note is an ear-training page. It plays a randomly chosen note of a bass
string's range as a tone, draws it on a staff at once, and shows the note's
name after a delay. The space bar starts and stops the drill. This project models
its core in Dafny and proves properties of that model. The core is in
`src/index.tsx`:

- **Selector** (`selector.dfy`, module `Selector`) models `randomNewIndex`.
  The random draw `r = Math.floor(Math.random() * (length - 1))` is an explicit
  argument, and `IsDraw` gives the values the draw can take. The mapping
  "`r + 1` when `r >= currentIndex`, else `r`" is proved never to return the
  current index. For two or more notes it returns a valid index, and it is a bijection from
  the `length - 1` draws onto the other indices, so each other note is picked
  by exactly one draw.
- **Inventory builder** (`inventory.dfy`, module `Inventory`) models
  `mergeInventories`. `MergeInventories` is the imperative nested loop: it
  copies the first inventory and appends each note that is not yet present,
  using a linear `some` search (`ContainsNote`). It is proved equal to the
  recursive definition `Merge`. The lemmas prove these properties of `Merge`:
  - the first inventory is kept as the prefix;
  - the result holds exactly the input notes;
  - no duplicates are added;
  - each note stays where it was first placed;
  - a single inventory merges to itself.
  The app's four string ranges are constants; the app uses the E string alone.
- **Notation token** (`abc.dfy`, module `Abc`) models `getAbcNote` and the
  table `OCTAVE_SUFFICES`. The token is proved to be upper case exactly for
  octaves above 4. `ParseAbcNote` reads tokens back: it inverts the token on
  octaves 0 to 8, and every token it accepts comes from a note. Octaves
  outside the table get no mark, so they read as octave 4 (below the table)
  or 5 (above it). The ABC notation standard 2.1 (sections 4.1 and 4.2)
  gives a token's pitch. For the seven natural notes the token is one ABC
  note. Octaves 0 to 4 are written one octave up and octaves 5 to 8 one
  octave down, so octaves 4 and 5 come out in swapped order. The token of a
  flat is not one ABC note (see Findings). `AbcNote` writes the flat with
  ABC's sign `_`, and for it the same octave rule holds for all twelve names.
- **Session** (`session.dfy`, module `SessionState`, class `Session`) models
  the React state `isRunning` and `noteIndex`, plus the `shouldDisplay` flag
  and the reveal timeout of the `Note` element, which is keyed by
  `noteIndex`. Rendering and timers become events, and each event is a
  method:
  - the space key (`Toggle`);
  - a tick of the advance interval with its draw (`AdvanceTick`);
  - the firing of the reveal timeout (`RevealFire`).

  The object invariant `Valid` holds after every event. It says:
  - the index is valid;
  - a stopped session shows the label;
  - a fired reveal keeps the label shown;
  - the ghost history of shown indices never repeats an index twice in a row.

  Client methods script the scenarios, and their postconditions are verified: pause and resume, reveal by timeout, stop
  before the reveal, a tick to a session never started, and the literal exclusion mapping on three
  notes.

Two behaviours of the code are worth noting:
- On resuming, the code neither hides the label again nor restarts the
  reveal timeout. The `Note` element is keyed by `noteIndex` and is not
  remounted. A label shown on stopping therefore stays shown until the next
  tick (`ResumeKeepsLabelShown`).
- A one-note inventory is not rejected by the code. See Findings.

## Model

| member | source | states |
|---|---|---|
| `Notes.Name` | src/index.tsx:5-18 | a pitch name is spelt as an upper-case letter A to G, plus 'b' exactly for the five flats |
| `Notes.PitchOfName` | src/index.tsx:5-18 | reading a spelling back gives only a pitch whose spelling it is |
| `Notes.PitchOfNameInverse` | src/index.tsx:5-18 | each of the twelve names is read back from its spelling |
| `Selector.IsDraw` | src/index.tsx:32 | the values `Math.floor(Math.random() * (length - 1))` takes: [0, length - 1) for two or more notes, and only 0 for one note |
| `Selector.RandomNewIndex` | src/index.tsx:31-34 | the selected index is never the current one; it is the draw or the draw plus one; for length >= 2 and a valid current index it is in [0, length) |
| `Selector.RandomNewIndexInjective` | src/index.tsx:32-33 | two draws that select the same index are the same draw |
| `Selector.DrawFor` | src/index.tsx:32-33 | every index other than the current one has a draw that selects it |
| `Selector.ImageIsOtherIndices` | src/index.tsx:32-33 | the set of indices the draws select is exactly [0, length) without the current index |
| `Selector.OtherIndicesCount` | src/index.tsx:32 | there are length - 1 other indices, as many as there are draws |
| `Selector.EachOtherIndexHitOnce` | src/index.tsx:32-33 | each other index is selected by exactly one draw (uniform selection) |
| `Selector.SingletonSelectsOutOfRange` | src/index.tsx:31-34 | with one note, the only draw 0 selects index 1, outside the inventory |
| `Selector.NextIndex` | src/index.tsx:31-34 | corrected selector: fails exactly when there is no other index; otherwise a valid index different from the current one |
| `Inventory.AddNew` | src/index.tsx:78-82 | reference definition of the inner loop: each note of one inventory is appended unless already present; the result grows by at most that inventory's length |
| `Inventory.Merge` | src/index.tsx:75-85 | reference definition of the whole merge: the first inventory, then what each later one adds; never shorter than the first inventory |
| `Inventory.ContainsNote` | src/index.tsx:79 | comparing name and octave one note at a time finds the note exactly when it is in the list |
| `Inventory.MergeInventories` | src/index.tsx:75-85 | the loop computes `Merge`: the first inventory is its prefix, and it holds exactly the notes of the inputs |
| `Inventory.AddNewExtends` | src/index.tsx:78-82 | pushing never changes the notes already in the result |
| `Inventory.AddNewMembers` | src/index.tsx:78-82 | after one inventory is walked, the result holds exactly the old notes and that inventory's notes |
| `Inventory.AddNewNoDuplicates` | src/index.tsx:79-80 | the presence check keeps a duplicate-free result duplicate-free |
| `Inventory.MergeKeepsFirst` | src/index.tsx:76 | the result starts with the first inventory, element for element |
| `Inventory.MergeMembers` | src/index.tsx:75-85 | a note is in the result if and only if it is in some input inventory |
| `Inventory.MergeNoDuplicates` | src/index.tsx:79-80 | a duplicate-free first inventory gives a duplicate-free result |
| `Inventory.AddNewAtMostOnce` | src/index.tsx:79-80 | a note occurring at most once before adding occurs at most once after |
| `Inventory.MergeAtMostOnce` | src/index.tsx:77-83 | a note occurring at most once in the first inventory occurs at most once in the merge |
| `Inventory.MergeSingle` | src/index.tsx:76-77 | a single inventory merges to itself |
| `Inventory.MergeStable` | src/index.tsx:77-83 | merging more inventories only appends: the merge of the first k inventories is a prefix of the whole merge |
| `Inventory.MergeFirstPosition` | src/index.tsx:76-80 | a note of the first inventory occurs in the result once, at its position in the first inventory |
| `Inventory.MergePlacesAtFirstOccurrence` | src/index.tsx:77-83 | a note first met in inventory i occurs only among the notes that inventory i adds |
| `Inventory.AppInventory` | src/index.tsx:108-117 | the app's inventory is the E string: seven distinct notes |
| `Inventory.AllStringsInventory` | src/index.tsx:39-74 | merging the four string ranges gives the E string, then the last three notes of each later string, with no duplicates |
| `Abc.OctaveSuffix` | src/index.tsx:87 | 4 - o commas for octaves 0 to 3, none for 4 and 5, o - 5 apostrophes for 6 to 8, and none outside the table |
| `Abc.ToLower` | src/index.tsx:90 | lower-casing keeps the length and lowers each character |
| `Abc.GetAbcNote` | src/index.tsx:89-93 | the letter is upper case exactly when the octave is above 4; the flat is kept; the rest of the token is the octave's mark |
| `Abc.ParseGetAbcNote` | src/index.tsx:89-93 | for octaves 0 to 8 the token determines the note |
| `Abc.GetParseAbcNote` | src/index.tsx:89-93 | every token that parses is the token of the parsed note |
| `Abc.OutOfTableOctaves` | src/index.tsx:91 | an octave below the table is written as octave 4; one above it is written as octave 5 |
| `Abc.FlatTokensAreNotAbcPitches` | src/index.tsx:90 | the token of each of the five flats keeps the stored 'b', so it is not one ABC note |
| `Abc.FlatTokenExample` | src/index.tsx:89-93 | D flat in octave 2 becomes "db,,", which ABC reads as two notes |
| `Abc.AbcNote` | src/index.tsx:89-93 | corrected token: the flat written as '_' before the letter; for the seven naturals it equals the source's token |
| `Abc.AbcNoteWrittenOctave` | src/index.tsx:87-93 | for octaves 0 to 8 the corrected token is one ABC note of the stored letter, flat exactly for the flats, written one octave up for octaves 0 to 4 and one octave down for 5 to 8 |
| `Abc.WrittenOctaveOfToken` | src/index.tsx:87-93 | for the seven naturals the source's token is one ABC note, written one octave up for octaves 0 to 4 and one octave down for 5 to 8 |
| `Abc.OctavesFourAndFiveSwap` | src/index.tsx:87-93 | on the corrected token (`AbcNote`), for every pitch name, octave 4 is written an octave above octave 5 |
| `SessionState.Session.constructor` | src/index.tsx:120-122 | a new session is stopped on the drawn index, with the label shown and the reveal timeout pending |
| `SessionState.Session.Toggle` | src/index.tsx:127 | isRunning flips; index, timeout and history are unchanged; the label is shown on stopping and otherwise kept as it was |
| `SessionState.Session.AdvanceTick` | src/index.tsx:136-145 | while running the index becomes the selector's choice, differs from the old one and is appended to the history, and the new note is hidden with a fresh timeout; while stopped nothing changes |
| `SessionState.Session.RevealFire` | src/index.tsx:232-238 | a pending reveal timeout shows the label and is spent; otherwise nothing changes |
| `SessionState.Session.Label` | src/index.tsx:240 | a stopped session always shows the current note's name (`inventory[noteIndex][0]`, line 210), and so does one whose reveal timeout has fired; in every state the label is that name exactly while `shouldDisplay` holds |
| `SessionState.StartApp` | src/index.tsx:108-122 | the app starts stopped, on one of the seven E-string notes, with the label shown |
| `SessionState.PauseResumeKeepsNote` | src/index.tsx:127 | stopping and resuming keeps the ticked note, which differs from the initial one |
| `SessionState.NewNoteRevealedByTimeout` | src/index.tsx:225-238 | after a tick the label is hidden; after the reveal timeout it names the new note |
| `SessionState.StopShowsLabelAtOnce` | src/index.tsx:226-230 | stopping before the reveal timeout shows the new note's label at once |
| `SessionState.StoppedTickKeepsNote` | src/index.tsx:136-145 | a tick delivered to a session never started keeps the initial index |
| `SessionState.ResumeKeepsLabelShown` | src/index.tsx:209 | after start, stop and start again the label still shows the current note |
| `SessionState.ExclusionMappingScenario` | src/index.tsx:31-34 | with three notes and index 0, draw 0 selects index 1 and draw 1 selects index 2 |

## Findings

| source | as written | input that shows it | evidently intended | confidence | as-written member | corrected member |
|---|---|---|---|---|---|---|
| src/index.tsx:31-34 | with one note the draw is always 0, and 0 >= currentIndex gives index 1 | an inventory of one note, currentIndex 0 | a one-note inventory has no other note; selection should fail explicitly rather than return an index past the end (reading `inventory[1][0]` would then throw) | low: not executed; the shipped inventory has seven notes, so the app never meets the case | `Selector.SingletonSelectsOutOfRange` | `Selector.NextIndex` |
| src/index.tsx:90 | a flat keeps its stored spelling, so `['Db', 2]` becomes "db,,", which ABC reads as the note d and then the note b two octaves down | `Note(Db, 2)` | the flat written with ABC's flat sign, "_d,," | low: not executed; the shipped inventories hold no flats | `Abc.FlatTokensAreNotAbcPitches` | `Abc.AbcNote` |

The session advances through `NextIndex`. Its constructor requires two
notes, which makes the one-note case a start-up configuration error.
The ABC reading of all twelve pitch names is stated on `AbcNote`, through
`AbcNoteWrittenOctave` and `OctavesFourAndFiveSwap`.

## Left out

- `getFreq` and the `FREQ` table (src/index.tsx:19-29): floating-point arithmetic with `Math.pow`.
- The Web Audio oscillator (src/index.tsx:147-158): a browser API. The model does not record that a tone sounds exactly while running.
- Staff rendering: `getAbc`'s template text, `renderAbc`, layout measurement and the JSX styling (src/index.tsx:95-103, 160-216). These are third-party library calls and presentation.
- Keyboard wiring (src/index.tsx:124-133): only the resulting toggle is modelled (`Toggle`).
- `Math.random`, which becomes explicit draw arguments. `IsDraw` states the range of a draw. Probability is not modelled: uniformity is stated as "each other index has exactly one draw".
- Timer periods (`TIMEOUT` = 3000 ms, `NOTE_TIMEOUT` = 1500 ms) and wall-clock time. Events may arrive in any order. In the real timing a running note is always revealed before the next tick; the model does not capture this, and its properties hold for every order.
- The reveal timeout of the first `Note` element also fires while stopped. The model keeps it as a pending event, whose firing has no visible effect.
- Abc.WrittenOctaveOfToken: holds for the seven natural notes only, because the source's token of a flat is not one ABC note (see Findings). `AbcNoteWrittenOctave` states the rule for all twelve names on the corrected token.
- `toLowerCase` is modelled on ASCII letters only, which are the only characters a pitch name has.
- Octaves are integers; a fractional JavaScript number is not modelled.
- `mergeInventories` with no argument: `inventories[0]` is undefined and spreading it throws. `MergeInventories` requires at least one inventory instead.
- SessionState.Session.AdvanceTick: the key press, the re-render and the interval effect's cleanup are one step in `Toggle`, so a stopped session's tick is a no-op. In the source the interval is cleared only when the effect's cleanup runs after the re-render (src/index.tsx:136-145). A tick that fires in that window still draws a new index, and the model does not capture it.
- SessionState.Session.constructor: requires two or more notes. The source starts a session on one note and fails only at the first tick (see Findings).
- `src/constants.ts`: constant tables with no logic, not imported by the core.
