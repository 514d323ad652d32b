# Virtual piano: key table and playback controller

This project models the core of a small Java virtual piano. The computer
keyboard and on-screen buttons play MIDI notes on a synthesizer. The model
has two parts:

- `key_notes.dfy` (module `KeyNotes`) models the `KeyNote` enum. It holds
  the 42 constants in declaration order (25 white keys, then 17 black
  keys), each with its key code, MIDI note and key label. It also models
  `fromKey`, the accessors (the datatype's fields `key`, `note`,
  `keyboardKey`) and `isWhiteKey`. The enum name is kept as a structured
  `Name` (letter, octave, sharp), and `Render` spells it out as Java's
  `name()`. `isWhiteKey` is modelled literally, as "the name does not
  contain `_SHARP`".
- `piano.dfy` (module `Piano`) models `VirtualPiano`:
  - the set of active notes that stops a held key from sending note-on
    again;
  - the keyboard and mouse handlers;
  - `playSound` and `stopSound`;
  - the two layout loops that fill `noteToButton` (with `skipKeys` and
    `blackKeyIndex`);
  - the instrument buttons' program change.

  The class `VirtualPiano` holds the state the handlers update in place.
  Pure functions over a `Playback` value (active set plus event log) state
  what each handler does. The lemmas prove the controller's invariant
  about that value: the active set is what the log leaves sounding, and
  no note is started twice.

Calls into the synthesizer are recorded in a ghost event log instead of
being made. `playSound` and `stopSound` catch and print a failed call, so
the handler goes on. The instrument button's `programChange` (line 178 of
`VirtualPiano.java`) catches nothing, but nothing follows it in that
listener. The model logs all three calls as made.

Two points of the code shape the model:

- The code keeps no current-instrument value: an instrument button only
  sends `programChange` on channel 0. The model logs that event, and
  `ProgramInEffect` reads the program in effect back from the log.
- `VirtualPiano.java` calls `getMidiNote()` and `getPianoNote()`.
  `KeyNote.java` defines neither. It defines `getNote()`, which returns
  the MIDI note. The model reads `getMidiNote()` as `getNote()` (the
  `note` field). `getPianoNote()` only labels the on-screen buttons, so it
  is not modelled.

## Model

| member | source | states |
|---|---|---|
| KeyNotes.FindByKey | src/KeyNote.java:74-81 | the search returns None exactly when no entry has key code k; otherwise it returns the first entry, in order, whose key code is k |
| KeyNotes.FromKey | src/KeyNote.java:74-81 | fromKey returns null (None) exactly for key codes outside the table; otherwise it returns a table constant whose key is k and whose note is a table note |
| KeyNotes.KeysDistinct | src/KeyNote.java:8-49 | no two constants share a key code, so fromKey's first match is the only match |
| KeyNotes.FromKeyOfEntry | src/KeyNote.java:74-81 | fromKey finds every constant by its own key code |
| KeyNotes.NotesAreRange | src/KeyNote.java:8-49 | the notes are pairwise distinct and are exactly 24..65, so all are valid MIDI notes (0..127) |
| KeyNotes.ValuesAreOrdinals | src/KeyNote.java:8-49 | values()[i] is the constant with ordinal i, for each of the 42 constants |
| KeyNotes.Ordinal | src/KeyNote.java:8-49 | constant i is a natural exactly when i < 25, and its note lies in 24..65 |
| KeyNotes.Values | src/KeyNote.java:8-49 | values() has one entry per constant, 42 in all; that entry i is constant i is ValuesAreOrdinals |
| KeyNotes.Render | src/KeyNote.java:8-49 | name() spells the letter, then the octave digit, and is longer than that exactly for a sharp |
| KeyNotes.Contains | src/KeyNote.java:116 | String.contains holds exactly when sub occurs at some index of s |
| KeyNotes.SharpSuffixIffSharp | src/KeyNote.java:115-117 | a constant's name contains `_SHARP` exactly when the constant is a sharp |
| KeyNotes.IsWhiteKey | src/KeyNote.java:115-117 | isWhiteKey holds exactly for the naturals, the names without the `_SHARP` suffix |
| KeyNotes.WhiteKeysFirst | src/KeyNote.java:8-49 | the first 25 constants are exactly the white keys |
| KeyNotes.SharpIsNaturalPlusOne | src/KeyNote.java:33-49 | each X_SHARP constant plays one semitone above a white constant X of the same letter and octave |
| Piano.Press | src/VirtualPiano.java:100-102 | starting a note makes it active; it sends one note-on, which makes the note sound, exactly when the note was not active, and leaves the program in effect |
| Piano.Release | src/VirtualPiano.java:109-110 | stopping a note makes it inactive and silent, always appends one event, and leaves the program in effect |
| Piano.KeyPress | src/VirtualPiano.java:57-64 | an unmapped key changes nothing; a mapped key adds the note of the constant with that key code to the active set; at most one event is sent |
| Piano.KeyRelease | src/VirtualPiano.java:73-80 | an unmapped key changes nothing; a mapped key removes the note of the constant with that key code and sends exactly one event |
| Piano.SelectProgram | src/VirtualPiano.java:178 | a program change leaves the active and sounding notes alone and puts its program in effect |
| Piano.PressKeepsConsistent | src/VirtualPiano.java:57-64 | starting a table note keeps the invariant: the active set equals what the log leaves sounding, no note-on is sent for a sounding note, and only table notes are active |
| Piano.ReleaseKeepsConsistent | src/VirtualPiano.java:73-80 | stopping any note keeps the invariant |
| Piano.KeyEventsKeepConsistent | src/VirtualPiano.java:57-80 | keyPressed and keyReleased keep the invariant for every key code, mapped or not |
| Piano.SelectProgramKeepsConsistent | src/VirtualPiano.java:176-178 | a program change keeps the invariant |
| Piano.KeyPressIdempotent | src/VirtualPiano.java:57-64 | a second press of a key with no release in between changes nothing |
| Piano.RepeatedKeyPress | src/VirtualPiano.java:57-64 | any number m >= 1 of repeated presses has the effect of one press |
| Piano.HeldKeyStartsOnce | src/VirtualPiano.java:57-64 | holding a mapped key sends one note-on if its note was silent and none if it was active |
| Piano.PressThenRelease | src/VirtualPiano.java:57-80 | press then release of a mapped key sends the note-on (if the note was silent), then the note-off, and leaves the note inactive |
| Piano.ReleaseAlwaysStops | src/VirtualPiano.java:73-80 | release always sends a note-off, even for a note that is not active, and afterwards the note is inactive |
| Piano.UnmappedKeyIgnored | src/VirtualPiano.java:57-80 | a key code outside the table changes nothing and sends nothing, on press and on release |
| Piano.KeyAndMouseShareState | src/VirtualPiano.java:57-80 | the key handlers act on the key's note as the mouse handlers do, over the same active set |
| Piano.InstrumentsAreMidiPrograms | src/VirtualPiano.java:166 | every instrument number is a MIDI program (0..127) |
| Piano.SelectProgramOnlyChangesProgram | src/VirtualPiano.java:174-179 | a program change touches no note, and its program stays in effect across a later key press or release |
| Piano.ScenarioQ | src/VirtualPiano.java:57-80 | pressing and releasing 'q' from rest plays, then stops, note 26 |
| Piano.ScenarioTabHeld | src/VirtualPiano.java:57-64 | holding TAB from rest sends a single note-on, for note 24 |
| Piano.BlackSlotStep | src/VirtualPiano.java:116-143 | in the black-key loop, each slot not skipped gets the next black key: slot i is the blackKeyIndex-th entry of the slot list |
| Piano.BlackSlotsAre | src/VirtualPiano.java:116-143 | the black-key loop fills exactly slots 0..22 minus skipKeys, in increasing order, 17 of them |
| Piano.BlackKeysBesideTheirNaturals | src/VirtualPiano.java:116-143 | the b-th black button sits in the slot of the white key whose sharp it plays |
| Piano.SkippedSlotsFollowEAndB | src/VirtualPiano.java:117 | the skipped slots are exactly those after a white E or B |
| Piano.IsSkipKey | src/VirtualPiano.java:121-127 | the skipKeys scan is true exactly for slots in skipKeys |
| Piano.LayoutCoversTable | src/VirtualPiano.java:84-164 | after the layout every constant has its own button under its note, and a button's white flag agrees with isWhiteKey |
| Piano.ReleaseColourIsResting | src/VirtualPiano.java:78 | the colour keyReleased picks (isWhiteKey) is the resting colour of the key's button |
| Piano.LayoutComplete | src/VirtualPiano.java:84-164 | both loops together put constant i < 25 on white button i and constant 25+b on the b-th black button, all at rest |
| Piano.LayOutKeys | src/VirtualPiano.java:84-143 | the two layout loops build a laid-out noteToButton and resting colours for the same keys |
| Piano.VirtualPiano.constructor | src/VirtualPiano.java:22-23 | a new piano has no active note, has sent no event, and has every key laid out at rest |
| Piano.VirtualPiano.PlaySound | src/VirtualPiano.java:197-203 | playSound sends one note-on at velocity 80 |
| Piano.VirtualPiano.StopSound | src/VirtualPiano.java:210-216 | stopSound sends one note-off |
| Piano.VirtualPiano.KeyPressed | src/VirtualPiano.java:57-64 | keyPressed does what KeyPress specifies, keeps the invariant, and turns the button green exactly while its note is active |
| Piano.VirtualPiano.KeyReleased | src/VirtualPiano.java:73-80 | keyReleased does what KeyRelease specifies and restores the button's resting colour |
| Piano.VirtualPiano.MousePressed | src/VirtualPiano.java:97-104 | a mouse press on a key button starts its note as Press specifies, unless it is already active |
| Piano.VirtualPiano.MouseReleased | src/VirtualPiano.java:107-112 | a mouse release stops its note as Release specifies and restores the button's colour |
| Piano.VirtualPiano.SelectInstrument | src/VirtualPiano.java:174-179 | the i-th instrument button sends programChange(instruments[i]) on channel 0 and changes nothing else |

## Left out

- Window, layered pane, button sizes, text and focus handling are left out. They are Swing plumbing. A button is modelled by its constant, its left edge and whether it is white.
- `getPianoNote()` and the button label it feeds are left out. The method is not defined in `KeyNote.java`.
- Opening the synthesizer and fetching its channels are left out. If they fail, the source prints the error and later calls fail too; the model treats every call as made.
- The exception handlers in `playSound` and `stopSound` are left out. They only print the stack trace, so the model logs the attempted call and goes on.
- AWT key-event delivery is left out. `keyTyped` is empty, and the handlers receive the event's key char as an integer `k`.
- The instrument names (button captions) are left out.
- Piano.VirtualPiano.MousePressed: the black-key listener repeats the white-key one (lines 149-162). One method models both.
- Piano.LayOutKeys: noteToButton is built by the loops and stored once by the constructor. The source fills its map in place; since it never changes afterwards, the model keeps it as a constant field.
- Integers are unbounded. Every key code, note and program number here is small, so Java's 32-bit `int` never wraps.
