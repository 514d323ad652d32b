/** The playback state controller of the virtual piano: the set of sounding
    notes that suppresses repeated note-ons, the key and mouse handlers that
    update it, the on-screen key layout, and the instrument selection. Calls
    into the MIDI synthesizer are recorded in an event log. */
module Piano {
  import opened KeyNotes

  /** Velocity of every note-on. */
  const Velocity: int := 80
  /** The one MIDI channel the piano plays on. */
  const Channel: int := 0
  /** The program numbers behind the instrument buttons, in button order. */
  const Instruments: seq<int> := [0, 32, 40, 56, 80, 88, 104]
  /** The black-key slots that stay empty (after each E and B). */
  const SkipKeys: seq<int> := [2, 6, 9, 13, 16, 20]
  /** Number of black-key slots the layout scans. */
  const BlackSlotCount: nat := 23
  /** Width of a white key, and its step along the row. */
  const KeyWidth: int := 60
  /** Offset of a black key from the left edge of its slot. */
  const BlackOffset: int := 38

  /** A call into the synthesizer. */
  datatype Event =
    | NoteOn(note: int, velocity: int)
    | NoteOff(note: int)
    | ProgramChange(channel: int, program: int)

  /** What the controller tracks: the active notes and the calls made so far. */
  datatype Playback = Playback(active: set<int>, log: seq<Event>)

  /** Background colour of a key button. */
  datatype Colour = White | Black | Green

  /** A key button: the constant it plays, its left edge, and whether the
      white-key loop made it. */
  datatype Button = Button(entry: KeyNote, x: int, white: bool)

  /** The resting colour keyReleased picks for a constant: white for a white key. */
  function KeyColour(e: KeyNote): Colour
  {
    if IsWhiteKey(e) then White else Black
  }

  /** The colour a button returns to when its note stops. */
  function Resting(b: Button): Colour
  {
    if b.white then White else Black
  }

  // ---------------------------------------------------------------------
  // What the event log means

  /** The notes a synthesizer has sounding after replaying log. */
  function Sounding(log: seq<Event>): set<int>
  {
    if log == [] then {}
    else
      var prior := Sounding(log[..|log| - 1]);
      match log[|log| - 1]
      case NoteOn(n, _) => prior + {n}
      case NoteOff(n) => prior - {n}
      case ProgramChange(_, _) => prior
  }

  /** No note-on in log is for a note that is already sounding. */
  predicate NoRetrigger(log: seq<Event>)
  {
    log == [] ||
    (NoRetrigger(log[..|log| - 1]) &&
     (log[|log| - 1].NoteOn? ==> log[|log| - 1].note !in Sounding(log[..|log| - 1])))
  }

  /** The program of the last program change in log, if any. */
  function ProgramInEffect(log: seq<Event>): Option<int>
  {
    if log == [] then None
    else if log[|log| - 1].ProgramChange? then Some(log[|log| - 1].program)
    else ProgramInEffect(log[..|log| - 1])
  }

  /** The controller's invariant: a note is active exactly when a note-on was
      sent for it and no note-off since, no note is started twice without a
      stop in between, and only table notes are ever active. */
  predicate Consistent(p: Playback)
  {
    p.active == Sounding(p.log) && NoRetrigger(p.log) && p.active <= NoteSet()
  }

  // ---------------------------------------------------------------------
  // The controller's transitions

  /** Starting a note: a note-on, unless the note is already active. */
  function Press(p: Playback, note: int): (r: Playback)
    ensures r.active == p.active + {note}
    ensures p.log <= r.log && |r.log| == |p.log| + (if note in p.active then 0 else 1)
    ensures note !in p.active ==> Sounding(r.log) == Sounding(p.log) + {note}
    ensures ProgramInEffect(r.log) == ProgramInEffect(p.log)
  {
    if note in p.active then p
    else
      LogAppend(p.log, NoteOn(note, Velocity));
      Playback(p.active + {note}, p.log + [NoteOn(note, Velocity)])
  }

  /** Stopping a note: always a note-off. */
  function Release(p: Playback, note: int): (r: Playback)
    ensures r.active == p.active - {note}
    ensures p.log <= r.log && |r.log| == |p.log| + 1
    ensures Sounding(r.log) == Sounding(p.log) - {note}
    ensures ProgramInEffect(r.log) == ProgramInEffect(p.log)
  {
    LogAppend(p.log, NoteOff(note));
    Playback(p.active - {note}, p.log + [NoteOff(note)])
  }

  /** keyPressed: a mapped key starts its note; an unmapped key does nothing. */
  function KeyPress(p: Playback, k: int): (r: Playback)
    ensures k !in KeyCodes() ==> r == p
    ensures k in KeyCodes() ==> exists i: nat | i < EntryCount ::
      Ordinal(i).key == k && r.active == p.active + {Ordinal(i).note}
    ensures p.log <= r.log && |r.log| <= |p.log| + 1
  {
    match FromKey(k)
    case None => p
    case Some(e) => Press(p, e.note)
  }

  /** keyReleased: a mapped key stops its note; an unmapped key does nothing. */
  function KeyRelease(p: Playback, k: int): (r: Playback)
    ensures k !in KeyCodes() ==> r == p
    ensures k in KeyCodes() ==> exists i: nat | i < EntryCount ::
      Ordinal(i).key == k && r.active == p.active - {Ordinal(i).note}
    ensures p.log <= r.log && |r.log| == |p.log| + (if k in KeyCodes() then 1 else 0)
  {
    match FromKey(k)
    case None => p
    case Some(e) => Release(p, e.note)
  }

  /** An instrument button: a program change on the piano's channel. */
  function SelectProgram(p: Playback, program: int): (r: Playback)
    ensures r.active == p.active && Sounding(r.log) == Sounding(p.log)
    ensures ProgramInEffect(r.log) == Some(program)
    ensures p.log <= r.log && |r.log| == |p.log| + 1
  {
    LogAppend(p.log, ProgramChange(Channel, program));
    Playback(p.active, p.log + [ProgramChange(Channel, program)])
  }

  /** m key-press events for the same key with no release in between. */
  function KeyPresses(p: Playback, k: int, m: nat): Playback
  {
    if m == 0 then p else KeyPress(KeyPresses(p, k, m - 1), k)
  }

  // ---------------------------------------------------------------------
  // Properties of the transitions

  lemma LogAppend(log: seq<Event>, e: Event)
    ensures (log + [e])[..|log|] == log && (log + [e])[|log|] == e
  {
  }

  /** Starting a table note keeps the controller consistent. */
  lemma PressKeepsConsistent(p: Playback, note: int)
    requires Consistent(p) && note in NoteSet()
    ensures Consistent(Press(p, note))
  {
    LogAppend(p.log, NoteOn(note, Velocity));
  }

  /** Stopping any note keeps the controller consistent. */
  lemma ReleaseKeepsConsistent(p: Playback, note: int)
    requires Consistent(p)
    ensures Consistent(Release(p, note))
  {
    LogAppend(p.log, NoteOff(note));
  }

  /** Key events keep the controller consistent, whatever the key code. */
  lemma KeyEventsKeepConsistent(p: Playback, k: int)
    requires Consistent(p)
    ensures Consistent(KeyPress(p, k)) && Consistent(KeyRelease(p, k))
  {
    if FromKey(k).Some? {
      PressKeepsConsistent(p, FromKey(k).value.note);
      ReleaseKeepsConsistent(p, FromKey(k).value.note);
    }
  }

  /** A program change keeps the controller consistent. */
  lemma SelectProgramKeepsConsistent(p: Playback, program: int)
    requires Consistent(p)
    ensures Consistent(SelectProgram(p, program))
  {
    LogAppend(p.log, ProgramChange(Channel, program));
  }

  /** A second press of the same key, with no release in between, does nothing. */
  lemma KeyPressIdempotent(p: Playback, k: int)
    ensures KeyPress(KeyPress(p, k), k) == KeyPress(p, k)
  {
  }

  lemma {:induction false} RepeatedKeyPress(p: Playback, k: int, m: nat)
    requires m >= 1
    ensures KeyPresses(p, k, m) == KeyPress(p, k)
  {
    if m > 1 {
      RepeatedKeyPress(p, k, m - 1);
      KeyPressIdempotent(p, k);
    }
  }

  /** Holding a mapped key down (any number of repeated press events) sends
      exactly one note-on if its note was silent, and none if it was active. */
  lemma HeldKeyStartsOnce(p: Playback, k: int, m: nat)
    requires m >= 1 && FromKey(k).Some?
    ensures var n := FromKey(k).value.note;
      KeyPresses(p, k, m) ==
        if n in p.active then p
        else Playback(p.active + {n}, p.log + [NoteOn(n, Velocity)])
  {
    RepeatedKeyPress(p, k, m);
  }

  /** Pressing then releasing a mapped key sends the note-on (when the note
      was silent) and then the note-off, and leaves the note inactive. */
  lemma PressThenRelease(p: Playback, k: int)
    requires FromKey(k).Some?
    ensures var n := FromKey(k).value.note;
      KeyRelease(KeyPress(p, k), k) ==
        Playback(p.active - {n},
                 p.log + (if n in p.active then [] else [NoteOn(n, Velocity)]) + [NoteOff(n)])
  {
  }

  /** Releasing a mapped key always sends a note-off, even for a note that
      was not active, and afterwards the note is not active. */
  lemma ReleaseAlwaysStops(p: Playback, k: int)
    requires FromKey(k).Some?
    ensures KeyRelease(p, k).log == p.log + [NoteOff(FromKey(k).value.note)]
    ensures KeyRelease(p, k).active == p.active - {FromKey(k).value.note}
    ensures FromKey(k).value.note !in p.active ==> KeyRelease(p, k).active == p.active
  {
  }

  /** A key code outside the table changes nothing and sends nothing. */
  lemma UnmappedKeyIgnored(p: Playback, k: int)
    requires k !in KeyCodes()
    ensures KeyPress(p, k) == p && KeyRelease(p, k) == p
  {
  }

  /** Keys and mouse share the active set: clicking the button of a note the
      keyboard already started does nothing, and the key handlers act as the
      mouse handlers do on the key's note. */
  lemma KeyAndMouseShareState(p: Playback, k: int)
    requires FromKey(k).Some?
    ensures KeyPress(p, k) == Press(p, FromKey(k).value.note)
    ensures KeyRelease(p, k) == Release(p, FromKey(k).value.note)
    ensures Press(KeyPress(p, k), FromKey(k).value.note) == KeyPress(p, k)
  {
  }

  /** Every instrument button sends a valid MIDI program number. */
  lemma InstrumentsAreMidiPrograms()
    ensures forall i | 0 <= i < |Instruments| :: 0 <= Instruments[i] <= 127
  {
  }

  /** Selecting a program touches no note, and the program stays in effect
      across a later key press or release. */
  lemma {:induction false} SelectProgramOnlyChangesProgram(p: Playback, program: int, k: int)
    ensures var q := SelectProgram(p, program);
      q.active == p.active && Sounding(q.log) == Sounding(p.log) &&
      ProgramInEffect(q.log) == Some(program) &&
      ProgramInEffect(KeyPress(q, k).log) == Some(program) &&
      ProgramInEffect(KeyRelease(q, k).log) == Some(program)
  {
    var q := SelectProgram(p, program);
    LogAppend(p.log, ProgramChange(Channel, program));
    if FromKey(k).Some? {
      var n := FromKey(k).value.note;
      LogAppend(q.log, NoteOn(n, Velocity));
      LogAppend(q.log, NoteOff(n));
    }
  }

  /** Pressing and releasing 'q' from rest plays and stops note 26. */
  lemma ScenarioQ()
    ensures KeyPress(Playback({}, []), 'q' as int) == Playback({26}, [NoteOn(26, Velocity)])
    ensures KeyRelease(KeyPress(Playback({}, []), 'q' as int), 'q' as int) ==
      Playback({}, [NoteOn(26, Velocity), NoteOff(26)])
  {
    FromKeyOfEntry(1);
  }

  /** Repeated TAB presses from rest send a single note-on for note 24. */
  lemma ScenarioTabHeld(m: nat)
    requires m >= 1
    ensures KeyPresses(Playback({}, []), VkTab, m) == Playback({24}, [NoteOn(24, Velocity)])
  {
    FromKeyOfEntry(0);
    assert FromKey(VkTab) == Some(Ordinal(0));
    RepeatedKeyPress(Playback({}, []), VkTab, m);
  }

  // ---------------------------------------------------------------------
  // The key layout

  /** The black-key slots below n that are not skipped, in order. */
  function Unskipped(n: nat): seq<int>
  {
    if n == 0 then [] else Unskipped(n - 1) + (if n - 1 in SkipKeys then [] else [n - 1])
  }

  /** The slots that receive a black key, in order: one after every white
      key except E and B. */
  const BlackSlots: seq<int> := [0, 1, 3, 4, 5, 7, 8, 10, 11, 12, 14, 15, 17, 18, 19, 21, 22]

  lemma {:induction false} UnskippedPrefix(i: nat, j: nat)
    requires i <= j
    ensures Unskipped(i) <= Unskipped(j)
    decreases j
  {
    if i < j {
      UnskippedPrefix(i, j - 1);
    }
  }

  /** The scan of slot i adds at most slot i itself. */
  lemma UnskippedNext(i: nat)
    ensures |Unskipped(i + 1)| == |Unskipped(i)| + (if i in SkipKeys then 0 else 1)
  {
  }

  /** A slot that is not skipped holds the next black key. */
  lemma BlackSlotStep(i: nat)
    requires i < BlackSlotCount && i !in SkipKeys
    ensures |Unskipped(i)| < |BlackSlots| && BlackSlots[|Unskipped(i)|] == i
  {
    BlackSlotsAre();
    UnskippedPrefix(i + 1, BlackSlotCount);
    assert Unskipped(i + 1) == Unskipped(i) + [i];
  }

  lemma SkipKeysMembers()
    ensures forall s :: s in SkipKeys <==> s in {2, 6, 9, 13, 16, 20}
  {
  }

  lemma SlotsBelow4()
    ensures Unskipped(4) == [0, 1, 3]
  {
    SkipKeysMembers();
    assert Unskipped(1) == [0];
    assert Unskipped(2) == [0, 1];
    assert Unskipped(3) == [0, 1];
  }

  lemma SlotsBelow8()
    ensures Unskipped(8) == [0, 1, 3, 4, 5, 7]
  {
    SkipKeysMembers();
    SlotsBelow4();
    assert Unskipped(5) == [0, 1, 3, 4];
    assert Unskipped(6) == [0, 1, 3, 4, 5];
    assert Unskipped(7) == [0, 1, 3, 4, 5];
  }

  lemma SlotsBelow12()
    ensures Unskipped(12) == [0, 1, 3, 4, 5, 7, 8, 10, 11]
  {
    SkipKeysMembers();
    SlotsBelow8();
    assert Unskipped(9) == [0, 1, 3, 4, 5, 7, 8];
    assert Unskipped(10) == [0, 1, 3, 4, 5, 7, 8];
    assert Unskipped(11) == [0, 1, 3, 4, 5, 7, 8, 10];
  }

  lemma SlotsBelow16()
    ensures Unskipped(16) == [0, 1, 3, 4, 5, 7, 8, 10, 11, 12, 14, 15]
  {
    SkipKeysMembers();
    SlotsBelow12();
    assert Unskipped(13) == [0, 1, 3, 4, 5, 7, 8, 10, 11, 12];
    assert Unskipped(14) == [0, 1, 3, 4, 5, 7, 8, 10, 11, 12];
    assert Unskipped(15) == [0, 1, 3, 4, 5, 7, 8, 10, 11, 12, 14];
  }

  lemma SlotsBelow20()
    ensures Unskipped(20) == [0, 1, 3, 4, 5, 7, 8, 10, 11, 12, 14, 15, 17, 18, 19]
  {
    SkipKeysMembers();
    SlotsBelow16();
    assert Unskipped(17) == [0, 1, 3, 4, 5, 7, 8, 10, 11, 12, 14, 15];
    assert Unskipped(18) == [0, 1, 3, 4, 5, 7, 8, 10, 11, 12, 14, 15, 17];
    assert Unskipped(19) == [0, 1, 3, 4, 5, 7, 8, 10, 11, 12, 14, 15, 17, 18];
  }

  /** The black loop fills exactly the 17 slots 0..22 other than the skipped
      ones, in increasing order. */
  lemma BlackSlotsAre()
    ensures Unskipped(BlackSlotCount) == BlackSlots
  {
    SkipKeysMembers();
    SlotsBelow20();
    assert Unskipped(21) == [0, 1, 3, 4, 5, 7, 8, 10, 11, 12, 14, 15, 17, 18, 19];
    assert Unskipped(22) == [0, 1, 3, 4, 5, 7, 8, 10, 11, 12, 14, 15, 17, 18, 19, 21];
  }

  /** The button the white loop makes for constant i. */
  function WhiteButton(i: nat): Button
    requires i < WhiteCount
  {
    Button(Ordinal(i), i * KeyWidth, true)
  }

  /** The button the black loop makes for the b-th black key. */
  function BlackButton(b: nat): Button
    requires b < |BlackSlots|
    requires WhiteCount + b < EntryCount
  {
    Button(Ordinal(WhiteCount + b), BlackSlots[b] * KeyWidth + BlackOffset, false)
  }

  /** noteToButton after the two layout loops: constant i < 25 on white
      button i, constant 25 + b on the b-th black button, keyed by note. */
  ghost predicate LaidOut(m: map<int, Button>)
  {
    m.Keys == NoteSet() &&
    (forall i: nat | i < WhiteCount :: m[Ordinal(i).note] == WhiteButton(i)) &&
    (forall b: nat | b < EntryCount - WhiteCount :: m[Ordinal(WhiteCount + b).note] == BlackButton(b))
  }

  /** After the layout every table constant has its own button, found under
      its note, and a button's white flag agrees with isWhiteKey. */
  lemma LayoutCoversTable(m: map<int, Button>)
    requires LaidOut(m)
    ensures forall i: nat | i < EntryCount ::
      Ordinal(i).note in m && m[Ordinal(i).note].entry == Ordinal(i)
    ensures forall n | n in m :: m[n].entry.note == n && m[n].white == IsWhiteKey(m[n].entry)
  {
    WhiteKeysFirst();
    forall i: nat | i < EntryCount
      ensures Ordinal(i).note in m && m[Ordinal(i).note].entry == Ordinal(i)
    {
      if i >= WhiteCount {
        assert m[Ordinal(WhiteCount + (i - WhiteCount)).note] == BlackButton(i - WhiteCount);
      }
    }
    forall n | n in m
      ensures m[n].entry.note == n && m[n].white == IsWhiteKey(m[n].entry)
    {
      var i: nat :| i < EntryCount && Ordinal(i).note == n;
      if i >= WhiteCount {
        assert m[Ordinal(WhiteCount + (i - WhiteCount)).note] == BlackButton(i - WhiteCount);
      }
    }
  }

  /** The key handlers' colour choice on release, isWhiteKey, is the
      resting colour of the key's button. */
  lemma ReleaseColourIsResting(m: map<int, Button>, k: int)
    requires LaidOut(m) && FromKey(k).Some?
    ensures FromKey(k).value.note in m
    ensures Resting(m[FromKey(k).value.note]) == KeyColour(FromKey(k).value)
  {
    LayoutCoversTable(m);
  }

  /** The button the layout loops give values()[j]: white at x = 60 j for
      the first 25, black in the next unskipped slot for the rest. */
  function ButtonOf(j: nat): Button
    requires j < EntryCount
  {
    if j < WhiteCount then Button(Values()[j], j * KeyWidth, true)
    else Button(Values()[j], BlackSlots[j - WhiteCount] * KeyWidth + BlackOffset, false)
  }

  /** noteToButton once the first n constants have their buttons. */
  function Layout(n: nat): map<int, Button>
    requires n <= EntryCount
  {
    if n == 0 then map[] else Layout(n - 1)[Values()[n - 1].note := ButtonOf(n - 1)]
  }

  /** The button colours once the first n constants have their buttons. */
  function Colours(n: nat): map<int, Colour>
    requires n <= EntryCount
  {
    if n == 0 then map[] else Colours(n - 1)[Values()[n - 1].note := Resting(ButtonOf(n - 1))]
  }

  /** The notes of the first n + 1 constants. */
  lemma FirstNotesExtend(n: nat)
    requires n < EntryCount
    ensures (set j: nat | j < n + 1 :: Values()[j].note) ==
      (set j: nat | j < n :: Values()[j].note) + {Values()[n].note}
  {
  }

  /** The first n constants, and only they, have a button and a colour. */
  lemma {:induction false} LayoutDomain(n: nat)
    requires n <= EntryCount
    ensures Layout(n).Keys == (set j: nat | j < n :: Values()[j].note)
    ensures Colours(n).Keys == Layout(n).Keys
  {
    if n > 0 {
      LayoutDomain(n - 1);
      FirstNotesExtend(n - 1);
    }
  }

  /** Constant j keeps its own button, at rest, as later constants are laid
      out: no two constants share a note. */
  lemma {:induction false} LayoutAt(n: nat, j: nat)
    requires j < n <= EntryCount
    ensures Values()[j].note in Layout(n) && Layout(n)[Values()[j].note] == ButtonOf(j)
    ensures Values()[j].note in Colours(n) && Colours(n)[Values()[j].note] == Resting(ButtonOf(j))
  {
    if j < n - 1 {
      LayoutAt(n - 1, j);
      ValuesNotesDistinct(j, n - 1);
    }
  }

  /** Two constants of values() never share a note. */
  lemma ValuesNotesDistinct(j: nat, k: nat)
    requires j < k < EntryCount
    ensures Values()[j].note != Values()[k].note
  {
    ValuesAreOrdinals();
    NotePositions();
    assert NotePosition(Ordinal(j).note) != NotePosition(Ordinal(k).note);
  }

  /** Both layout loops together lay out the whole table, at rest. */
  lemma LayoutComplete()
    ensures LaidOut(Layout(EntryCount)) && Colours(EntryCount).Keys == Layout(EntryCount).Keys
    ensures forall x | x in Layout(EntryCount) :: Colours(EntryCount)[x] == Resting(Layout(EntryCount)[x])
  {
    var n := EntryCount;
    var m, c := Layout(n), Colours(n);
    LayoutDomain(n);
    ValuesAreOrdinals();
    assert m.Keys == NoteSet();
    forall j: nat | j < n
      ensures Ordinal(j).note in m && m[Ordinal(j).note] == ButtonOf(j)
      ensures c[Ordinal(j).note] == Resting(m[Ordinal(j).note])
    {
      LayoutAt(n, j);
    }
    forall i: nat | i < WhiteCount
      ensures m[Ordinal(i).note] == WhiteButton(i)
    {
      assert ButtonOf(i) == WhiteButton(i);
    }
    forall b: nat | b < EntryCount - WhiteCount
      ensures m[Ordinal(WhiteCount + b).note] == BlackButton(b)
    {
      assert ButtonOf(WhiteCount + b) == BlackButton(b);
    }
  }

  /** The b-th black button belongs to the sharp of the white key in its
      slot: its constant is that key's X_SHARP, one semitone higher. */
  lemma BlackKeysBesideTheirNaturals()
    ensures |BlackSlots| == EntryCount - WhiteCount
    ensures forall b: nat | b < EntryCount - WhiteCount ::
      0 <= BlackSlots[b] < WhiteCount && NaturalBelow(BlackSlots[b], WhiteCount + b)
  {
  }

  /** The skipped slots are exactly those after a white E or B, the notes
      with no sharp above them. */
  lemma SkippedSlotsFollowEAndB()
    ensures forall s: nat | s < BlackSlotCount ::
      s in SkipKeys <==> Ordinal(s).name.letter == E || Ordinal(s).name.letter == B
  {
    SkipKeysMembers();
  }

  /** The scan of skipKeys in the black-key loop. */
  method IsSkipKey(i: int) returns (isSkipKey: bool)
    ensures isSkipKey <==> i in SkipKeys
  {
    isSkipKey := false;
    for j := 0 to |SkipKeys|
      invariant !isSkipKey
      invariant forall l | 0 <= l < j :: SkipKeys[l] != i
    {
      if i == SkipKeys[j] {
        isSkipKey := true;
        break;
      }
    }
  }

  /** The two layout loops. The white-key loop gives constant i a white
      button at x = 60 i. The black-key loop walks slots 0..22, skips those
      in skipKeys, and gives the constants from 25 on, in order, a black
      button at x = 60 i + 38. */
  method LayOutKeys() returns (noteToButton: map<int, Button>, colour: map<int, Colour>)
    ensures LaidOut(noteToButton) && colour.Keys == noteToButton.Keys
    ensures forall n | n in noteToButton :: colour[n] == Resting(noteToButton[n])
  {
    noteToButton := map[];
    colour := map[];
    var i := 0;
    while i < WhiteCount
      invariant i <= WhiteCount
      invariant noteToButton == Layout(i) && colour == Colours(i)
    {
      var keyNote := Values()[i];
      noteToButton := noteToButton[keyNote.note := Button(keyNote, i * KeyWidth, true)];
      colour := colour[keyNote.note := White];
      i := i + 1;
    }
    var blackKeyIndex := 0;
    i := 0;
    while i < BlackSlotCount
      invariant i <= BlackSlotCount
      invariant blackKeyIndex == |Unskipped(i)| && blackKeyIndex <= EntryCount - WhiteCount
      invariant noteToButton == Layout(WhiteCount + blackKeyIndex)
      invariant colour == Colours(WhiteCount + blackKeyIndex)
    {
      UnskippedNext(i);
      var isSkipKey := IsSkipKey(i);
      if isSkipKey {
        i := i + 1;
        continue;
      }
      BlackSlotStep(i);
      var keyNote := Values()[WhiteCount + blackKeyIndex];
      assert Button(keyNote, i * KeyWidth + BlackOffset, false) == ButtonOf(WhiteCount + blackKeyIndex);
      noteToButton := noteToButton[keyNote.note := Button(keyNote, i * KeyWidth + BlackOffset, false)];
      colour := colour[keyNote.note := Black];
      blackKeyIndex := blackKeyIndex + 1;
      i := i + 1;
    }
    BlackSlotsAre();
    LayoutComplete();
  }

  /** The piano's process-wide state: the active notes, the note-to-button
      map the layout fills, the buttons' colours, and the synthesizer calls. */
  class VirtualPiano {
    var activeNotes: set<int>
    const noteToButton: map<int, Button>
    var colour: map<int, Colour>
    ghost var log: seq<Event>

    ghost function State(): Playback
      reads this
    {
      Playback(activeNotes, log)
    }

    /** The controller is consistent, the keys are laid out, and a button is
        green exactly while its note is active. */
    ghost predicate Valid()
      reads this
    {
      Consistent(State()) &&
      LaidOut(noteToButton) &&
      colour.Keys == noteToButton.Keys &&
      forall n | n in noteToButton ::
        colour[n] == if n in activeNotes then Green else Resting(noteToButton[n])
    }

    /** The window's construction: no note sounds, no call is made, and
        the two layout loops fill noteToButton and the colours. */
    constructor ()
      ensures Valid() && State() == Playback({}, [])
    {
      var buttons, colours := LayOutKeys();
      activeNotes := {};
      noteToButton := buttons;
      colour := colours;
      log := [];
    }

    /** playSound: a note-on at the fixed velocity. A failing synthesizer
        call is caught, so the caller goes on either way. */
    method PlaySound(note: int)
      modifies this`log
      ensures log == old(log) + [NoteOn(note, Velocity)]
    {
      log := log + [NoteOn(note, Velocity)];
    }

    /** stopSound: a note-off, caught on failure like playSound. */
    method StopSound(note: int)
      modifies this`log
      ensures log == old(log) + [NoteOff(note)]
    {
      log := log + [NoteOff(note)];
    }

    /** keyPressed: a mapped key whose note is silent plays it and turns its
        button green; anything else does nothing. */
    method KeyPressed(k: int)
      requires Valid()
      modifies this
      ensures Valid() && State() == KeyPress(old(State()), k)
    {
      KeyEventsKeepConsistent(State(), k);
      var keyToNote := FromKey(k);
      if keyToNote.Some? && keyToNote.value.note !in activeNotes {
        var note := keyToNote.value.note;
        PlaySound(note);
        activeNotes := activeNotes + {note};
        colour := colour[note := Green];
      }
    }

    /** keyReleased: a mapped key stops its note, whether or not it was
        active, and restores its button's resting colour. */
    method KeyReleased(k: int)
      requires Valid()
      modifies this
      ensures Valid() && State() == KeyRelease(old(State()), k)
    {
      KeyEventsKeepConsistent(State(), k);
      var keyToNote := FromKey(k);
      if keyToNote.Some? {
        var note := keyToNote.value.note;
        ReleaseColourIsResting(noteToButton, k);
        StopSound(note);
        activeNotes := activeNotes - {note};
        colour := colour[note := KeyColour(keyToNote.value)];
      }
    }

    /** mousePressed on key button b: as keyPressed, for b's note. */
    method MousePressed(b: Button)
      requires Valid() && b in noteToButton.Values
      modifies this
      ensures Valid() && State() == Press(old(State()), b.entry.note)
    {
      LayoutCoversTable(noteToButton);
      var note := b.entry.note;
      PressKeepsConsistent(State(), note);
      if note !in activeNotes {
        PlaySound(note);
        activeNotes := activeNotes + {note};
        colour := colour[note := Green];
      }
    }

    /** mouseReleased on key button b: stops b's note and restores b's colour. */
    method MouseReleased(b: Button)
      requires Valid() && b in noteToButton.Values
      modifies this
      ensures Valid() && State() == Release(old(State()), b.entry.note)
    {
      LayoutCoversTable(noteToButton);
      var note := b.entry.note;
      ReleaseKeepsConsistent(State(), note);
      StopSound(note);
      activeNotes := activeNotes - {note};
      colour := colour[note := Resting(b)];
    }

    /** The i-th instrument button: a program change, and nothing else. */
    method SelectInstrument(i: nat)
      requires Valid() && i < |Instruments|
      modifies this
      ensures Valid() && State() == SelectProgram(old(State()), Instruments[i])
      ensures colour == old(colour)
    {
      SelectProgramKeepsConsistent(State(), Instruments[i]);
      var instrument := Instruments[i];
      log := log + [ProgramChange(Channel, instrument)];
    }
  }
}
