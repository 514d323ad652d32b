/** The key/note registry of the virtual piano: a fixed table of 42 entries,
    each binding a computer-keyboard key code to a MIDI note number and a
    display label, with a first-match lookup by key code. */
module KeyNotes {

  datatype Option<T> = None | Some(value: T)

  /** The pitch letter of an enum constant's name. */
  datatype Letter = C | D | E | F | G | A | B

  /** The octave digit of a name. */
  type Octave = x: int | 0 <= x <= 9

  /** The name of an enum constant, such as C1 or C1_SHARP: a letter, an
      octave digit and an optional "_SHARP" suffix. */
  datatype Name = Name(letter: Letter, octave: Octave, sharp: bool)

  /** One enum constant. The constructor keeps its three arguments unchanged
      in the fields key, note and keyboardKey, which are what the accessors
      getKey, getNote and getKeyboardKey return. */
  datatype KeyNote = KeyNote(name: Name, key: int, note: int, keyboardKey: string)

  /** Key codes of the non-printing keys the table uses (KeyEvent.VK_*). */
  const VkBackSpace: int := 8
  const VkTab: int := 9
  const VkEnter: int := 10
  const VkBackSlash: int := 92

  /** Number of enum constants. */
  const EntryCount: nat := 42
  /** Number of natural (white) constants; they are declared first. */
  const WhiteCount: nat := 25

  function LetterChar(l: Letter): char
  {
    match l
    case C => 'C' case D => 'D' case E => 'E' case F => 'F'
    case G => 'G' case A => 'A' case B => 'B'
  }

  /** The constant's identifier, as Java's name() returns it: the letter,
      the octave digit and, for a sharp, the suffix "_SHARP". */
  function Render(n: Name): (r: string)
    ensures |r| >= 2 && r[0] == LetterChar(n.letter) && r[1] == '0' + (n.octave as char)
    ensures n.sharp <==> |r| > 2
  {
    [LetterChar(n.letter), '0' + (n.octave as char)] + (if n.sharp then "_SHARP" else "")
  }

  /** The constant with ordinal i, case by case in declaration order. */
  function Ordinal(i: nat): (r: KeyNote)
    requires i < EntryCount
    ensures !r.name.sharp <==> i < WhiteCount
    ensures 24 <= r.note <= 65
  {
    if i == 0 then KeyNote(Name(C, 1, false), VkTab, 24, "TAB") else
    if i == 1 then KeyNote(Name(D, 1, false), 'q' as int, 26, "Q") else
    if i == 2 then KeyNote(Name(E, 1, false), 'w' as int, 28, "W") else
    if i == 3 then KeyNote(Name(F, 1, false), 'e' as int, 29, "E") else
    if i == 4 then KeyNote(Name(G, 1, false), 'r' as int, 31, "R") else
    if i == 5 then KeyNote(Name(A, 1, false), 't' as int, 33, "T") else
    if i == 6 then KeyNote(Name(B, 1, false), 'y' as int, 35, "Y") else
    if i == 7 then KeyNote(Name(C, 2, false), 'u' as int, 36, "U") else
    if i == 8 then KeyNote(Name(D, 2, false), 'i' as int, 38, "I") else
    if i == 9 then KeyNote(Name(E, 2, false), 'o' as int, 40, "O") else
    if i == 10 then KeyNote(Name(F, 2, false), 'p' as int, 41, "P") else
    if i == 11 then KeyNote(Name(G, 2, false), '[' as int, 43, "[") else
    if i == 12 then KeyNote(Name(A, 2, false), ']' as int, 45, "]") else
    if i == 13 then KeyNote(Name(B, 2, false), VkEnter, 47, "\U{21B5}") else
    if i == 14 then KeyNote(Name(C, 3, false), VkBackSlash, 48, "\\") else
    if i == 15 then KeyNote(Name(D, 3, false), 'z' as int, 50, "Z") else
    if i == 16 then KeyNote(Name(E, 3, false), 'x' as int, 52, "X") else
    if i == 17 then KeyNote(Name(F, 3, false), 'c' as int, 53, "C") else
    if i == 18 then KeyNote(Name(G, 3, false), 'v' as int, 55, "V") else
    if i == 19 then KeyNote(Name(A, 3, false), 'b' as int, 57, "B") else
    if i == 20 then KeyNote(Name(B, 3, false), 'n' as int, 59, "N") else
    if i == 21 then KeyNote(Name(C, 4, false), 'm' as int, 60, "M") else
    if i == 22 then KeyNote(Name(D, 4, false), ',' as int, 62, ",") else
    if i == 23 then KeyNote(Name(E, 4, false), '.' as int, 64, ".") else
    if i == 24 then KeyNote(Name(F, 4, false), '/' as int, 65, "/") else
    if i == 25 then KeyNote(Name(C, 1, true), '1' as int, 25, "1") else
    if i == 26 then KeyNote(Name(D, 1, true), '2' as int, 27, "2") else
    if i == 27 then KeyNote(Name(F, 1, true), '4' as int, 30, "4") else
    if i == 28 then KeyNote(Name(G, 1, true), '5' as int, 32, "5") else
    if i == 29 then KeyNote(Name(A, 1, true), '6' as int, 34, "6") else
    if i == 30 then KeyNote(Name(C, 2, true), '8' as int, 37, "8") else
    if i == 31 then KeyNote(Name(D, 2, true), '9' as int, 39, "9") else
    if i == 32 then KeyNote(Name(F, 2, true), '-' as int, 42, "-") else
    if i == 33 then KeyNote(Name(G, 2, true), '=' as int, 44, "=") else
    if i == 34 then KeyNote(Name(A, 2, true), VkBackSpace, 46, "\U{2190}") else
    if i == 35 then KeyNote(Name(C, 3, true), 'a' as int, 49, "A") else
    if i == 36 then KeyNote(Name(D, 3, true), 's' as int, 51, "S") else
    if i == 37 then KeyNote(Name(F, 3, true), 'f' as int, 54, "F") else
    if i == 38 then KeyNote(Name(G, 3, true), 'g' as int, 56, "G") else
    if i == 39 then KeyNote(Name(A, 3, true), 'h' as int, 58, "H") else
    if i == 40 then KeyNote(Name(C, 4, true), 'k' as int, 61, "K") else
    KeyNote(Name(D, 4, true), 'l' as int, 63, "L")
  }

  /** values(): the constants in declaration order. */
  function Values(): (r: seq<KeyNote>)
    ensures |r| == EntryCount
  {
    [
      KeyNote(Name(C, 1, false), VkTab, 24, "TAB"),
      KeyNote(Name(D, 1, false), 'q' as int, 26, "Q"),
      KeyNote(Name(E, 1, false), 'w' as int, 28, "W"),
      KeyNote(Name(F, 1, false), 'e' as int, 29, "E"),
      KeyNote(Name(G, 1, false), 'r' as int, 31, "R"),
      KeyNote(Name(A, 1, false), 't' as int, 33, "T"),
      KeyNote(Name(B, 1, false), 'y' as int, 35, "Y"),
      KeyNote(Name(C, 2, false), 'u' as int, 36, "U"),
      KeyNote(Name(D, 2, false), 'i' as int, 38, "I"),
      KeyNote(Name(E, 2, false), 'o' as int, 40, "O"),
      KeyNote(Name(F, 2, false), 'p' as int, 41, "P"),
      KeyNote(Name(G, 2, false), '[' as int, 43, "["),
      KeyNote(Name(A, 2, false), ']' as int, 45, "]"),
      KeyNote(Name(B, 2, false), VkEnter, 47, "\U{21B5}"),
      KeyNote(Name(C, 3, false), VkBackSlash, 48, "\\"),
      KeyNote(Name(D, 3, false), 'z' as int, 50, "Z"),
      KeyNote(Name(E, 3, false), 'x' as int, 52, "X"),
      KeyNote(Name(F, 3, false), 'c' as int, 53, "C"),
      KeyNote(Name(G, 3, false), 'v' as int, 55, "V"),
      KeyNote(Name(A, 3, false), 'b' as int, 57, "B"),
      KeyNote(Name(B, 3, false), 'n' as int, 59, "N"),
      KeyNote(Name(C, 4, false), 'm' as int, 60, "M"),
      KeyNote(Name(D, 4, false), ',' as int, 62, ","),
      KeyNote(Name(E, 4, false), '.' as int, 64, "."),
      KeyNote(Name(F, 4, false), '/' as int, 65, "/"),
      KeyNote(Name(C, 1, true), '1' as int, 25, "1"),
      KeyNote(Name(D, 1, true), '2' as int, 27, "2"),
      KeyNote(Name(F, 1, true), '4' as int, 30, "4"),
      KeyNote(Name(G, 1, true), '5' as int, 32, "5"),
      KeyNote(Name(A, 1, true), '6' as int, 34, "6"),
      KeyNote(Name(C, 2, true), '8' as int, 37, "8"),
      KeyNote(Name(D, 2, true), '9' as int, 39, "9"),
      KeyNote(Name(F, 2, true), '-' as int, 42, "-"),
      KeyNote(Name(G, 2, true), '=' as int, 44, "="),
      KeyNote(Name(A, 2, true), VkBackSpace, 46, "\U{2190}"),
      KeyNote(Name(C, 3, true), 'a' as int, 49, "A"),
      KeyNote(Name(D, 3, true), 's' as int, 51, "S"),
      KeyNote(Name(F, 3, true), 'f' as int, 54, "F"),
      KeyNote(Name(G, 3, true), 'g' as int, 56, "G"),
      KeyNote(Name(A, 3, true), 'h' as int, 58, "H"),
      KeyNote(Name(C, 4, true), 'k' as int, 61, "K"),
      KeyNote(Name(D, 4, true), 'l' as int, 63, "L")
    ]
  }

  /** values()[i] is the constant with ordinal i. */
  lemma ValuesAreOrdinals()
    ensures forall i: nat | i < EntryCount :: Values()[i] == Ordinal(i)
  {
    forall i: nat | i < EntryCount
      ensures Values()[i] == Ordinal(i)
    {
      if i < 7 {
      } else if i < 14 {
      } else if i < 21 {
      } else if i < 28 {
      } else if i < 35 {
      } else {
      }
    }
  }

  /** Java's String.contains: sub occurs somewhere in s, that is, some
      window of s of sub's length equals sub. */
  predicate Contains(s: string, sub: string)
    ensures Contains(s, sub) <==> exists i :: OccursAt(s, sub, i)
  {
    OccursShift(s, sub);
    sub <= s || (s != [] && Contains(s[1..], sub))
  }

  /** sub occurs in s starting at index i. */
  predicate OccursAt(s: string, sub: string, i: int)
  {
    0 <= i && i + |sub| <= |s| && s[i..i + |sub|] == sub
  }

  /** An occurrence at 0 is a prefix, and an occurrence in the tail is an
      occurrence one index further on in the whole string. */
  lemma OccursShift(s: string, sub: string)
    ensures OccursAt(s, sub, 0) <==> sub <= s
    ensures s == [] ==> (exists i :: OccursAt(s, sub, i)) ==> sub == []
    ensures s != [] ==> forall i :: OccursAt(s[1..], sub, i) ==> OccursAt(s, sub, i + 1)
    ensures s != [] ==> forall j | j >= 1 :: OccursAt(s, sub, j) ==> OccursAt(s[1..], sub, j - 1)
  {
    if s != [] {
      forall i | OccursAt(s[1..], sub, i) ensures OccursAt(s, sub, i + 1) {
        assert s[1..][i..i + |sub|] == s[i + 1..i + 1 + |sub|];
      }
      forall j | j >= 1 && OccursAt(s, sub, j) ensures OccursAt(s[1..], sub, j - 1) {
        assert s[1..][j - 1..j - 1 + |sub|] == s[j..j + |sub|];
      }
    }
  }

  /** isWhiteKey: the constant's name does not contain "_SHARP", which is
      the case exactly for the naturals. */
  predicate IsWhiteKey(e: KeyNote)
    ensures IsWhiteKey(e) <==> !e.name.sharp
  {
    SharpSuffixIffSharp(e.name);
    !Contains(Render(e.name), "_SHARP")
  }

  /** The search loop of fromKey over a sequence of constants: the first one
      whose key code is k, or None (Java's null) when there is none. */
  function FindByKey(entries: seq<KeyNote>, k: int): (r: Option<KeyNote>)
    ensures r.None? <==> forall i | 0 <= i < |entries| :: entries[i].key != k
    ensures r.Some? ==> exists i | 0 <= i < |entries| ::
      entries[i] == r.value && r.value.key == k &&
      forall j | 0 <= j < i :: entries[j].key != k
  {
    if entries == [] then None
    else if entries[0].key == k then Some(entries[0])
    else
      var r := FindByKey(entries[1..], k);
      assert forall i | 1 <= i < |entries| :: entries[i] == entries[1..][i - 1];
      r
  }

  /** The key codes the table maps. */
  function KeyCodes(): set<int>
  {
    set i: nat | i < EntryCount :: Ordinal(i).key
  }

  /** The MIDI notes the table plays. */
  function NoteSet(): set<int>
  {
    set i: nat | i < EntryCount :: Ordinal(i).note
  }

  /** fromKey: the constant bound to key code k, or None when k is unmapped. */
  function FromKey(k: int): (r: Option<KeyNote>)
    ensures r.None? <==> k !in KeyCodes()
    ensures r.Some? ==>
      (r.value.key == k && r.value.note in NoteSet() &&
       exists i: nat | i < EntryCount :: r.value == Ordinal(i))
  {
    ValuesAreOrdinals();
    FindByKey(Values(), k)
  }

  // ---------------------------------------------------------------------
  // Properties of the table

  /** The position of key code k in the table, or -1. */
  function KeyPosition(k: int): int
  {
    if k == VkTab then 0 else
    if k == 'q' as int then 1 else
    if k == 'w' as int then 2 else
    if k == 'e' as int then 3 else
    if k == 'r' as int then 4 else
    if k == 't' as int then 5 else
    if k == 'y' as int then 6 else
    if k == 'u' as int then 7 else
    if k == 'i' as int then 8 else
    if k == 'o' as int then 9 else
    if k == 'p' as int then 10 else
    if k == '[' as int then 11 else
    if k == ']' as int then 12 else
    if k == VkEnter then 13 else
    if k == VkBackSlash then 14 else
    if k == 'z' as int then 15 else
    if k == 'x' as int then 16 else
    if k == 'c' as int then 17 else
    if k == 'v' as int then 18 else
    if k == 'b' as int then 19 else
    if k == 'n' as int then 20 else
    if k == 'm' as int then 21 else
    if k == ',' as int then 22 else
    if k == '.' as int then 23 else
    if k == '/' as int then 24 else
    if k == '1' as int then 25 else
    if k == '2' as int then 26 else
    if k == '4' as int then 27 else
    if k == '5' as int then 28 else
    if k == '6' as int then 29 else
    if k == '8' as int then 30 else
    if k == '9' as int then 31 else
    if k == '-' as int then 32 else
    if k == '=' as int then 33 else
    if k == VkBackSpace then 34 else
    if k == 'a' as int then 35 else
    if k == 's' as int then 36 else
    if k == 'f' as int then 37 else
    if k == 'g' as int then 38 else
    if k == 'h' as int then 39 else
    if k == 'k' as int then 40 else
    if k == 'l' as int then 41 else
    -1
  }

  /** The position of MIDI note n in the table, or -1. */
  function NotePosition(n: int): int
  {
    if n == 24 then 0 else
    if n == 25 then 25 else
    if n == 26 then 1 else
    if n == 27 then 26 else
    if n == 28 then 2 else
    if n == 29 then 3 else
    if n == 30 then 27 else
    if n == 31 then 4 else
    if n == 32 then 28 else
    if n == 33 then 5 else
    if n == 34 then 29 else
    if n == 35 then 6 else
    if n == 36 then 7 else
    if n == 37 then 30 else
    if n == 38 then 8 else
    if n == 39 then 31 else
    if n == 40 then 9 else
    if n == 41 then 10 else
    if n == 42 then 32 else
    if n == 43 then 11 else
    if n == 44 then 33 else
    if n == 45 then 12 else
    if n == 46 then 34 else
    if n == 47 then 13 else
    if n == 48 then 14 else
    if n == 49 then 35 else
    if n == 50 then 15 else
    if n == 51 then 36 else
    if n == 52 then 16 else
    if n == 53 then 17 else
    if n == 54 then 37 else
    if n == 55 then 18 else
    if n == 56 then 38 else
    if n == 57 then 19 else
    if n == 58 then 39 else
    if n == 59 then 20 else
    if n == 60 then 21 else
    if n == 61 then 40 else
    if n == 62 then 22 else
    if n == 63 then 41 else
    if n == 64 then 23 else
    if n == 65 then 24 else
    -1
  }

  lemma KeyPositions()
    ensures forall i: nat | i < EntryCount :: KeyPosition(Ordinal(i).key) == i
  {
  }

  lemma NotePositions()
    ensures forall i: nat | i < EntryCount :: NotePosition(Ordinal(i).note) == i
  {
  }

  lemma NotePositionsOnto()
    ensures forall n | 24 <= n <= 65 ::
      0 <= NotePosition(n) < EntryCount && Ordinal(NotePosition(n)).note == n
  {
  }

  /** The key codes of the table are pairwise distinct. */
  lemma KeysDistinct()
    ensures forall i: nat, j: nat | i < j < EntryCount :: Ordinal(i).key != Ordinal(j).key
  {
    KeyPositions();
  }

  /** fromKey finds every constant by its own key code. */
  lemma FromKeyOfEntry(i: nat)
    requires i < EntryCount
    ensures FromKey(Ordinal(i).key) == Some(Ordinal(i))
  {
    KeysDistinct();
    ValuesAreOrdinals();
    var r := FromKey(Ordinal(i).key);
    var j :| 0 <= j < EntryCount && Values()[j] == r.value && r.value.key == Ordinal(i).key &&
      forall l | 0 <= l < j :: Values()[l].key != Ordinal(i).key;
  }

  /** The notes are pairwise distinct and are exactly 24..65, all of them
      MIDI note numbers (0..127). */
  lemma NotesAreRange()
    ensures forall i: nat, j: nat | i < j < EntryCount :: Ordinal(i).note != Ordinal(j).note
    ensures forall n :: n in NoteSet() <==> 24 <= n <= 65
    ensures forall n | n in NoteSet() :: 0 <= n <= 127
  {
    NotePositions();
    NotePositionsOnto();
    forall n | 24 <= n <= 65 ensures n in NoteSet() {
      var i: nat := NotePosition(n);
      assert Ordinal(i).note == n;
    }
  }

  /** A name contains "_SHARP" exactly when it is the name of a sharp. */
  lemma {:induction false} SharpSuffixIffSharp(n: Name)
    ensures Contains(Render(n), "_SHARP") <==> n.sharp
  {
    var s := Render(n);
    if n.sharp {
      assert s[2..] == "_SHARP";
      assert Contains(s[2..], "_SHARP");
      assert s[1..][1..] == s[2..];
      assert Contains(s[1..], "_SHARP");
    } else {
      ShortNeverContains(s, "_SHARP");
    }
  }

  lemma {:induction false} ShortNeverContains(s: string, sub: string)
    requires |s| < |sub|
    ensures !Contains(s, sub)
  {
    if s != [] {
      ShortNeverContains(s[1..], sub);
    }
  }

  /** The first 25 constants are the white keys and the last 17 the black ones. */
  lemma WhiteKeysFirst()
    ensures forall i: nat | i < EntryCount :: IsWhiteKey(Ordinal(i)) <==> i < WhiteCount
  {
  }

  /** Constant j is the natural of the sharp constant i, one semitone below it. */
  predicate NaturalBelow(j: nat, i: nat)
    requires j < EntryCount && i < EntryCount
  {
    Ordinal(j).name == Ordinal(i).name.(sharp := false) && Ordinal(i).note == Ordinal(j).note + 1
  }

  /** Some white constant is the natural of constant i. */
  predicate HasNaturalBelow(i: nat)
    requires i < EntryCount
  {
    exists j: nat | j < WhiteCount :: NaturalBelow(j, i)
  }

  /** Every X_SHARP constant plays one semitone above the natural X. */
  lemma SharpIsNaturalPlusOne()
    ensures forall i: nat | WhiteCount <= i < EntryCount ::
      Ordinal(i).name.sharp && HasNaturalBelow(i)
  {
    NotePositionsOnto();
    forall i: nat | WhiteCount <= i < EntryCount
      ensures Ordinal(i).name.sharp && HasNaturalBelow(i)
    {
      var j: nat := NotePosition(Ordinal(i).note - 1);
      assert j < WhiteCount && NaturalBelow(j, i);
    }
  }
}
