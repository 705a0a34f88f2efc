/**
 * The notation token of src/index.tsx (getAbcNote): a note written as an
 * ABC-notation pitch, letter case chosen by octave and an octave mark
 * looked up in OCTAVE_SUFFICES.
 */
module Abc {
  import opened Options
  import opened Notes

  /** OCTAVE_SUFFICES: the octave marks for octaves 0 to 8. */
  const OctaveSuffixes: seq<string> := [",,,,", ",,,", ",,", ",", "", "", "'", "''", "'''"]

  /** n copies of c. */
  function Repeat(c: char, n: nat): (s: string)
    ensures |s| == n
    ensures forall i :: 0 <= i < n ==> s[i] == c
  {
    if n == 0 then [] else [c] + Repeat(c, n - 1)
  }

  /**
   * OCTAVE_SUFFICES[octave] ?? '': commas below octave 4, apostrophes above
   * octave 5, and nothing at 4, at 5 and outside the table.
   */
  function OctaveSuffix(octave: int): (s: string)
    ensures 0 <= octave <= 3 ==> s == Repeat(',', 4 - octave)
    ensures octave == 4 || octave == 5 ==> s == ""
    ensures 6 <= octave <= 8 ==> s == Repeat('\'', octave - 5)
    ensures octave < 0 || 8 < octave ==> s == ""
  {
    if 0 <= octave < |OctaveSuffixes| then OctaveSuffixes[octave] else ""
  }

  /** toLowerCase on one character, for the ASCII letters the pitch names use. */
  function LowerChar(c: char): char
  {
    if 'A' <= c <= 'Z' then (c as int + 32) as char else c
  }

  /** The inverse of LowerChar on lower-case ASCII letters. */
  function UpperChar(c: char): char
  {
    if 'a' <= c <= 'z' then (c as int - 32) as char else c
  }

  /** String toLowerCase, character by character. */
  function ToLower(s: string): (r: string)
    ensures |r| == |s|
    ensures forall i :: 0 <= i < |s| ==> r[i] == LowerChar(s[i])
  {
    if s == [] then [] else [LowerChar(s[0])] + ToLower(s[1..])
  }

  /**
   * getAbcNote: the name as stored for octaves above 4 and in lower case
   * otherwise, followed by the octave mark of the table.
   */
  function GetAbcNote(note: Note): (token: string)
    ensures |Name(note.pitch)| <= |token|
    ensures 'A' <= token[0] <= 'G' <==> note.octave > 4
    ensures 'a' <= token[0] <= 'g' <==> note.octave <= 4
    ensures UpperChar(token[0]) == Name(note.pitch)[0]
    ensures token[1..|Name(note.pitch)|] == Name(note.pitch)[1..]
    ensures token[|Name(note.pitch)|..] == OctaveSuffix(note.octave)
  {
    var name := Name(note.pitch);
    (if note.octave > 4 then name else ToLower(name)) + OctaveSuffix(note.octave)
  }

  /**
   * Reads a token of the form GetAbcNote writes back into a note: the
   * letter and its case, an optional flat, then the octave mark.
   */
  function ParseAbcNote(token: string): (r: Option<Note>)
  {
    if |token| == 0 then None
    else
      var upper := 'A' <= token[0] <= 'G';
      var len := if |token| >= 2 && token[1] == 'b' then 2 else 1;
      var suffix := token[len..];
      match PitchOfName([UpperChar(token[0])] + token[1..len])
      case None => None
      case Some(p) =>
        if upper && suffix == Repeat('\'', |suffix|) && |suffix| <= 3 then Some(Note(p, 5 + |suffix|))
        else if !upper && suffix == Repeat(',', |suffix|) && |suffix| <= 4 then Some(Note(p, 4 - |suffix|))
        else None
  }

  /** Inside the table's window of octaves 0 to 8, the token determines the note. */
  lemma ParseGetAbcNote(note: Note)
    requires 0 <= note.octave <= 8
    ensures ParseAbcNote(GetAbcNote(note)) == Some(note)
  {
    var token := GetAbcNote(note);
    var name := Name(note.pitch);
    var suffix := OctaveSuffix(note.octave);
    assert token[|name|..] == suffix;
    assert |suffix| > 0 ==> suffix[0] == ',' || suffix[0] == '\'';
    var len := if |token| >= 2 && token[1] == 'b' then 2 else 1;
    assert len == |name| by {
      if |name| == 1 && |token| >= 2 {
        assert token[1] == suffix[0];
      }
    }
    assert [UpperChar(token[0])] + token[1..len] == name;
    PitchOfNameInverse(note.pitch);
  }

  /** Every token that parses is the token of the note it parses to. */
  lemma GetParseAbcNote(token: string)
    requires ParseAbcNote(token).Some?
    ensures GetAbcNote(ParseAbcNote(token).value) == token
  {
    var note := ParseAbcNote(token).value;
    var upper := 'A' <= token[0] <= 'G';
    var len := if |token| >= 2 && token[1] == 'b' then 2 else 1;
    var suffix := token[len..];
    var name := Name(note.pitch);
    assert name == [UpperChar(token[0])] + token[1..len];
    var cased := if note.octave > 4 then name else ToLower(name);
    if upper {
      assert note.octave == 5 + |suffix|;
      assert suffix == Repeat('\'', |suffix|);
    } else {
      assert note.octave == 4 - |suffix|;
      assert suffix == Repeat(',', |suffix|);
      assert 'a' <= token[0] <= 'z';
    }
    assert OctaveSuffix(note.octave) == suffix;
    assert cased == token[..len];
    assert token == token[..len] + suffix;
  }

  /** Octaves outside the table get no mark: they read as octave 4 below it and 5 above it. */
  lemma OutOfTableOctaves(p: PitchClass, octave: int)
    ensures octave < 0 ==> GetAbcNote(Note(p, octave)) == GetAbcNote(Note(p, 4))
    ensures octave > 8 ==> GetAbcNote(Note(p, octave)) == GetAbcNote(Note(p, 5))
  {
  }

  /** The number of occurrences of c in s. */
  function Count(s: string, c: char): (n: nat)
    ensures n <= |s|
  {
    if s == [] then 0 else (if s[0] == c then 1 else 0) + Count(s[1..], c)
  }

  lemma {:induction false} CountAppend(s: string, t: string, c: char)
    ensures Count(s + t, c) == Count(s, c) + Count(t, c)
  {
    if s == [] {
      assert s + t == t;
    } else {
      assert (s + t)[0] == s[0];
      assert (s + t)[1..] == s[1..] + t;
      CountAppend(s[1..], t, c);
    }
  }

  lemma {:induction false} CountRepeat(c: char, n: nat, d: char)
    ensures Count(Repeat(c, n), d) == if c == d then n else 0
  {
    if n > 0 {
      assert Repeat(c, n)[1..] == Repeat(c, n - 1);
      CountRepeat(c, n - 1, d);
    }
  }

  /** A note letter of ABC notation, in either case. */
  predicate IsAbcLetter(c: char)
  {
    'A' <= c <= 'G' || 'a' <= c <= 'g'
  }

  /** Where the letter of an ABC note stands: after the flat sign '_', if there is one. */
  function LetterIndex(token: string): nat
  {
    if |token| > 0 && token[0] == '_' then 1 else 0
  }

  /**
   * A single ABC note (sections 4.1 and 4.2 of the ABC notation standard
   * 2.1): an optional flat sign '_', one note letter, then octave marks only.
   */
  predicate IsAbcPitch(token: string)
  {
    var k := LetterIndex(token);
    k < |token| && IsAbcLetter(token[k]) &&
    forall i :: k < i < |token| ==> token[i] == ',' || token[i] == '\''
  }

  /**
   * The octave an ABC note denotes (section 4.1 of the ABC notation standard
   * 2.1): an upper-case letter is in octave 4, a lower-case one in octave 5;
   * each apostrophe raises and each comma lowers by one.
   */
  function WrittenOctave(token: string): int
    requires IsAbcPitch(token)
  {
    var letter := token[LetterIndex(token)];
    (if 'A' <= letter <= 'G' then 4 else 5) + Count(token, '\'') - Count(token, ',')
  }

  /** The marks of the table: commas for octaves 0 to 3, apostrophes for 6 to 8. */
  lemma SuffixMarks(octave: int)
    ensures Count(OctaveSuffix(octave), ',') == if 0 <= octave <= 3 then 4 - octave else 0
    ensures Count(OctaveSuffix(octave), '\'') == if 6 <= octave <= 8 then octave - 5 else 0
  {
    if 0 <= octave <= 3 {
      CountRepeat(',', 4 - octave, ',');
      CountRepeat(',', 4 - octave, '\'');
    } else if 6 <= octave <= 8 {
      CountRepeat('\'', octave - 5, ',');
      CountRepeat('\'', octave - 5, '\'');
    }
  }

  /**
   * The token of a flat is not one ABC note: getAbcNote keeps the 'b' of the
   * stored spelling, which ABC reads as a second note letter.
   */
  lemma FlatTokensAreNotAbcPitches(note: Note)
    requires |Name(note.pitch)| == 2
    ensures !IsAbcPitch(GetAbcNote(note))
  {
    var token := GetAbcNote(note);
    assert token[0] != '_' && token[1] == 'b';
  }

  /** For instance D flat in octave 2 becomes "db,,": the note d, then the note b two octaves down. */
  lemma FlatTokenExample()
    ensures GetAbcNote(Note(Db, 2)) == "db,,"
    ensures !IsAbcPitch("db,,")
  {
    FlatTokensAreNotAbcPitches(Note(Db, 2));
  }

  /**
   * The token with the flat written as ABC writes it, the sign '_' before
   * the letter; the letter's case and the octave mark are those getAbcNote
   * chooses. For the seven naturals it is getAbcNote's token.
   */
  function AbcNote(note: Note): (token: string)
    ensures |Name(note.pitch)| == 1 ==> token == GetAbcNote(note)
  {
    var name := Name(note.pitch);
    var letter := if note.octave > 4 then name[0] else LowerChar(name[0]);
    assert |name| == 1 && note.octave <= 4 ==> ToLower(name) == [letter];
    (if |name| == 2 then "_" else "") + [letter] + OctaveSuffix(note.octave)
  }

  /** The corrected token is the flat sign if any, one letter, then the table's mark. */
  lemma AbcNoteShape(note: Note)
    requires 0 <= note.octave <= 8
    ensures IsAbcPitch(AbcNote(note))
    ensures LetterIndex(AbcNote(note)) == |Name(note.pitch)| - 1
    ensures AbcNote(note)[0] == '_' <==> |Name(note.pitch)| == 2
    ensures UpperChar(AbcNote(note)[LetterIndex(AbcNote(note))]) == Name(note.pitch)[0]
  {
    var name := Name(note.pitch);
    var letter := if note.octave > 4 then name[0] else LowerChar(name[0]);
    var sign := if |name| == 2 then "_" else "";
    var suffix := OctaveSuffix(note.octave);
    var token := AbcNote(note);
    assert token == sign + [letter] + suffix;
    assert forall i :: 0 <= i < |suffix| ==> suffix[i] == ',' || suffix[i] == '\'';
    assert token[|sign|] == letter;
    forall i | |sign| < i < |token|
      ensures token[i] == ',' || token[i] == '\''
    {
      assert token[i] == suffix[i - |sign| - 1];
    }
  }

  /** The corrected token's octave marks are the table's. */
  lemma AbcNoteMarks(note: Note)
    ensures Count(AbcNote(note), ',') == Count(OctaveSuffix(note.octave), ',')
    ensures Count(AbcNote(note), '\'') == Count(OctaveSuffix(note.octave), '\'')
  {
    var name := Name(note.pitch);
    var letter := if note.octave > 4 then name[0] else LowerChar(name[0]);
    var sign := if |name| == 2 then "_" else "";
    var suffix := OctaveSuffix(note.octave);
    assert AbcNote(note) == sign + [letter] + suffix;
    CountAppend(sign + [letter], suffix, '\'');
    CountAppend(sign + [letter], suffix, ',');
    CountAppend(sign, [letter], '\'');
    CountAppend(sign, [letter], ',');
    assert [letter][1..] == [];
    if |name| == 2 {
      assert sign[1..] == [];
    }
  }

  /**
   * Within the table's window the corrected token is one ABC note of the
   * stored letter, flat exactly for the five flats, written one octave
   * above the stored octave for octaves 0 to 4 and one octave below it for
   * octaves 5 to 8.
   */
  lemma AbcNoteWrittenOctave(note: Note)
    requires 0 <= note.octave <= 8
    ensures IsAbcPitch(AbcNote(note))
    ensures AbcNote(note)[0] == '_' <==> |Name(note.pitch)| == 2
    ensures UpperChar(AbcNote(note)[LetterIndex(AbcNote(note))]) == Name(note.pitch)[0]
    ensures note.octave <= 4 ==> WrittenOctave(AbcNote(note)) == note.octave + 1
    ensures note.octave >= 5 ==> WrittenOctave(AbcNote(note)) == note.octave - 1
  {
    AbcNoteShape(note);
    AbcNoteMarks(note);
    SuffixMarks(note.octave);
    var token := AbcNote(note);
    var letter := token[LetterIndex(token)];
    assert 'A' <= letter <= 'G' <==> note.octave > 4;
  }

  /** For the seven naturals the source's own token is one ABC note with that octave rule. */
  lemma WrittenOctaveOfToken(note: Note)
    requires 0 <= note.octave <= 8 && |Name(note.pitch)| == 1
    ensures IsAbcPitch(GetAbcNote(note))
    ensures note.octave <= 4 ==> WrittenOctave(GetAbcNote(note)) == note.octave + 1
    ensures note.octave >= 5 ==> WrittenOctave(GetAbcNote(note)) == note.octave - 1
  {
    AbcNoteWrittenOctave(note);
  }

  /** So octaves 4 and 5 are written in the opposite order of their pitches, for every pitch name. */
  lemma OctavesFourAndFiveSwap(p: PitchClass)
    ensures WrittenOctave(AbcNote(Note(p, 4))) == 5
    ensures WrittenOctave(AbcNote(Note(p, 5))) == 4
  {
    AbcNoteWrittenOctave(Note(p, 4));
    AbcNoteWrittenOctave(Note(p, 5));
  }
}
