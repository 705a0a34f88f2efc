/**
 * The note model of src/index.tsx: the twelve pitch names of ALL_NOTES and
 * the Note tuple [name, octave].
 */
module Notes {
  import opened Options

  /** The pitch names of ALL_NOTES, spelt with flats as the source spells them. */
  datatype PitchClass = C | Db | D | Eb | E | F | Gb | G | Ab | A | Bb | B

  /** A note is a pitch name and an (unbounded) octave number; equality is on both. */
  datatype Note = Note(pitch: PitchClass, octave: int)

  /** The string the source stores for a pitch name: an upper-case letter, then 'b' for a flat. */
  function Name(p: PitchClass): (s: string)
    ensures 1 <= |s| <= 2
    ensures 'A' <= s[0] <= 'G'
    ensures |s| == 2 <==> p in {Db, Eb, Gb, Ab, Bb}
    ensures |s| == 2 ==> s[1] == 'b'
  {
    match p
    case C => "C"
    case Db => "Db"
    case D => "D"
    case Eb => "Eb"
    case E => "E"
    case F => "F"
    case Gb => "Gb"
    case G => "G"
    case Ab => "Ab"
    case A => "A"
    case Bb => "Bb"
    case B => "B"
  }

  /** The pitch name spelt by s, if s is one of the twelve names. */
  function PitchOfName(s: string): (r: Option<PitchClass>)
    ensures r.Some? ==> Name(r.value) == s
  {
    if s == "C" then Some(C)
    else if s == "Db" then Some(Db)
    else if s == "D" then Some(D)
    else if s == "Eb" then Some(Eb)
    else if s == "E" then Some(E)
    else if s == "F" then Some(F)
    else if s == "Gb" then Some(Gb)
    else if s == "G" then Some(G)
    else if s == "Ab" then Some(Ab)
    else if s == "A" then Some(A)
    else if s == "Bb" then Some(Bb)
    else if s == "B" then Some(B)
    else None
  }

  /** Every pitch name is read back from its spelling, so distinct names have distinct spellings. */
  lemma PitchOfNameInverse(p: PitchClass)
    ensures PitchOfName(Name(p)) == Some(p)
  {
  }
}
