/** What the rounds of a search read of a text (tm_dirty/acsm.c), in terms of code points. */
module AcsmPoints {
  import opened AcsmWords
  import opened Utf8Punc
  import opened Utf8Points
  import opened AcsmSearch

  predicate IsLetter(u: int) { 0x41 <= u <= 0x5A || 0x61 <= u <= 0x7A }

  /** The rounds, by code points: everything; the Latin letters; everything but these; everything but these, the digits
      1 to 9, '+' and '-'. */
  predicate Reads(r: Round, u: int) {
    match r
    case Whole => true
    case Letters => IsLetter(u)
    case NonLetters => !IsLetter(u)
    case Others => !IsWordChar(u) && u != 0x2B && u != 0x2D
  }

  lemma {:induction false} ProjectSum(r: Round, s: Bytes, t: Bytes)
    ensures Project(r, s + t) == Project(r, s) + Project(r, t)
    decreases |t|
  {
    if t == [] { assert s + t == s; } else {
      var n := |t| - 1;
      ProjectSum(r, s, t[..n]);
      assert (s + t)[..|s + t| - 1] == s + t[..n] && (s + t)[|s + t| - 1] == t[n];
    }
  }

  /** A round that keeps all bytes of c, or none. */
  lemma {:induction false} ProjectEven(r: Round, c: Bytes, keep: bool)
    requires forall i :: 0 <= i < |c| ==> Keep(r, c[i]) == keep
    ensures Project(r, c) == if keep then c else []
  {
    if c != [] { ProjectEven(r, c[..|c| - 1], keep); }
  }

  lemma KeepsAlike(r: Round, c: Bytes)
    requires IsChar(c)
    ensures forall i :: 0 <= i < |c| ==> Keep(r, c[i]) == Reads(r, CodePoint(c))
  {
    hide Digits;
    Shape(c);
  }

  /** A round reads a character as a whole or not at all. */
  lemma ProjectChar(r: Round, c: Bytes, t: Bytes)
    requires IsChar(c)
    ensures Project(r, c + t) == (if Reads(r, CodePoint(c)) then c else []) + Project(r, t)
  {
    hide IsChar, CodePoint, Keep, Reads, Project;
    KeepsAlike(r, c);
    ProjectEven(r, c, Reads(r, CodePoint(c)));
    ProjectSum(r, c, t);
  }

  /** What a round of the search reads of a character of the text itself, which is filtered before. */
  function ReadOf(r: Round, c: Bytes): Bytes
    requires IsChar(c)
  {
    var u := Capital(Narrow(CodePoint(c)));
    if IsDropped(u) || !Reads(r, u) then [] else if u < 0x80 then [u] else c
  }

  /** Whatever the text goes on with: a letter of either case and width is read as its capital, a digit 1 to 9 of either
      width as itself, a character beyond these that is not dropped as it is; each in the rounds that are for it. */
  lemma SearchReads(r: Round, c: Bytes, t: Bytes)
    requires IsChar(c)
    ensures Project(r, Filter(c + t, true)) == ReadOf(r, c) + Project(r, Filter(t, true))
  {
    hide IsChar, CodePoint, Filter, FilterChar, Project, Keep, Reads, Left;
    FilterOneChar(c, t, true);
    CharIs(c, true);
    var d := Left(c, true);
    LeftIs(c);
    if d == [] { assert d + Filter(t, true) == Filter(t, true); } else { ProjectChar(r, d, Filter(t, true)); }
  }

  lemma LeftIs(c: Bytes)
    requires IsChar(c)
    ensures var u, d := Capital(Narrow(CodePoint(c))), Left(c, true);
      if IsDropped(u) then d == []
      else IsChar(d) && CodePoint(d) == u && d == if u < 0x80 then [u] else c
  {
    hide IsChar, CodePoint;
    Shape(c);
    var u, d := Capital(Narrow(CodePoint(c))), Left(c, true);
    if !IsDropped(u) && u < 0x80 { OneByte(u); }
  }

  lemma OneByte(u: Byte)
    requires u < 0x80
    ensures IsChar([u]) && CodePoint([u]) == u
  {
  }
}
