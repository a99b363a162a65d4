/**
 * A reader for fallback regexes: it splits a regex built by the fallback back
 * into its fragments. Reading back what the fallback wrote recovers, for every
 * input character in order, which of the four fragment kinds it got, so the
 * fallback regex holds exactly one fragment per input character.
 */
module FallbackDecode {
  import opened Wrappers
  import opened CharOracles
  import opened TextMatch
  import opened RegexGenerator

  function Prepend(k: FragmentKind, r: Option<seq<FragmentKind>>): Option<seq<FragmentKind>> {
    match r
    case None => None
    case Some(ks) => Some([k] + ks)
  }

  /**
   * Splits a regex into fragments: `\d`, `\s`, a backslash-escaped character,
   * `[a-zA-Z]`, or a plain character. None when the text is not such a sequence.
   */
  function Decode(t: string): (r: Option<seq<FragmentKind>>)
    decreases |t|
  {
    if t == [] then Some([])
    else if t[0] == '\\' then
      if |t| < 2 then None
      else
        var k := if t[1] == 'd' then DigitClass else if t[1] == 's' then SpaceClass else Literal(t[1]);
        Prepend(k, Decode(t[2..]))
    else if t[0] == '[' then
      if StartsWith(t, "[a-zA-Z]") then Prepend(LetterClass, Decode(t[8..])) else None
    else Prepend(Literal(t[0]), Decode(t[1..]))
  }

  /** A fragment kind whose rendering the reader cannot mistake for another. */
  predicate Readable(o: CharOracle, k: FragmentKind) {
    match k
    case Literal(c) =>
      || (o.escape(c) == [c] && c != '\\' && c != '[')
      || (o.escape(c) == ['\\', c] && c != 'd' && c != 's')
    case _ => true
  }

  /** Reading a rendered fragment yields its kind and leaves the rest of the text. */
  lemma DecodeRender(o: CharOracle, k: FragmentKind, t: string)
    requires Readable(o, k)
    ensures Decode(Render(o, k) + t) == Prepend(k, Decode(t))
  {
  }

  /** Under the shape of `re.escape`, with `d` and `s` letters, every fragment the fallback chooses can be read back. */
  lemma KindOfReadable(o: CharOracle, c: char)
    requires EscapeShape(o) && LettersDS(o)
    ensures Readable(o, KindOf(o, c))
  {
  }

  /** The fragment kind of each character of `s`, in order. */
  function Kinds(o: CharOracle, s: string): (ks: seq<FragmentKind>)
    ensures |ks| == |s|
  {
    seq(|s|, i requires 0 <= i < |s| => KindOf(o, s[i]))
  }

  /** Round trip: reading the fallback regex of `s` gives one fragment kind per character of `s`. */
  lemma {:induction false} DecodeFallback(o: CharOracle, s: string)
    requires EscapeShape(o) && LettersDS(o)
    ensures Decode(FallbackRegex(o, s)) == Some(Kinds(o, s))
    decreases |s|
  {
    if s == [] {
      assert Kinds(o, s) == [];
    } else {
      KindOfReadable(o, s[0]);
      DecodeRender(o, KindOf(o, s[0]), FallbackRegex(o, s[1..]));
      DecodeFallback(o, s[1..]);
      assert Kinds(o, s) == [KindOf(o, s[0])] + Kinds(o, s[1..]);
    }
  }

  /**
   * Two inputs with the same fallback regex have the same length and the same
   * fragment kind at every position.
   */
  lemma FallbackDeterminesKinds(o: CharOracle, s: string, s': string)
    requires EscapeShape(o) && LettersDS(o)
    requires FallbackRegex(o, s) == FallbackRegex(o, s')
    ensures |s| == |s'|
    ensures forall i :: 0 <= i < |s| ==> KindOf(o, s[i]) == KindOf(o, s'[i])
  {
    DecodeFallback(o, s);
    DecodeFallback(o, s');
    assert Kinds(o, s) == Kinds(o, s');
    forall i | 0 <= i < |s|
      ensures KindOf(o, s[i]) == KindOf(o, s'[i])
    {
      assert Kinds(o, s)[i] == Kinds(o, s')[i];
    }
  }
}
