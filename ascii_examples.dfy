/**
 * The generator on the sample inputs its prompt suggests, and on the
 * boundary cases between its tests, with CPython's ASCII answers. Each
 * sample is a parameter pinned to a string literal.
 */
module AsciiExamples {
  import opened CharOracles
  import opened TextMatch
  import opened RegexGenerator
  import opened GeneratorProperties

  /** `https://example.com` is a URL. */
  lemma UrlSample(s: string)
    requires s == "https://example.com"
    ensures GeneratedRegex(Ascii, s) == UrlRegex
  {
  }

  /** `user@example.com` is an e-mail address. */
  lemma EmailSample(s: string)
    requires s == "user@example.com"
    ensures GeneratedRegex(Ascii, s) == EmailRegex
  {
    assert s[4] == '@' && s[12] == '.';
    NotUrl(s);
    EmailBranch(Ascii, s);
  }

  /** `(123) 456-7890` is a phone number. */
  lemma BracketedPhoneSample(s: string)
    requires s == "(123) 456-7890"
    ensures GeneratedRegex(Ascii, s) == PhoneRegex
  {
    NotUrl(s);
    EmailTestChars(s);
    PhoneBranch(Ascii, s);
  }

  /** `123-456-7890` would fail the ZIP test, but it is a phone number. */
  lemma DashedPhoneSample(s: string)
    requires s == "123-456-7890"
    ensures ZipMatch(Ascii, s).None?
    ensures GeneratedRegex(Ascii, s) == PhoneRegex
  {
    assert ZipMatch(Ascii, s).None? by {
      ZipTestFirstFive(Ascii, s);
      assert !Ascii.reDigit(s[3]);
    }
    NotUrl(s);
    EmailTestChars(s);
    PhoneBranch(Ascii, s);
  }

  /** `12345` is a ZIP code. */
  lemma ZipSample(s: string)
    requires s == "12345"
    ensures GeneratedRegex(Ascii, s) == ZipRegex
  {
    NotUrl(s);
    EmailTestChars(s);
    ZipBranch(Ascii, s);
  }

  /** `12345-6789` passes the ZIP test, but the phone test comes first and passes too. */
  lemma ZipPlusFourIsPhone(s: string)
    requires s == "12345-6789"
    ensures ZipMatch(Ascii, s).Some?
    ensures GeneratedRegex(Ascii, s) == PhoneRegex
  {
    assert ZipMatch(Ascii, s).Some? by {
      ZipTestFirstFive(Ascii, s);
    }
    NotUrl(s);
    EmailTestChars(s);
    PhoneBranch(Ascii, s);
  }

  /** `a1 !.` fails every test: no URL marks, no `@`, too short for a phone, no leading digit. */
  lemma FallbackSampleFailsTests(s: string)
    requires s == "a1 !."
    ensures Classify(Ascii, s) == Fallback
  {
    NotUrl(s);
    EmailTestChars(s);
    PhoneTestFirstTen(Ascii, s);
    ZipTestFirstFive(Ascii, s);
    assert !Ascii.reDigit(s[0]);
  }

  /** The fallback spells out `a1 !.`: letter, digit, space, an unescaped `!`, an escaped `.`. */
  lemma FallbackSampleSpelled(s: string)
    requires s == "a1 !."
    ensures FallbackRegex(Ascii, s) == "[a-zA-Z]" + @"\d\s!\."
  {
    assert Fragment(Ascii, '.') == @"\.";
    assert Fragment(Ascii, '!') == "!";
    assert Fragment(Ascii, ' ') == @"\s";
    assert Fragment(Ascii, '1') == @"\d";
    assert Fragment(Ascii, 'a') == "[a-zA-Z]";
    assert FallbackRegex(Ascii, s[5..]) == "";
    assert FallbackRegex(Ascii, s[4..]) == @"\.";
    assert FallbackRegex(Ascii, s[3..]) == "!" + @"\.";
    assert FallbackRegex(Ascii, s[2..]) == @"\s!\.";
    assert FallbackRegex(Ascii, s[1..]) == @"\d\s!\.";
  }

  /** So the generator returns that spelled-out regex. */
  lemma FallbackSample(s: string)
    requires s == "a1 !."
    ensures GeneratedRegex(Ascii, s) == "[a-zA-Z]" + @"\d\s!\."
  {
    FallbackSampleFailsTests(s);
    FallbackSampleSpelled(s);
  }
}
