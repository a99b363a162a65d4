/**
 * What `generate_regex_for_string` promises: the priority of its four tests,
 * what each test depends on, and the shape of the fallback regex.
 */
module GeneratorProperties {
  import opened Wrappers
  import opened CharOracles
  import opened TextMatch
  import opened RegexGenerator

  /** The e-mail test in plain terms: both characters occur in the input. */
  lemma EmailTestChars(s: string)
    ensures IsEmail(s) <==> '@' in s && '.' in s
  {
    ContainsChar(s, '@');
    ContainsChar(s, '.');
  }

  /** The phone test in plain terms: at least ten characters, the first ten all in the class. */
  lemma PhoneTestFirstTen(o: CharOracle, s: string)
    ensures PhoneMatch(o, s).Some? <==> |s| >= 10 && forall i :: 0 <= i < 10 ==> PhoneChar(o, s[i])
  {
    RunAtLeast(c => PhoneChar(o, c), s, 10);
  }

  /** The ZIP test in plain terms: at least five characters, the first five all digits. */
  lemma ZipTestFirstFive(o: CharOracle, s: string)
    ensures ZipMatch(o, s).Some? <==> |s| >= 5 && forall i :: 0 <= i < 5 ==> o.reDigit(s[i])
  {
    RunAtLeast(o.reDigit, s, 5);
  }

  /** Characters after the tenth do not change the outcome of the phone test. */
  lemma PhoneTestIgnoresTail(o: CharOracle, s: string, t: string)
    requires |s| >= 10
    ensures PhoneMatch(o, s).Some? == PhoneMatch(o, s[..10] + t).Some?
  {
    PhoneTestFirstTen(o, s);
    PhoneTestFirstTen(o, s[..10] + t);
    assert forall i :: 0 <= i < 10 ==> (s[..10] + t)[i] == s[i];
  }

  /** Characters after the fifth do not change the outcome of the ZIP test. */
  lemma ZipTestIgnoresTail(o: CharOracle, s: string, t: string)
    requires |s| >= 5
    ensures ZipMatch(o, s).Some? == ZipMatch(o, s[..5] + t).Some?
  {
    ZipTestFirstFive(o, s);
    ZipTestFirstFive(o, s[..5] + t);
    assert forall i :: 0 <= i < 5 ==> (s[..5] + t)[i] == s[i];
  }

  /** A URL-looking input gets the URL regex, whatever else it contains. */
  lemma UrlWins(o: CharOracle, s: string)
    requires IsUrl(s)
    ensures Classify(o, s) == Url && GeneratedRegex(o, s) == UrlRegex
  {
  }

  /** Text appended after a URL-looking input keeps the answer URL; with `www.` in it, so does text on both sides. */
  lemma UrlSurvivesExtension(o: CharOracle, s: string, before: string, after: string)
    requires IsUrl(s)
    requires !Contains(s, "www.") ==> before == []
    ensures GeneratedRegex(o, before + s + after) == UrlRegex
  {
    var x := before + s + after;
    if Contains(s, "www.") {
      ContainsExtended(s, "www.", before, after);
    } else if StartsWith(s, "http://") {
      assert x[..7] == s[..7];
    } else {
      assert x[..8] == s[..8];
    }
  }

  /** Without a leading `h` and without any `w`, an input cannot pass the URL test. */
  lemma NotUrl(s: string)
    requires s == [] || s[0] != 'h'
    requires 'w' !in s
    ensures !IsUrl(s)
  {
    if Contains(s, "www.") {
      ContainedCharsOccur(s, "www.", 0);
    }
  }

  /** The e-mail regex is chosen exactly when the URL test fails and both `@` and `.` occur. */
  lemma EmailBranch(o: CharOracle, s: string)
    ensures Classify(o, s) == Email <==> !IsUrl(s) && '@' in s && '.' in s
    ensures Classify(o, s) == Email ==> GeneratedRegex(o, s) == EmailRegex
  {
    EmailTestChars(s);
  }

  /**
   * The phone regex is chosen exactly when the first two tests fail and the
   * first ten characters are digits, whitespace, `(`, `)` or `-`.
   */
  lemma PhoneBranch(o: CharOracle, s: string)
    ensures Classify(o, s) == Phone <==>
      && !IsUrl(s) && !('@' in s && '.' in s)
      && |s| >= 10 && (forall i :: 0 <= i < 10 ==> PhoneChar(o, s[i]))
    ensures Classify(o, s) == Phone ==> GeneratedRegex(o, s) == PhoneRegex
  {
    EmailTestChars(s);
    PhoneTestFirstTen(o, s);
  }

  /** An input shorter than ten characters is never a phone number. */
  lemma ShortIsNeverPhone(o: CharOracle, s: string)
    requires |s| < 10
    ensures Classify(o, s) != Phone
  {
    PhoneBranch(o, s);
  }

  /**
   * The ZIP regex is chosen exactly when the first three tests fail and the
   * first five characters are digits.
   */
  lemma ZipBranch(o: CharOracle, s: string)
    ensures Classify(o, s) == Zip <==>
      && !IsUrl(s) && !('@' in s && '.' in s)
      && !(|s| >= 10 && forall i :: 0 <= i < 10 ==> PhoneChar(o, s[i]))
      && |s| >= 5 && (forall i :: 0 <= i < 5 ==> o.reDigit(s[i]))
    ensures Classify(o, s) == Zip ==> GeneratedRegex(o, s) == ZipRegex
  {
    EmailTestChars(s);
    PhoneTestFirstTen(o, s);
    ZipTestFirstFive(o, s);
  }

  /** The fallback is taken exactly when every test fails. */
  lemma FallbackBranch(o: CharOracle, s: string)
    ensures Classify(o, s) == Fallback <==>
      && !IsUrl(s) && !('@' in s && '.' in s)
      && !(|s| >= 10 && forall i :: 0 <= i < 10 ==> PhoneChar(o, s[i]))
      && !(|s| >= 5 && forall i :: 0 <= i < 5 ==> o.reDigit(s[i]))
    ensures Classify(o, s) == Fallback ==> GeneratedRegex(o, s) == FallbackRegex(o, s)
  {
    EmailTestChars(s);
    PhoneTestFirstTen(o, s);
    ZipTestFirstFive(o, s);
  }

  /** The empty string fails every test, and its fallback regex is empty. */
  lemma EmptyInput(o: CharOracle)
    ensures Classify(o, "") == Fallback && GeneratedRegex(o, "") == ""
  {
    FallbackBranch(o, "");
  }

  /**
   * The phone test comes first: a string of ten or more regex digits passes
   * the ZIP test too, yet gets the phone regex. (The oracle must not count
   * `@`, `h` or `w` as digits, or the string could look like a URL or e-mail.)
   */
  lemma PhoneBeforeZip(o: CharOracle, s: string)
    requires !o.reDigit('@') && !o.reDigit('h') && !o.reDigit('w')
    requires |s| >= 10 && forall i :: 0 <= i < |s| ==> o.reDigit(s[i])
    ensures ZipMatch(o, s).Some?
    ensures Classify(o, s) == Phone && GeneratedRegex(o, s) == PhoneRegex
  {
    ZipTestFirstFive(o, s);
    PhoneBranch(o, s);
    assert '@' !in s;
    NotUrl(s);
  }

  /** The result is one of the four constants or the fallback regex of the input. */
  lemma ResultIsConstantOrFallback(o: CharOracle, s: string)
    ensures var r := GeneratedRegex(o, s);
      r == UrlRegex || r == EmailRegex || r == PhoneRegex || r == ZipRegex || r == FallbackRegex(o, s)
  {
  }

  /** The fallback regex of a concatenation is the concatenation of the fallback regexes. */
  lemma {:induction false} FallbackConcat(o: CharOracle, s: string, t: string)
    ensures FallbackRegex(o, s + t) == FallbackRegex(o, s) + FallbackRegex(o, t)
    decreases |s|
  {
    if s != [] {
      assert (s + t)[0] == s[0] && (s + t)[1..] == s[1..] + t;
      FallbackConcat(o, s[1..], t);
    } else {
      assert s + t == t;
    }
  }

  /** The fragment of character `i` sits between the fragments of what comes before and after it. */
  lemma FallbackFragmentAt(o: CharOracle, s: string, i: nat)
    requires i < |s|
    ensures FallbackRegex(o, s) == FallbackRegex(o, s[..i]) + Fragment(o, s[i]) + FallbackRegex(o, s[i + 1..])
  {
    assert s == s[..i] + [s[i]] + s[i + 1..];
    FallbackConcat(o, s[..i] + [s[i]], s[i + 1..]);
    FallbackConcat(o, s[..i], [s[i]]);
  }
}
