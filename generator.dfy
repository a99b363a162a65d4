/**
 * `generate_regex_for_string`: guess what kind of text a string is (URL,
 * e-mail address, phone number, ZIP code) and return a fixed regex for that
 * kind, or else a regex built character by character from the string.
 */
module RegexGenerator {
  import opened Wrappers
  import opened CharOracles
  import opened TextMatch

  /** The four fixed regexes the generator can return. */
  const UrlRegex: string := @"(http|https):\/\/(www\.)?[a-zA-Z0-9.-]+\.[a-zA-Z]{2,}([\/a-zA-Z0-9#-]*)?"
  const EmailRegex: string := @"[a-zA-Z0-9._%+-]+@[a-zA-Z0-9.-]+\.[a-zA-Z]{2,}"
  const PhoneRegex: string := @"(\+?1[-.\s]?)?(\(?\d{3}\)?)[-.\s]?\d{3}[-.\s]?\d{4}"
  const ZipRegex: string := @"\d{5}(-\d{4})?"

  /** The branch of the generator an input string takes. */
  datatype Kind = Url | Email | Phone | Zip | Fallback

  /** The URL test: an `http://` or `https://` prefix, or `www.` anywhere. */
  predicate IsUrl(s: string) {
    StartsWith(s, "http://") || StartsWith(s, "https://") || Contains(s, "www.")
  }

  /** The e-mail test: both `@` and `.` occur (as one-character substrings). */
  predicate IsEmail(s: string) {
    Contains(s, "@") && Contains(s, ".")
  }

  /** Membership in the regex class `[\d\s\(\)-]`. */
  predicate PhoneChar(o: CharOracle, c: char) {
    o.reDigit(c) || o.reSpace(c) || c == '(' || c == ')' || c == '-'
  }

  /**
   * `re.match(r'[\d\s\(\)-]{10,}', s)`: the end of the match, or None. The
   * repetition is greedy, so a match ends where the run of class characters
   * at the start of `s` ends, and exists iff that run is ten characters or more.
   */
  function PhoneMatch(o: CharOracle, s: string): (m: Option<nat>)
    ensures m.Some? ==> 10 <= m.value <= |s|
    ensures m.Some? ==> forall i :: 0 <= i < m.value ==> PhoneChar(o, s[i])
    ensures m.Some? && m.value < |s| ==> !PhoneChar(o, s[m.value])
  {
    var n := LeadingRun(c => PhoneChar(o, c), s);
    if n >= 10 then Some(n) else None
  }

  /**
   * `re.match(r'\d{5}(-\d{4})?', s)`: the end of the match, or None. Five
   * digits are required; the optional group is taken when it can be.
   */
  function ZipMatch(o: CharOracle, s: string): (m: Option<nat>)
    ensures m.Some? ==> (m.value == 5 || m.value == 10) && m.value <= |s|
    ensures m == Some(10) <==>
      && |s| >= 10 && (forall i :: 0 <= i < 5 ==> o.reDigit(s[i]))
      && s[5] == '-' && (forall i :: 6 <= i < 10 ==> o.reDigit(s[i]))
  {
    RunAtLeast(o.reDigit, s, 5);
    RunAtLeast(o.reDigit, if |s| >= 6 then s[6..] else [], 4);
    if LeadingRun(o.reDigit, s) < 5 then None
    else if |s| > 5 && s[5] == '-' && LeadingRun(o.reDigit, s[6..]) >= 4 then Some(10)
    else Some(5)
  }

  /** The tests, applied in their fixed order; the first that passes decides. */
  function Classify(o: CharOracle, s: string): Kind {
    if IsUrl(s) then Url
    else if IsEmail(s) then Email
    else if PhoneMatch(o, s).Some? then Phone
    else if ZipMatch(o, s).Some? then Zip
    else Fallback
  }

  /** What one fallback fragment stands for. */
  datatype FragmentKind = DigitClass | LetterClass | SpaceClass | Literal(c: char)

  /** The fallback's choice for one character: digit, else letter, else space, else literal. */
  function KindOf(o: CharOracle, c: char): FragmentKind {
    if o.isDigit(c) then DigitClass
    else if o.isAlpha(c) then LetterClass
    else if o.isSpace(c) then SpaceClass
    else Literal(c)
  }

  /** The regex text of a fragment; a literal is passed through `re.escape`. */
  function Render(o: CharOracle, k: FragmentKind): string {
    match k
    case DigitClass => @"\d"
    case LetterClass => "[a-zA-Z]"
    case SpaceClass => @"\s"
    case Literal(c) => o.escape(c)
  }

  /** The fragment the fallback appends for character `c`. */
  function Fragment(o: CharOracle, c: char): string {
    Render(o, KindOf(o, c))
  }

  /** The fallback regex: the fragments of the characters of `s`, in order. */
  function FallbackRegex(o: CharOracle, s: string): string
    decreases |s|
  {
    if s == [] then "" else Fragment(o, s[0]) + FallbackRegex(o, s[1..])
  }

  /** What `generate_regex_for_string` returns for `s`. */
  function GeneratedRegex(o: CharOracle, s: string): string {
    match Classify(o, s)
    case Url => UrlRegex
    case Email => EmailRegex
    case Phone => PhoneRegex
    case Zip => ZipRegex
    case Fallback => FallbackRegex(o, s)
  }

  /** `''.join(parts)`. */
  function Join(parts: seq<string>): string
    decreases |parts|
  {
    if parts == [] then "" else parts[0] + Join(parts[1..])
  }

  /** Joining one fragment per character, in order, gives the fallback regex. */
  lemma {:induction false} JoinFragments(o: CharOracle, s: string, parts: seq<string>)
    requires |parts| == |s|
    requires forall j :: 0 <= j < |s| ==> parts[j] == Fragment(o, s[j])
    ensures Join(parts) == FallbackRegex(o, s)
    decreases |s|
  {
    if s != [] {
      JoinFragments(o, s[1..], parts[1..]);
    }
  }

  /**
   * The generator as written: the four tests in order, each returning its
   * constant, and otherwise a loop that appends one fragment per character to
   * a list that is joined at the end.
   */
  method GenerateRegexForString(o: CharOracle, s: string) returns (r: string)
    ensures r == GeneratedRegex(o, s)
  {
    if IsUrl(s) {
      r := UrlRegex;
    } else if IsEmail(s) {
      r := EmailRegex;
    } else if PhoneMatch(o, s).Some? {
      r := PhoneRegex;
    } else if ZipMatch(o, s).Some? {
      r := ZipRegex;
    } else {
      var parts: seq<string> := [];
      for i := 0 to |s|
        invariant |parts| == i
        invariant forall j :: 0 <= j < i ==> parts[j] == Fragment(o, s[j])
      {
        var c := s[i];
        if o.isDigit(c) {
          parts := parts + [@"\d"];
        } else if o.isAlpha(c) {
          parts := parts + ["[a-zA-Z]"];
        } else if o.isSpace(c) {
          parts := parts + [@"\s"];
        } else {
          parts := parts + [o.escape(c)];
        }
      }
      JoinFragments(o, s, parts);
      r := Join(parts);
    }
  }
}
