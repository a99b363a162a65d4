# Regex generator for common string formats

This project models `generate_regex_for_string` from PLC-RegEx. The function
looks at a string and guesses what kind of text it is. For a URL, an e-mail
address, a phone number or a ZIP code it returns one fixed regex. For anything
else it builds a regex character by character. The tests run in a fixed order
and the first one that passes decides:

1. URL: the string starts with `http://` or `https://`, or contains `www.`.
2. E-mail: the string contains both `@` and `.`.
3. Phone: `re.match(r'[\d\s\(\)-]{10,}', s)` succeeds.
4. ZIP: `re.match(r'\d{5}(-\d{4})?', s)` succeeds.
5. Otherwise, the fallback: each character becomes one fragment, and the fragments are joined in order. A digit becomes `\d`. Failing that, a letter becomes `[a-zA-Z]`. Failing that, whitespace becomes `\s`. Anything else becomes `re.escape(c)`.

Python's character tests cannot be defined exactly here:

- `str.isdigit`, `str.isalpha` and `str.isspace`;
- what the regex classes `\d` and `\s` accept;
- what `re.escape` returns.

The model therefore takes them as a parameter, a `CharOracle` record of functions (`char_oracle.dfy`). `isdigit` and `\d` are separate fields, because Python gives different answers for them. Every general lemma holds for every oracle that meets its requires. The four lemmas that assume more of the oracle are listed under "## Left out". `Ascii` is the concrete oracle for CPython on ASCII characters. The lemmas about the sample inputs use it.

Files:

- `text_match.dfy`: `str.startswith`, the substring operator `in`, and `LeadingRun`. `LeadingRun` is how far a greedy character-class repetition gets from position 0. For `[...]{10,}` it is where the match of `re.match` ends. For `\d{5}`, a run of at least five decides only whether the match exists; that match is exactly five characters long.
- `generator.dfy`: the tests, the branch choice `Classify`, the fallback, and the function `GeneratedRegex`, which says what the generator returns. It also has `GenerateRegexForString`: the generator as written, with the loop that appends fragments to a list and joins them at the end. That method is proved equal to `GeneratedRegex`.
- `generator_properties.dfy`: the priority of the tests, what each test depends on, and the structure of the fallback.
- `fallback_decode.dfy`: a reader that splits a fallback regex back into fragments. It is proved to recover the fragment kind of every input character, in order.
- `ascii_examples.dfy`: the sample inputs the program's prompt offers, and the boundary between the ZIP and phone tests.

## Model

| member | source | states |
|---|---|---|
| `RegexGenerator.GenerateRegexForString` | main.py:15-47 | the test chain and the fragment loop return exactly `GeneratedRegex(o, s)`; the loop appends one fragment per character, in order, and the join of that list is the fallback regex |
| `RegexGenerator.PhoneMatch` | main.py:28 | when the phone pattern matches, the match ends where the greedy run of class characters stops: at least ten characters in, not past the end of the input, every character before the end in the class and the character at the end (if any) not in it |
| `RegexGenerator.ZipMatch` | main.py:32 | when the ZIP pattern matches, the match is 5 or 10 characters long and stays inside the input; it is 10 exactly when the input has five digits, a `-` and four more digits at its start |
| `RegexGenerator.JoinFragments` | main.py:37-47 | joining a list that holds the fragment of each character, in order, gives the fallback regex |
| `TextMatch.LeadingRun` | main.py:28 | the greedy run stays inside the input; every character in it is in the class; the character right after it is not |
| `TextMatch.RunAtLeast` | main.py:28 | a greedy run of at least n happens exactly when the input has n characters and the first n are all in the class |
| `TextMatch.ContainsAt` | main.py:20 | the substring test holds exactly when the substring occurs at some position |
| `TextMatch.ContainsChar` | main.py:24 | `"@" in s` (a one-character substring) is membership of that character |
| `TextMatch.ContainsExtended` | main.py:20 | adding text on either side keeps a substring occurrence |
| `TextMatch.ContainedCharsOccur` | main.py:20 | every character of an occurring substring occurs in the text |
| `GeneratorProperties.EmailTestChars` | main.py:24 | the e-mail test holds exactly when both `@` and `.` occur |
| `GeneratorProperties.PhoneTestFirstTen` | main.py:28 | the phone pattern matches exactly when the input has at least ten characters and the first ten are digits, whitespace, `(`, `)` or `-` |
| `GeneratorProperties.ZipTestFirstFive` | main.py:32 | the ZIP pattern matches exactly when the input has at least five characters and the first five are digits; the optional group never makes it fail |
| `GeneratorProperties.PhoneTestIgnoresTail` | main.py:28 | characters after the tenth do not change the phone test |
| `GeneratorProperties.ZipTestIgnoresTail` | main.py:32 | characters after the fifth do not change the ZIP test |
| `GeneratorProperties.NotUrl` | main.py:20 | an input without a leading `h` and without any `w` fails the URL test |
| `GeneratorProperties.UrlWins` | main.py:20-21 | an input that passes the URL test gets the URL regex, whatever else it contains |
| `GeneratorProperties.UrlSurvivesExtension` | main.py:20-21 | appending text to a URL-looking input keeps the URL regex; so does adding text on both sides when the input contains `www.` |
| `GeneratorProperties.EmailBranch` | main.py:24-25 | the e-mail regex is chosen exactly when the URL test fails and the input contains both `@` and `.` |
| `GeneratorProperties.PhoneBranch` | main.py:28-29 | the phone regex is chosen exactly when the URL and e-mail tests fail and the first ten characters are phone characters |
| `GeneratorProperties.ShortIsNeverPhone` | main.py:28-29 | an input shorter than ten characters never gets the phone regex |
| `GeneratorProperties.ZipBranch` | main.py:32-33 | the ZIP regex is chosen exactly when the three earlier tests fail and the first five characters are digits |
| `GeneratorProperties.FallbackBranch` | main.py:35-47 | the fallback is taken exactly when all four tests fail, and then the result is the fallback regex |
| `GeneratorProperties.EmptyInput` | main.py:37-47 | the empty string reaches the fallback and yields the empty regex |
| `GeneratorProperties.PhoneBeforeZip` | main.py:28-33 | an input of ten or more `\d` digits passes the ZIP test, yet it gets the phone regex because the phone test comes first |
| `GeneratorProperties.ResultIsConstantOrFallback` | main.py:15-47 | the result is always one of the four constants or the fallback regex of the input |
| `GeneratorProperties.FallbackConcat` | main.py:37-47 | the fallback regex of `s + t` is the fallback regex of `s` followed by that of `t` |
| `GeneratorProperties.FallbackFragmentAt` | main.py:37-47 | the fragment of character i sits exactly between the fallback regexes of the characters before i and after i |
| `FallbackDecode.DecodeRender` | main.py:39-46 | reading a rendered fragment gives back its kind and leaves the rest of the text unread |
| `FallbackDecode.KindOfReadable` | main.py:39-46 | when `re.escape` has its Python 3.7 shape and `d` and `s` are letters, every fragment the fallback picks can be read back unambiguously |
| `FallbackDecode.DecodeFallback` | main.py:37-47 | reading the fallback regex of `s` gives exactly one fragment kind per character of `s`, in order: digit, else letter, else whitespace, else literal |
| `FallbackDecode.FallbackDeterminesKinds` | main.py:37-47 | two inputs with the same fallback regex have the same length and the same fragment kind at every position |
| `CharOracles.AsciiEscapeShape` | main.py:41-46 | the ASCII oracle's `re.escape` has the Python 3.7 shape, and its `str.isalpha` holds for `d` and `s` |
| `AsciiExamples.UrlSample` | main.py:73 | `https://example.com` gets the URL regex |
| `AsciiExamples.EmailSample` | main.py:74 | `user@example.com` gets the e-mail regex |
| `AsciiExamples.BracketedPhoneSample` | main.py:75 | `(123) 456-7890` gets the phone regex |
| `AsciiExamples.DashedPhoneSample` | main.py:15-47 | `123-456-7890` (the phone sample of the test case at main.py:99) fails the ZIP test, and it gets the phone regex |
| `AsciiExamples.ZipSample` | main.py:76 | `12345` gets the ZIP regex |
| `AsciiExamples.ZipPlusFourIsPhone` | main.py:76 | `12345-6789` passes the ZIP test, but it gets the phone regex |
| `AsciiExamples.FallbackSampleFailsTests` | main.py:20-33 | `a1 !.` fails all four tests |
| `AsciiExamples.FallbackSampleSpelled` | main.py:37-47 | the fallback regex of `a1 !.` is `[a-zA-Z]\d\s!\.` |
| `AsciiExamples.FallbackSample` | main.py:15-47 | the generator returns `[a-zA-Z]\d\s!\.` for `a1 !.` |

## Left out

- `RegexEngine` (main.py:5-12) is left out. It is a thin wrapper around `re.compile` and `fullmatch`, and the matching semantics live in Python's `re` library.
- `test_regex_engine` (main.py:87-111) is left out. Its assertions test Python's `re` on the four fixed regexes, so checking them would mean modelling the `re` library.
- `user_input_regex_engine` (main.py:51-83) and the module-level calls (main.py:115, 118) are left out. They are an interactive console loop.
- The internals of `str.isdigit`, `str.isalpha`, `str.isspace`, `\d`, `\s` and `re.escape` are not modelled. They are Unicode- and version-dependent library code, so they are the `CharOracle` parameter. The `Ascii` oracle is exact only for ASCII characters: it puts every non-ASCII character in no class.
- `RegexGenerator.PhoneMatch` and `RegexGenerator.ZipMatch` model only the end position of the match object returned by `re.match`. The generator uses nothing else from it.
- `GeneratorProperties.PhoneBeforeZip` assumes that the oracle does not count `@`, `h` or `w` as `\d` digits. CPython does not.
- `FallbackDecode.DecodeFallback`, `FallbackDecode.KindOfReadable` and `FallbackDecode.FallbackDeterminesKinds` assume `EscapeShape` and `LettersDS`. `EscapeShape` is the behaviour of `re.escape` from Python 3.7 on. Python 3.3 to 3.6 escaped every character except ASCII letters, ASCII digits and `_`, so `é` was escaped and `_` was not. `LettersDS` says that `str.isalpha` holds for `d` and `s`, which it does in every Python.
- A Python `str` can hold lone surrogate code points, for example from `surrogateescape` decoding. A Dafny `char` cannot, so inputs containing them are not modelled.
- A fallback regex can, in principle, be the same text as one of the four constants. Because of that, the branch lemmas state "exactly when" about the branch taken (`Classify`), not about the returned text.
