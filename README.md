# humanize-ai: a verified model of the text humanizer

`humanize_string` takes text that an AI model produced. It rewrites the
"fancy" Unicode characters in it into what a keyboard types, and it counts
how many characters it changed. It has seven rules, and each rule is switched
on or off by a field of `HumanizeOptions`:

1. removes invisible characters (`IGNORABLE_SYMBOLS`);
2. removes spaces, tabs, vertical tabs and form feeds at the end of each line;
3. replaces U+00A0 no-break spaces with a plain space;
4. replaces em and en dashes with `-`;
5. replaces double quotes, guillemets and the low double quote with `"`;
6. replaces U+02BC with `'`;
7. replaces `…` with `...`.

The rules run in that order, each on the previous rule's output. With
`keyboard_only`, a final pass keeps only allowed characters and counts every
other one: letters, digits, the keyboard's punctuation, space, newline and
emoji are allowed. `humanize_json` walks a JSON-like value. It humanizes every
string it reaches in dicts and lists, copies dict keys as they are, and
returns the cleaned value together with the sum of the counts.

The project is in Dafny and is organised in modules:

- `Settings` (options.dfy): the option record, its defaults, and the switch
  that each rule reads.
- `Strings` (strings.dfy): subsequences, and the total length of a list of
  matches.
- `Patterns` (patterns.dfy): the two regular-expression shapes the rules use,
  written as functions. `Findall` plays `pattern.findall` and `Sub` plays
  `pattern.sub`. A character class `[...]` becomes `AnyOf`, and
  `[ \t\v\f]+$` under MULTILINE becomes `TrailingBlanks`.
- `TrailingWhitespace` (trailing.dfy): the trailing-blank rule, proved equal
  to stripping each line on its own.
- `Keyboard` (keyboard.dfy): the `keyboard_only` filter.
- `Humanizer` (humanize.dfy):
  - the rule table and the pipeline as functions (`ApplyRules`, `Humanize`);
  - the loops of `humanize_string` as methods proved against them
    (`CountMatched`, `RunRules`, `FilterKeyboard`, `HumanizeString`).
- `JsonTraversal` (json.dfy): `humanize_json` as a recursive method over a
  JSON datatype, proved against the functions `Clean`, `CleanItems` and
  `CleanEntries`.
- `Scenarios` (scenarios.dfy): the pipeline worked out on concrete inputs.
  These are the repository's own test inputs, plus general statements about
  the lines they stand for.

## Model

| member | source | states |
|---|---|---|
| `Settings.Defaults` | humanize_ai/python_humanize_ai/humanize_string.py:16-33 | every `transform_*` switch is on by default and `keyboard_only` is off |
| `Settings.Resolve` | humanize_ai/python_humanize_ai/humanize_string.py:47-48 | a missing options object means the defaults, and a given one is used as is |
| `Patterns.Findall` | humanize_ai/python_humanize_ai/humanize_string.py:67 | every match is one character of the rule's class or a non-empty run of blanks, and the matches together are no longer than the text (the number of matches of a class pattern is given by `Patterns.ClassFindallCount`; the total length removed by the blank-run pattern by `Humanizer.TrailingRuleExact`) |
| `Patterns.SubLength` | humanize_ai/python_humanize_ai/humanize_string.py:67-72 | length accounting: the substituted text is as long as the text, minus the total length of the matches `findall` reports, plus one replacement per match |
| `Patterns.SubChars` | humanize_ai/python_humanize_ai/humanize_string.py:72 | every character of the result comes from the text or from the replacement |
| `Patterns.ClassSubClears` | humanize_ai/python_humanize_ai/humanize_string.py:54-60 | after a class rule, a character of the class is left only if the replacement contains it |
| `Patterns.ClassSubAt` | humanize_ai/python_humanize_ai/humanize_string.py:56-59 | a one-character replacement keeps the length and changes exactly the positions whose character is in the class |
| `Patterns.DeletionIsSubsequence` | humanize_ai/python_humanize_ai/humanize_string.py:54-55 | a rule that replaces with the empty string only deletes: its result is a subsequence of its input |
| `Patterns.ClassMatchLength` | humanize_ai/python_humanize_ai/humanize_string.py:67-69 | for a class rule the count added equals the number of matches |
| `Patterns.ClassConcat` | humanize_ai/python_humanize_ai/humanize_string.py:54-60 | a class rule treats `a + b` as `a` followed by `b`, both in its matches and in its substitution |
| `Patterns.ClassNoMatch` | humanize_ai/python_humanize_ai/humanize_string.py:54-60 | text with no character of the class gives no matches and is left unchanged |
| `Patterns.ClassFindallCount` | humanize_ai/python_humanize_ai/humanize_string.py:67-69 | for a class pattern, `findall` reports one match per character of the class in the text, so the count added is exactly the number of those characters |
| `Patterns.CountInPositive` | humanize_ai/python_humanize_ai/humanize_string.py:67-69 | that number is positive if and only if some character of the text is in the class |
| `Patterns.CountInConcat` | humanize_ai/python_humanize_ai/humanize_string.py:67-72 | counting the class characters and deleting them both distribute over `a + b` |
| `Patterns.ClassDeleteExact` | humanize_ai/python_humanize_ai/humanize_string.py:54-72 | substituting the empty string for a class keeps exactly the characters outside the class, in order |
| `Patterns.OutsideSpec` | humanize_ai/python_humanize_ai/humanize_string.py:54-72 | what is kept is a subsequence of the text, holds no character of the class, holds every character of the text outside the class, and is shorter than the text by the number counted |
| `Patterns.OutsideOfFree` | humanize_ai/python_humanize_ai/humanize_string.py:54-72 | a text without class characters is kept whole, with count 0 |
| `TrailingWhitespace.RStripSpec` | humanize_ai/python_humanize_ai/humanize_string.py:55 | stripping one line keeps a prefix, drops only blanks, and leaves no blank at its end |
| `TrailingWhitespace.StripIsPerLine` | humanize_ai/python_humanize_ai/humanize_string.py:55 | the MULTILINE substitution equals stripping the trailing blanks of every line separately and keeping the newlines |
| `TrailingWhitespace.StripLeavesNoTrailingBlanks` | humanize_ai/python_humanize_ai/humanize_string.py:55 | after the rule, no line ends in a space, tab, vertical tab or form feed |
| `TrailingWhitespace.StripKeepsNonBlanks` | humanize_ai/python_humanize_ai/humanize_string.py:55 | the rule removes blanks only: the non-blank characters stay the same and in the same order |
| `Keyboard.KeepAllowedSpec` | humanize_ai/python_humanize_ai/humanize_string.py:75-90 | the filter keeps a subsequence of the text made only of allowed characters, and shortens the text by exactly the number it counts |
| `Keyboard.NothingDisallowedKeepsAll` | humanize_ai/python_humanize_ai/humanize_string.py:82-90 | when the filter counts nothing, the text is unchanged |
| `Humanizer.CountMatched` | humanize_ai/python_humanize_ai/humanize_string.py:67-69 | the count loop adds up the lengths of all matches |
| `Humanizer.RunRules` | humanize_ai/python_humanize_ai/humanize_string.py:63-72 | the loop over the pattern table gives the result of applying the seven rules in order, each only when its switch is on |
| `Humanizer.FilterKeyboard` | humanize_ai/python_humanize_ai/humanize_string.py:83-90 | the character loop builds the filtered text and counts the characters it drops |
| `Humanizer.HumanizeString` | humanize_ai/python_humanize_ai/humanize_string.py:36-92 | `humanize_string` returns the pipeline's text and count under the resolved options |
| `Humanizer.ApplyRulesConcat` | humanize_ai/python_humanize_ai/humanize_string.py:64-72 | running a table `a + b` is running `a`, then running `b` on its result |
| `Humanizer.GateOffSkipsRule` | humanize_ai/python_humanize_ai/humanize_string.py:64-65 | a rule whose switch is off has the same effect as a table without it |
| `Humanizer.AllSwitchesOff` | humanize_ai/python_humanize_ai/humanize_string.py:64-65 | with every switch off, the text is returned unchanged with count 0 |
| `Humanizer.ZeroCountChangesNothing` | humanize_ai/python_humanize_ai/humanize_string.py:50-92 | a result with count 0 means the text is unchanged |
| `Humanizer.NoMatchesNoChange` | humanize_ai/python_humanize_ai/humanize_string.py:67-72 | a rule that counts nothing does not change the text |
| `Humanizer.PipelineOrder` | humanize_ai/python_humanize_ai/humanize_string.py:53-72 | the rules run in table order, rule 1 first and rule 7 last, each on the previous output |
| `Humanizer.RuleLengths` | humanize_ai/python_humanize_ai/humanize_string.py:54-60 | no rule lowers the count; rules 1 and 2 shorten the text by what they count; rules 3 to 6 keep its length; rule 7 lengthens it by two per ellipsis |
| `Humanizer.ReplacementsNotIgnorable` | humanize_ai/python_humanize_ai/humanize_string.py:13 | no replacement of rules 2 to 7 contains an ignorable character |
| `Humanizer.ClassRuleCount` | humanize_ai/python_humanize_ai/humanize_string.py:64-72 | an enabled class rule adds to the count exactly the number of its class's characters in its input, and a disabled one adds nothing |
| `Humanizer.HiddenRuleExact` | humanize_ai/python_humanize_ai/humanize_string.py:54-72 | rule 1 deletes exactly the ignorable characters and counts each one, or does nothing when `transform_hidden` is off |
| `Humanizer.TrailingRuleExact` | humanize_ai/python_humanize_ai/humanize_string.py:55-72 | rule 2 gives the text with every line stripped of its trailing blanks, and counts exactly the blanks it removed |
| `Humanizer.HiddenCharactersGone` | humanize_ai/python_humanize_ai/humanize_string.py:13-54 | with `transform_hidden` on, the result contains no character of `IGNORABLE_SYMBOLS` |
| `JsonTraversal.HumanizeJson` | humanize_ai/python_humanize_ai/humanize_string.py:95-131 | `humanize_json` returns the cleaned value and the total count that `Clean` defines under the resolved options |
| `JsonTraversal.CleanItemsElementwise` | humanize_ai/python_humanize_ai/humanize_string.py:122-129 | a list keeps its length and order, and each item is cleaned on its own |
| `JsonTraversal.CleanEntriesKeepKeys` | humanize_ai/python_humanize_ai/humanize_string.py:114-121 | a dict keeps its keys verbatim and in order, and maps each key to its cleaned value |
| `JsonTraversal.CleanSumsLeaves` | humanize_ai/python_humanize_ai/humanize_string.py:111-131 | the total count is the sum of `humanize_string`'s counts over the string values, and the cleaned value's strings are their humanized texts |
| `JsonTraversal.NoStringsNoChange` | humanize_ai/python_humanize_ai/humanize_string.py:130-131 | a value without string values is returned as is, with count 0 |
| `JsonTraversal.NoHiddenLeaves` | humanize_ai/python_humanize_ai/humanize_string.py:111-113 | with `transform_hidden` on, no string value of the result has an ignorable character |
| `Scenarios.WhitespaceLine` | humanize_ai/python_humanize_ai/humanize_string.py:54-56 | with `keyboard_only` off, on a line of the form text, zero-width space, no-break space, a non-empty text ending in a plain character that is not a space, tab, vertical tab or form feed, then any run of spaces, tabs, vertical tabs and form feeds (the texts may hold blanks, printable ASCII other than `"`, and any character above U+FEFF): each of the three switches decides on its own whether its characters survive, and the count is the number removed or replaced |
| `Scenarios.SampleDefaults` | test_humanize_string.py:12-18 | `"Hello\u200b\xa0World!  "` becomes `"Hello World!"` with count 4 |
| `Scenarios.SampleKeepsTrailing` | test_humanize_string.py:20-29 | with trailing-whitespace removal off, the result is `"Hello World!  "` with count 2 |
| `Scenarios.SampleKeepsHidden` | test_humanize_string.py:31-39 | with hidden-character removal off, the result is `"Hello\u200b World!"` with count 3 |
| `Scenarios.SampleKeepsNbs` | test_humanize_string.py:41-49 | with no-break-space replacement off, the result is `"Hello\xa0World!"` with count 3 |
| `Scenarios.TrailingNbsSurvives` | humanize_ai/python_humanize_ai/humanize_string.py:55-56 | with `transform_hidden` and `transform_nbs` on and `keyboard_only` off, a line of plain text, a zero-width space, plain text and two trailing no-break spaces comes out as the two texts followed by two spaces, with count 3: the no-break spaces become spaces only after the trailing-blank rule has run, so they stay |
| `Scenarios.TrailingRunStripped` | humanize_ai/python_humanize_ai/humanize_string.py:55 | with `transform_trailing_whitespace` on and `keyboard_only` off, a plain line whose last character is a plain character that is not a space, tab, vertical tab or form feed, followed by any run of spaces, tabs, vertical tabs and form feeds comes out of the whole pipeline without that run, and the count is its length |
| `Scenarios.NotIdempotent` | test_humanize_json.py:17-23 | humanizing `"Hello\u200b World!\xa0\xa0"` gives `"Hello World!  "` (count 3), and humanizing that again changes it to `"Hello World!"` (count 2) |
| `Scenarios.StraightQuoteCounted` | humanize_ai/python_humanize_ai/humanize_string.py:58 | a straight double quote is in rule 5's class: it is left as it is but is counted as a change |
| `Scenarios.ClassIs` | humanize_ai/python_humanize_ai/humanize_string.py:13-60 | the class of each character rule is exactly the characters it lists: the ignorable symbols; U+00A0; the em and en dash; `"`, `«`, `»` and `„`; U+02BC; `…` |
| `Scenarios.ClassesDisjoint` | humanize_ai/python_humanize_ai/humanize_string.py:13-60 | no character is in the classes of two different character rules |
| `Scenarios.ReplacementNotLater` | humanize_ai/python_humanize_ai/humanize_string.py:54-60 | no rule's replacement is in the class of a rule that runs after it |
| `Scenarios.OneClassLine` | humanize_ai/python_humanize_ai/humanize_string.py:53-72 | with `keyboard_only` off, for any rule but the trailing-blank rule: on a line whose characters are plain or in that rule's class and which ends in a plain character that is not a space, tab, vertical tab or form feed, if that rule alone gives a line of plain characters and replacements that also ends in such a character, the whole pipeline gives exactly what that rule gives: the other rules find nothing before it or after it |
| `Scenarios.ClassStep` | humanize_ai/python_humanize_ai/humanize_string.py:67-72 | appending a class character and a plain piece to a text adds one match, one replacement and the piece |
| `Scenarios.DashRule` | humanize_ai/python_humanize_ai/humanize_string.py:57-72 | on plain pieces joined by two em dashes and an en dash, rule 4 puts a `-` in place of each dash and counts 3 |
| `Scenarios.DashesCounted` | test_humanize_string.py:51-58 | `"I — super — man – 💪"` becomes `"I - super - man - 💪"` with count 3 |
| `Scenarios.QuoteRule` | humanize_ai/python_humanize_ai/humanize_string.py:58-72 | on plain pieces joined by two straight quotes, `«`, `»`, `„` and two `«`, rule 5 puts a straight quote in place of each and counts 7 |
| `Scenarios.QuotesCounted` | test_humanize_string.py:60-67 | `'Angular "quote" «marks» looks„ like Christmas «« tree'` becomes `'Angular "quote" "marks" looks" like Christmas "" tree'` with count 7 |
| `Scenarios.FoxRule` | humanize_ai/python_humanize_ai/humanize_string.py:54-72 | rule 1 deletes the four zero-width and direction marks U+200C to U+200F between plain pieces and counts 4 |
| `Scenarios.FoxValueCleaned` | test_humanize_json.py:20-26 | `"The\u200c quick\u200d brown\u200e fox\u200f jumps"` becomes `"The quick brown fox jumps"` with count 4 |
| `JsonTraversal.CleanEntriesConcat` | humanize_ai/python_humanize_ai/humanize_string.py:114-121 | cleaning the entries of `a + b` gives the cleaned entries of `a` followed by those of `b`, and the sum of the two counts |
| `Scenarios.FlatDictShape` | humanize_ai/python_humanize_ai/humanize_string.py:114-121 | a dict of a string, `123`, `None` and a string keeps its keys in order, humanizes both strings, keeps the number and `None`, and counts the two strings' changes |
| `Scenarios.FlatDictCleaned` | test_humanize_json.py:13-27 | the flat-dict case cleans `"a"` to `"Hello World!  "` and `"d"` to `"The quick brown fox jumps"`, keeps `123` and `None`, and reports count 7 |
| `Scenarios.PlainLine` | humanize_ai/python_humanize_ai/humanize_string.py:53-72 | with `keyboard_only` off, a plain line that does not end in a blank is returned unchanged with count 0 |
| `Scenarios.OneHiddenInLine` | humanize_ai/python_humanize_ai/humanize_string.py:54-72 | with `transform_hidden` on and `keyboard_only` off, a zero-width space between two plain pieces, the second of which ends in a plain character that is not a space, tab, vertical tab or form feed, is deleted by the whole pipeline and counted once |
| `Scenarios.TwoStrings` | humanize_ai/python_humanize_ai/humanize_string.py:114-121 | a dict of two string values keeps both keys and humanizes both values, adding their counts |
| `Scenarios.KeysCopied` | test_humanize_json.py:147-176 | for the entries `"hello\u200b world": "value1"` and `"normal": "test\u200b value"`, the key keeps its zero-width space (so `"hello world"` is not a key of the result), the value becomes `"test value"`, and the count is 1 |

## Left out

- The command-line front end (cli.py) is not part of this model. It builds `HumanizeOptions` from its flags, reads the text from its argument or from standard input, calls `humanize_string`, prints the text, and with `--show-count` prints the count to standard error.
- The `\p{Letter}` and `\p{Emoji}` tables of the `regex` library are not modelled. They are the two predicates of a `UnicodeTables` parameter, so every property holds for any such tables.
- The regular-expression engine is not modelled. Each of the seven compiled patterns is given as the function it computes (`Findall`, `Sub`). Python's `re` matches by code point, and the model's characters are code points too.
- Dict keys are copied unchanged, as `humanize_json` does at humanize_string.py:119. The repository's test `test_humanize_keys` (test_humanize_json.py:147-176) expects keys to be humanized and their changes counted. The code does not do that, and the model follows the code.
- Idempotence is not claimed because it does not hold. Rule 3 can create trailing spaces after rule 2 has run; `Scenarios.NotIdempotent` shows this.
- The character classes are the ones the code spells out, not the ones the comments in the repository's tests suggest. test_humanize_json.py:56 marks U+2019, U+201C and U+201D as "smart quotes", and :83 marks U+201C, U+201D, U+2018 and U+2019 as "Smart quotes". :114 turns `transform_quotes` off to "preserve fancy quotes". In the code:
  - rule 5 is the straight quote `"` plus « » „;
  - rule 6 is only U+02BC;
  - rule 4 lists the em dash twice;
  - no rule matches U+2018, U+2019, U+201C or U+201D.
  The model follows the code, as `Scenarios.ClassIs` and `Scenarios.StraightQuoteCounted` show.
- JSON values other than strings, lists and dicts, such as numbers, booleans, None, floats and tuples, are modelled as opaque scalars returned unchanged. Only string keys are modelled, and a dict is a sequence of entries in insertion order.
- The lookup of a switch by attribute name (`getattr(options, option_name)`) is modelled as a `Gate` enumeration with one case per switch.
- Dafny's `char` is a Unicode scalar value. A Python `str` can also hold lone surrogates U+D800 to U+DFFF, which the model cannot represent.
- `humanize_json` calls itself once per level of nesting (humanize_string.py:118 and :126), so Python raises `RecursionError` on very deep or cyclic containers. The `Json` datatype is finite and acyclic, and the model has no recursion limit.
- test_humanize_string.py:53, :55 and :62 store their non-ASCII characters as UTF-8 bytes read as Windows-1252: `â€”` stands for —, `â€“` for –, `Â«` for «, `Â»` for », `â€ž` for „ and `ðŸ’ª` for 💪. `Scenarios.DashesCounted` and `Scenarios.QuotesCounted` use the decoded characters, which are the ones the expected counts 3 and 7 fit.
