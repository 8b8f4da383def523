# Madlibs fill pipeline in Dafny

This project models the fill stage of the madlibs program, `fill_madlib_template` in
`madlibs/main.py`, together with `get_user_noun` and the records it produces. The fill works
in four steps:

1. It finds every `{noun_N}`, `{verb_N}` and `{adjective_N}` marker in a template's text.
2. It collects the sorted distinct indices of each kind.
3. It runs three producers that write one shared dict from marker text to word:
   - the noun producer asks the user for one validated noun per index;
   - the verb and adjective producers ask a generator for one word per index, check the reply
     against a schema of exactly five items, and zip it onto the indices.
4. It substitutes the dict into the text with `str.replace`, and rebuilds one placeholder
   record per marker occurrence.

The model is split into these modules:

- `Text`: the Python built-ins the fill relies on: `int`/`str` on non-negative decimals,
  `str.strip()` with the `str.isspace()` character set, and `str.replace` (including the
  empty-pattern case).
- `Models`: `PlaceholderType`, `Placeholder`, `MadlibTemplate` and `CompletedMadlib`, and the
  marker text `{kind_digits}`.
- `Scanner`: `re.findall(r'\{(noun|verb|adjective)_(\d+)\}', ...)` as a left-to-right scanner.
  For any text, every match is marker text at its own position, the matches come in text
  order without overlapping, and every marker occurrence gets its own match. A template built from literal text without `{` and from markers
  (`Piece`s) is scanned back to exactly its markers.
- `Grouping`: `sorted(set(int(num) ...))` per kind.
- `Producers`:
  - the shared dict (`Dict`: insertion-ordered keys plus a map);
  - the retry loop of `get_user_noun`;
  - `get_nouns`, and `get_verbs`/`get_adjectives` as imperative loops proved against
    specification functions;
  - the five-item schema check of `VerbList`/`AdjectiveList`.
- `Reassembly`: the substitution loop over the dict's items in insertion order, and the
  rebuild loop that numbers records from 1. For templates made of brace-free text and
  markers, with brace-free words, substitution turns each marker that has a key into its word
  and leaves the rest as written, whatever the key order.
- `Fill`: the whole fill as one method. It fails exactly when a producer fails, reporting the
  first failure in the order noun, verb, adjective, and otherwise
  returns the completed madlib described by specification functions of the template and the
  inputs.
- `FillProperties`: what a fill guarantees:
  - which markers get which word;
  - that the merged dict has one entry per producer entry, whatever order the producers run in;
  - that indices past a producer's words and markers with leading zeros get no word;
  - that every marker is filled when the indices fit the batches;
  - that a template without markers comes back unchanged.

The outside world is passed in as `Fill.Inputs`:

- the lines the user would type;
- the noun validator's verdict as a function;
- each generator's reply, `None` when the call raises.

The completion time is a parameter.

The records of `madlibs/main.py` are datatypes in `Models`:

- `PlaceholderType` (`Noun`, `Verb`, `Adjective`), lines 20-23;
- `Placeholder` (lines 39-42), with the field `type` renamed `kind`;
- `MadlibTemplate` (lines 44-48) and `CompletedMadlib` (lines 50-56), with timestamps as opaque
  numbers.

`VerbList` and `AdjectiveList` (lines 25-37) appear only as their five-item check,
`Producers.CheckedBatch`.

## Model

| member | source | states |
|---|---|---|
| Text.NatStr | madlibs/main.py:176 | `str(num)` of an index is a canonical digit string: non-empty ASCII digits, no leading zero unless it is "0" |
| Text.ValueOfNatStr | madlibs/main.py:165-167 | `int(str(n)) == n` for every non-negative index |
| Text.NatStrInjective | madlibs/main.py:176 | different indices give different key digits |
| Text.NatStrOfValue | madlibs/main.py:213 | `str(int(s)) == s` for a canonical digit string, so a producer's key spells a match's own digits exactly when they have no leading zero |
| Text.Value | madlibs/main.py:165-167 | `int(num)` of a digit string ignores a leading zero: `int("01") == int("1")` |
| Text.StripBothEnds | madlibs/main.py:152 | removing leading and then trailing whitespace leaves an infix of the line with only whitespace around it |
| Text.Strip | madlibs/main.py:152 | `line.strip()` is an infix of the line with only whitespace around it, and it neither starts nor ends with whitespace |
| Text.ReplaceAbsent | madlibs/main.py:205 | `str.replace` of a non-empty pattern that does not occur returns the text unchanged |
| Text.ReplaceSkipsPrefix | madlibs/main.py:205 | a prefix not containing the pattern's first character is copied through `str.replace` unchanged |
| Text.ReplaceAll | madlibs/main.py:205 | `str.replace` with a non-empty pattern returns the text unchanged when the replacement is the pattern itself, and keeps the length when the replacement is as long as the pattern |
| Models.MarkerShape | madlibs/main.py:161 | a marker starts with its only `{` and ends with `}` |
| Models.Key | madlibs/main.py:176 | a producer key has the producer's kind and canonical digits |
| Scanner.DigitRun | madlibs/main.py:161 | `\d+` takes the longest run of digits at the start |
| Scanner.KindAt | madlibs/main.py:161 | the alternation picks the kind whose `{kind_` prefix starts the text, and no kind when none does |
| Scanner.MatchAt | madlibs/main.py:161 | a match at the start of the text covers exactly the marker of its kind and digit groups |
| Scanner.Scan | madlibs/main.py:162 | `findall` returns only well-formed matches |
| Scanner.MatchMarker | madlibs/main.py:161 | a text starting with a marker matches that marker, whatever follows |
| Scanner.MarkerInjective | madlibs/main.py:213 | two matches with the same marker text have the same kind and digits, so keying the dict by parsed match is the same as keying it by marker text |
| Scanner.MarkerPrefixUnique | madlibs/main.py:205 | one marker can never start with a different marker |
| Scanner.ScanLiteral | madlibs/main.py:162 | text without `{` contributes no match |
| Scanner.ScanMarker | madlibs/main.py:162 | a marker at the front is found, and scanning resumes right after it |
| Scanner.ScanFindsMarker | madlibs/main.py:162 | every marker text anywhere in the template is among `findall`'s matches |
| Scanner.ScanPositions | madlibs/main.py:162 | for any text, each match of `findall` is marker text at a position in the text, the matches come in text order without overlapping, and every marker occurrence in the text is matched at its own position, so a repeated marker gets one match per occurrence |
| Scanner.ScanSound | madlibs/main.py:162 | every match of `findall` occurs as marker text somewhere in the template |
| Scanner.NoOccurrenceNoMarker | madlibs/main.py:162 | a text where `findall` finds nothing contains no marker text at all |
| Scanner.ScanRender | madlibs/main.py:162 | scanning a template built from brace-free literals and markers yields exactly its markers, in order, repeats included |
| Grouping.InsertSorted | madlibs/main.py:165 | inserting into a strictly increasing list keeps it strictly increasing, with exactly the old elements and the new one |
| Grouping.Numbers | madlibs/main.py:165-167 | the index list of a kind is strictly increasing and holds exactly the `int` values of that kind's matches |
| Producers.Put | madlibs/main.py:176 | a dict assignment maps the key to the word, keeps the other entries, and appends the key to the insertion order only when it is new |
| Producers.KeyInjective | madlibs/main.py:176 | two keys are equal only for the same kind and the same index |
| Producers.Zip | madlibs/main.py:182 | `zip` pairs elements by position and stops at the shorter list |
| Producers.PairEntriesKeys | madlibs/main.py:181-183 | a write loop's keys are exactly the keys of the zipped indices |
| Producers.PairEntriesValues | madlibs/main.py:181-183 | with distinct indices, the loop writes one entry per pair, holding that pair's word |
| Producers.AcceptedWords | madlibs/main.py:149-156 | every word the input yields for a noun passes the validator |
| Producers.GetUserNoun | madlibs/main.py:149-156 | the loop returns the first stripped line the validator accepts and consumes exactly the lines up to it, all earlier lines being rejected; it fails exactly when no remaining line is accepted |
| Producers.GetNouns | madlibs/main.py:173-176 | the noun producer succeeds exactly when the input holds at least as many accepted words as there are noun indices; it then writes the `j`-th accepted word under the `j`-th index, appending the keys in index order |
| Producers.CheckedBatch | madlibs/main.py:25-37 | a generator reply passes the schema exactly when the call succeeded and returned exactly five items |
| Producers.FillBatch | madlibs/main.py:178-190 | with no index the dict is untouched; otherwise the producer succeeds exactly when the reply passes the schema, and then writes the zipped words under the indices |
| Producers.EntriesKind | madlibs/main.py:176-190 | every key a producer writes has its kind and canonical digits |
| Producers.EntriesDisjoint | madlibs/main.py:176-190 | producers of different kinds write disjoint key sets |
| Producers.EntriesSize | madlibs/main.py:181-183 | a producer adds one entry per zipped pair |
| Reassembly.Substitute | madlibs/main.py:202-205 | the loop applies `str.replace` for each dict key in insertion order |
| Reassembly.SubstituteNoMarkers | madlibs/main.py:202-205 | a text without matches comes out of the substitution unchanged |
| Reassembly.ReplaceRender | madlibs/main.py:205 | on brace-free literals and markers, replacing one marker with a brace-free word changes exactly the slots of that marker |
| Reassembly.SubstituteRender | madlibs/main.py:202-205 | on brace-free literals and markers, with brace-free words, the substitution turns each slot whose key is in the dict into its word and keeps the rest |
| Reassembly.SubstituteOrderIrrelevant | madlibs/main.py:196-205 | under the same conditions, the order of the dict's keys does not change the filled text |
| Reassembly.Rebuild | madlibs/main.py:207-219 | one record per match in match order: the id is its position from 1, the kind is the match's kind, and the value is the dict's word or "" when the key is missing |
| Fill.ProducedShape | madlibs/main.py:176-190 | one producer's keys have its kind and canonical digits, and they are exactly its key list |
| Fill.FilledKeysShape | madlibs/main.py:170-190 | every key in the filled dict is a well-formed canonical marker, and the key order lists exactly the dict's keys |
| Fill.NounStage | madlibs/main.py:173-176 | on an empty dict, the noun producer succeeds exactly when there are enough accepted words, and then leaves its entries in index order |
| Fill.BatchStage | madlibs/main.py:178-190 | on a dict without keys of its kind, a batch producer succeeds exactly when it has no index or the reply passes the schema, and then adds its entries after the existing keys |
| Fill.RunProducers | madlibs/main.py:196-200 | the producers fail with the first failure in the order noun, verb, adjective; otherwise the dict holds exactly the combined entries |
| Fill.Failure | madlibs/main.py:173-200 | the fill fails exactly when the input holds fewer accepted nouns than noun indices, or a kind with indices gets a reply that is missing or not exactly five items; the error reported is the first failure in the model's sequential order noun, verb, adjective |
| Fill.Reassemble | madlibs/main.py:202-219 | the filled text is the substitution over the dict, and the records are the per-match records |
| Fill.FillMadlibTemplate | madlibs/main.py:158-227 | the fill raises exactly when a producer fails, with the first failure in the model's sequential order noun, verb, adjective; otherwise it returns the template's topic, text and creation time, the substituted text, one record per match, and the completion time |
| FillProperties.ProducedValue | madlibs/main.py:181-183 | a producer writes its `j`-th word under its `j`-th smallest index |
| FillProperties.FilledValue | madlibs/main.py:170-200 | in the merged dict, the key of the `j`-th index of a kind holds that producer's `j`-th word |
| FillProperties.FilledKeySource | madlibs/main.py:170-200 | every key in the merged dict is the key of the `j`-th index of its kind, for a `j` within the producer's words |
| FillProperties.FilledKeyIndex | madlibs/main.py:182 | the merged dict has a key exactly when it belongs to one of the first `min(#indices, #words)` indices of its kind |
| FillProperties.FilledWords | madlibs/main.py:170-200 | every value in the merged dict is one of its kind's producer words |
| FillProperties.FilledMapSize | madlibs/main.py:170-200 | the merged dict holds as many entries as the three producers wrote together |
| FillProperties.MergeByKind | madlibs/main.py:196-200 | dicts whose keys carry the kind they are filed under merge to the same dict in any order of the kinds |
| FillProperties.FilledMapOrder | madlibs/main.py:196-200 | merging the three producers' entries in any order of the kinds gives the same dict |
| FillProperties.BatchWordCount | madlibs/main.py:25-37 | a batch producer that ran in a successful fill had exactly five words |
| FillProperties.TruncatedIndex | madlibs/main.py:182 | an index beyond its producer's words gets no key, so its record holds "" |
| FillProperties.VerbOverflow | madlibs/main.py:180-183 | in a successful fill with six or more distinct verb indices, the sixth has no word |
| FillProperties.LeadingZeroUnfilled | madlibs/main.py:213-217 | a match with leading-zero digits such as `{noun_01}` never has a key, so its record holds "" |
| FillProperties.EveryMatchFilled | madlibs/main.py:158-219 | in a successful fill with at most five verb and five adjective indices and only canonical digits, every match has a word |
| FillProperties.NoMarkers | madlibs/main.py:158-227 | a template without markers cannot fail, comes back unchanged and gets no records |
| FillProperties.FilledTextOfPieces | madlibs/main.py:202-205 | for a template of brace-free text and markers, with brace-free words, the filled text is the template with each marker that has a key replaced by its word |

## Left out

- The agents are not modelled: template generation, the guardrail, the orchestrator, `main`, tracing and the `Runner` calls. Their replies enter as `Fill.Inputs`.
- `mock_save_madlib` and all printing are not modelled.
- `validate_noun` is a total function `isNoun`. A validator call that raises (network failure) is not modelled.
- Each generator reply is `Option<seq<string>>`. `None` stands for any raised error, so schema violations and transport failures are not distinguished.
- `input()` is a finite list of lines. Running out raises `EOFError`, which is the fill's `NounInputExhausted` error.
- `datetime.now()` is not modelled. The template's creation time is kept, and the completion time is the `now` parameter.
- Fill.RunProducers, Fill.Failure, Fill.FillMadlibTemplate: `asyncio.gather` is modelled as the producers run one after the other in the order noun, verb, adjective.
  - The dict order and the reported error are those of this sequential run.
  - With concurrent producers, the keys of different kinds can interleave, and another failing producer can raise first. For example, a verb call can raise while the user still has lines to type.
  - When several producers fail, the program raises whichever exception comes first in time. The model reports the first failure in the order noun, verb, adjective.
  - `FilledMapOrder` shows the merged dict's contents do not depend on the order.
  - `SubstituteOrderIrrelevant` shows the key order does not change the filled text when neither the template's literal text nor any word contains `{`.
  - Without that condition the key order can matter. In `{noun_1} {noun_{verb_1}}`, with the noun "dog" and the verb "1", the order noun, verb gives "dog {noun_1}" and the order verb, noun gives "dog dog". `FilledText` is the first of these.
- A replacement can form or break a marker during later replacements. A word containing `{` can do so, and so can a brace-free word that completes a marker around a stray `{` in the template. The filled text is still modelled exactly (`FilledText`), but the piece-level lemmas assume brace-free literal text and brace-free words.
- `\d` is restricted to ASCII digits. Python's `re` also matches other Unicode decimal digits.
- The dict is keyed by the parsed match (kind and digit string) instead of the marker string. `Scanner.MarkerInjective` shows the two are interchangeable.
- The generators are asked for as many words as there are indices, but the schema admits exactly five. The model follows the code:
  - a reply of any other length is rejected;
  - `zip` leaves indices beyond the fifth unfilled;
  - unused words are dropped.
- The `VerbList`/`AdjectiveList` field descriptions and the generator instructions (main.py:26-27, 100-105, 111-116) ask for unique words, but nothing checks it. The code and the model accept a batch with duplicates.
- The validator is a function of the word, so a word entered again gets the same verdict. The real validator is a model call and may judge the same word differently on another try.
- A marker without a word is not an error. The code and the model give its record the value "" and leave its marker text in the filled text.
- Text.Value, Fill.FillMadlibTemplate: the limit on integer-string conversion is not modelled. Python 3.10 and later (which `str | list[...]` at main.py:72 requires) raise `ValueError` in `int(num)` (main.py:165-167) for a digit string longer than `sys.get_int_max_str_digits()`, 4300 by default. A template such as `{noun_` followed by 4301 ones and `}` makes the program raise before any producer runs, while the model fills it normally.
- Digits with a leading zero are handled as the code handles them. `{noun_01}` counts as index 1, but the key is written as `{noun_1}`, so the `{noun_01}` marker is never replaced and its record holds "".
