# Courrier OCR field extraction, in Dafny

This project models the text-to-fields pipeline of the courrier registry. The
pipeline's input is the OCR text of a scanned letter. From it, the pipeline
fills in a record with these fields:

- the date;
- the sender (`expediteur`);
- the recipient (`destination`);
- the subject (`objet`);
- the reference number (`num_ordre`);
- the raw text;
- the language.

Every extractor is a scan that returns on its first hit, and each has a fixed
placeholder (or `None`) as its last resort. The sender and recipient
extractors scan the trimmed non-blank lines. The subject and order-number
extractors scan the raw lines (the order number also the whole text at the
end). The date extractor scans the raw text with each of its grammars in turn.

The project has one module per extractor, plus two shared modules and the
orchestrator:

- `OcrText` (`text.dfy`): character classes, `strip`, `split` and
  `str.split(':', 1)`, the cleaned-line tokeniser, and the generic searches:
  the first line passing a test, and the first success in a row of outcomes.
- `Patterns` (`patterns.dfy`): every regular expression the extractors use,
  written out as a matcher. A matcher is a function `(s, p)` that gives the
  captured group of a match starting at `p`. On top of matchers sit
  `re.search` (leftmost match), `re.match` and the shapes of reference-number
  tokens.
- `DateField` (`dates.dfy`): `extract_date`.
- `Expediteur` (`sender.dfy`): `extract_expediteur`.
- `Destination` (`recipient.dfy`): `extract_destination`.
- `Objet` (`subject.dfy`): `extract_objet`.
- `NumOrdre` (`refnumber.dfy`): `extract_num_ordre`.
- `CourrierOcr` (`pipeline.dfy`): `process_courrier_ocr`.

## How each extractor is modelled

Each extractor appears three times:

- a pure first-match specification function: `DateOf`, `SenderBy`,
  `RecipientBy`, `SubjectBy` or `NumOrdreBy`;
- a method with the source's loops and early returns, proved equal to that
  function: `ExtractDate`, `SelectSender`, `SelectRecipient`, `SelectSubject`
  or `SelectNumOrdre`;
- lemmas stating what the source promises about the function: priority order,
  windows, bounds, the shape of the result, and the error cases.

The sender, recipient, subject and reference-number steps are stated over a
record of line tests (`SenderRules`, `RecipientRules`, `SubjectRules`,
`RefRules`). Each module's `Rules` constant plugs in the extractor's own
regular expressions and keyword lists: `SenderOf(text)` is
`SenderBy(CleanLines(text), Rules)`, and likewise for the others. The lemmas
proved over every rule record therefore hold for the extractor itself.

The date parser, `dateutil.parser.parse(..., dayfirst=True, fuzzy=True)`, is a
parameter `parse: string -> Option<Date>`. It gives `None` where the library
raises `ValueError` or `TypeError`.

An exception inside the extractors is modelled as a value. `NumOrdre.Outcome`
is either `Returned(Option<string>)` or `Raised(message)`, and the orchestrator
maps `Raised` to its `except` dictionary.

### Quirks of the code that the model keeps

- **Order-number keyword step.** At `courriers/utils/ocr_utils.py:224`, the
  pattern `[\d-/]{6,10}` uses a class escape as a range endpoint. Python's `re`
  rejects it with `re.error` ("bad character range \d-/ at position 1")
  whenever that line is reached. The keyword step is reached only when none
  of the first five lines yields a number to the first step: none has a
  `DDDDD/DD` token, and none is only a `D{4,6}/DD` token. A first line
  `n° 1234/25` holds a number yet reaches this step. The step then stops at the first line
  with a keyword ("n°", "numéro", "no", "ref", "réf", as plain substrings:
  "novembre" qualifies). If that line has a strict `DDDDD/DD` token, the token
  is returned. Otherwise the whole processing returns the error record; it
  never falls back to a looser pattern. Later keyword lines are never looked at.
- **OCR failure path.** OCR text starting with "Error" gives the two-key
  dictionary `{error, raw_text}`, not a fully populated record.
- **Error path when an extractor raises.** `num_ordre` is the empty string
  there, not `None`.
- **Last sender rule.** It rejects a line whose lower-cased form contains `a`,
  `à` or `objet` anywhere as a substring. That is not a standalone article
  test.
- **Subject fallback.** The bare "A"/"À" pass runs whenever no label line
  yields a subject. That includes a label line with an empty remainder followed
  by a blank line. It does not need the text to have no "Objet:" line.
- **Empty sender.** The dateline rule can return an empty sender, for example
  on a line that starts with a comma.

## Model

| member | source | states |
|---|---|---|
| OcrText.Clean | courriers/utils/ocr_utils.py:78-79 | the cleaned lines are no more than the raw lines, each one non-empty and already trimmed (CleanAt gives which lines and in what order) |
| OcrText.CleanFromRaw | courriers/utils/ocr_utils.py:79 | every cleaned line is the trimmed form of some raw line |
| OcrText.CleanAppend | courriers/utils/ocr_utils.py:79 | the list comprehension works line by line: cleaning a concatenation is concatenating the cleaned parts |
| OcrText.CleanAt | courriers/utils/ocr_utils.py:79 | every raw line survives cleaning, trimmed, exactly when it is not blank, and it lands after the cleaned lines before it and before those after it: the non-blank lines are kept, trimmed, in order |
| OcrText.StripSpec | courriers/utils/ocr_utils.py:79 | `strip()` is the slice of the string between its leading and trailing whitespace: a slice `s[lo..hi]` with only whitespace before `lo` and after `hi`, which neither starts nor ends with whitespace; it is empty exactly when the string is all whitespace |
| OcrText.Strip | courriers/utils/ocr_utils.py:79 | `strip()` never lengthens the string; StripSpec states which slice it returns |
| OcrText.StripIdempotent | courriers/utils/ocr_utils.py:103 | trimming an already trimmed line changes nothing, so `line.strip()` of a cleaned line is the line itself |
| OcrText.SplitJoin | courriers/utils/ocr_utils.py:78 | `split('\n')` loses nothing: joining the pieces back with the separator gives the text |
| OcrText.Split | courriers/utils/ocr_utils.py:175 | there is at least one piece, and no piece contains the separator |
| OcrText.SplitOnce | courriers/utils/ocr_utils.py:181 | `split(':', 1)` gives two parts around the first colon when there is one, and the whole line otherwise |
| OcrText.FindFirstLine | courriers/utils/ocr_utils.py:106-121 | the loop-with-return over a window finds the index the first-line search specifies |
| OcrText.FirstLineSpec | courriers/utils/ocr_utils.py:119-128 | the first line found passes the test and no earlier one does; with none found, no line passes |
| OcrText.ContainsAnyIff | courriers/utils/ocr_utils.py:120 | `any(k in s for k in words)` holds exactly when some word of the list occurs in s |
| OcrText.FirstSomeIsFirst | courriers/utils/ocr_utils.py:46-70 | a first-success scan yields the first successful outcome, with only failures before it; it yields nothing exactly when every outcome fails |
| OcrText.FirstSomeSkips | courriers/utils/ocr_utils.py:46-70 | leading failures do not change what a first-success scan yields |
| Patterns.Search | courriers/utils/ocr_utils.py:47-50 | `re.search(...).group(1)` and `re.findall(...)[0]`: a hit is the capture at the leftmost position where the pattern matches, no earlier position matching; a miss happens exactly when no position matches |
| Patterns.AnyPattern | courriers/utils/ocr_utils.py:101-102 | the inner loop over the patterns reports a match exactly when some pattern matches the line |
| Patterns.FindFirstMatching | courriers/utils/ocr_utils.py:100-103 | the outer loop finds the first line some pattern matches |
| Patterns.FirstMatchingSpec | courriers/utils/ocr_utils.py:100-103 | the line found matches some pattern and no earlier line does; with none found, no line matches |
| Patterns.DatelineAt | courriers/utils/ocr_utils.py:107-108 | a dateline match needs a comma in the line |
| Patterns.LeDayMonthYearAt | courriers/utils/ocr_utils.py:39 | a match of `le\s+(...)` starts with "le" in any case, and its group is at least 8 characters long and is what the second grammar matches after the whitespace |
| Patterns.DayMonthYearAt | courriers/utils/ocr_utils.py:40 | the match of `\d{1,2}\s+[letters]+\s+\d{4}` is a prefix, at least 8 characters long, of the text from the match position |
| Patterns.SlashDateAt | courriers/utils/ocr_utils.py:41 | the match of `\d{1,2}/\d{1,2}/\d{4}` is a prefix of the text from the match position, 8 to 10 characters long, with a slash five characters from its end |
| Patterns.DashDateAt | courriers/utils/ocr_utils.py:42 | the match of `\d{1,2}-\d{1,2}-\d{4}` is a prefix of the text from the match position, 8 to 10 characters long, with a dash five characters from its end |
| Patterns.IsoDateAt | courriers/utils/ocr_utils.py:43 | the match of `\d{4}-\d{1,2}-\d{1,2}` is a prefix of the text from the match position, 8 to 10 characters long, with a dash after its fourth character |
| Patterns.WordsThenLetterAt | courriers/utils/ocr_utils.py:84-96 | a match of `w1\s+...\s+[A-Z]` (anchored at 0 for `^`) starts with the first word, ignoring case, is a prefix of the text from the match position, and ends with an ASCII letter |
| Patterns.FaculteDeAt | courriers/utils/ocr_utils.py:84 | a match of `Faculté\s+de\s+[A-Z]` starts with "Faculté" ignoring case, at the match position |
| Patterns.UniversiteAt | courriers/utils/ocr_utils.py:85 | a match of `Université\s+[A-Z]` starts with "Université" ignoring case, at the match position |
| Patterns.DepartementDeAt | courriers/utils/ocr_utils.py:86 | a match of `Département\s+de\s+[A-Z]` starts with "Département" ignoring case, at the match position |
| Patterns.ServiceDeAt | courriers/utils/ocr_utils.py:87 | a match of `Service\s+de\s+[A-Z]` starts with "Service" ignoring case, at the match position |
| Patterns.ChuAt | courriers/utils/ocr_utils.py:88 | a match of `CHU\s+[A-Z]` starts with "CHU" ignoring case, at the match position |
| Patterns.HopitalAt | courriers/utils/ocr_utils.py:89 | a match of `Hôpital\s+[A-Z]` starts with "Hôpital" ignoring case, at the match position |
| Patterns.TitleNameNameAt | courriers/utils/ocr_utils.py:92 | a match of the titled-name pattern (Madame, Monsieur, Mme or M., then a capitalised name and a capital) is at the start of the line and begins with one of the four titles, ignoring case |
| Patterns.DocteurAt | courriers/utils/ocr_utils.py:93 | a match of `^Docteur\s+[A-Z]` is at the start of the line and begins with "Docteur" ignoring case |
| Patterns.DrAt | courriers/utils/ocr_utils.py:94 | a match of `^Dr\s+[A-Z]` is at the start of the line and begins with "Dr" ignoring case |
| Patterns.ProfesseurAt | courriers/utils/ocr_utils.py:95 | a match of `^Professeur\s+[A-Z]` is at the start of the line and begins with "Professeur" ignoring case |
| Patterns.PrAt | courriers/utils/ocr_utils.py:96 | a match of `^Pr\s+[A-Z]` is at the start of the line and begins with "Pr" ignoring case |
| Patterns.AddressedTitleAt | courriers/utils/ocr_utils.py:151 | a match of the addressed pattern (A or À, whitespace, then Monsieur, Madame, M., Mme or Mlle) is at the start of the line, which begins with the article and a whitespace, and one of the five titles follows, ignoring case |
| Patterns.TitleThenSpaceAt | courriers/utils/ocr_utils.py:157 | a match of the professional-title pattern (one of nine titles, then whitespace) is at the start of the line and begins with one of the nine titles, ignoring case |
| Patterns.OptArticleTitleAt | courriers/utils/ocr_utils.py:166 | a match of the loose pattern (an optional A or À, optional whitespace, then Monsieur, Madame, M. or Mme) is at the start of the line and has one of the four titles inside it, ignoring case |
| Patterns.RefTokenAt | courriers/utils/ocr_utils.py:206 | a match of `\b(\d{5}/\d{2})\b` is a `DDDDD/DD` token that starts at the match position |
| Patterns.IsolatedRefAt | courriers/utils/ocr_utils.py:211 | a match of `^\s*(\d{4,6}/\d{2})\s*$` is at the start of the line, and its group is 7 to 9 characters long with the slash third from the end |
| Patterns.IsolatedRefAtShape | courriers/utils/ocr_utils.py:211 | the group of the isolated pattern is a `D{4,6}/DD` token and equals the whole line trimmed |
| Patterns.RefTokenShape | courriers/utils/ocr_utils.py:206 | what `\b(\d{5}/\d{2})\b` captures is five digits, a slash and two digits, found at the match position with no word character on either side |
| Patterns.IsolatedRefShape | courriers/utils/ocr_utils.py:211 | what `^\s*(\d{4,6}/\d{2})\s*$` captures is 4 to 6 digits, a slash and two digits, and it is the whole line trimmed |
| DateField.FirstMonthKey | courriers/utils/ocr_utils.py:61-64 | the key found is the first in table order whose French name occurs in the lower-cased match; with none found, no key occurs |
| DateField.FirstMonthKeyFromStart | courriers/utils/ocr_utils.py:60-63 | the search over the whole month table finds exactly the first entry whose French name occurs, and nothing when none occurs |
| DateField.ReplaceMonthName | courriers/utils/ocr_utils.py:61-64 | the month loop replaces the first key found in the lower-cased text, everywhere, and then stops; with no key the text is unchanged |
| DateField.TranslateMonth | courriers/utils/ocr_utils.py:52-64 | at most one table entry is substituted, namely the first whose French month name occurs in the lower-cased match; with no French month name the match is left as it was, letter case included |
| DateField.ExtractDate | courriers/utils/ocr_utils.py:33-72 | the loop over the date grammars returns what the first-success specification `DateOf` gives |
| DateField.DateIsFirstSuccess | courriers/utils/ocr_utils.py:46-72 | a date is the parse of the first match of a grammar that matches, with every earlier grammar failing; the result is `None` exactly when every grammar fails to match or to parse |
| DateField.NoDateWithoutMatch | courriers/utils/ocr_utils.py:46-72 | text that no grammar matches has no date, whatever the parser |
| DateField.FirstParsedGrammarWins | courriers/utils/ocr_utils.py:46-67 | the first grammar whose first match parses decides the date; later grammars and later matches of the same grammar are never looked at |
| Expediteur.SelectSender | courriers/utils/ocr_utils.py:99-130 | the four loops with early returns give the sender of the rule chain `SenderBy` |
| Expediteur.ExtractExpediteur | courriers/utils/ocr_utils.py:74-130 | the sender of the cleaned lines under the extractor's own patterns and keywords |
| Expediteur.RulePriority | courriers/utils/ocr_utils.py:99-128 | rules fire in order: the letterhead patterns on lines 0-9, the dateline on lines 0-4, the keywords on lines 0-7, then the formal filter on all lines; each fires on the first passing line of its window, and only when every earlier window holds no passing line |
| Expediteur.SenderShapeBy | courriers/utils/ocr_utils.py:99-130 | over trimmed lines, the sender is the placeholder, or at most 255 characters and either a prefix of a line or the trimmed text before the first comma of a dateline among the first five lines |
| Expediteur.SenderShape | courriers/utils/ocr_utils.py:74-130 | for any text, the sender is the placeholder, or at most 255 characters and a prefix of a cleaned line or the trimmed text before the first comma of one of the first five cleaned lines |
| Expediteur.DatelineHasComma | courriers/utils/ocr_utils.py:107-109 | a dateline always has a comma, so the dateline rule always cuts at the first comma |
| Expediteur.FormalSenderHasNoA | courriers/utils/ocr_utils.py:124-128 | a line taken by the last rule is longer than 15 characters and contains neither `a` nor `à` once lower-cased |
| Expediteur.HasAcademicKeyword | courriers/utils/ocr_utils.py:112-120 | a line passes the keyword rule exactly when its lower-cased form contains one of the fifteen keywords |
| Expediteur.LooksFormal | courriers/utils/ocr_utils.py:125-127 | a line passes the last rule exactly when it is longer than 15 characters, contains one of the four titles case-sensitively, and its lower-cased form contains none of "objet", "à" and "a" |
| Destination.Boundary | courriers/utils/ocr_utils.py:142-146 | the sender boundary is -1 or the index of a cleaned line |
| Destination.BoundaryIsFirstMarker | courriers/utils/ocr_utils.py:142-146 | the boundary is -1 exactly when no line contains faculté, université, doyen or doyenne; otherwise it is the first such line |
| Destination.FirstAcceptedSpec | courriers/utils/ocr_utils.py:149-161 | the main pass takes the first line one of its two rules accepts, in line order rather than rule order, and none before it |
| Destination.SelectRecipient | courriers/utils/ocr_utils.py:142-169 | the boundary loop with `break`, the main loop and the late loop give the recipient the specification `RecipientBy` gives |
| Destination.ExtractDestination | courriers/utils/ocr_utils.py:134-169 | the recipient of the cleaned lines under the extractor's own patterns |
| Destination.RecipientPasses | courriers/utils/ocr_utils.py:142-169 | a main-pass line is after the boundary; a titled one is also not the first line and does not follow a faculty or university line; the late pass runs only with a boundary and an empty main pass, and takes the first loosely titled line after the boundary; with no hit, neither pass has a candidate |
| Destination.RecipientShape | courriers/utils/ocr_utils.py:148-169 | the recipient is "destination non identifié", or at most 255 characters and a prefix of a cleaned line strictly after the boundary |
| Destination.NoMarkerNoLatePass | courriers/utils/ocr_utils.py:163-167 | with no faculty, university or dean line, the late pass never decides |
| Destination.IsSenderMarker | courriers/utils/ocr_utils.py:144 | a line is a sender marker exactly when its lower-cased form contains faculté, université, doyen or doyenne |
| Destination.FollowsInstitution | courriers/utils/ocr_utils.py:160 | the previous line blocks a titled line when its lower-cased form contains faculté or université |
| Objet.LabelValueShape | courriers/utils/ocr_utils.py:179-186 | a subject from a label line is non-empty and trimmed, and it is the remainder after the first colon or the next line |
| Objet.BareAValueShape | courriers/utils/ocr_utils.py:190-193 | a subject after a bare "A"/"À" line is the next line, non-empty and trimmed |
| Objet.SelectSubject | courriers/utils/ocr_utils.py:175-195 | the two loops with early returns give the subject of the specification `SubjectBy` |
| Objet.ExtractObjet | courriers/utils/ocr_utils.py:171-195 | the subject of the raw lines under the extractor's own tests |
| Objet.SubjectShapeBy | courriers/utils/ocr_utils.py:178-195 | the subject is "Objet non spécifié", or a non-empty trimmed text from a label line or its next line, or from the line after a bare article |
| Objet.FirstLabelWins | courriers/utils/ocr_utils.py:178-183 | the first line that yields anything decides: when it is a label line with a non-blank remainder, the subject is that remainder, whatever follows |
| Objet.FallbackOrder | courriers/utils/ocr_utils.py:178-195 | when some label line yields a subject, the result is what the first such line yields, and the bare-article pass is never consulted; otherwise, when some bare-article line yields one, the result is what the first such line yields; when neither pass yields anything the result is the placeholder (a yielded subject can itself read "Objet non spécifié") |
| Objet.FirstBareAWins | courriers/utils/ocr_utils.py:189-195 | with no label line yielding a subject, the first bare-article line whose next line is non-blank and has no "objet" decides the subject: its next line, trimmed |
| Objet.IsLabel | courriers/utils/ocr_utils.py:179 | a label line contains "objet" once lower-cased and a colon |
| Objet.IsBareA | courriers/utils/ocr_utils.py:190 | a bare-article line is "A" or "À" once trimmed |
| NumOrdre.SelectNumOrdre | courriers/utils/ocr_utils.py:201-233 | the three steps, including the raise at the keyword step, give the outcome of the specification `NumOrdreBy` |
| NumOrdre.ExtractNumOrdre | courriers/utils/ocr_utils.py:197-233 | the outcome under the extractor's own patterns and keywords |
| NumOrdre.HeadStepEmpty | courriers/utils/ocr_utils.py:204-213 | the first step finds nothing exactly when none of the first five lines has a strict or an isolated token |
| NumOrdre.KeywordStepEmpty | courriers/utils/ocr_utils.py:216-226 | the keyword step is skipped exactly when no line has a keyword |
| NumOrdre.NoneOnlyWhenNothingFound | courriers/utils/ocr_utils.py:204-233 | `None` comes back exactly when none of the first five lines has a token, no line has a keyword, and the whole text has no strict token |
| NumOrdre.RaisesOnFirstKeywordLine | courriers/utils/ocr_utils.py:216-226 | the function raises only with the bad-range message, when the first five lines yield nothing and the first keyword line has no strict token |
| NumOrdre.RaisesWhenFirstKeywordLineMisses | courriers/utils/ocr_utils.py:216-226 | when the first five lines yield nothing and the first keyword line has no strict token, the extractor raises the bad-range error |
| NumOrdre.ReturnsFirstKeywordToken | courriers/utils/ocr_utils.py:216-221 | when the first five lines yield nothing and the first keyword line has a strict token, that token cut to 50 characters is returned, whatever the later lines hold |
| NumOrdre.KeywordWithoutTokenRaises | courriers/utils/ocr_utils.py:216-226 | the one-line text "no" has a keyword and no token, so the extractor raises |
| NumOrdre.NumOrdreCaptured | courriers/utils/ocr_utils.py:206-231 | a returned number is a match of the strict or the isolated pattern, cut to 50 characters; any property of all such matches carries over to it |
| NumOrdre.NumOrdreShape | courriers/utils/ocr_utils.py:204-233 | a returned number is a `DDDDD/DD` or `D{4,6}/DD` token of at most 9 characters, so the cut to 50 never shortens it |
| NumOrdre.HasRefKeyword | courriers/utils/ocr_utils.py:217 | a line carries a keyword exactly when its lower-cased form contains n°, numéro, no, ref or réf |
| CourrierOcr.RawText | courriers/utils/ocr_utils.py:251 | the raw text is the text itself up to 1000 characters; beyond that it is exactly its first 1000 characters followed by "...", 1003 in all |
| CourrierOcr.ProcessCourrierOcr | courriers/utils/ocr_utils.py:235-267 | the orchestrator returns the record `CourrierRecord`: the two-key dictionary on the OCR failure path, otherwise the extractors' results assembled, or the error record when the order-number step raised |
| CourrierOcr.BuildRecord | courriers/utils/ocr_utils.py:245-267 | the `try` body after the extractors build the result dictionary, or the `except` dictionary when an extractor raised |
| CourrierOcr.OcrFailureRecord | courriers/utils/ocr_utils.py:242-243 | text starting with "Error" gives exactly the keys `error` and `raw_text`, with the text as the error and an empty raw text |
| CourrierOcr.ExtractorFailureRecord | courriers/utils/ocr_utils.py:257-267 | an `error` key appears exactly when an extractor raised; the record then has exactly the eight keys, the message after "Erreur lors du traitement OCR: ", no date, empty text fields and the language |
| CourrierOcr.SuccessRecord | courriers/utils/ocr_utils.py:245-253 | on success the record has exactly the seven field keys and no error key; each field is its extractor's result, the raw text is truncated as above, and the language is echoed |
| CourrierOcr.FailureMessage | courriers/utils/ocr_utils.py:224-259 | when processing fails after the OCR step, the error is always the prefix followed by the bad-range message of `re` |
| CourrierOcr.RaisedNumberFails | courriers/utils/ocr_utils.py:250-267 | whenever the order-number extractor raises on text without the failure prefix, the result is the error record of that exception |
| CourrierOcr.FirstKeywordLineMissFails | courriers/utils/ocr_utils.py:216-267 | text without the failure prefix whose first five lines yield no number and whose first keyword line has no strict token gives exactly the error record of the bad-range error |
| CourrierOcr.KeywordOnlyTextFails | courriers/utils/ocr_utils.py:224-267 | the OCR text "no" gives exactly that error record, in every language and under every date parser |

## Left out

- `extract_text_from_image` (`courriers/utils/ocr_utils.py:8-31`) is not part of this model. It does PIL and Tesseract I/O, so the OCR output is an input string. Its failure convention, a string starting with "Error", is kept.
- The date parser is a parameter. Fuzzy parsing with `dayfirst=True` is not reimplemented.
- `dateutil` fills the fields a match lacks from today's date. For example, the second grammar also matches "25 et 2025", and fuzzy parsing completes it with the current month. So the date depends on the clock, and `parse` stands for the parser as it behaves at one moment.
- `CourrierOcr.ProcessCourrierOcr`: the default `lang='fra'` of `process_courrier_ocr` is not modelled; Dafny has no default arguments, so the caller always passes the language.
- A parser exception other than `ValueError` or `TypeError` is not modelled. It would escape `extract_date` and reach the `except` of the orchestrator.
- The `print` logging at `courriers/utils/ocr_utils.py:69` is output only, so it is left out.
- Exceptions from Python itself, such as running out of memory, are not modelled. The only exception the model raises is the `re.error` of line 224.
- Python regular expressions are hand-coded for exactly the patterns used. `\s` and `strip` follow Python's `str.isspace`. There are three approximations:
  - `\d` is the ASCII digits.
  - `\w` covers only the Latin scripts: ASCII, Latin-1 and Latin Extended-A/B.
  - `str.lower` maps only ASCII and Latin-1 capitals. These include every accented capital of the keyword lists.
- The extra case-insensitive equivalences of Unicode `re.IGNORECASE` are not modelled. One example is the Kelvin sign matching `k`.
- `DateField.Date` is a plain triple. Calendar validity is the parser's business.
- The Django admin, views, forms, signals, models and URL wiring are persistence and web plumbing around this pipeline, so they are not part of this model.
