# Student rent advisor — a Dafny model

This project models the core of an off-campus housing advisor for
students. The advisor:

- trains a linear regression on historical student finances, or on three
  built-in rows when no history file exists;
- predicts a "safe" monthly rent from a student's answers, clamped at zero
  and rounded to cents;
- recommends the listings whose rent is at most that amount;
- serves the same filter over HTTP from two small APIs;
- reads spoken or typed money answers through a layered number parser;
- builds its listing file from OCR'd screenshots.

The model covers:

- loading (pandas `to_numeric(errors='coerce')` plus `dropna`, and the
  `csv.DictReader` loop);
- the prediction wrapper around an abstract fitted model;
- the recommendation filter and the two endpoint filters;
- `clean_float` with its fallback chain;
- the voice-list and tone helpers;
- the CLI cache, the answer reader and the report rules;
- the per-screenshot record assembly of the listing extractor.

Modules, one per source file, plus shared helpers:

| module | models |
|---|---|
| `Wrappers` | `Option` and `Result` |
| `Seqs` | order-preserving `Filter` with its multiset and subsequence lemmas |
| `Text` | `str.strip`, `str.lower`, `str.replace(c, "")`, `str.split`/`join`, `re.sub(r'\s+', ' ', …)` on ASCII |
| `Numerals` | `float()` on plain decimal numerals, `round(x, 2)`, `int(x)` |
| `Tables` | cells, rows, tables, Python exceptions, pandas numeric coercion |
| `AffordabilityModel` | `affordability_model.py` |
| `Apartments` | the `load_apartments` loop shared by `rag.py` and `fake_api.py`, the response body |
| `Rag`, `FakeApi` | the two `/api/affordable/<budget>` endpoints |
| `AudioRepeat` | `clean_float`, `_parse_voice_list`, `_get_voice_id`, `gather_user_input`, the tone prompt |
| `MainCli` | the global cache of `main.py`, `get_input`, the report of `run_cli_mode`, the mode dispatch |
| `ExtractApartments` | `extract_apartments.py` |

How the model represents the source's values:

- **Money** is an exact `real`.
- **Rows** map column names to a `Cell`: a number, text, or `Missing`.
  `Missing` stands for pandas' NaN or the `None` that `csv.DictReader`
  gives for a short line.
- **An absent file** is a `None` source.
- **The fitted regression** is a `LinearModel` of seven coefficients and an
  intercept. The fit itself is a function parameter.
- **External services** are `string -> Option<real>` parameters of
  `CleanFloat`. These are the word-to-number library and the remote
  language-model parser.
- **The regular expressions of the extractor** are search functions that
  return their groups, and `WellFormed` states what the groups can look
  like.

## Model

| member | source | states |
|---|---|---|
| Text.Strip | audio_repeat.py:214 | the result is no longer than the input and neither starts nor ends with whitespace |
| Text.StripIsSlice | audio_repeat.py:214 | the stripped string is a contiguous slice of the input with only whitespace cut on either side |
| Text.StripEmpty | audio_repeat.py:33 | a string strips to "" exactly when it is all whitespace |
| Text.StripIdempotent | audio_repeat.py:33 | stripping twice equals stripping once |
| Text.Lower | audio_repeat.py:214 | each capital becomes its lower-case letter, every other character is unchanged, and no upper-case letter remains |
| Text.Remove | audio_repeat.py:214 | the deleted character no longer occurs |
| Text.RemoveKeepsOthers | audio_repeat.py:214 | every other character keeps its number of occurrences |
| Text.Split | audio_repeat.py:33 | at least one piece, and no piece contains the separator |
| Text.SplitJoin | audio_repeat.py:33 | splitting a joined list of separator-free pieces gives the pieces back |
| Text.JoinSplit | audio_repeat.py:33 | joining the pieces of a split gives the original string |
| Text.CollapseWhitespace | extract_apartments.py:55 | empty iff the input is; the only whitespace left is single spaces, never two in a row |
| Text.CollapseKeepsText | extract_apartments.py:55 | collapsing keeps every non-whitespace character, in order |
| Text.CollapseIdempotent | extract_apartments.py:55 | collapsing twice equals collapsing once |
| Text.CollapseSeparator | extract_apartments.py:55 | a whitespace run between two non-space characters becomes exactly one space, and the text on either side collapses on its own |
| Text.SplitPiecesFromInput | audio_repeat.py:33 | every character of every piece occurs in the split text |
| Numerals.DigitsParse | extract_apartments.py:74 | `float()` of a non-empty digit string is its decimal value |
| Numerals.ParseNeedsDigit | audio_repeat.py:219-221 | the modelled parser rejects text without a digit |
| Numerals.DecimalParse | audio_repeat.py:220 | digits, a point and digits read as the whole part plus the fraction over the matching power of ten |
| Numerals.RoundHalfEven | affordability_model.py:64 | the integer is within one half of the input and is even on a tie |
| Numerals.RoundCents | affordability_model.py:64 | a whole number of cents within half a cent of the input, non-negative for non-negative input |
| Numerals.TruncToInt | audio_repeat.py:318 | truncation toward zero: the integer lies between zero and the input, less than one away |
| Tables.ToNumeric | affordability_model.py:29 | numbers are kept, NaN stays NaN, and text is parsed as `float()` parses it (unparsable text becomes NaN) |
| Tables.CoerceColumn | affordability_model.py:29-30 | every returned row has a number in the coerced column, and no rows are added |
| Tables.CoerceKeepsExactlyCoercible | affordability_model.py:29-30 | the output is exactly the rows whose cell coerces, in order, each with only that cell rewritten |
| Tables.CoerceDropsBadRow | affordability_model.py:29-30 | a row whose cell fails coercion is dropped and its neighbours are kept |
| Tables.CoerceNumericIsIdentity | affordability_model.py:29-30 | rows whose cells are already numbers pass through unchanged |
| AffordabilityModel.LoadHistoricalData | affordability_model.py:13-31 | without a file: exactly the three built-in rows, with their seven features and labels 800, 750, 600, under the eight training columns; KeyError exactly when the file lacks `safe_rent`; every kept label is numeric |
| AffordabilityModel.FallbackFeaturesNumeric | affordability_model.py:22-28 | every feature cell of the built-in rows is a number |
| AffordabilityModel.HistoricalKeepsExactlyValidRows | affordability_model.py:29-30 | the loaded rows are exactly the file's rows whose label coerces, in file order |
| AffordabilityModel.NotANumberLabelDropped | affordability_model.py:29-30 | a row labelled "N/A" between valid rows is dropped and all the others are kept unchanged |
| AffordabilityModel.TrainModel | affordability_model.py:34-39 | ValueError for an empty training set or one with a feature cell that is not a number; otherwise the model fitted on the rows |
| AffordabilityModel.FeatureVector | affordability_model.py:54-62 | seven features in fitting order; a given field is used; a missing money field is 0 and missing months is 8 |
| AffordabilityModel.PredictSafeRent | affordability_model.py:53-64 | never negative, a whole number of cents, within half a cent of max(prediction, 0), and 0 whenever the prediction is not positive |
| AffordabilityModel.LoadSublets | affordability_model.py:42-50 | without a file: an empty table with columns address and monthly_rent; KeyError exactly when the column is absent; otherwise the file's columns and exactly the rows whose rent coerces, in file order, each with its rent stored as a number |
| AffordabilityModel.RecommendApartments | affordability_model.py:67-68 | exactly the listings with rent at most the safe rent, each as often as in the input, as an order-preserving subsequence, same columns |
| Apartments.Loaded | rag.py:15-33 | every loaded listing has a numeric rent |
| Apartments.LoadApartments | rag.py:15-33 | the loop returns no listings without a file, and otherwise exactly the rows whose rent converts, in file order, with the rent stored as a number |
| Apartments.LoadAsWritten | rag.py:22-30 | the loop as written can only raise TypeError, and otherwise returns at most the rows read |
| Apartments.AsWrittenRaisesOnlyOnShortRows | rag.py:22-30 | the loop as written raises TypeError exactly when some row is short, and otherwise equals the corrected loop |
| Apartments.ShortRowRaises | rag.py:26-28 | a concrete short line makes the loop as written raise, while the corrected loop skips it |
| Rag.AffordableApartments | rag.py:42 | exactly the listings whose rent is present and at most the budget, with their multiplicities, in order |
| Rag.MissingRentExcluded | rag.py:42 | a listing without a rent key is never returned |
| Rag.GetAffordableApartments | rag.py:36-51 | the budget is echoed, count equals the number of listings returned, which are the filtered loaded listings; no file gives none |
| FakeApi.AffordableApartments | fake_api.py:32 | exactly the listings whose rent is absent or at most the budget, with their multiplicities, in order |
| FakeApi.MissingRentIncluded | fake_api.py:32 | a listing without a rent key is returned for every budget |
| FakeApi.AgreesWithRagOnLoadedListings | fake_api.py:32 | on what the loader returns, both endpoints return the same listings |
| FakeApi.DiffersFromRagOnMissingRent | fake_api.py:32 | a rent-less listing is returned here and not by the other endpoint |
| FakeApi.GetAffordableApartments | fake_api.py:26-38 | the budget is echoed, count equals the number of listings returned, which are the filtered loaded listings; no file gives none |
| AudioRepeat.Normalize | audio_repeat.py:214 | the normalised answer contains no `$` and no `,` |
| AudioRepeat.NormalizeStripsFirst | audio_repeat.py:214 | the normalised answer is the lower-cased, stripped answer with every `$` and `,` deleted after the strip |
| AudioRepeat.SpaceAfterDollarSurvives | audio_repeat.py:214-217 | "$ nil" normalises to " nil", which is not none-like |
| AudioRepeat.NormalizeLowerCase | audio_repeat.py:214 | the normalised answer contains no upper-case letter |
| AudioRepeat.CleanFloat | audio_repeat.py:212-229 | 0 for a none-like answer; otherwise the direct parse's value when it succeeds, else the word parser's, else the remote parser's |
| AudioRepeat.LayersTriedInOrder | audio_repeat.py:219-227 | the later parsers are irrelevant once the direct parse, or the word parser, succeeds |
| AudioRepeat.AllLayersFailGivesZero | audio_repeat.py:225-229 | 0 when every layer fails |
| AudioRepeat.DollarsAndCommasRemoved | audio_repeat.py:214-220 | "$1,200.50" reads as 1200.5 whatever the oracles do |
| AudioRepeat.NoneLikeAnswers | audio_repeat.py:214-217 | " NIL " and "$" read as 0 |
| AudioRepeat.SpelledOutUsesWordToNum | audio_repeat.py:219-224 | "ten" fails the direct parse and is answered by the word parser |
| AudioRepeat.Entries | audio_repeat.py:33 | the entries are non-empty and already trimmed |
| AudioRepeat.EntriesAreTrimmedNonBlank | audio_repeat.py:33 | the entries are exactly the non-blank pieces, trimmed, in their order and with their multiplicity |
| AudioRepeat.EntriesComplete | audio_repeat.py:33 | every non-blank piece appears trimmed, and every entry is a trimmed piece |
| AudioRepeat.ParseVoiceList | audio_repeat.py:30-37 | no empty voice; from a set variable every voice is trimmed and comma-free |
| AudioRepeat.VoiceListEntries | audio_repeat.py:31-33 | a set variable yields exactly its non-blank pieces, trimmed |
| AudioRepeat.VoiceListRoundTrip | audio_repeat.py:31-33 | clean ids written comma-separated parse back to the same list, in order |
| AudioRepeat.BlankListDoesNotFallBack | audio_repeat.py:32-33 | any set variable made only of whitespace and commas gives no voices and does not fall back |
| AudioRepeat.EmptyPrimaryUsesFallback | audio_repeat.py:34-37 | an unset or empty variable gives the fallback's value if set and non-empty, else nothing |
| AudioRepeat.VoiceIds | audio_repeat.py:39-43 | voice lists exist for exactly the three tones; each tone reads its own list variable, friendly and professional with their single-voice fallback, neutral with none |
| AudioRepeat.NeutralHasNoFallback | audio_repeat.py:39-43 | with its list variable unset or empty the neutral tone has no voice, whatever else is set |
| AudioRepeat.NamedTonesFallBack | audio_repeat.py:34-41 | with their list variables unset or empty, friendly and professional take their single-voice variable when it is set and non-empty |
| AudioRepeat.GetVoiceId | audio_repeat.py:52-56 | a voice exactly when the tone has a non-empty list, and then its first entry |
| AudioRepeat.ConfiguredVoiceId | audio_repeat.py:39-56 | an unknown tone has no voice and a found voice is never empty |
| AudioRepeat.NormalizeTone | audio_repeat.py:339-341 | always one of the three tones; the trimmed lower-cased answer when it is one, "neutral" otherwise |
| AudioRepeat.NormalizeToneIdempotent | audio_repeat.py:339-341 | normalising a normalised tone changes nothing |
| AudioRepeat.GatherUserInput | audio_repeat.py:304-328 | all seven fields are present; each money field is its answer through `clean_float`; months is the truncation of the parsed answer (a whole number, less than one away) |
| MainCli.Initialized | main.py:36-61 | succeeds exactly when training and listing loading both succeed; otherwise the first exception |
| MainCli.FallbackTrainingSucceeds | main.py:47-51 | without a history file the model is fitted on the three built-in rows and training cannot fail |
| MainCli.StartWithoutFiles | main.py:36-61 | without either file the system starts with the built-in model and an empty listing table |
| MainCli.HousingSystem.constructor | main.py:32-33 | both cache fields start empty |
| MainCli.HousingSystem.InitializeSystem | main.py:36-61 | the result is the fresh initialisation; the model is stored once trained and the listings once loaded; a failure leaves the rest as it was |
| MainCli.HousingSystem.GetModel | main.py:64-69 | a cached model is returned without re-initialising; otherwise one initialisation runs, the result is its model or its exception, and both caches are left as that initialisation leaves them |
| MainCli.HousingSystem.GetSublets | main.py:72-77 | cached listings are returned without re-initialising; otherwise one initialisation runs, the result is its listings or its exception, and both caches are left as that initialisation leaves them |
| MainCli.ModelThenListings | main.py:115-133 | from an empty cache, asking for the model and then the listings initialises once and returns both, or the one exception twice |
| MainCli.GetInput | main.py:92-98 | a blank answer or one `float()` rejects gives the default; otherwise the parsed number |
| MainCli.DigitAnswerRead | main.py:95 | a digit answer is read as its value |
| MainCli.CliProfile | main.py:100-108 | all seven fields are set |
| MainCli.CliProfileReadsAnswers | main.py:100-108 | the i-th field holds the i-th answer, read with the i-th default |
| MainCli.BlankAnswersGiveFirstTrainingRow | main.py:100-108 | all-blank answers give exactly the features of the first built-in training row |
| MainCli.FinancialSummary | main.py:119-130 | income is part-time plus internship, support is scholarships plus loans, balance and tuition as answered, months truncated toward zero for either sign |
| MainCli.BlankAnswersSummary | main.py:119-120 | all-blank answers show income 1000, support 3500 and 8 months |
| MainCli.Insert | main.py:141 | inserting into a rent-sorted list keeps it sorted and adds exactly one listing |
| MainCli.SortByRent | main.py:141 | ascending by rent and a permutation of the input |
| MainCli.Truncate38 | main.py:146 | a text address becomes its prefix of at most 38 characters, unchanged when short; other values are unchanged |
| MainCli.EntryFor | main.py:145-151 | the entry shows the cut address and the rent; savings appear exactly when rent is below the safe rent, positive and adding up to it |
| MainCli.MinRent | main.py:155 | no listing is cheaper, and some listing costs exactly that |
| MainCli.MaxRent | main.py:155 | no listing is dearer, and some listing costs exactly that |
| MainCli.Recommended | main.py:133-134 | exactly the listings priced at most the safe rent, each as often as in the table, as an order-preserving subsequence |
| MainCli.BuildReport | main.py:136-157 | the report loop produces exactly the report the rules define |
| MainCli.ListEntries | main.py:144-151 | one entry per sorted listing, in order, each the entry its row defines |
| MainCli.ListedEntries | main.py:139-151 | when something is affordable the report lists the sorted recommendations, one entry each, in order |
| MainCli.ListedEntriesSortedAndAffordable | main.py:139-151 | listings are printed exactly when some are found; as many as found, ascending by rent, none above the safe rent, savings exactly when positive |
| MainCli.NoneUnderMeansAllTooDear | main.py:152-155 | the range is printed exactly when nothing is found but listings exist; then every listing costs more than the safe rent and lies within the printed range |
| MainCli.NoneAvailableMeansNoListings | main.py:156-157 | "no apartments available" is printed exactly when there are no listings |
| MainCli.DispatchAsWritten | main.py:314-327 | help is shown only when the port is 0 and the host is empty |
| MainCli.NoFlagsDoesNothing | main.py:315-317 | with no flags, the program as written neither shows help nor runs anything |
| MainCli.Dispatch | main.py:314-327 | help exactly when no mode flag is given; some action is always taken |
| MainCli.DispatchAgreesOnModeFlags | main.py:315 | with a mode flag both agree; without one they agree only for port 0 and an empty host |
| ExtractApartments.AddressFor | extract_apartments.py:60-65 | "Unknown" exactly when nothing matched; otherwise the number, one space, the street, then ", Waterloo" |
| ExtractApartments.Company | extract_apartments.py:83-86 | the lookup entry for a known address, "Private Property" otherwise |
| ExtractApartments.ShapedPriceDigits | extract_apartments.py:40-41 | a matched price group without its comma is a non-empty digit string of at most 8 digits, at most 5 for the second pattern |
| ExtractApartments.MatchedPrice | extract_apartments.py:74 | `float()` of the comma-free group succeeds; the price is non-negative, below 10^8, and below 10^5 for the second pattern |
| ExtractApartments.ExtractPrice | extract_apartments.py:70-78 | the first pattern's price if it matches, else the second's, else 0; always within bounds |
| ExtractApartments.CommaPriceRead | extract_apartments.py:72-74 | "1,200" is read as 1200 |
| ExtractApartments.RecordOf | extract_apartments.py:55-96 | a record holds the address, the price with fallbacks and the company for that address |
| ExtractApartments.AssembleRecord | extract_apartments.py:50-96 | the loop body builds that file's record and decides to save it exactly when the address was found |
| ExtractApartments.ExtractListings | extract_apartments.py:48-109 | the output is the extracted records in directory order followed by the five synthetic listings |
| ExtractApartments.ExtractedAreSavedFiles | extract_apartments.py:48-96 | exactly the image files with a found address give records, in order, each from its own text |
| ExtractApartments.ExtractedRecordsWellFormed | extract_apartments.py:60-96 | every record has a found address ending in ", Waterloo", a price in range and the lookup or default company |
| ExtractApartments.UnknownAddressDropped | extract_apartments.py:91-96 | a file without a recognisable address yields no record |

## Left out

- File and CSV I/O (`os.path.exists`, `pd.read_csv`, `csv.DictReader`, the CSV writer of the extractor) is outside the model. Each source is an `Option` of already-parsed rows; `None` means no such file.
- The least-squares fit of `train_model` is a function parameter. Its floating-point linear algebra is not modelled; only the ValueError of fitting on zero rows or on a non-number feature cell is.
- AffordabilityModel.TrainModel: every text feature cell counts as an error, although numpy would convert numeric text such as "8" when fitting. The fitted model always has the seven features, so the error `predict` raises when a history file has another number of feature columns is not modelled.
- Binary floating point is not modelled; money is an exact real.
- AffordabilityModel.PredictSafeRent: rounds the exact value half to even. Python rounds the nearest double, so on inputs that are not exactly representable the two can differ by one cent.
- Python's `float()` is modelled on plain decimal numerals with an optional sign and surrounding ASCII whitespace. `inf`, `nan`, exponents, underscores and non-ASCII digits are not accepted.
- `str.strip`, `str.lower`, `\s` and `float()` use the ASCII whitespace of `str.isspace` (space, tab to carriage return, and U+001C to U+001F) and ASCII letters only. Non-ASCII whitespace such as U+0085 or U+00A0 and Unicode case mapping are not modelled.
- Speech recognition, text-to-speech, the audio playback queue and its worker thread, and the console or voice prompts of `ask_question` are left out. They are concurrency, hardware and external services.
- The word-to-number library and the Gemini request of `_gemini_parse_number` appear only as the two oracles of `CleanFloat`; the remote oracle stands for that Gemini call.
- `openrouter_clarify_number` (audio_repeat.py:259-302) is left out: nothing in the core calls it.
- Flask routing, `jsonify` and server start-up are left out; the endpoints are methods returning the response body.
- argparse, the Streamlit launch and the interactive pipeline of `main.py` are left out. Only the mode choice appears, because of the finding below.
- The text printed by `run_cli_mode` is left out. The report is the structured `Report` value carrying the same facts.
- OCR, image loading, directory listing and the regular-expression engine are left out. The three searches are function parameters, constrained by what their groups can match.
- The dashboard, the OCR debugging script and the audio test file are not part of this model.
- MainCli.SortByRent: claims only ascending order and permutation. Its insertion sort orders equal rents stably, while the pandas default sort promises no order for ties.
- MainCli.Truncate38: a non-text address is shown unchanged. In the source, a numeric address whose text form is longer than 38 characters would raise a TypeError.
- MainCli.EntryFor: a listing without an address column reads as missing. In the source that row raises a KeyError.
- AudioRepeat.VoiceListEntries: states the entries as a set of trimmed pieces. Their order and multiplicity are stated by `AudioRepeat.EntriesAreTrimmedNonBlank`.
- Apartments.LoadApartments: takes the rows `csv.DictReader` produces as given. Its quoting and dialect rules are not modelled.

## Findings

| source | as written | input that shows it | evidently intended | confidence | as-written member | corrected member |
|---|---|---|---|---|---|---|
| rag.py:25-30 (same loop at fake_api.py:18-22) | `float(row['monthly_rent'])` on a short CSV line gets `None` and raises TypeError. The clause catches only ValueError and KeyError, so the whole request fails | the file `address,monthly_rent,company` followed by the line `200 King St` | skip the row, as is done for other unreadable rents | high, not executed | Apartments.LoadAsWritten | Apartments.LoadApartments |
| main.py:315 | `any(vars(args).values())` also sees `port` (default 5000) and `host` (default '127.0.0.1'), which are always truthy | `python main.py` with no arguments: no help is printed and nothing runs | print the help when no mode flag is given | high, not executed | MainCli.DispatchAsWritten | MainCli.Dispatch |
