# score-tracking, modelled in Dafny

This project models the core of score-tracking, a MotoGP fantasy-league tracker. The tracker does four things:

- It reads the timing sheets the championship publishes as PDFs. From them it builds a table of each rider's lap times, and the points of each rider in a race classification.
- It compares riders' lap-time distributions with relative-frequency histograms and the Bhattacharyya coefficient.
- It finds out which session and race PDFs exist, and downloads them.
- It keeps a Firestore database of players, their picks and their scores. After every race week it writes each player's category scores, week score and season total. After the final race it adds the championship bonuses.

The model starts where the source gets its text or its data. Page text, scraped standings, JSON files and the network are parameters. Every operation returns `Ok(value)` or `Err(kind)`, where `kind` names the Python exception the source would raise. Each operation is tied by lemmas to a specification function, or to the invariant it keeps.

The modules:

- `Wrappers`: Option and Result.
- `Strings`: `find` and `split`.
- `Numbers`: `str`, `int`, `float`, `strip` and `round` on ASCII digits.
- `Dicts`: Python's insertion-ordered `dict`, as a sequence of pairs.
- `LapTimes`: the lap-time pattern and its conversion.
- `Parser` and `FpParser`: the two PDF parsers.
- `Metrics` and `Wrangler`: the analysis helpers.
- `RaceNames` and `Retriever`: the calendar and the downloads.
- `Firestore`: the database set-up.
- `Scoring` and `Records`: a player's week.
- `PointsKeeping`: the database writes.
- `BonusPoints`: the final bonuses.
- `PointsUpdate`: `update_points` as a whole.

Lap times are integer milliseconds. Scores and points are reals.

Two things in the source evidently do not do what was intended: the season total misses the current week, and the 50-point bonus field name has a trailing space. Both are listed under "## Findings". The model states and proves the intended behaviour, and a separate member captures each bug as written.

Two error paths of the parsers:

- A lap token that matches the pattern but does not convert makes `parse_pdf` raise; it is not skipped.
- `parse_race_results_pdf` indexes a chunk's lines before checking their number, so a short chunk raises `IndexError`.

## Model

| member | source | states |
|---|---|---|
| Strings.FindSpec | utils/Parser.py:91-93 | `find` returns the leftmost occurrence of the word, and reports none (-1) only when the word does not occur |
| Strings.FindPrefix | utils/Parser.py:91-93 | the text kept before the first "unfinished" does not contain the word |
| Strings.SplitPieces | utils/Parser.py:85 | no piece of a split contains the separator |
| Strings.JoinSplit | utils/Parser.py:148 | joining the pieces with the separator gives back the text: splitting loses only the separators |
| Strings.LastPieceAfter | points_calculator/fdb_points_keeper.py:175 | the last piece after a one-character separator is what follows its last occurrence |
| Numbers.NatToString | points_calculator/firestore_management.py:88 | `str(n)` is a non-empty digit string whose value is `n` |
| Numbers.ParseIntOfString | points_calculator/firestore_management.py:88 | `int(str(n)) == n` for every non-negative `n` |
| Numbers.RoundMillis | utils/Parser.py:26 | `round(x, 3)` in thousandths is within half a thousandth of `1000 * x`, and exact on a whole number of thousandths |
| Numbers.ParseFloatDecimal | utils/Parser.py:26 | `float("SS.mmm")` of digit strings is `SS + mmm / 1000` |
| Numbers.ParseFloatDigits | utils/Parser.py:162 | `float` of a digit string is its value |
| Numbers.ParseFloatBadMark | utils/Parser.py:162-166 | a digit string with one character inside that is none of a digit, `_`, `.`, `e` or `E` is not a float (`ValueError`) |
| Dicts.GetSome | points_calculator/fdb_points_keeper.py:101-102 | a lookup finds a value exactly for the keys of the dictionary |
| Dicts.PutKeysOrder | points_calculator/fdb_points_keeper.py:136 | assigning to a present key keeps the keys and their order; a new key is appended |
| Dicts.PutGetSame | points_calculator/fdb_points_keeper.py:136 | an assignment stores its value under its key |
| Dicts.PutGetOther | points_calculator/fdb_points_keeper.py:136 | an assignment leaves every other key's value alone |
| Dicts.FromPairsSpec | utils/Parser.py:110 | `dict(zip(ks, vs))` is well formed; its keys are the paired keys in order of first occurrence; each holds the value of its last pairing |
| Dicts.FromPairsDistinct | utils/Parser.py:110 | with distinct keys the `i`-th key holds the `i`-th value |
| Dicts.WithoutFailing | utils/Parser.py:112-120 | deleting the keys whose value fails the test leaves exactly the pairs whose value passes, in order |
| Dicts.FilterValuesGet | utils/Parser.py:112-120 | after the deletion a key holds its old value exactly when that value passes, and is gone otherwise |
| LapTimes.LapMatchLength | utils/Parser.py:82 | a match of the lap pattern is 12 or 13 characters long, lies inside the text and ends in whitespace |
| LapTimes.LapTokensSpec | utils/Parser.py:82 | every element `re.findall` returns for the lap pattern is a lap token |
| LapTimes.TrimLapTime | utils/Parser.py:44-52 | `_trim_laptimes` raises `IndexError` exactly when the token has no newline |
| LapTimes.TrimCanonical | utils/Parser.py:44-52 | the text between a token's first and second newline is its `M'SS.mmm` time exactly when newlines surround the time |
| LapTimes.RoundMillisExact | utils/Parser.py:26 | rounding to three decimals keeps a value that has at most three |
| LapTimes.MinToMillisCanonical | utils/Parser.py:18-27 | `_min_to_seconds` of `M'SS.mmm` is `M*60000 + SS*1000 + mmm` milliseconds |
| LapTimes.LapMillisCanonical | utils/Parser.py:82 | a lap token whose time has newlines around it converts to `M*60000 + SS*1000 + mmm` ms, between 1'00.000 and 2'99.999 |
| LapTimes.MinToMillisBadSeparator | utils/Parser.py:25-26 | a time whose seconds separator `float` does not accept raises `ValueError` |
| LapTimes.LapMillisBadSeparator | utils/Parser.py:106 | a lap token with such a separator makes the conversion raise `ValueError` |
| LapTimes.LapMillisNoNewline | utils/Parser.py:51-52 | a lap token without a newline makes `_trim_laptimes` raise `IndexError` |
| Parser.Headings | utils/Parser.py:72 | the headings found are the riders' headings, one per rider, in order |
| Parser.Pieces | utils/Parser.py:78-79 | `re.split` gives the preamble, then one block per rider, in order |
| Parser.TrimName | utils/Parser.py:30-41 | `_trim_names` raises `IndexError` exactly when the heading has no newline |
| Parser.TrimNameOf | utils/Parser.py:30-41 | the name is the segment between the heading's last two newlines, whatever precedes them |
| Parser.TrimNames | utils/Parser.py:73-75 | the name loop returns `_trim_names` of every heading, in order, or the first heading's error |
| Parser.CutUnfinishedSpec | utils/Parser.py:91-93 | the cut keeps the text before the first "unfinished": a prefix without the word, ending where the word starts; the whole text when the word is absent |
| Parser.KeptTokens | utils/Parser.py:95-104 | a race keeps every token; a practice drops the out lap, and in every stint but the last the pit-in lap too |
| Parser.StintsSpec | utils/Parser.py:85 | a block has at least one stint, and no stint holds a pit entry |
| Parser.StintTokenLists | utils/Parser.py:91-104 | each stint's tokens are the lap tokens of the stint cut at "unfinished" |
| Parser.RaceKeepsAll | utils/Parser.py:88-104 | in a race every token of every stint is kept, in stint order |
| Parser.PracticeCount | utils/Parser.py:88-104 | in a practice, with at least two tokens per stint, the count kept is the token count less two per stint, plus one |
| Parser.KeptAreTokens | utils/Parser.py:95-104 | every retained token is a lap token |
| Parser.PlainLaps | utils/Parser.py:106 | plain lap tokens convert without error, to laps of at least 1'00.000 and under 3'40 |
| Parser.BlockLapsPlain | utils/Parser.py:84-108 | a block whose retained tokens are all plain converts without error, to laps in that range |
| Parser.SessionTagOf | utils/Parser.py:123 | the session tag read from `<prefix>_<session>.pdf` is the session |
| Parser.StintLapTimes | utils/Parser.py:85-107 | the stint loop gives the laps the block-level specification gives |
| Parser.ConvertStints | utils/Parser.py:88-107 | converting stint by stint is converting every retained token in order; the first failure raises |
| Parser.ConvertedFromSpec | utils/Parser.py:88-107 | converting stint by stint is converting the retained tokens of all stints at once |
| Parser.StintLapTokens | utils/Parser.py:91-96 | a stint's tokens are those matched after the cut at "unfinished" |
| Parser.RiderLapTimes | utils/Parser.py:84-108 | the block loop gives the laps of every block, in order, or the first block's error |
| Parser.CollectShort | utils/Parser.py:114-117 | the scan collects exactly the riders with fewer than three laps, in order |
| Parser.DeleteAll | utils/Parser.py:118-120 | the deletion loop removes exactly the collected riders |
| Parser.ParsePdf | utils/Parser.py:54-125 | `parse_pdf` computes its specification: names, laps, dictionary, deletion and session tag |
| Parser.ParsePdfRider | utils/Parser.py:110-120 | each rider holds the laps of the block after its heading unless a later heading trims to the same name; with deletion on, exactly the riders with fewer than three laps are gone |
| Parser.ParsePdfBadHeading | utils/Parser.py:73-75 | a heading without a newline makes `parse_pdf` raise `IndexError` |
| Parser.ParsePdfKeys | utils/Parser.py:110 | without deletion there is one rider per distinct trimmed name, in order of first appearance |
| Parser.RaceSplitFrom | utils/Parser.py:140-141 | splitting at finish times yields at least one chunk |
| Parser.RaceSplitChunks | utils/Parser.py:140-141 | no chunk of the split contains a finish time |
| Parser.StepsBy | utils/Parser.py:144-168 | each chunk gets its own step, numbered from 0 |
| Parser.ClassifyStops | utils/Parser.py:144-168 | nothing after a chunk that breaks the loop matters |
| Parser.ClassifyRaises | utils/Parser.py:154-155 | the first chunk that raises before any break decides the outcome |
| Parser.ClassifyIsDict | utils/Parser.py:163 | the recorded riders stay distinct, and the dictionary never shrinks |
| Parser.ShortFirstChunk | utils/Parser.py:150-154 | a first chunk with fewer than seven lines and no "Not classified" raises `IndexError` |
| Parser.ShortLaterChunk | utils/Parser.py:152-154 | a later chunk needs eight lines |
| Parser.NotClassifiedStops | utils/Parser.py:145-147 | "Not classified" stops the loop whatever the chunk holds |
| Parser.RaceResultsRows | utils/Parser.py:170-174 | the rows are numbered 1..n and name distinct riders |
| Parser.ClassifyChunks | utils/Parser.py:144-168 | the loop with its `break`s gives the classification of its specification |
| Parser.ParseRaceResults | utils/Parser.py:128-175 | `parse_race_results_pdf` computes its specification; no file gives `None` |
| FpParser.FirstNameSpec | fp_analysis/Parser.py:28-36 | the name is the text up to the first newline, or the whole heading; it never fails |
| FpParser.FirstNameOf | fp_analysis/Parser.py:35-36 | whatever follows the first newline, the name is the text before it |
| FpParser.Names | fp_analysis/Parser.py:65-67 | one name per heading, its first line, in order |
| FpParser.FirstNames | fp_analysis/Parser.py:65-67 | the name loop gives those names |
| FpParser.TokenLapTimes | fp_analysis/Parser.py:77-79 | every token converted in order; the first that does not convert raises |
| FpParser.RiderLapTimes | fp_analysis/Parser.py:74-80 | the laps of every block, in order |
| FpParser.ParsePdf | fp_analysis/Parser.py:49-95 | `parse_pdf` computes its specification, and every rider left has at least three laps |
| FpParser.AllTokensKept | fp_analysis/Parser.py:77-79 | a block has one lap per lap token, each the conversion of its token |
| FpParser.SameAsRace | fp_analysis/Parser.py:73-80 | on a block without pit entries or "unfinished", the older parser reads the laps the newer one reads for a race |
| FpParser.ParsePdfRider | fp_analysis/Parser.py:82-91 | a rider with three laps or more holds its block's laps under the heading's first line, unless a later heading shares it; a rider with fewer is gone |
| FpParser.ParsePdfBadLap | fp_analysis/Parser.py:79 | a lap that does not convert makes the whole parse raise |
| Metrics.Bhattacharyya | fp_analysis/Metrics.py:28-33 | raises `ValueError` exactly when the histograms differ in length |
| Metrics.BhattacharyyaSymmetric | fp_analysis/Metrics.py:33 | the coefficient is symmetric in its histograms, the error included |
| Metrics.BhattacharyyaNonNegative | fp_analysis/Metrics.py:33 | the coefficient is never negative |
| Metrics.BhattacharyyaDisjoint | fp_analysis/Metrics.py:33 | histograms with no bin occupied in both have coefficient 0 |
| Metrics.BhattacharyyaSelf | fp_analysis/Metrics.py:33 | a non-negative histogram against itself gives its sum: 1 for relative frequencies |
| Metrics.KlDivergence | fp_analysis/Metrics.py:48-54 | raises `ValueError` exactly when the histograms differ in length |
| Metrics.KlDivergenceSelf | fp_analysis/Metrics.py:54 | with element-wise terms that vanish on equal arguments, a histogram's divergence from itself is 0 |
| Wrangler.Names | utils/DataWrangler.py:116-118 | the labels, one per column, in order |
| Wrangler.DropColumnSpec | utils/DataWrangler.py:77-79 | `drop_column` raises `KeyError` exactly on an unknown label, and otherwise keeps exactly the columns with another label |
| Wrangler.MaskSpec | utils/DataWrangler.py:92-94 | a cell is missing after masking iff it was missing or out of range; all else is unchanged |
| Wrangler.MaskIdempotent | utils/DataWrangler.py:92-94 | masking twice with the same bounds is masking once |
| Wrangler.ColumnMinSpec | utils/DataWrangler.py:89 | a column's minimum is one of its present values and below all of them; none only when every cell is missing |
| Wrangler.ArgMinFromSpec | utils/DataWrangler.py:89 | the search finds the least column minimum and the first column reaching it |
| Wrangler.MinimumOfAllColumnsSpec | utils/DataWrangler.py:87-89 | the minimum is a value of the column returned, no present value is below it, and that column is the first holding it; `ValueError` exactly when no value is present |
| Wrangler.MedianSpec | utils/DataWrangler.py:99 | a median exists iff there are values, and lies between their least and greatest |
| Wrangler.ColumnMedianSome | utils/DataWrangler.py:84 | a column has a median exactly when one of its cells is present |
| Wrangler.MedianOfAllColumnsSome | utils/DataWrangler.py:82-84 | the single median exists exactly when some cell of the table is present |
| Wrangler.MedianOfAllColumnsBounds | utils/DataWrangler.py:82-84 | the single median lies between the least and the greatest column median |
| Wrangler.SortSpec | utils/DataWrangler.py:100 | the sort orders by key and only reorders |
| Wrangler.SortByMedianSpec | utils/DataWrangler.py:97-103 | the columns come back reordered, not changed, in non-decreasing median, with their own labels |
| Wrangler.Lookup | utils/DataWrangler.py:134 | `df[col]` raises `KeyError` exactly for an unknown label |
| Wrangler.MakeHistogramData | utils/DataWrangler.py:130-135 | the loop gives the present values of each requested column in request order, or `KeyError` |
| Wrangler.HistogramDataSpec | utils/DataWrangler.py:130-135 | one list per requested label, in order, holding that column's present values; any unknown label raises `KeyError` |
| Wrangler.HistPairs | utils/DataWrangler.py:184-189 | each column's label with the histogram of its present values |
| Wrangler.RelativeFreqHist | utils/DataWrangler.py:181-190 | the loop builds the dictionary of those pairs |
| Wrangler.RelativeFreqHistSpec | utils/DataWrangler.py:181-190 | keys are the labels in order, each once; a label that occurs once holds its column's histogram |
| Wrangler.CoefficientRow | utils/DataWrangler.py:196-204 | the inner loop gives rider `a`'s row, or the first coefficient's error |
| Wrangler.BhattacharyyaCoefficients | utils/DataWrangler.py:192-205 | the outer loop gives every rider's row, in key order |
| Wrangler.CoefficientAt | utils/DataWrangler.py:196-204 | the cell in row `i`, column `j` |
| Wrangler.CoefficientsSymmetric | utils/DataWrangler.py:192-205 | a square table, one row and one column per rider; the diagonal is 0 and the table is symmetric |
| Wrangler.CoefficientOffDiagonal | utils/DataWrangler.py:199-203 | off the diagonal, a cell is the coefficient of the two riders' first histograms |
| Wrangler.DataframeSpec | utils/DataWrangler.py:121-127 | the table has the keys as row and column labels; cell (`keys[j]`, `keys[i]`) is `data[keys[i]][j]`; refused exactly when the longest list's length differs from the number of keys |
| Wrangler.SymmetricTable | utils/DataWrangler.py:121-127 | a square symmetric set of rows becomes a labelled symmetric table with a zero diagonal |
| Wrangler.HeatmapSymmetric | utils/DataWrangler.py:192-205 | the coefficient heat map is built, labelled by the riders, symmetric with a zero diagonal |
| RaceNames.TablesMatch | utils/RaceNames.py:5-50 | the event numbers are exactly 1 to 20, no two events share a code, and every code is a key of the names table |
| RaceNames.NameIsCode | utils/RaceNames.py:5-50 | every key of the names table is the code of some event |
| RaceNames.NumberToNameSpec | utils/RaceNames.py:52-59 | every event is stored as its number, an underscore and its code |
| RaceNames.NumberToNameOutside | utils/RaceNames.py:52-59 | a number outside the calendar raises `KeyError` |
| Retriever.SessionStyleNames | utils/Retriever.py:25-29 | no session name of any style contains an underscore |
| Retriever.SessionStyleKeys | utils/Retriever.py:25-29 | the three styles are the only keys; any other raises `KeyError` |
| Retriever.CheckUrlValidity | utils/Retriever.py:32-49 | valid exactly on an answer of 200; an `HTTPError` is invalid; any other failure propagates |
| Retriever.SessionsExistLast | utils/Retriever.py:51-72 | when every page answers, the result is whether the last session's page answers 200 |
| Retriever.SessionsExistUnreachable | utils/Retriever.py:62-66 | a page that does not answer at all raises out of the check |
| Retriever.SessionsExistMissesEarlier | utils/Retriever.py:62-72 | only the last session counts: an existing first practice with a missing warm-up is reported missing |
| Retriever.RaceType | utils/Retriever.py:137 | `"SPR"` exactly for the sprint, `"RAC"` otherwise |
| Retriever.DocumentName | utils/Retriever.py:139 | `"Analysis"` exactly for an analysis, `"Classification"` otherwise |
| Retriever.CheckRaceExistSpec | utils/Retriever.py:74-92 | the race exists exactly when its category is known and its results page answers 200 |
| Retriever.Fetched | utils/Retriever.py:118-121 | with downloads saved under their given name, the file is the download name |
| Retriever.ValidSessions | utils/Retriever.py:113-116 | only sessions of the style whose PDF answers 200 |
| Retriever.PracticeFilesNames | utils/Retriever.py:94-124 | the files are the download names of exactly the sessions whose PDF answers 200, in style order |
| Retriever.PracticeFilesError | utils/Retriever.py:113-115 | a PDF that does not answer at all raises, and only then |
| Retriever.PracticeTagRoundTrip | utils/Retriever.py:117 | the session tag read back from a practice download name is the session |
| Retriever.RaceTagRoundTrip | utils/Retriever.py:149 | the tag read back from a race download name is the document name |
| Retriever.RaceFileSpec | utils/Retriever.py:144-155 | a race file is there exactly when its PDF answers 200, and it is the race download name |
| Retriever.PdfRetriever.CheckMotogpPracticeSessionsExist | utils/Retriever.py:51-72 | the method computes the session check |
| Retriever.PdfRetriever.RetrievePracticeFiles | utils/Retriever.py:94-124 | an unknown style raises `KeyError` with nothing set; otherwise year and race are set and the files are those of `PracticeFiles` |
| Retriever.PdfRetriever.RetrieveRaceFiles | utils/Retriever.py:126-155 | an unknown category raises `KeyError` with nothing set; otherwise year and race are set and the file is that of `RaceFile` |
| Firestore.FromPicksDict | points_calculator/firestore_management.py:24-49 | the three loops give the flattened picks |
| Firestore.FlattenPicksOrigin | points_calculator/firestore_management.py:41-49 | every record comes from the picks file |
| Firestore.FlattenPicksComplete | points_calculator/firestore_management.py:41-49 | each rider of each class of each player has its record, predicted at its index plus one |
| Firestore.RidersToDictNew | points_calculator/firestore_management.py:63-67 | a new rider's document holds its class and position 0, and nothing else |
| Firestore.PlayersToDictSpec | points_calculator/firestore_management.py:69-82 | a new player's document holds seven scores, all 0, both bonus fields among them |
| Firestore.PicksKeyRoundTrip | points_calculator/firestore_management.py:84-88 | for a class name without `_`, a pick's field name splits back into its class and its predicted position |
| Firestore.FirstOfEachKeys | points_calculator/firestore_management.py:134-138 | skipping processed keys leaves each key exactly once, in order of first appearance |
| Firestore.FirstOfEachFirst | points_calculator/firestore_management.py:134-138 | each record kept is the first record with its key |
| Firestore.ScoreWritesOnce | points_calculator/firestore_management.py:129-139 | each distinct rider's document is written exactly once, in order of first appearance |
| Firestore.ScoreWritesFirst | points_calculator/firestore_management.py:129-139 | each rider's document is set from the rider's first record |
| Firestore.PlayerWritesOnce | points_calculator/firestore_management.py:141-152 | each distinct player's document is written exactly once, with the seven zero scores |
| Firestore.PicksStored | points_calculator/firestore_management.py:154-160 | a player's picks document holds the field of each pick, a later pick overwriting the same field |
| Firestore.DatabaseManager.GetPicksData | points_calculator/firestore_management.py:119-127 | the data becomes the flattened picks; nothing is written |
| Firestore.DatabaseManager.CreateScoresCollection | points_calculator/firestore_management.py:129-139 | without data it raises `TypeError`; otherwise the log grows by the rider writes |
| Firestore.DatabaseManager.CreatePlayersCollection | points_calculator/firestore_management.py:141-152 | without data it raises `TypeError`; otherwise the log grows by the player writes |
| Firestore.DatabaseManager.CreatePicksCollection | points_calculator/firestore_management.py:154-160 | without data it raises `TypeError`; otherwise the log grows by one merge per pick |
| Scoring.SortByKeySpec | points_calculator/fdb_points_keeper.py:308 | the sort keeps the same items, in ascending order of field name |
| Scoring.SortByKeySorted | points_calculator/fdb_points_keeper.py:308 | sorting a sorted list changes nothing |
| Scoring.ChosenItemsCount | points_calculator/fdb_points_keeper.py:309-311 | the chosen items are the items of the category, each as often as in the list |
| Scoring.ChosenItemFrom | points_calculator/fdb_points_keeper.py:309-311 | every chosen item is an item of the list |
| Scoring.ChosenItemsSorted | points_calculator/fdb_points_keeper.py:309-311 | filtering keeps the ascending order |
| Scoring.CategoryPicksSpec | points_calculator/fdb_points_keeper.py:295-312 | the riders picked are exactly the picks of the category, the sprint reading the MotoGP picks |
| Scoring.GetCategoryPicks | points_calculator/fdb_points_keeper.py:295-312 | sorts the list in place by field name, then returns the category's riders |
| Scoring.FirstPointsSpec | points_calculator/fdb_points_keeper.py:108-109 | there are points exactly when some row matches, and then they are the first match's |
| Scoring.RiderPointsSpec | points_calculator/fdb_points_keeper.py:107-132 | a rider's own row wins; a score is 0 or a row's Points; `KeyError` exactly when no row matches, the rider's replacement is itself picked, and that replacement has no replacement |
| Scoring.PointsOf | points_calculator/fdb_points_keeper.py:106-132 | the lookup of each picked rider, in pick order |
| Scoring.ScoreRaceOk | points_calculator/fdb_points_keeper.py:105-136 | a race pass over riders that can all be scored does not fail |
| Scoring.ScoreRaceGet | points_calculator/fdb_points_keeper.py:136 | after a race pass a picked rider holds its points, any other key its old value |
| Scoring.ScoreRaceSpec | points_calculator/fdb_points_keeper.py:105-136 | a race pass succeeds when every rider has points and leaves a dictionary with each picked rider's points |
| Scoring.ScoreSprintOk | points_calculator/fdb_points_keeper.py:133-134 | a sprint pass over riders the store holds succeeds, with the same keys |
| Scoring.ScoreSprintMissing | points_calculator/fdb_points_keeper.py:133-134 | a sprint pass raises `KeyError` at the first picked rider the store lacks |
| Scoring.ScoreSprintSpec | points_calculator/fdb_points_keeper.py:133-134 | with distinct riders, each picked rider holds race plus sprint points, any other key its old value |
| Scoring.ScoreCategory | points_calculator/fdb_points_keeper.py:106-136 | the rider loop gives the store of the pass specification |
| Records.RecordsFromStep | points_calculator/fdb_points_keeper.py:137-143 | one category: the pass's error, or its store kept with its label (unless it is the MotoGP race) and passed on |
| Records.CategoryPass | points_calculator/fdb_points_keeper.py:100-136 | one category's pass, after the picks list is sorted in place |
| Records.PlayerRecords | points_calculator/fdb_points_keeper.py:99-143 | the category loop gives the records of its specification |
| Records.ScoredAllOk | points_calculator/fdb_points_keeper.py:106-136 | a pass that succeeds scored every picked rider |
| Records.PassReady | points_calculator/fdb_points_keeper.py:101-136 | a pass succeeds only when its category was ready |
| Records.RacePass | points_calculator/fdb_points_keeper.py:104-136 | a race pass over riders that all score succeeds with each rider's points |
| Records.SprintPass | points_calculator/fdb_points_keeper.py:133-134 | a sprint pass over distinct held riders succeeds, adding the sprint points |
| Records.SprintAfterRace | points_calculator/fdb_points_keeper.py:104-134 | the sprint after the race never misses a rider; it fails only when its own category is not ready |
| Records.SprintRiders | points_calculator/fdb_points_keeper.py:306 | the sprint reads the riders picked for MotoGP |
| Records.RecordsPassed | points_calculator/fdb_points_keeper.py:99-143 | the loop succeeds only when each pass does |
| Records.ReadyPassed | points_calculator/fdb_points_keeper.py:99-143 | every category ready, every pass succeeds |
| Records.PassedReady | points_calculator/fdb_points_keeper.py:99-143 | every pass succeeding, every category was ready |
| Records.RecordsOk | points_calculator/fdb_points_keeper.py:99-143 | the loop succeeds exactly when every category is ready, and gives three records labelled motogp, moto2, moto3 |
| Records.RecordsAll | points_calculator/fdb_points_keeper.py:137-143 | the records are the combined MotoGP store, then the Moto2 and Moto3 stores |
| Records.RecordsTail | points_calculator/fdb_points_keeper.py:137-143 | the Moto2 and Moto3 records, whatever store the sprint left |
| Records.CombinedStore | points_calculator/fdb_points_keeper.py:104-136 | each MotoGP pick holds its race points plus its sprint points |
| PointsKeeping.PlayerDoc.Update | points_calculator/fdb_points_keeper.py:176 | one `update` assigns one field |
| PointsKeeping.ResetWeek | points_calculator/fdb_points_keeper.py:149-152 | the four weekly fields are reset to 0 |
| PointsKeeping.WriteRiders | points_calculator/fdb_points_keeper.py:161-172 | riders not yet written get the race's field in `scores`; the player's score is the record's total |
| PointsKeeping.WriteClassFields | points_calculator/fdb_points_keeper.py:174-177 | every field the class matches is set to the score; the week grows by it per field |
| PointsKeeping.Matching | points_calculator/fdb_points_keeper.py:174-175 | the matching fields come from the snapshot's fields |
| PointsKeeping.SeasonTotalOf | points_calculator/fdb_points_keeper.py:181-189 | the loop sums the season's race fields, a missing one skipped |
| PointsKeeping.WriteRecords | points_calculator/fdb_points_keeper.py:159-177 | the records loop applies every record to the document and the `scores` log, in order |
| PointsKeeping.UpdatePlayer | points_calculator/fdb_points_keeper.py:145-190 | the player's document becomes `PlayerAfter`, the log grows by the records' writes |
| PointsKeeping.SeenWrites | points_calculator/fdb_points_keeper.py:161-172 | the riders written after a record are those before plus the record's new writes |
| PointsKeeping.WritesOfValues | points_calculator/fdb_points_keeper.py:169-170 | a record's writes carry the race's field and the rider's points |
| PointsKeeping.SeenDistinct | points_calculator/fdb_points_keeper.py:162-172 | the updated list keeps no repeats and gains exactly the record's riders |
| PointsKeeping.RecordsSeenWrites | points_calculator/fdb_points_keeper.py:159-172 | the riders written after some records are the writes' riders appended |
| PointsKeeping.RecordsSeenDistinct | points_calculator/fdb_points_keeper.py:159-172 | the updated list has no repeats and holds every rider of every record |
| PointsKeeping.WrittenOnce | points_calculator/fdb_points_keeper.py:159-172 | across a race week a rider's `scores` document is written at most once |
| PointsKeeping.NewPlayerFields | points_calculator/firestore_management.py:74-82 | a new player's document has exactly these fields, in this order |
| PointsKeeping.FieldPiece | points_calculator/fdb_points_keeper.py:175 | the last `_` piece of each new-player field |
| PointsKeeping.FieldPiecesDistinct | points_calculator/fdb_points_keeper.py:174-177 | only the three class fields name a class, each its own |
| PointsKeeping.MatchingOne | points_calculator/fdb_points_keeper.py:174-177 | a class names exactly one field when exactly one matches |
| PointsKeeping.MatchingNone | points_calculator/fdb_points_keeper.py:174-177 | no match, no write |
| PointsKeeping.ClassMatching | points_calculator/fdb_points_keeper.py:174-177 | the `j`-th class's record goes to that class's field and nowhere else |
| PointsKeeping.ResetsKeys | points_calculator/fdb_points_keeper.py:149-152 | the resets keep the fields and their order |
| PointsKeeping.OneMoreRecord | points_calculator/fdb_points_keeper.py:174-177 | one more record: its total to its class field and onto the week |
| PointsKeeping.ClassRecordStep | points_calculator/fdb_points_keeper.py:174-177 | the `i`-th class's record sets its class field and no other |
| PointsKeeping.ThreeRecords | points_calculator/fdb_points_keeper.py:159-177 | each class field holds its record's total; every other field is unchanged |
| PointsKeeping.ThreeRecordsWeek | points_calculator/fdb_points_keeper.py:177 | the week's value is the sum of the three totals |
| PointsKeeping.FinishGet | points_calculator/fdb_points_keeper.py:179-190 | reading a field back after the three final writes |
| PointsKeeping.AppliedClass | points_calculator/fdb_points_keeper.py:159-177 | the class totals land in the class fields |
| PointsKeeping.AppliedBonus | points_calculator/fdb_points_keeper.py:159-177 | the bonus fields keep their values through the records |
| PointsKeeping.WeekOf | points_calculator/fdb_points_keeper.py:177-179 | the week's value is the sum of the three classes' totals |
| PointsKeeping.ClassFieldAfter | points_calculator/fdb_points_keeper.py:145-190 | after the update each class field holds that class's week total |
| PointsKeeping.WeekWritten | points_calculator/fdb_points_keeper.py:179-180 | the week's value is written to `current_week` and the race's field |
| PointsKeeping.WeekAfter | points_calculator/fdb_points_keeper.py:179-180 | both hold the sum of the three classes' totals |
| PointsKeeping.ResetsBonus | points_calculator/fdb_points_keeper.py:149-152 | the resets leave the bonus fields alone |
| PointsKeeping.BonusUntouched | points_calculator/fdb_points_keeper.py:145-190 | the weekly update leaves the bonus fields alone |
| PointsKeeping.SeasonTotalSame | points_calculator/fdb_points_keeper.py:181-189 | the season total reads only the listed fields |
| PointsKeeping.SeasonTotalPut | points_calculator/fdb_points_keeper.py:180-189 | the total after the race's field is written is the total with the week standing in for it |
| PointsKeeping.SeasonTotalWithout | points_calculator/fdb_points_keeper.py:181-189 | a season not listing the race's field does not see the week |
| PointsKeeping.SeasonTotalLast | points_calculator/fdb_points_keeper.py:181-189 | the earlier events' total, then the race's field: the week counts once |
| PointsKeeping.AppliedOther | points_calculator/fdb_points_keeper.py:174-177 | a field outside the document's own fields keeps its value |
| PointsKeeping.RaceFieldsAfter | points_calculator/fdb_points_keeper.py:180 | every race field reads as in the snapshot, with the week in the race's field |
| PointsKeeping.TotalIsSeasonSum | points_calculator/fdb_points_keeper.py:180-190 | after the update `total` is the sum of the season's race fields as the document now stands |
| PointsKeeping.ResetsOther | points_calculator/fdb_points_keeper.py:149-152 | a field the resets do not touch reads as before |
| PointsKeeping.LastEventTotals | points_calculator/fdb_points_keeper.py:181-190 | over the stale snapshot the last event counts nothing; over the written document it counts the week |
| PointsKeeping.StaleTotal | points_calculator/fdb_points_keeper.py:157-190 | as written, the stored total misses the week when the snapshot lacks the race's field |
| PointsKeeping.TotalCountsWeek | points_calculator/fdb_points_keeper.py:179-190 | the intended total is the earlier events' total plus the week |
| BonusPoints.BonusFields | points_calculator/fdb_points_keeper.py:252 | the intended fields are fields of every player document; the trailing-space field is not |
| BonusPoints.InsertBonusSpec | points_calculator/fdb_points_keeper.py:243-255 | inserting fails exactly on a missing field; otherwise the field grows by the bonus and nothing else changes |
| BonusPoints.InsertBonusPoint | points_calculator/fdb_points_keeper.py:243-255 | reads the document and writes the bonus back onto the intended field |
| BonusPoints.FiftyPassSpec | points_calculator/fdb_points_keeper.py:225-234 | `bonus_50` grows by 50 per exact pick, nothing else changes, and the tracker marks the near misses |
| BonusPoints.FiftyPassMissing | points_calculator/fdb_points_keeper.py:226-227 | with the field missing, a pass that succeeds found no exact pick and left the document alone; its only error is `KeyError` |
| BonusPoints.FiftyPassErr | points_calculator/fdb_points_keeper.py:225-234 | an error stays an error for the remaining picks |
| BonusPoints.FiftyPassShort | points_calculator/fdb_points_keeper.py:226 | standings shorter than the picks raise `IndexError` at the first pick past their end |
| BonusPoints.ThirtyPassSpec | points_calculator/fdb_points_keeper.py:236-238 | `bonus_30` grows by 10 per pick; it fails only on a missing field with a pick |
| BonusPoints.TrackerNearMiss | points_calculator/fdb_points_keeper.py:228-236 | the tracker is all true exactly when every pick is a near miss |
| BonusPoints.CategoryBonusSteps | points_calculator/fdb_points_keeper.py:221-241 | the 30-point pass follows the 50-point pass exactly when every pick is a near miss |
| BonusPoints.CategoryBonusOk | points_calculator/fdb_points_keeper.py:221-241 | `bonus_50` grows by 50 per exact pick; `bonus_30` grows by 10 per pick when all are near misses; nothing else changes |
| BonusPoints.CategoryBonusNear | points_calculator/fdb_points_keeper.py:236-238 | all picks near misses: the 30-point bonus is paid |
| BonusPoints.CategoryBonusFar | points_calculator/fdb_points_keeper.py:240-241 | some pick not a near miss: no 30-point bonus |
| BonusPoints.BonusAfterThirty | points_calculator/fdb_points_keeper.py:236-238 | the 30-point pass after the 50-point pass changes only `bonus_30` |
| BonusPoints.CategoryBonusFails | points_calculator/fdb_points_keeper.py:225-226 | the rules fail exactly when the standings are shorter than the picks, with `IndexError` |
| BonusPoints.ExactPickFails | points_calculator/fdb_points_keeper.py:252-254 | as written, an exact pick raises `KeyError` where the intended field succeeds |
| BonusPoints.CategoryBonus | points_calculator/fdb_points_keeper.py:221-241 | the tracker loop gives the class's bonus rules with the intended field; after an error the document is `CategoryBonusDoc`, with the bonuses inserted before the error |
| BonusPoints.ThirtyPassFails | points_calculator/fdb_points_keeper.py:236-238 | the 30-point pass fails exactly when there is a pick and `bonus_30` is missing, so before anything is written |
| BonusPoints.FiftyDoc | points_calculator/fdb_points_keeper.py:225-234 | the document the 50-point pass leaves, raising or not, agrees with the pass when it succeeds |
| BonusPoints.FiftyDocStop | points_calculator/fdb_points_keeper.py:225-234 | once a pick raises, the document stays as the earlier picks left it |
| BonusPoints.CategoryBonusDoc | points_calculator/fdb_points_keeper.py:221-241 | the document the class's rules leave, raising or not, agrees with the rules when they succeed |
| BonusPoints.CategoryBonusDocShort | points_calculator/fdb_points_keeper.py:225-227 | standings shorter than the picks raise `IndexError`, and the 50-point bonuses of the exact picks within the standings stay written |
| BonusPoints.FiftyDocOnly | points_calculator/fdb_points_keeper.py:225-234 | the 50-point pass, raising or not, raises only the bonus fields |
| BonusPoints.CategoryBonusDocOnly | points_calculator/fdb_points_keeper.py:221-241 | the class's rules, raising or not, raise only the bonus fields |
| BonusPoints.ThirtyPassErr | points_calculator/fdb_points_keeper.py:236-238 | an error of the 30-point pass stays an error |
| BonusPoints.InsertBonusOnly | points_calculator/fdb_points_keeper.py:252-255 | an insertion raises only its bonus field |
| BonusPoints.FiftyPassOnly | points_calculator/fdb_points_keeper.py:225-234 | the 50-point pass raises only the bonus fields |
| BonusPoints.ThirtyPassOnly | points_calculator/fdb_points_keeper.py:236-238 | the 30-point pass raises only the bonus fields |
| BonusPoints.CategoryBonusOnly | points_calculator/fdb_points_keeper.py:221-241 | the rules for a class raise only the bonus fields, whatever the document |
| PointsUpdate.PicksOf | points_calculator/fdb_points_keeper.py:268-281 | the picks document's pairs; a missing document raises `AttributeError` |
| PointsUpdate.RaceFields | points_calculator/fdb_points_keeper.py:170-184 | the race's field and the season's fields, or `KeyError` when a lookup misses |
| PointsUpdate.RaceFieldsLast | points_calculator/fdb_points_keeper.py:182-184 | the season's fields end with the race's own field |
| PointsUpdate.WeekRecords | points_calculator/fdb_points_keeper.py:97-143 | one list of records per player when the week succeeds |
| PointsUpdate.PlayerWeekSpec | points_calculator/fdb_points_keeper.py:98-143 | a player's week succeeds exactly when the picks, the records and the race fields are all there |
| PointsUpdate.WeekRecordsSpec | points_calculator/fdb_points_keeper.py:97-143 | the week succeeds exactly when every player's does |
| PointsUpdate.WeekDone | points_calculator/fdb_points_keeper.py:97-190 | the records of the players before the first one whose week fails |
| PointsUpdate.WeekDoneSpec | points_calculator/fdb_points_keeper.py:97-190 | the week succeeds exactly when `WeekDone` covers every player, and then its records are `WeekDone`; otherwise its error is the next player's |
| PointsUpdate.WeekDoneAt | points_calculator/fdb_points_keeper.py:97-190 | when the players before the `i`-th succeed and the `i`-th fails, `WeekDone` is the earlier players' records |
| PointsUpdate.WeekSeenDistinct | points_calculator/fdb_points_keeper.py:159-172 | the updated list never holds a rider twice |
| PointsUpdate.WeekWrittenOnce | points_calculator/fdb_points_keeper.py:158-172 | across all players a rider's document is written at most once, with its points in the first record |
| PointsUpdate.WeekWritesField | points_calculator/fdb_points_keeper.py:170 | every write of the week sets the race's field |
| PointsUpdate.RecordsWritesField | points_calculator/fdb_points_keeper.py:170 | every write of a player's records sets the race's field |
| PointsUpdate.WritesOfField | points_calculator/fdb_points_keeper.py:170 | every write of a record sets the race's field |
| PointsUpdate.WeekPlayers | points_calculator/fdb_points_keeper.py:97-190 | the players collection after the week has the same documents |
| PointsUpdate.WeekPlayersOther | points_calculator/fdb_points_keeper.py:97-190 | a document outside the stream is not touched |
| PointsUpdate.WeekPlayersName | points_calculator/fdb_points_keeper.py:97-190 | the `i`-th streamed player's document is its `PlayerAfter` |
| PointsUpdate.WeekPlayersIs | points_calculator/fdb_points_keeper.py:97-190 | documents agreeing player by player with `WeekPlayers` are `WeekPlayers` |
| PointsUpdate.UpdateWeek | points_calculator/fdb_points_keeper.py:93-190 | the players loop: every player's `PlayerAfter` and the week's writes, or the first failing player's error with the earlier players' documents and writes kept |
| PointsUpdate.ProgressStop | points_calculator/fdb_points_keeper.py:97-190 | when the loop stops after `i` players, their documents are `WeekPlayers` of them and the log holds their writes |
| PointsUpdate.WeekStopped | points_calculator/fdb_points_keeper.py:97-190 | the loop stopped by a player's error leaves the collections as the players of `WeekDone` left them |
| PointsUpdate.ProgressFrame | points_calculator/fdb_points_keeper.py:97-190 | documents of players outside the stream are never touched |
| PointsUpdate.PlayerNext | points_calculator/fdb_points_keeper.py:97-190 | one turn of the players loop keeps the loop's progress invariant |
| PointsUpdate.AfterAllAt | points_calculator/fdb_points_keeper.py:97-190 | each player's document after the week is `PlayerAfter` of its document before |
| PointsUpdate.PlayerUpdate | points_calculator/fdb_points_keeper.py:98-190 | one player's week: its records, then its document becomes `PlayerAfter` and the log grows |
| PointsUpdate.PlayerWeekOf | points_calculator/fdb_points_keeper.py:98-143 | the player's records from the sorted picks, or the picks lookup's error |
| PointsUpdate.AllBonuses | points_calculator/fdb_points_keeper.py:218-241 | the bonus pass keeps the collection's documents |
| PointsUpdate.BonusesOnly | points_calculator/fdb_points_keeper.py:221-241 | a player's bonuses raise only the bonus fields |
| PointsUpdate.BonusesOk | points_calculator/fdb_points_keeper.py:221-241 | on a document holding both bonus fields, a player's bonuses fail exactly when some class's standings are shorter than the picks, with `IndexError` |
| PointsUpdate.AllBonusesOnly | points_calculator/fdb_points_keeper.py:218-241 | the pass raises only the streamed players' bonus fields |
| PointsUpdate.AllBonusesOk | points_calculator/fdb_points_keeper.py:218-241 | on documents holding both bonus fields, the pass fails exactly when a player lacks a picks document or picked more riders for a class than its standings hold |
| PointsUpdate.BonusesDoc | points_calculator/fdb_points_keeper.py:219-240 | a player's document after the classes' rules, raising or not, agrees with the rules when they succeed |
| PointsUpdate.PlayerBonusDoc | points_calculator/fdb_points_keeper.py:215-240 | without a picks document nothing is written; otherwise `BonusesDoc` |
| PointsUpdate.AllBonusesDocs | points_calculator/fdb_points_keeper.py:214-240 | the collection after the bonus pass, raising or not, keeps its documents and agrees with the pass when it succeeds |
| PointsUpdate.BonusesDocOnly | points_calculator/fdb_points_keeper.py:219-240 | a player's rules, raising or not, raise only the bonus fields |
| PointsUpdate.AllBonusesDocsOnly | points_calculator/fdb_points_keeper.py:214-240 | the pass, raising or not, raises only the streamed players' bonus fields and leaves other documents alone |
| PointsUpdate.BonusesDocErr | points_calculator/fdb_points_keeper.py:219-240 | once the first classes raise, the document is as they left it |
| PointsUpdate.AllBonusesDocsErr | points_calculator/fdb_points_keeper.py:214-240 | once the first players raise, the collection is as they left it |
| PointsUpdate.PlayerBonus | points_calculator/fdb_points_keeper.py:220-241 | one player's bonuses, or the error; either way the document holds every bonus inserted (`PlayerBonusDoc`) |
| PointsUpdate.ClassBonuses | points_calculator/fdb_points_keeper.py:221-241 | the class loop gives the bonuses of every class in standings order; after an error the document is `BonusesDoc` |
| PointsUpdate.BonusesErr | points_calculator/fdb_points_keeper.py:221-241 | an error in the first classes is the error of the whole |
| PointsUpdate.CalculateBonusPoints | points_calculator/fdb_points_keeper.py:198-241 | the collection becomes `AllBonuses`, or its error; either way it is `AllBonusesDocs`, with the bonuses written before the error |
| PointsUpdate.AllBonusesErr | points_calculator/fdb_points_keeper.py:218-241 | an error of the first players is the error of the whole pass |
| PointsUpdate.UpdatePoints | points_calculator/fdb_points_keeper.py:59-196 | an unknown race raises `KeyError` first; otherwise the collection becomes `WeekPlayers`, then `AllBonuses` after the final race; the race number is recorded only on success; after a player's error the earlier players' writes stay, and after a bonus error the week's writes and the bonuses before it stay |
| PointsUpdate.FinishUpdate | points_calculator/fdb_points_keeper.py:192-196 | the bonuses after the final race, with those written before an error kept, then the race number when nothing raised |
| PointsUpdate.WeekThenBonus | points_calculator/fdb_points_keeper.py:97-193 | each player's document after the week, then after the bonuses |

## Left out

- Reading PDFs (`fitz`) is not modelled. The parsers start from the page text, given as the headings and blocks the rider-name pattern finds (`Parser.NameScan`). The rider-name pattern itself is not modelled, and neither is the text scan.
- pandas is not modelled. A table is a sequence of named columns of optional values. Missing values are `None`; NaN is not modelled.
- The database is not Firestore. The `players` collection is a map, the `scores` collection a log of writes, and the `picks` collection is read-only (`Database.picks` is a `const`). The database set-up is a log of documents written.
- `Firestore.Value`: `players_to_dict`'s integer zeros and the float scores are both `Number(real)`; Python's `int`/`float` distinction is not modelled.
- Floating point is not modelled. Lap times are exact integer milliseconds and scores are reals. `round` is modelled in thousandths.
- `Numbers.ParseFloat` accepts only ASCII digits, one sign, `_`, `.` and an exponent. It rejects "nan", "inf" and "infinity", and non-ASCII digits, all of which Python's `float()` accepts. An exponent large enough to overflow to infinity is not modelled.
- `Wrangler.MinimumOfAllColumns`: on a table without any value it raises `ValueError`, as `idxmin` does in pandas 3. Earlier pandas versions return NaN instead.
- `Wrangler.Lookup`: with duplicate column labels it takes the first column. pandas would return a table of all of them.
- The network, the disk and `wget` are a `Retriever.Web` parameter. `print`, `tqdm` and the plotting helpers are not modelled.
- `relative_frequency_histogram`, `calculate_kde`, `sample` and `kl_div` (scikit-learn, numpy, scipy) are parameters. The square root is a parameter obeying the square-root laws.
- fp_analysis/Retriever.py and the Streamlit pages are not part of this model.
- The MotoScraper standings, race_names.json, replacement_riders.json and the picks JSON file are parameters.
- `Retriever.PdfRetriever.CheckMotogpPracticeSessionsExist` models one pass of the `while` loop. The `for`'s `else` always breaks, so the body never runs twice.
- `Scoring.NameMatches` reads `str.contains(name, case=False)` as a literal substring test after lower-casing. A pick containing a regex character (`.`, `(`) would be a pattern in the source. Case folding covers ASCII and Latin-1 letters only.
- `LapTimes.LapHead` and `Parser.RaceTimeAt` read `\d` in the lap and finish-time patterns as an ASCII digit. Python 3's `re` matches any Unicode decimal digit there.
- `BonusPoints.AnyContains` reads `str.contains(pick)` at line 231 as a literal substring test, in the same way.
- `PointsUpdate.PlayerUpdate`: when a lookup in race_names.json raises, the model leaves the collections as they were, but the source has already written part of them. A missing code for this race first raises at line 170, on the first rider not yet written: the four resets (lines 149-152) are written and no rider document is. If no rider is left to write, it raises at line 180 instead, after the class fields and `current_week`. Only a missing earlier race raises at lines 183-184, after every write except `total`. The picks and records errors (lines 98-143) come before any write, and there the model is exact.
- `PointsUpdate.UpdatePoints` looks the race's fields up once, before the players loop. The source looks them up again for every player, after that player's writes.
- `PointsKeeping.WriteRiders`: every rider document is assumed to exist in `scores`. In the source an update of a missing document raises `NotFound`.

## Findings

| source | as written | input that shows it | evidently intended | confidence | as-written member | corrected member |
|---|---|---|---|---|---|---|
| points_calculator/fdb_points_keeper.py:157-190 | the season total is summed over the snapshot read at line 157, before line 180 writes this week's race field | a player's first update of the season (race 1): the snapshot has no `1_POR` field, so `total` is stored as 0 while `current_week` holds the week's points | `total` is the sum of the season's race fields including this week (`TotalIsSeasonSum`, `TotalCountsWeek`) | not executed | PointsKeeping.StaleTotal | PointsKeeping.TotalCountsWeek |
| points_calculator/fdb_points_keeper.py:252 | the 50-point bonus reads and writes the field `"bonus_50 "`, with a trailing space, which `players_to_dict` never creates | any player who picks a rider in the exact final position: line 254 raises `KeyError` | the bonus goes to the player's `bonus_50` field (`CategoryBonusOk`) | not executed | BonusPoints.ExactPickFails | BonusPoints.CategoryBonusOk |
