# Movie-data helpers: budget normaliser and OMDb row merge

This project models in Dafny two deterministic pieces of `src/utils.py`, a helper module for
exploring a movie dataset, and proves properties of the model.

* **`clean_budget`**: turns a money amount written as text into an integer. The text is stripped
  of surrounding whitespace. If it contains an `M`/`m` anywhere, every character other than a digit or
  a dot is deleted and the rest goes through `int()` times 1,000,000. Otherwise, a `K`/`k` gives the
  same with 1,000. Otherwise the stripped text goes through `int()` directly. A failed `int()` gives
  NaN, modelled as `None` (`Budget.CleanBudget`, a function on `string` returning `Option<int>`).
* **The merge step of `fill_omdb`**: writes the reply of the OMDb metadata service into one table
  row. The row is a map from column name to `Option<string>` (`None` = missing). The reply is an
  input: a status code and the decoded JSON object (`None` when it does not decode).
  `Omdb.Enrich` is the reference definition: the outcome (returned, `KeyError`, JSON decoding
  error) and the row the call leaves. `Omdb.MovieRow.FillOmdb` is the in-place version. It updates
  the row's `cells` field through the same guarded assignments as the source. Its postcondition
  ties the outcome and the new cells to `Enrich` of the old cells.

Python's own text handling lives in its own module, because both pieces rely on it.
`PyText.Strip` is `str.strip()`, which removes every `str.isspace()` character. `PyText.PyInt` is
`int()` on a `str` in base 10: surrounding whitespace, an optional sign, and ASCII digit groups
separated by single underscores, at most 4300 digits in all (`PyText.MaxStrDigits`, Python's default
`sys.get_int_max_str_digits()`; `int()` raises `ValueError` beyond it). The whitespace `int()` skips
is narrower than the `str.isspace()` set: CPython turns non-ASCII whitespace into a space and then
skips only C's ASCII whitespace, so the separators `\x1c`-`\x1f` are whitespace to `strip()` but not
to `int()`. `PyText.Spaces` names the two sets and `PyText.Trim` trims by either.

Modules: `Wrappers` (the `Option` type), `PyText`, `Budget` (`clean_budget`), `Omdb`
(`fill_omdb`).

What the code raises, and the model keeps:
* `clean_budget` calls `.strip()` on its argument, so a value that is not a `str` raises
  `AttributeError`; the model takes a string. Its bare `except:` turns every failure of `int()`,
  the digit limit included, into NaN.
* `fill_omdb` raises `KeyError` when the row lacks a requested column (line 161). Once a lookup
  is needed, because a requested cell is missing, it raises `KeyError` when the row lacks `Title`
  (line 164). After a 200 reply whose `Response` is `"True"`, it raises `KeyError` on the first of
  `IMDB_Rating`, `Revenue`, `Genre` that the row lacks (lines 173, 180, 187). A row without
  `Title` whose requested cells are all present is returned normally, and so is a row lacking a
  target column after a non-200 status or a reply that did not find the title. A body that does not decode lets the
  JSON decoding error escape (line 170). The model has these outcomes. A `KeyError` on `Revenue` or
  `Genre` leaves the merges done before it in the row.
* `API_KEY` is not defined in `src/utils.py`, so building the URL raises `NameError` unless a caller
  has assigned `utils.API_KEY` first; the model assumes it has (see "Left out").
* The body of `fill_omdb` always merges the three hard-coded columns `IMDB_Rating`, `Revenue`
  and `Genre`. `columns_to_fill` only decides whether a lookup happens.

## Model

| member | source | states |
|---|---|---|
| PyText.Trim | src/utils.py:124 | the result has no whitespace of the given kind at either end, is a contiguous part of the input, and everything cut off on either side is such whitespace |
| PyText.TrimExact | src/utils.py:124 | trimming whitespace-only padding around a core that has no whitespace at its ends gives exactly that core (together with Trim, this pins strip() down completely) |
| PyText.StrippedIsIntTrimmed | src/utils.py:147-150 | what strip() leaves, int() does not trim further |
| PyText.StripRemovesSeparator | src/utils.py:124 | strip() removes a leading \x1c |
| PyText.PyInt | src/utils.py:132 | int(): trim int()'s whitespace, an optional sign, digit groups with single underscores and at most 4300 digits; None for the ValueError otherwise |
| PyText.PyIntRejectsSeparator | src/utils.py:150 | int() rejects a leading \x1c, which strip() would have removed |
| PyText.PyIntSkipsSpace | src/utils.py:150 | int() skips a leading space |
| PyText.DecimalValue | src/utils.py:149-150 | the digits str(n) writes denote n |
| PyText.PyIntDigits | src/utils.py:130-134 | int() of a plain ASCII digit string is its decimal value, and fails exactly on the empty string and on more than 4300 digits |
| PyText.PyIntDigitsAndDots | src/utils.py:130-134 | on text made only of digits and dots, int() succeeds exactly when the text is non-empty, has no dot and has at most 4300 digits |
| PyText.PyIntRoundTrip | src/utils.py:149-150 | int(str(i)) == i for every integer of at most 4300 digits, negative ones included; beyond that int() fails (and str() itself raises) |
| Budget.HasMillionMark | src/utils.py:127 | re.search(r"[Mm]") finds a match exactly when an M or m occurs anywhere |
| Budget.HasThousandMark | src/utils.py:137 | re.search(r"[Kk]") finds a match exactly when a K or k occurs anywhere |
| Budget.KeepNumeric | src/utils.py:130 | the filtered text has only digits and dots and is no longer than the input |
| Budget.KeepNumericOne | src/utils.py:130 | one character is kept exactly when it is a digit or a dot and deleted otherwise (with KeepNumericAppend this determines the filter completely) |
| Budget.KeepNumericAppend | src/utils.py:130 | the filter works character by character: filtering a concatenation is concatenating the filtered parts |
| Budget.KeepNumericOfNumeric | src/utils.py:130 | text already made of digits and dots is left unchanged by the filter |
| Budget.CleanBudget | src/utils.py:122-152 | clean_budget on a str: strip, then the M branch, the K branch or plain int(), None for NaN; its properties are the lemmas below |
| Budget.SuffixReading | src/utils.py:130-144 | scaling int() of the filtered text gives the digits' value times the unit when the text is non-empty, all digits and at most 4300 long, the missing marker otherwise |
| Budget.MillionBranch | src/utils.py:127-134 | with an M/m in the stripped text the result is the filtered digits' value times 1,000,000, or missing when the filtered text is not a non-empty digit string of at most 4300 digits |
| Budget.ThousandBranch | src/utils.py:137-144 | with a K/k and no M/m the result is the filtered digits' value times 1,000, or missing likewise |
| Budget.MillionWins | src/utils.py:127-144 | when both an M and a K occur the M branch decides and any number produced is a multiple of 1,000,000 |
| Budget.SuffixNeedsWholeNumber | src/utils.py:130-144 | in the M or K branch an empty filtered text, one containing a dot, or one of more than 4300 digits gives the missing marker |
| Budget.SuffixResultBounds | src/utils.py:130-142 | a number from the M branch is non-negative and a multiple of 1,000,000; one from the K branch non-negative and a multiple of 1,000 |
| Budget.PlainBranch | src/utils.py:147-152 | with no M/m/K/k the result is int() of the stripped text, and it is present exactly when that text is an integer literal after an optional sign with at most 4300 digits |
| Budget.MillionsRoundTrip | src/utils.py:127-134 | str(n) followed by M or m reads back as n * 1,000,000 for every n >= 0 of at most 4300 digits, and as missing beyond |
| Budget.ThousandsRoundTrip | src/utils.py:137-144 | str(n) followed by K or k reads back as n * 1,000 for every n >= 0 of at most 4300 digits, and as missing beyond |
| Budget.PlainRoundTrip | src/utils.py:147-152 | str(i) reads back as i for every integer of at most 4300 digits, and as missing beyond |
| Budget.FifteenMillion | src/utils.py:127-132 | "15M" gives 15,000,000 |
| Budget.FiveHundredThousand | src/utils.py:137-142 | "500K" gives 500,000 |
| Budget.PlainTwoMillion | src/utils.py:147-150 | "2000000" gives 2,000,000 |
| Budget.NoWholeNumberIsMissing | src/utils.py:130-134 | "abcM" and "1.5M" give the missing marker |
| Budget.JoinedDigitsWithBothMarks | src/utils.py:127-132 | "<a>M<b>K" (e.g. "1M500K") joins the digits of a and b and reads them as millions, not as a million-plus-thousands amount (missing when the joined digits pass 4300) |
| Omdb.BeforeComma | src/utils.py:189 | the result is the longest comma-free prefix of the genre list, i.e. split(",")[0] |
| Omdb.FirstGenre | src/utils.py:189 | the genre kept has no comma and no whitespace at either end |
| Omdb.FirstGenreOfList | src/utils.py:189 | the genre kept from "first,rest" is first with its whitespace stripped |
| Omdb.FirstGenreExample | src/utils.py:189 | "Action, Drama" keeps "Action" |
| Omdb.MissingLabels | src/utils.py:161 | lists exactly the requested labels that are not columns of the row, and is empty exactly when all are columns |
| Omdb.AnyMissing | src/utils.py:161 | row[columns_to_fill].isnull().any(): some requested cell is missing |
| Omdb.Found | src/utils.py:172 | data.get("Response") == "True" |
| Omdb.Offered | src/utils.py:173-192 | a target is offered a value exactly when the reply has its field and it is not "N/A"; the value is the field, or for Genre the first genre, which has no comma |
| Omdb.MergedCell | src/utils.py:173-192 | a present cell is kept; the cell ends missing exactly when it was missing and nothing is offered |
| Omdb.PresentTargets | src/utils.py:173-187 | counts the target columns, in fill order, that the row has before the first one it lacks |
| Omdb.Merge | src/utils.py:172-192 | the merge keeps the row's columns, never changes a non-target or a present cell, returns exactly when all three targets are columns, and otherwise raises KeyError on the first target in fill order that is absent |
| Omdb.MergeInSteps | src/utils.py:173-192 | the merge is three single-column updates in the order IMDB_Rating, Revenue, Genre, stopping with KeyError at the first target the row lacks |
| Omdb.Enrich | src/utils.py:155-200 | fill_omdb given the reply: KeyError on absent requested columns, return when nothing is missing, KeyError without Title, return on a non-200 status, decoding error, return when not found, the merge otherwise; its properties are the lemmas below |
| Omdb.NothingMissingNoLookup | src/utils.py:161-162 | if no requested column is missing the row is returned unchanged whatever the reply, so no lookup is needed |
| Omdb.UnsuccessfulReplyKeepsRow | src/utils.py:169-198 | a non-200 status, or a reply whose Response is not "True", leaves the row as it was |
| Omdb.OnlyTargetsChange | src/utils.py:173-192 | no column is added or removed and only IMDB_Rating, Revenue and Genre can change |
| Omdb.PresentCellsKept | src/utils.py:173-192 | a cell that was present is never overwritten |
| Omdb.MissingTargetFilled | src/utils.py:173-192 | after a found reply a missing target is filled exactly when the reply has its field and it is not "N/A", with the field for IMDB_Rating and Revenue and the first genre for Genre |
| Omdb.ColumnsOnlyGateTheLookup | src/utils.py:161-192 | once a lookup happens the result does not depend on which columns were requested: the three hard-coded targets are merged |
| Omdb.MovieRow.FillCell | src/utils.py:173-192 | one guarded update: the cell becomes the merged cell (kept if present, else what the reply offers) and no other column changes |
| Omdb.MovieRow.FillOmdb | src/utils.py:155-200 | updating the row in place ends with the outcome and the cells that Enrich gives for the old cells |

## Left out

- `carga_eda` (src/utils.py:41-86): reading a CSV file and printing summaries is file I/O and display only.
- `text_to_num` (src/utils.py:89-119): it wraps the external `word2number` parser, whose rules are not part of this model. A Dafny string has no dynamic type, so the identity for non-string values is not modelled either.
- The HTTP request of `fill_omdb`: building the URL from `Title` and `API_KEY`, `requests.get` and its own exceptions (connection errors, timeouts) are network I/O. The reply is a parameter instead. The value of `Title` only feeds the URL, so the model only asks for the column to exist.
- JSON bodies whose values are not strings, or that are not objects: the body is modelled as a string-to-string map or as undecodable.
- All `print` logging, and the pandas, seaborn, matplotlib and warnings configuration at module level.
- NaN as a float: missing values are `None`. That makes `row[...] = np.nan` on an already-missing cell a write of `None`.
- `clean_budget` on a non-`str` value, where `.strip()` raises `AttributeError`: the model takes a string.
- Non-ASCII decimal digits: \d and Python's `int()` also accept them; the model reads both as ASCII `0`-`9` only.
- `API_KEY` (src/utils.py:166): the name is not defined in `src/utils.py`, so the call raises `NameError` at line 166 unless a caller has assigned `utils.API_KEY`; the model starts from the reply and so does not have this outcome.
- `PyText.MaxStrDigits`: the digit limit is fixed at Python's default of 4300; changing it with `sys.set_int_max_str_digits` or `PYTHONINTMAXSTRDIGITS` is not modelled.
