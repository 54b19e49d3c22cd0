# clust.js page controller — a Dafny model

clust.js ships a browser page (`main.js`) on top of its clustering/PCA
library. The page has three parts:

- A **dataset loader**. A built-in dataset selector and a file input
  fill the application state `{data, source, name}`. The loader parses
  the chosen file as comma- or tab-separated text with
  `parseDelimitedText`.
- A **preview panel**. `renderTableRight` shows a titled table of the
  first 500 records and reports the dataset's row count.
- A **PCA button**. It hands the whole dataset to the projection
  service `pca_plot`, together with a target element and a width and
  height computed from the page.

The page also embeds a **console**. `displayInConsole` appends one
formatted line to an output element. The console has clear and copy
buttons. Its command line evaluates what is typed, first as an
expression and then as statements, and shows the value or the error.

The model has these modules:

- `Options`: the option type.
- `Text`: the ECMAScript string operations the page relies on:
  - `trim` and its white-space set;
  - `split` on one character;
  - `split(/\r?\n/)`;
  - `join`;
  - `replaceAll` of one character.
- `Numbers`: the finite-number test that `Number(v)` plus
  `Number.isFinite` applies to a cell, and the value of such a text.
- `Delimited`: `parseDelimitedText`. Records are association lists in
  insertion order, and each cell is coerced to a number or kept as text.
- `Preview`: `renderTableRight`, as the preview value it shows rather
  than the DOM it builds.
- `Console`:
  - the class `DisplayLog`, for `#consoleOut` and its lines, with the
    clear, copy and Enter-key handlers;
  - the pure description of what a command submission appends.
- `App`: the class `App`, for the application state, the right-hand
  panel and the sequence of operations on the plot element `#myPCA`,
  with the selector, file and PCA handlers.
- `ParseExamples`: worked parses derived from the general lemmas.

Outside inputs become parameters:

- the built-in dataset (`irisData`);
- whether the console element exists;
- whether the clipboard accepted the text;
- the chosen file and its text;
- the plot element's client width;
- the JavaScript evaluator. It is a function from code text to an
  outcome: a returned value or a thrown message.

Where the code and its written description disagree, the model follows
the code:

- Before anything is loaded the data is `null`, not an empty dataset.
  The model uses `None`.
- The whole text is trimmed before it is split into lines. Blank
  leading or trailing lines therefore never become headers or records.
- A header name that occurs twice gives one key. Its value is the cell
  of the last column so named, and the key stays at its first position.
- A column headed `__proto__` is stored in no record. The assignment
  `obj["__proto__"] = v` runs the prototype setter of a plain object,
  which ignores a number or a string.
- The PCA button without data does act. It first renders an empty
  preview, which shows the "No data" notice. It then replaces the panel
  with the "load a dataset first" notice, so only that notice remains.

## Model

| member | source | states |
|---|---|---|
| Text.Trim | main.js:177 | The result has no white space at either end. |
| Text.TrimSlice | main.js:177 | The result is a contiguous slice of the input, and everything cut from before and after it is white space. |
| Text.TrimUnique | main.js:177 | Any non-space-ended slice with only white space around it is the trim; trim is characterised by this. |
| Text.TrimFixed | main.js:181 | A text is its own trim exactly when it has no white space at either end. |
| Text.TrimIdempotent | main.js:181 | Trimming twice is trimming once. |
| Text.TrimBlank | main.js:68-69 | A text trims to the empty text exactly when every character is white space. |
| Text.CountZero | main.js:177-178 | A character occurs zero times exactly when it is absent. |
| Text.Split | main.js:184 | Splitting gives one more piece than there are separators, and no piece holds the separator. |
| Text.SplitJoin | main.js:184 | Joining the pieces with the separator gives back the line. |
| Text.JoinSplit | main.js:181 | Separator-free pieces, joined and split again, are the same pieces. |
| Text.Lines | main.js:177 | There is one more line than there are line feeds, and no line holds a line feed. |
| Text.LinesJoin | main.js:177 | The lines joined by LF give the text with each CR LF reduced to LF; only the CR before an LF is dropped. |
| Text.LinesWithoutCR | main.js:177 | Without carriage returns, the line split is the split on line feeds. |
| Text.Replace | main.js:151 | Every `_` becomes a space, and every other character and the length are kept. |
| Numbers.FiniteNumberShape | main.js:188-189 | A text that passes the number test is non-empty and holds only digits, signs and a point. |
| Numbers.IntTextRoundTrip | main.js:188-189 | The decimal text of every integer passes the number test and denotes that integer. |
| Delimited.Keys | main.js:124 | The keys of a row are its field names, in insertion order. |
| Delimited.Lookup | main.js:164 | `row[c]` is absent exactly when `c` is not a key of the row. |
| Delimited.PutKeyOrder | main.js:189 | An existing key keeps its place when stored again, a new key is appended last, and `__proto__` adds no key. |
| Delimited.PutKeys | main.js:189 | Storing a key keeps the keys duplicate-free. |
| Delimited.PutLookup | main.js:189 | After storing, the key reads back the stored value unless it is `__proto__`, and every other key reads as before. |
| Delimited.CoerceRule | main.js:187-189 | A cell is a number exactly when its text is non-empty and finite, and then it is that text's value. Otherwise it is the text itself, so an empty cell is the empty text. |
| Delimited.CoerceIntegerText | main.js:188-189 | An integer's text becomes that integer. |
| Delimited.CellPastEnd | main.js:187 | A header with no token in the row gets the empty text. |
| Delimited.OwnKeysElements | main.js:186-190 | The keys the header names create are exactly the names other than `__proto__`, without repetition. |
| Delimited.BuildKeys | main.js:186-190 | Storing the first n headers gives the distinct names among them, less `__proto__`, as keys, in first-occurrence order. |
| Delimited.BuildLookup | main.js:186-190 | After the first n headers, each name but `__proto__` holds the cell of its last column among them, and nothing else is held. |
| Delimited.MakeRecordLookup | main.js:184-191 | A record holds, under each header name but `__proto__`, the cell of the last column so named, and holds nothing under any other name. |
| Delimited.MakeRecordKeys | main.js:184-191 | A record's keys are the distinct header names other than `__proto__`, in first-occurrence order. With distinct headers and no `__proto__` they are exactly the headers. |
| Delimited.OwnKeysDistinct | main.js:186 | Distinct header names without `__proto__` are kept as they are. |
| Delimited.MakeRecordIgnoresExtra | main.js:186-187 | Tokens beyond the number of headers never reach the record. |
| Delimited.ParseCount | main.js:177-183 | There is one record per line feed of the trimmed text. A text with fewer than two lines gives none. |
| Delimited.ParseRows | main.js:180-184 | Record k comes from data line k+1. It is split by the delimiter that the header line alone chose: tab when the header has a tab, comma otherwise. |
| Delimited.ParseRecordShape | main.js:181-190 | Every record's keys are the trimmed header names other than `__proto__`, and each key holds the trimmed, coerced cell of its column. |
| ParseExamples.NoLineBreakNoRecords | main.js:177-178 | A text without a line feed gives no records. |
| ParseExamples.ShortTexts | main.js:177-178 | The empty text and a lone header line give no records. |
| ParseExamples.TwoColumns | main.js:186-190 | With two distinct headers, neither `__proto__`, a record is the two cells in header order. |
| ParseExamples.ProtoThenColumn | main.js:186-190 | A `__proto__` column followed by another column leaves only the other column's cell. |
| ParseExamples.CommaText | main.js:176-193 | `a,b` / `1,2` / `3,x` gives two records keyed a and b. Numeric cells are numbers, and `x` stays text. |
| ParseExamples.ProtoHeaderDropped | main.js:181-191 | `__proto__,b` / `1,2` gives one record holding only `b`, the number 2. |
| ParseExamples.TabHeaderWins | main.js:180-187 | A tab header makes a comma-separated row one token. The second column, past the row's end, is empty. |
| Preview.Render | main.js:113-173 | No data or an empty dataset shows the notice. Otherwise the title is given, the total is the true row count and the columns are the first record's keys. Headings are the columns with `_` shown as a space. There is one row per record up to 500, each holding `row[c]` per column. |
| Preview.LargeDatasetIsCapped | main.js:126-160 | Above 500 records, exactly 500 rows are shown and the true size is reported. |
| Preview.RenderReadsOnlyShownRows | main.js:124-166 | The preview depends only on the first 500 records and the dataset size. |
| Preview.HeadingsHaveNoUnderscore | main.js:151 | No heading holds an underscore, and each has its key's length. |
| Console.FormatAll | main.js:20-29 | There is one text per argument, each that argument's formatting. |
| Console.LineTextOfOne | main.js:20-29 | A single argument is shown as it formats, and a string as itself. |
| Console.AllTextAppend | main.js:59 | The copied text of a log is the texts of its lines, in order. |
| Console.CopyEntry | main.js:60-61 | The copy notice is a meta line exactly when the clipboard accepted the text, and an error line otherwise. |
| Console.BlankCommandIsIgnored | main.js:68-69 | A blank or white-space-only command appends nothing. |
| Console.SubmitShape | main.js:71-95 | A command appends its echo `> cmd` as a meta line. After the echo comes one log line exactly when the result is not `undefined`, one error line when evaluation threw, and nothing for `undefined`. |
| Console.StatementOnlyAfterExpressionFails | main.js:79-89 | The expression attempt always runs first. The statement attempt runs exactly when the expression attempt threw. |
| Console.ExpressionErrorWins | main.js:79-95 | When both attempts throw, the error shown is the expression attempt's. |
| Console.DisplayLog.constructor | main.js:4 | The console starts empty. |
| Console.DisplayLog.Display | main.js:14-34 | Exactly one line is appended, holding the joined formatted arguments with the given kind. Nothing happens without the console element. |
| Console.DisplayLog.Clear | main.js:53-55 | Every line goes. |
| Console.DisplayLog.Copy | main.js:57-63 | The text of all earlier lines goes to the clipboard, then one confirmation or failure line is appended. |
| Console.DisplayLog.KeyDown | main.js:66-100 | Other keys change nothing. On Enter, a blank command changes nothing. Otherwise the log grows by the submission's lines, the expression and statement attempts run in order, and the input is cleared. |
| App.PlotWidth | main.js:255 | The width is at least 520 and at least the client width less 24, and it is one of the two. |
| App.Dispatch | main.js:236-269 | No request is made exactly when there is no data or it is empty. Otherwise the request carries the whole dataset, `myPCA`, the computed width and height 460. |
| App.App.constructor | main.js:103-107 | The state starts with data, source and name all unset. |
| App.App.SelectBuiltin | main.js:196-207 | "iris" sets the built-in dataset, its source and name together, logs the selection, shows its preview and clears the plot. Any other value changes nothing. |
| App.App.LoadFile | main.js:213-230 | A chosen file sets data to the parse of its text, with source "file" and the file's name, all together. It then shows the preview and clears the plot. No file changes nothing. |
| App.App.ClickPca | main.js:233-270 | Without data, only the notice changes. Otherwise the plot element is marked and then exactly one request, the dispatched one, is made. The state is untouched. |
| App.DispatchMarksSurface | main.js:259-269 | After a dispatch the plot element carries `has-plot`, and the requests made so far gain exactly the new one. |
| App.WellFormedAfterDispatch | main.js:236-269 | Every request ever made carries a non-empty dataset, the target and a geometry within bounds, and each follows a `has-plot` mark. |
| App.RequestsAppend | main.js:264-269 | The requests of two runs of operations are those of each, in order. |

## Left out

- The DOM itself is not modelled: elements, class names, styles, scrolling and the exact HTML of the notices. The panel and the plot element are recorded as values and operation sequences.
- Asynchrony is not modelled. `FileReader`, the clipboard promise, `await` of the evaluator and of `pca_plot` are treated as completing at once and in order. Interleaved events are not modelled.
- The projection service `pca_plot` is recorded as a request, not run. The package entry `dist/sdk.mjs` (re-exports of `irisData` and `pca_plot`) is not part of this model, and the built-in dataset is a parameter.
- Mirroring of `console.log`, `console.warn` and `console.error` into the page (main.js:37-50) is not modelled as an interception. Calls made by the page itself go straight to `DisplayLog.Display`.
- JavaScript evaluation is an abstract function from code to outcome. `JSON.stringify` and `String` of a value are carried inside the value. `err.message` of a thrown non-Error is taken to be the message given.
- Console.DisplayLog.KeyDown: the command's own effects are not modelled. On the page the command runs against the console that writes into the log, so any lines it logs fall between the echo and the result. A command that parses as an expression but throws when run is run a second time as statements, so its effects, log lines included, happen twice before the expression's error is shown. The model's evaluator is pure and appends only the echo and at most one result line.
- Numbers.IsFiniteNumber: accepts only signed decimals with an optional point and fraction. `Number` also accepts exponents, hexadecimal, octal and binary prefixes. Those cells stay text in the model where the page would make them numbers.
- Numbers.NumberValue: is an exact rational. IEEE-754 rounding and overflow to `Infinity`, which makes a cell text, are not modelled.
- Delimited.Lookup: a name the row does not hold reads as absent. Properties inherited from `Object.prototype` (`toString`, `__proto__` and the rest) are not modelled. The preview reads only names that are keys of the first record, and every parsed record has the same keys.
- Delimited.Keys: is insertion order. The JavaScript rule that lists integer-like keys first, in numeric order, is not modelled.
- Preview.Render: returns `None` for a missing cell, where the page writes `undefined` into `textContent`, which shows an empty cell. Numbers are kept as values rather than their `String` form.
- The page's missing-element guards for `#rightData` and `#myPCA` are not modelled; these elements are taken to exist. The console element's absence is modelled (`DisplayLog.mounted`).
