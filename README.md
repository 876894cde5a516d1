# Dianping ranking pipeline — Dafny model

This project models the data-handling core of a three-stage pipeline that
collects Dianping ("大众点评") restaurant rankings for a city:

* **Analyzer** (`Analyzer.py`) walks one city folder of screenshots
  (`<city>_<timestamp>/主榜单`, `细分榜单1`, `细分榜单2`, …). It puts the
  sub-board folders in natural order ("细分榜单2" before "细分榜单10"). For
  each board it orders the screenshots by their numeric stem and loads the
  readable ones. It sends them to a vision model, making up to three attempts
  (so at most two retries) with a 3 s or 2 s pause between them. It cuts the JSON array out of the reply, picks the
  output file name, and classifies the run by how many board folders it
  processed against the standard of 20.
* **Upload** (`Upload.py`) walks the analysis output. It takes the city from
  the `城市_时间戳` directory name and drops records missing `榜单` or `品牌`.
  It overwrites `榜单` with the file's base name without its extension and
  adds `城市`. It renames
  repeated (`榜单`, `品牌`) keys by suffixing `_2`, `_3`, … to the brand,
  validates, upserts, and tallies files and records.
* **Config** (`Config.py`): the centre of the emulator window, computed from
  the two corner coordinates.

Files:

* `wrappers.dfy`: `Option` and `Result`.
* `text.dfy`: the Python string operations used (`find`, `rfind`, `isdigit`,
  `int`/`str` on numerals, `lower`, slicing, `<`).
* `paths.dfy`: `os.path.basename`, `dirname`, `join` and `splitext` for
  `/`-separated paths.
* `seqs.dfy`: filtering and an insertion sort by a strict order, with their
  lemmas.
* `records.dfy`: a JSON object as a map from field to text.
* `natural_order.dfy`: `natural_sort_key` and the order it induces.
* `analyzer.dfy`, `upload.dfy`, `config.dfy`: the three scripts.
* `handoff.dfy`: how Analyzer's output folder and file names are read back by
  Upload.

Operations with a loop in the source (the retry loop, the image-loading loop,
the sub-board collection and processing loops, the record loops of Upload and
the directory walk) are methods with loop invariants. Each is proved equal to
a specification function. The lemmas state the properties of those functions.
The one loop modelled by recursion instead is `validate_data`'s loop over the
records, which is the recursive function `Upload.CheckRecords`; it has no
state besides the index.

## Model

| member | source | states |
|---|---|---|
| Text.DecimalValue | Analyzer.py:74 | `int(str(n)) == n`, so a numeral's digit run reads back as the number it names |
| NaturalOrder.NaturalKey | Analyzer.py:72-74 | the key alternates text and number parts: it has odd length and its odd positions are exactly the numbers |
| NaturalOrder.SplitConcat | Analyzer.py:74 | splitting on digit runs loses nothing: the pieces concatenate back to the name |
| NaturalOrder.SplitKinds | Analyzer.py:74 | even pieces have no digits, odd pieces are non-empty digit runs, and only the ends may be empty |
| NaturalOrder.NaturalTies | Analyzer.py:72-74 | two names are tied under the natural order exactly when their keys are equal |
| NaturalOrder.NaturalLessIsStrictWeakOrder | Analyzer.py:242 | comparing natural keys is irreflexive and transitive, and being tied is transitive too, so sorting by it is well defined |
| NaturalOrder.NumberedKey | Analyzer.py:72-74 | a digit-free prefix, then `str(n)`, then a rest not starting with a digit has key `[prefix.lower(), n]` followed by the rest's key |
| NaturalOrder.NumberedNamesOrder | Analyzer.py:242 | `prefix+str(m)+rest` sorts before `prefix+str(n)+rest` exactly when `m < n` (so `a2b` before `a10b`) |
| NaturalOrder.SubBoardExample | Analyzer.py:242 | "细分榜单2" comes before "细分榜单10" naturally, although plain string order puts it after |
| Analyzer.BracketSpan | Analyzer.py:148-152 | the cut text runs from the first `[` to the last `]` inclusive, and is empty exactly when that `]` precedes the `[` |
| Analyzer.ExtractJson | Analyzer.py:144-162 | without a `[` or a `]` the result is `[]`; otherwise it is the decoded slice, or `[]` when decoding fails |
| Analyzer.ExtractIgnoresSurroundings | Analyzer.py:148-155 | prose before the array that has no `[` and prose after it that has no `]` do not change the extracted records |
| Analyzer.ExtractWrappedArray | Analyzer.py:144-155 | a reply made of a decodable array wrapped in bracket-free prose yields exactly that array's records |
| Analyzer.ExtractReversedBrackets | Analyzer.py:151-162 | a reply whose last `]` comes before its first `[` yields `[]`, because the empty slice fails to decode |
| Analyzer.FirstAnswer | Analyzer.py:116-133 | finds the first attempt below 3 whose reply is non-empty, and says that none exists when every attempt failed |
| Analyzer.RetrySpec | Analyzer.py:114-142 | between 1 and 3 calls, one pause fewer than calls, and each pause is 3 s after an exception and 2 s after an empty reply |
| Analyzer.AlwaysRaisingBackend | Analyzer.py:134-142 | a backend that always raises gives 3 calls, pauses [3, 3] and no records |
| Analyzer.GiveUp | Analyzer.py:114-142 | whatever mix of exceptions and empty replies fills the three attempts, the loop makes three calls, pauses after the first two as each outcome demands, and returns no records |
| Analyzer.AlwaysEmptyBackend | Analyzer.py:128-133 | a backend that always replies empty gives 3 calls, pauses [2, 2] and no records |
| Analyzer.RetryStopsAtFirstAnswer | Analyzer.py:125-127 | the loop stops at the first non-empty reply and returns what is extracted from it |
| Analyzer.GenerateWithRetry | Analyzer.py:114-142 | the retry loop makes exactly the calls and pauses, and returns the records, that the retry specification gives |
| Analyzer.Stem | Analyzer.py:85 | `x.split('.')[0]`: a dot-free prefix of the name, followed by a dot when shorter |
| Analyzer.ImageKey | Analyzer.py:85 | the sort key is the stem's value when the stem is all digits, and -1 otherwise |
| Analyzer.ImageLessIsStrictWeakOrder | Analyzer.py:85 | ordering images by key is a strict weak order |
| Analyzer.ImageOrder | Analyzer.py:84-85 | the image list is a permutation of the `.png`/`.jpg` files, sorted by key |
| Analyzer.ImageOrderStable | Analyzer.py:85 | the sort is stable: the images tied with any name (equal keys) appear in listing order |
| Analyzer.ImageOrderMembers | Analyzer.py:84 | a name is in the image list exactly when it is in the folder and ends in `.png` or `.jpg` |
| Analyzer.ImageOrderNumbered | Analyzer.py:85 | non-numeric names come before numbered ones, and numbered screenshots are in ascending number |
| Analyzer.LoadedImagesAreTheLoadable | Analyzer.py:92-105 | an image is sent exactly when it is an image file of the folder that could be opened |
| Analyzer.LoadedImagesInOrder | Analyzer.py:92-105 | loading keeps the sorted order |
| Analyzer.FolderSpec | Analyzer.py:76-142 | the model is called at all exactly when at least one image loaded; otherwise nothing is returned and nothing waited |
| Analyzer.NoImagesNoCall | Analyzer.py:87-89 | a folder with no image file makes no call and returns `[]` |
| Analyzer.LoadImages | Analyzer.py:92-105 | the loading loop keeps exactly the loadable images, in order |
| Analyzer.ProcessFolder | Analyzer.py:76-142 | sends exactly the loaded images and behaves as the folder specification says |
| Analyzer.DetermineJsonFilename | Analyzer.py:164-173 | the name ends in `.json` and its stem is the first record's `榜单`, or `未知榜单` when that record lacks one or the data is empty |
| Analyzer.SavedFileName | Analyzer.py:175-189 | nothing is written exactly when the data is empty; the main board is saved as `主榜单.json`, every other board under `DetermineJsonFilename` |
| Analyzer.SubBoardFileNamedByFirstRecord | Analyzer.py:186-189 | a sub-board file is named after its first record's `榜单` (even an empty one gives `.json`, a hidden file Upload skips), not after its folder |
| Analyzer.Classify | Analyzer.py:257-262 | below, matching or above standard exactly when the count is `< 20`, `== 20` or `> 20` |
| Analyzer.SubBoards | Analyzer.py:235-239 | every collected sub-board is a directory of the city folder |
| Analyzer.BoardOrderShape | Analyzer.py:226-250 | the processed boards are the main board, when present, followed by a naturally sorted permutation of the `细分榜单*` directories |
| Analyzer.SubBoardsStable | Analyzer.py:242 | the sort is stable: sub-boards with equal natural keys are processed in listing order |
| Analyzer.SubBoardsByNumber | Analyzer.py:242-250 | `细分榜单m` is processed before `细分榜单n` only if `m <= n` |
| Analyzer.CollectSubBoards | Analyzer.py:235-239 | the collection loop keeps exactly the listed directories whose names start with `细分榜单`, in listing order |
| Analyzer.ProcessBoards | Analyzer.py:245-250 | the processing loop extends the processed boards and saved files by exactly the given boards |
| Analyzer.FinalFilesNames | Analyzer.py:175-196 | after the writes, a file exists exactly when some write used its name |
| Analyzer.FinalFilesHoldLastWrite | Analyzer.py:191-193 | a file holds the records of the last write to its name, since `open(..., 'w')` replaces the earlier contents |
| Analyzer.SavedFileNamesCollide | Analyzer.py:164-189 | two sub-boards whose first records lack `榜单` both write `未知榜单.json`, and a sub-board whose first record's `榜单` is `主榜单` writes the main board's file |
| Analyzer.LaterBoardOverwrites | Analyzer.py:191-193 | of two writes to one name, only the later one's records remain |
| Analyzer.RunAnalysis | Analyzer.py:224-262 | processes the boards in board order, saves what each yields, counts one folder per board and classifies that count |
| Analyzer.StandardRun | Analyzer.py:224-262 | with the main board present, 19 sub-boards meet the standard and 18 fall below it |
| Analyzer.RunCity | Analyzer.py:211 | the city is the part of the folder name before the first `_` (the whole name when it has none) |
| Upload.CityFromDirName | Upload.py:37-42 | the city is the non-empty `_`-free text before the first `_`, when there is such text; `未知` otherwise |
| Upload.ExtractCity | Upload.py:28-42 | the city read from a file path is never empty and contains no `_` |
| Upload.CityOfTimestampedFolder | Upload.py:28-42 | a file in `<parent>/<city>_<stamp>/` yields that city |
| Upload.CheckRecords | Upload.py:50-55 | checking from record `i` succeeds exactly when every later record is complete; otherwise it names the first missing field of the first incomplete record |
| Upload.ValidateData | Upload.py:44-55 | succeeds exactly on a non-empty list of complete records; an empty list gives the non-empty-list error, otherwise the first missing field is reported |
| Upload.HandleMissingRequiredFields | Upload.py:78-97 | keeps exactly the complete records, in order, and counts the ones it skips |
| Upload.SkippedAreTheIncomplete | Upload.py:83-92 | the skipped count is the number of incomplete records |
| Upload.FilteredPassesValidation | Upload.py:78-97 | what survives filtering passes validation exactly when it is not empty |
| Seqs.FilterIdempotent | Upload.py:78-97 | filtering twice keeps the same records as filtering once |
| Seqs.SortByStable | Analyzer.py:85 | insertion by a strict weak order is a stable sort: the elements tied with any value keep their relative order |
| Upload.Deduplicated | Upload.py:57-76 | same length; nothing but the brand changes; a record whose key occurs for the n-th time with n > 1 gets `_n` appended to its brand, and the first occurrence keeps it |
| Upload.HandleDuplicateKeys | Upload.py:57-76 | the renaming loop, with its counter map, gives the deduplicated records |
| Upload.CountKeyPositive | Upload.py:60-65 | a key has been counted exactly when some record carries it |
| Upload.OccurrenceCountsEarlier | Upload.py:63-74 | a record's counter is one more than its earlier duplicates, and it is left unchanged exactly when it has none |
| Upload.OccurrencesIncrease | Upload.py:65-70 | later duplicates of a key get strictly larger counters |
| Upload.UniqueKeysWithoutUnderscores | Upload.py:57-76 | when no brand contains `_`, the output keys are pairwise distinct |
| Upload.DuplicateKeyCanSurvive | Upload.py:57-76 | a brand that already ends in `_2` can collide with a renamed duplicate: `[x, x_2, x]` becomes `[x, x_2, x_2]` |
| Upload.Tagged | Upload.py:124-128 | a tagged record has `榜单` set to the board, `城市` set to the city, and every other field unchanged |
| Upload.TaggedValid | Upload.py:117-128 | filtering then tagging yields one keyed, tagged record per complete input record |
| Upload.ProcessedFileErrors | Upload.py:99-114 | processing succeeds exactly on a non-empty array; an unreadable file and a non-array or empty array are errors |
| Upload.ProcessedFileRecords | Upload.py:99-133 | a processed file holds one record per complete input record, each tagged with the file's base name without its extension and its folder's city |
| Upload.FilterBeforeOverwrite | Upload.py:113-128 | completeness is judged before `榜单` is overwritten, so a record lacking `榜单` is dropped |
| Upload.ProcessJsonFile | Upload.py:99-133 | the file's processing steps give the processed-file result |
| Upload.TransformRecords | Upload.py:117-131 | filter, tag and deduplicate in that order |
| Upload.TagRecords | Upload.py:120-128 | the tagging loop tags every record in place of the original |
| Upload.UploadToSupabase | Upload.py:135-152 | succeeds exactly when the data validates and the upsert succeeds; a validation error is reported as such |
| Upload.EmptyAfterFilteringFails | Upload.py:117-138 | a non-empty file whose records are all incomplete counts as a failed file |
| Upload.CandidateBoardNonEmpty | Upload.py:101-102 | a visible `.json` file names a non-empty board |
| Upload.TransformedPassesValidation | Upload.py:117-138 | with a non-empty board, the transformed records are as many as the complete ones and pass validation exactly when there is one |
| Upload.FileOutcomeCases | Upload.py:172-187 | a visible `.json` file uploads exactly when it holds an array with a complete record and the upsert succeeds; it then uploads as many records as it has complete ones |
| Upload.TallyAccounts | Upload.py:159-189 | total files is successes plus failures; total is the number of visible `.json` files, successes the number that upload, and the record total the sum of the complete records of the files that upload |
| Upload.UploadFile | Upload.py:172-187 | one file's outcome: its record count when it uploads, a failure otherwise |
| Upload.ProcessDirectory | Upload.py:154-189 | a missing directory gives no summary; otherwise the walk's counters are the tally of its files |
| Config.HalfFloor | Config.py:28-29 | `d // 2` is the floor of half, for negative `d` too |
| Config.Midpoint | Config.py:28-29 | the coordinate lies between the two corners, at the first corner plus half their signed distance rounded down |
| Config.SimulatorCenter | Config.py:24-30 | each centre coordinate is between the corners, at the floored midpoint |
| Config.CenterReadsOnlyCorners | Config.py:24-30 | the centre depends only on the two corner entries |
| Config.DefaultCenter | Config.py:11-30 | the configured corners give the centre (756, 521) |
| Handoff.CityConventionsAgree | Analyzer.py:211 | Analyzer's city (before the first `_`) equals Upload's exactly when the name has a non-empty city before a `_`, or is `未知` itself |
| Handoff.HiddenBoardFileSkipped | Upload.py:168 | a board file Analyzer writes for a board that is empty or starts with `.` (`.json`, `.x.json`) is hidden, so Upload skips it: not processed, not uploaded, not counted |
| Handoff.BoardFileLoaded | Upload.py:168 | a file `<board>.json` with a non-empty board is walked by Upload exactly when the board does not start with `.` |
| Handoff.BoardNameRoundTrip | Upload.py:101-102 | a board saved as `分析结果文件/<run folder>/<board>.json` is loaded by Upload exactly when the board does not start with `.`, and its file name gives back the board name `<board>` |
| Handoff.LoadedCityIsRunCity | Upload.py:28-42 | the city Upload derives for any file in `分析结果文件/<city>_<stamp>/` (and so gives every record of a loaded file there) is the city Analyzer derived from that folder name |

## Left out

- File system, screenshots and network are parameters. A folder is its file
  listing, the set of images that fail to open, and a backend function from
  attempt number to outcome. A city folder is its listing and a map from
  directory name to folder. A walked file is its content and whether its
  upsert succeeds.
- The JSON grammar is not modelled: `json.loads` is a parameter `decode` that
  returns the records or fails. Replies decoding to something other than an
  array of objects are not modelled.
- Record values are text. Non-string values and other falsy values (`0`,
  `null`, `[]`) are not modelled; "falsy" is the empty string.
- Printing, `traceback`, `time.sleep` (the pauses are recorded as a
  sequence instead), `os.makedirs` and `json.dump` writing the file are left
  out. The saved file is modelled by its name and records only.
- Analyzer.py:10-63 (API key, SDK setup, prompt) and the command-line
  handling at Analyzer.py:198-208 and Upload.py:191-196 are left out. So is
  the Supabase client at Upload.py:1-23. Search.py and Locate.py are not part
  of this model. Neither are `scroll_down` and the `categories` coordinates
  in Config.py.
- `os.listdir` and `os.walk` order is the order of the given sequence.
  `os.walk` recursion into sub-directories is flattened into one sequence of
  files, each carrying its root.
- `str.isdigit`, the `\d` of `re.split(r'(\d+)', …)` at Analyzer.py:74 and
  `str.lower` are modelled on ASCII digits and letters only; Python's also
  take other Unicode digits and letters (such as the full-width `１`).
- Analyzer.ProcessFolder: does not model the `os.path.exists` guard at
  Analyzer.py:79-81, because every folder it is called on comes from the
  listing.
- Analyzer.RunAnalysis: the run aborting and writes outside the city folder
  are not modelled. A `榜单` containing `/` can make `open` raise at
  Analyzer.py:193 (when a directory on its path is missing), or write outside
  the city folder: `../x` lands next to it, and an absolute `/tmp/x` makes
  `os.path.join` at Analyzer.py:192 drop the output folder altogether, so the
  file is `/tmp/x.json`. A plain file named `主榜单`
  makes `os.listdir` raise at Analyzer.py:84; `main` catches neither, so the
  remaining boards are skipped and no verdict is printed. The model treats
  `主榜单` as present when it is a directory. `saved` lists the writes in
  order, and `FinalFiles` gives what is left on disk when names collide.
- Upload.ProcessJsonFile: does not model the `isinstance(record, dict)` check
  at Upload.py:121-122, because records are maps by construction.
- Upload.HandleDuplicateKeys: requires every record to carry both key fields.
  The source raises `KeyError` otherwise, and its only caller passes records
  that have been filtered for both fields.
- Records are values. The in-place update of the loaded records at
  Upload.py:120-128 is modelled as building new records. The aliasing between
  `record` and the list (and between unrenamed output records and input
  records) is not modelled.
