/** The extraction side (Analyzer.py): which screenshots of a board folder
    are sent, how the model's reply is turned into records, the bounded
    retry around the model call, the name of the file each board is saved
    to, and the order and count of the boards of a run. */
module Analyzer {
  import opened Wrappers
  import opened Text
  import opened Seqs
  import opened Records
  import opened NaturalOrder

  // ---------------------------------------------------------------------
  // Parsing the model's reply

  /** `json.loads` applied to the bracketed part of a reply: the records of
      the decoded array, or None where it raises `JSONDecodeError`. */
  type Decoder = string -> Option<seq<Record>>

  /** `response_text[start_idx:end_idx]`: from the first '[' through the
      last ']', and empty when that ']' comes before the '['. */
  function BracketSpan(text: string): (span: string)
    requires '[' in text && ']' in text
    ensures span == [] <==> RFind(text, ']') < Find(text, '[')
    ensures span != [] ==> span[0] == '[' && span[|span| - 1] == ']'
    ensures span != [] ==> span == text[Find(text, '[')..RFind(text, ']') + 1]
  {
    Slice(text, Find(text, '['), RFind(text, ']') + 1)
  }

  /** `extract_json_from_response`: decode the bracketed part of the reply;
      a reply without a '[' or without a ']', or whose bracketed part does
      not decode, degrades to no records. */
  function ExtractJson(text: string, decode: Decoder): (records: seq<Record>)
    ensures '[' !in text || ']' !in text ==> records == []
    ensures '[' in text && ']' in text ==>
      records == if decode(BracketSpan(text)).Some? then decode(BracketSpan(text)).value else []
  {
    var start, end := Find(text, '['), RFind(text, ']') + 1;
    if start != -1 && end != 0 then
      match decode(Slice(text, start, end))
      case Some(records) => records
      case None => []
    else
      []
  }

  /** The span runs from `start` up to `end` when those are the positions
      of the first '[' and just past the last ']'. */
  lemma BracketSpanIs(text: string, start: nat, end: nat)
    requires '[' in text && ']' in text
    requires Find(text, '[') == start && RFind(text, ']') + 1 == end
    ensures BracketSpan(text) == Slice(text, start, end)
  {
  }

  /** The brackets of `body` are those of `text`, shifted by `offset`, when
      `body` sits at `offset` in `text`, no '[' comes before it and no ']'
      after it. */
  lemma BracketsShifted(text: string, body: string, offset: nat)
    requires '[' in body && ']' in body && offset + |body| <= |text|
    requires text[offset..offset + |body|] == body
    requires '[' !in text[..offset] && ']' !in text[offset + |body|..]
    ensures '[' in text && ']' in text
    ensures Find(text, '[') == offset + Find(body, '[')
    ensures RFind(text, ']') == offset + RFind(body, ']')
  {
    FindShifted(text, body, offset, '[');
    RFindShifted(text, body, offset, ']');
  }

  /** The span of `text` is the span of `body` when `body` sits at `offset`
      in `text`, no '[' comes before it and no ']' after it. */
  lemma BracketSpanOfPart(text: string, body: string, offset: nat)
    requires '[' in body && ']' in body && offset + |body| <= |text|
    requires text[offset..offset + |body|] == body
    requires '[' !in text[..offset] && ']' !in text[offset + |body|..]
    ensures '[' in text && ']' in text
    ensures BracketSpan(text) == BracketSpan(body)
  {
    var first, end := Find(body, '['), RFind(body, ']') + 1;
    var shiftedFirst, shiftedEnd := offset + first, offset + end;
    BracketsShifted(text, body, offset);
    SliceShifted(text, body, offset, first, end, shiftedFirst, shiftedEnd);
    BracketSpanIs(text, shiftedFirst, shiftedEnd);
    BracketSpanIs(body, first, end);
  }

  lemma BracketSpanInContext(before: string, body: string, after: string)
    requires '[' !in before && ']' !in after
    requires '[' in body && ']' in body
    ensures BracketSpan(before + body + after) == BracketSpan(body)
  {
    var text := before + body + after;
    assert text[..|before|] == before;
    assert text[|before|..|before| + |body|] == body;
    assert text[|before| + |body|..] == after;
    BracketSpanOfPart(text, body, |before|);
  }

  /** Text before the first '[' or after the last ']' cannot change what is
      extracted. */
  lemma ExtractIgnoresSurroundings(before: string, body: string, after: string, decode: Decoder)
    requires '[' !in before && ']' !in after
    requires '[' in body && ']' in body
    ensures ExtractJson(before + body + after, decode) == ExtractJson(body, decode)
  {
    BracketSpanInContext(before, body, after);
  }

  /** A reply that is itself the text of an array decodes to that array,
      and so does that text wrapped in bracket-free prose. */
  lemma ExtractWrappedArray(before: string, arrayText: string, after: string, records: seq<Record>, decode: Decoder)
    requires |arrayText| >= 2 && arrayText[0] == '[' && arrayText[|arrayText| - 1] == ']'
    requires decode(arrayText) == Some(records)
    requires '[' !in before && ']' !in after
    ensures ExtractJson(arrayText, decode) == records
    ensures ExtractJson(before + arrayText + after, decode) == records
  {
    assert '[' in arrayText && ']' in arrayText;
    assert Find(arrayText, '[') == 0;
    RFindInContext(arrayText[..|arrayText| - 1], "]", [], ']');
    assert arrayText[..|arrayText| - 1] + "]" + [] == arrayText;
    assert arrayText[0..|arrayText|] == arrayText;
    ExtractIgnoresSurroundings(before, arrayText, after, decode);
  }

  /** When the last ']' comes before the first '[' the slice is empty, which
      `json.loads` rejects, so nothing is extracted. */
  lemma ExtractReversedBrackets(text: string, decode: Decoder)
    requires '[' in text && ']' in text && RFind(text, ']') < Find(text, '[')
    requires decode([]) == None
    ensures ExtractJson(text, decode) == []
  {
  }

  // ---------------------------------------------------------------------
  // The model call with bounded retry

  /** What one call of the model does: raise, or reply with a text (an empty
      text being an empty reply). */
  datatype CallOutcome = Raised | Replied(text: string)

  /** The model as seen by `process_folder`: the outcome of each attempt. */
  type Backend = nat -> CallOutcome

  const MaxRetries: nat := 3
  /** Seconds waited after a call that raised. */
  const RaisedBackoff: nat := 3
  /** Seconds waited after an empty reply. */
  const EmptyBackoff: nat := 2

  /** `response.text and len(response.text) > 0`. */
  predicate Answered(outcome: CallOutcome) {
    outcome.Replied? && |outcome.text| > 0
  }

  function Backoff(outcome: CallOutcome): nat {
    if outcome.Raised? then RaisedBackoff else EmptyBackoff
  }

  /** The waits after the first `n` attempts. */
  function Backoffs(backend: Backend, n: nat): (waits: seq<nat>)
    ensures |waits| == n
    ensures forall i :: 0 <= i < n ==> waits[i] == Backoff(backend(i))
  {
    if n == 0 then [] else Backoffs(backend, n - 1) + [Backoff(backend(n - 1))]
  }

  /** The first attempt, from `from` on and within the budget, that gets a
      non-empty reply. */
  function FirstAnswer(backend: Backend, from: nat): (k: Option<nat>)
    requires from <= MaxRetries
    ensures k.Some? ==> from <= k.value < MaxRetries && Answered(backend(k.value))
    ensures k.Some? ==> forall i :: from <= i < k.value ==> !Answered(backend(i))
    ensures k.None? ==> forall i :: from <= i < MaxRetries ==> !Answered(backend(i))
    decreases MaxRetries - from
  {
    if from == MaxRetries then None
    else if Answered(backend(from)) then Some(from)
    else FirstAnswer(backend, from + 1)
  }

  /** What a run of the retry loop produces: the records, how many calls
      were made and the waits in between, in seconds. */
  datatype Attempts = Attempts(records: seq<Record>, calls: nat, sleeps: seq<nat>)

  /** The retry policy: stop at the first non-empty reply and extract from
      it; otherwise give up with no records after `MaxRetries` calls.  A wait
      follows every failed attempt except the last. */
  function RetrySpec(backend: Backend, decode: Decoder): (a: Attempts)
    ensures 1 <= a.calls <= MaxRetries
    ensures |a.sleeps| == a.calls - 1
    ensures forall i :: 0 <= i < |a.sleeps| ==> a.sleeps[i] == Backoff(backend(i))
  {
    match FirstAnswer(backend, 0)
    case Some(k) => Attempts(ExtractJson(backend(k).text, decode), k + 1, Backoffs(backend, k))
    case None => Attempts([], MaxRetries, Backoffs(backend, MaxRetries - 1))
  }

  /** A backend that always raises is called exactly three times, with two
      waits of three seconds, and yields no records. */
  lemma AlwaysRaisingBackend(backend: Backend, decode: Decoder)
    requires forall i :: backend(i) == Raised
    ensures RetrySpec(backend, decode) == Attempts([], 3, [3, 3])
  {
    assert FirstAnswer(backend, 0).None?;
  }

  /** A backend that always replies with nothing is called three times, with
      two waits of two seconds. */
  lemma AlwaysEmptyBackend(backend: Backend, decode: Decoder)
    requires forall i :: backend(i) == Replied([])
    ensures RetrySpec(backend, decode) == Attempts([], 3, [2, 2])
  {
    assert FirstAnswer(backend, 0).None?;
  }

  /** Whatever mix of exceptions and empty replies fills all three
      attempts, the loop gives up after three calls with no records,
      having waited after the first two as each one's outcome demands. */
  lemma GiveUp(backend: Backend, decode: Decoder)
    requires forall i :: 0 <= i < MaxRetries ==> !Answered(backend(i))
    ensures RetrySpec(backend, decode) == Attempts([], MaxRetries, Backoffs(backend, MaxRetries - 1))
  {
    assert FirstAnswer(backend, 0).None?;
  }

  /** The loop returns on the first non-empty reply: the records are those
      extracted from that reply, and every earlier call failed. */
  lemma RetryStopsAtFirstAnswer(backend: Backend, decode: Decoder, k: nat)
    requires k < MaxRetries && Answered(backend(k))
    requires forall i :: 0 <= i < k ==> !Answered(backend(i))
    ensures RetrySpec(backend, decode).calls == k + 1
    ensures RetrySpec(backend, decode).records == ExtractJson(backend(k).text, decode)
  {
  }

  /** The retry loop of `process_folder`. */
  method GenerateWithRetry(backend: Backend, decode: Decoder)
    returns (records: seq<Record>, calls: nat, sleeps: seq<nat>)
    ensures Attempts(records, calls, sleeps) == RetrySpec(backend, decode)
  {
    calls, sleeps := 0, [];
    for attempt := 0 to MaxRetries
      invariant calls == attempt
      invariant forall i :: 0 <= i < attempt ==> !Answered(backend(i))
      invariant sleeps == Backoffs(backend, if attempt < MaxRetries then attempt else MaxRetries - 1)
    {
      var outcome := backend(attempt);
      calls := calls + 1;
      match outcome
      case Replied(text) =>
        if |text| > 0 {
          records := ExtractJson(text, decode);
          assert FirstAnswer(backend, 0) == Some(attempt) by {
            RetryStopsAtFirstAnswer(backend, decode, attempt);
          }
          return;
        }
        if attempt < MaxRetries - 1 {
          sleeps := sleeps + [EmptyBackoff];
        }
      case Raised =>
        if attempt < MaxRetries - 1 {
          sleeps := sleeps + [RaisedBackoff];
        }
    }
    records := [];
    assert FirstAnswer(backend, 0).None?;
  }

  // ---------------------------------------------------------------------
  // The screenshots of one board folder

  /** `f.endswith('.png') or f.endswith('.jpg')` (case-sensitive). */
  predicate IsImageFile(name: string) {
    EndsWith(name, ".png") || EndsWith(name, ".jpg")
  }

  /** `name.split('.')[0]`: everything before the first '.'. */
  function Stem(name: string): (stem: string)
    ensures '.' !in stem && StartsWith(name, stem)
    ensures stem != name ==> name[|stem|] == '.'
  {
    var dot := Find(name, '.');
    if dot == -1 then name else name[..dot]
  }

  /** The sort key of a screenshot: the number its name starts with, or -1
      when the part before the first '.' is not a numeral. */
  function ImageKey(name: string): (key: int)
    ensures key >= -1
    ensures key == -1 <==> !IsDigits(Stem(name))
    ensures key >= 0 ==> key == DigitsValue(Stem(name))
  {
    var stem := Stem(name);
    if IsDigits(stem) then DigitsValue(stem) else -1
  }

  predicate ImageLess(a: string, b: string) {
    ImageKey(a) < ImageKey(b)
  }

  lemma ImageLessIsStrictWeakOrder()
    ensures StrictWeakOrder(ImageLess)
  {
  }

  /** The image files of a listing in the order they are loaded: ascending
      by `ImageKey`, a permutation of the image files. */
  function ImageOrder(files: seq<string>): (images: seq<string>)
    ensures multiset(images) == multiset(Filter(files, IsImageFile))
    ensures SortedBy(images, ImageLess)
  {
    var candidates := Filter(files, IsImageFile);
    ImageLessIsStrictWeakOrder();
    SortBySorted(candidates, ImageLess);
    SortBy(candidates, ImageLess)
  }

  /** The sort is stable: screenshots with the same key (all the
      non-numeric ones, or numerals such as `1` and `01` of equal value)
      keep their listing order. */
  lemma ImageOrderStable(files: seq<string>, e: string)
    ensures Filter(ImageOrder(files), Ties(ImageLess, e)) == Filter(Filter(files, IsImageFile), Ties(ImageLess, e))
  {
    ImageLessIsStrictWeakOrder();
    SortByStable(Filter(files, IsImageFile), ImageLess, e);
  }

  /** The ordering neither adds nor drops a file: exactly the image files
      of the listing take part. */
  lemma ImageOrderMembers(files: seq<string>, name: string)
    ensures name in ImageOrder(files) <==> name in files && IsImageFile(name)
  {
    var candidates := Filter(files, IsImageFile);
    SameElements(ImageOrder(files), candidates, name);
    if name in candidates {
      FilterMember(files, IsImageFile, name);
    }
  }

  /** Screenshots whose names do not start with a number come before all
      numbered ones, and numbered ones come in ascending numeric order. */
  lemma ImageOrderNumbered(files: seq<string>, i: nat, j: nat)
    requires i < j < |ImageOrder(files)|
    ensures var images := ImageOrder(files);
      && (!IsDigits(Stem(images[j])) ==> !IsDigits(Stem(images[i])))
      && (IsDigits(Stem(images[i])) && IsDigits(Stem(images[j])) ==>
            DigitsValue(Stem(images[i])) <= DigitsValue(Stem(images[j])))
  {
    var images := ImageOrder(files);
    assert !ImageLess(images[j], images[i]);
  }

  /** A board folder: its listing, the files among them that fail to open
      as images, and the model that answers for it. */
  datatype Folder = Folder(files: seq<string>, unreadable: set<string>, backend: Backend)

  function Loadable(folder: Folder): string -> bool {
    name => name !in folder.unreadable
  }

  /** The screenshots that are loaded and sent, in the order they are sent. */
  function LoadedImages(folder: Folder): seq<string> {
    Filter(ImageOrder(folder.files), Loadable(folder))
  }

  /** Exactly the image files of the folder that open are sent. */
  lemma LoadedImagesAreTheLoadable(folder: Folder, name: string)
    ensures name in LoadedImages(folder) <==>
      name in folder.files && IsImageFile(name) && name !in folder.unreadable
  {
    var images := ImageOrder(folder.files);
    ImageOrderMembers(folder.files, name);
    if name in LoadedImages(folder) {
      FilterMember(images, Loadable(folder), name);
    }
    if name in images && name !in folder.unreadable {
      var k :| 0 <= k < |images| && images[k] == name;
    }
  }

  /** The screenshots are sent in ascending `ImageKey` order. */
  lemma LoadedImagesInOrder(folder: Folder)
    ensures SortedBy(LoadedImages(folder), ImageLess)
  {
    FilterKeepsSorted(ImageOrder(folder.files), Loadable(folder), ImageLess);
  }

  /** `process_folder`: no call is made when no screenshot loads; otherwise
      the retry policy decides. */
  function FolderSpec(folder: Folder, decode: Decoder): (a: Attempts)
    ensures a.calls == 0 <==> LoadedImages(folder) == []
    ensures a.calls == 0 ==> a.records == [] && a.sleeps == []
  {
    if LoadedImages(folder) == [] then Attempts([], 0, []) else RetrySpec(folder.backend, decode)
  }

  /** A folder with no image file at all yields nothing and makes no call. */
  lemma NoImagesNoCall(folder: Folder, decode: Decoder)
    requires forall i :: 0 <= i < |folder.files| ==> !IsImageFile(folder.files[i])
    ensures FolderSpec(folder, decode) == Attempts([], 0, [])
  {
    if ImageOrder(folder.files) != [] {
      ImageOrderMembers(folder.files, ImageOrder(folder.files)[0]);
    }
  }

  /** The loading loop of `process_folder`: every file that opens is kept,
      in order; one that fails is skipped. */
  method LoadImages(folder: Folder, imageFiles: seq<string>) returns (images: seq<string>)
    ensures images == Filter(imageFiles, Loadable(folder))
  {
    images := [];
    for i := 0 to |imageFiles|
      invariant images == Filter(imageFiles[..i], Loadable(folder))
    {
      FilterSnoc(imageFiles[..i], imageFiles[i], Loadable(folder));
      assert imageFiles[..i + 1] == imageFiles[..i] + [imageFiles[i]];
      if imageFiles[i] !in folder.unreadable {
        images := images + [imageFiles[i]];
      }
    }
    assert imageFiles[..|imageFiles|] == imageFiles;
  }

  /** `process_folder`, returning also the screenshots that were sent. */
  method ProcessFolder(folder: Folder, decode: Decoder)
    returns (records: seq<Record>, calls: nat, sleeps: seq<nat>, sent: seq<string>)
    ensures sent == LoadedImages(folder)
    ensures Attempts(records, calls, sleeps) == FolderSpec(folder, decode)
  {
    var imageFiles := ImageOrder(folder.files);
    if imageFiles == [] {
      return [], 0, [], [];
    }
    sent := LoadImages(folder, imageFiles);
    if sent == [] {
      return [], 0, [], sent;
    }
    records, calls, sleeps := GenerateWithRetry(folder.backend, decode);
  }

  // ---------------------------------------------------------------------
  // Output file names

  const MainBoard: string := "主榜单"
  const SubBoardPrefix: string := "细分榜单"
  const UnknownBoard: string := "未知榜单"
  const JsonSuffix: string := ".json"

  /** `determine_json_filename`: the board named by the first record, or
      the unknown-board name when there are no records or the first has no
      board field. */
  function DetermineJsonFilename(data: seq<Record>): (name: string)
    ensures EndsWith(name, JsonSuffix)
    ensures name[..|name| - |JsonSuffix|] ==
      if data != [] && BoardField in data[0] then data[0][BoardField] else UnknownBoard
  {
    if data == [] then UnknownBoard + JsonSuffix
    else
      var bannerName := if BoardField in data[0] then data[0][BoardField] else UnknownBoard;
      bannerName + JsonSuffix
  }

  /** `save_results`: the name of the file a board's records go to, or None
      when there is nothing to save. */
  function SavedFileName(data: seq<Record>, rankingType: string): (name: Option<string>)
    ensures name.None? <==> data == []
    ensures name.Some? ==> EndsWith(name.value, JsonSuffix)
    ensures name.Some? && rankingType == MainBoard ==> name.value == MainBoard + JsonSuffix
    ensures name.Some? && rankingType != MainBoard ==> name.value == DetermineJsonFilename(data)
  {
    if data == [] then None
    else if rankingType == MainBoard then Some(MainBoard + JsonSuffix)
    else Some(DetermineJsonFilename(data))
  }

  /** A sub-board file is named after what the model read as the board of
      the first record, not after the folder: a record whose board field
      is present but empty gives the file name ".json", a hidden file the
      loader then skips (Handoff.HiddenBoardFileSkipped). */
  lemma SubBoardFileNamedByFirstRecord(data: seq<Record>, folderName: string)
    requires data != [] && folderName != MainBoard
    ensures BoardField in data[0] ==> SavedFileName(data, folderName) == Some(data[0][BoardField] + JsonSuffix)
    ensures BoardField !in data[0] ==> SavedFileName(data, folderName) == Some(UnknownBoard + JsonSuffix)
    ensures BoardField in data[0] && data[0][BoardField] == [] ==> SavedFileName(data, folderName) == Some(".json")
  {
  }

  // ---------------------------------------------------------------------
  // A run over one city folder

  /** What the run reports about the number of folders analysed, measured
      against the 20 boards a complete capture holds. */
  datatype Completeness = BelowStandard | MatchesStandard | AboveStandard

  const StandardCount: nat := 20

  function Classify(count: nat): (c: Completeness)
    ensures c == BelowStandard <==> count < StandardCount
    ensures c == MatchesStandard <==> count == StandardCount
    ensures c == AboveStandard <==> count > StandardCount
  {
    if count < StandardCount then BelowStandard
    else if count == StandardCount then MatchesStandard
    else AboveStandard
  }

  /** A listing entry that is processed as a sub-board: a directory whose
      name starts with the sub-board prefix. */
  function IsSubBoard(dirs: map<string, Folder>): string -> bool {
    name => name in dirs && StartsWith(name, SubBoardPrefix)
  }

  /** The sub-boards of a run, in the order `main` processes them: the
      qualifying directories sorted by `natural_sort_key`. */
  function SubBoards(listing: seq<string>, dirs: map<string, Folder>): (subBoards: seq<string>)
    ensures forall i :: 0 <= i < |subBoards| ==> subBoards[i] in dirs
  {
    var candidates := Filter(listing, IsSubBoard(dirs));
    var subBoards := SortBy(candidates, NaturalLess);
    forall i | 0 <= i < |subBoards|
      ensures subBoards[i] in dirs
    {
      SameElements(subBoards, candidates, subBoards[i]);
      FilterMember(listing, IsSubBoard(dirs), subBoards[i]);
    }
    subBoards
  }

  /** The order in which `main` processes the boards: the main board first
      when its folder exists, then the sub-boards. */
  function BoardOrder(listing: seq<string>, dirs: map<string, Folder>): seq<string> {
    (if MainBoard in dirs then [MainBoard] else []) + SubBoards(listing, dirs)
  }

  /** The sub-boards are the qualifying directories of the listing, each
      as often as listed, in natural order, and never the main board; the
      main board, when present, is processed first. */
  lemma BoardOrderShape(listing: seq<string>, dirs: map<string, Folder>)
    ensures var subBoards := SubBoards(listing, dirs);
      && multiset(subBoards) == multiset(Filter(listing, IsSubBoard(dirs)))
      && SortedBy(subBoards, NaturalLess)
      && MainBoard !in subBoards
    ensures MainBoard in dirs ==> BoardOrder(listing, dirs)[0] == MainBoard
  {
    var subBoards := SubBoards(listing, dirs);
    NaturalLessIsStrictWeakOrder();
    SortBySorted(Filter(listing, IsSubBoard(dirs)), NaturalLess);
    if MainBoard in subBoards {
      SameElements(subBoards, Filter(listing, IsSubBoard(dirs)), MainBoard);
      FilterMember(listing, IsSubBoard(dirs), MainBoard);
    }
  }

  /** The sort is stable: sub-boards with equal natural keys (say
      `细分榜单01` and `细分榜单1`) are processed in listing order. */
  lemma SubBoardsStable(listing: seq<string>, dirs: map<string, Folder>, e: string)
    ensures Filter(SubBoards(listing, dirs), Ties(NaturalLess, e)) ==
      Filter(Filter(listing, IsSubBoard(dirs)), Ties(NaturalLess, e))
  {
    NaturalLessIsStrictWeakOrder();
    SortByStable(Filter(listing, IsSubBoard(dirs)), NaturalLess, e);
  }

  lemma SubBoardPrefixHasNoDigits()
    ensures NoDigits(SubBoardPrefix)
  {
  }

  /** Two sub-board folders numbered `m` and `n` are processed in numeric
      order, whatever order the listing gives them in. */
  lemma SubBoardsByNumber(listing: seq<string>, dirs: map<string, Folder>, m: nat, n: nat, i: nat, j: nat)
    requires i < j < |SubBoards(listing, dirs)|
    requires SubBoards(listing, dirs)[i] == SubBoardPrefix + Decimal(m)
    requires SubBoards(listing, dirs)[j] == SubBoardPrefix + Decimal(n)
    ensures m <= n
  {
    NaturalLessIsStrictWeakOrder();
    SortBySorted(Filter(listing, IsSubBoard(dirs)), NaturalLess);
    assert !NaturalLess(SubBoards(listing, dirs)[j], SubBoards(listing, dirs)[i]);
    SubBoardPrefixHasNoDigits();
    assert SubBoardPrefix + Decimal(m) + [] == SubBoardPrefix + Decimal(m);
    assert SubBoardPrefix + Decimal(n) + [] == SubBoardPrefix + Decimal(n);
    NumberedNamesOrder(SubBoardPrefix, n, m, []);
  }

  /** A saved board file. */
  datatype SavedFile = SavedFile(name: string, records: seq<Record>)

  function SaveResults(data: seq<Record>, rankingType: string): seq<SavedFile> {
    match SavedFileName(data, rankingType)
    case Some(name) => [SavedFile(name, data)]
    case None => []
  }

  /** The records extracted for a board folder. */
  function BoardRecords(dirs: map<string, Folder>, board: string, decode: Decoder): seq<Record> {
    if board in dirs then FolderSpec(dirs[board], decode).records else []
  }

  /** The files written for the boards, in processing order. */
  function RunFiles(boards: seq<string>, dirs: map<string, Folder>, decode: Decoder): seq<SavedFile> {
    if boards == [] then []
    else
      var board := boards[|boards| - 1];
      RunFiles(boards[..|boards| - 1], dirs, decode) + SaveResults(BoardRecords(dirs, board, decode), board)
  }

  lemma RunFilesSnoc(boards: seq<string>, board: string, dirs: map<string, Folder>, decode: Decoder)
    ensures RunFiles(boards + [board], dirs, decode) ==
      RunFiles(boards, dirs, decode) + SaveResults(BoardRecords(dirs, board, decode), board)
  {
    assert (boards + [board])[..|boards|] == boards;
  }

  /** The files left on disk after the writes in order: a later write of
      a name replaces an earlier one. */
  function FinalFiles(saved: seq<SavedFile>): map<string, seq<Record>> {
    if saved == [] then map[]
    else FinalFiles(saved[..|saved| - 1])[saved[|saved| - 1].name := saved[|saved| - 1].records]
  }

  /** No later write has the same name as write `i`. */
  predicate LastWriteOf(saved: seq<SavedFile>, i: nat)
    requires i < |saved|
  {
    forall j :: i < j < |saved| ==> saved[j].name != saved[i].name
  }

  /** A file exists afterwards exactly when some write had its name. */
  lemma {:induction false} FinalFilesNames(saved: seq<SavedFile>, name: string)
    ensures name in FinalFiles(saved) <==> exists i :: 0 <= i < |saved| && saved[i].name == name
  {
    if saved != [] {
      var init, last := saved[..|saved| - 1], saved[|saved| - 1];
      FinalFilesNames(init, name);
      assert forall i :: 0 <= i < |init| ==> init[i] == saved[i];
      if name == last.name {
        assert saved[|saved| - 1].name == name;
      }
    }
  }

  /** What a file holds afterwards is what the last write of its name put
      there. */
  lemma {:induction false} FinalFilesHoldLastWrite(saved: seq<SavedFile>, i: nat)
    requires i < |saved| && LastWriteOf(saved, i)
    ensures saved[i].name in FinalFiles(saved)
    ensures FinalFiles(saved)[saved[i].name] == saved[i].records
  {
    var init := saved[..|saved| - 1];
    if i < |saved| - 1 {
      assert saved[|saved| - 1].name != saved[i].name;
      assert init[i] == saved[i];
      assert LastWriteOf(init, i) by {
        forall j | i < j < |init|
          ensures init[j].name != init[i].name
        {
          assert init[j] == saved[j];
        }
      }
      FinalFilesHoldLastWrite(init, i);
    }
  }

  /** `save_results` names files after the records, so separate boards can
      write the same file: two sub-boards whose first records have no board
      both write `未知榜单.json`, and a sub-board whose first record names the
      main board writes the main board's file. */
  lemma SavedFileNamesCollide(a: seq<Record>, boardA: string, b: seq<Record>, boardB: string)
    requires a != [] && b != [] && boardA != MainBoard && boardB != MainBoard
    ensures BoardField !in a[0] && BoardField !in b[0] ==>
      SavedFileName(a, boardA) == SavedFileName(b, boardB) == Some(UnknownBoard + JsonSuffix)
    ensures BoardField in a[0] && a[0][BoardField] == MainBoard ==>
      SavedFileName(a, boardA) == SavedFileName(a, MainBoard)
  {
  }

  /** Of two boards saving under one name only the later one's records
      remain. */
  lemma LaterBoardOverwrites(first: SavedFile, second: SavedFile)
    requires first.name == second.name
    ensures FinalFiles([first, second]) == map[second.name := second.records]
  {
    assert [first, second][..1] == [first];
    assert [first][..0] == [];
    assert FinalFiles([first]) == map[first.name := first.records];
    assert FinalFiles([first, second]) == map[first.name := first.records][second.name := second.records];
  }

  /** The listing loop of `main`: the directories whose names start with
      the sub-board prefix, in listing order. */
  method CollectSubBoards(listing: seq<string>, dirs: map<string, Folder>) returns (subdirectories: seq<string>)
    ensures subdirectories == Filter(listing, IsSubBoard(dirs))
  {
    subdirectories := [];
    for i := 0 to |listing|
      invariant subdirectories == Filter(listing[..i], IsSubBoard(dirs))
    {
      FilterSnoc(listing[..i], listing[i], IsSubBoard(dirs));
      assert listing[..i + 1] == listing[..i] + [listing[i]];
      if listing[i] in dirs && StartsWith(listing[i], SubBoardPrefix) {
        subdirectories := subdirectories + [listing[i]];
      }
    }
    assert listing[..|listing|] == listing;
  }

  /** The processing loop of `main`: each board in turn is analysed, its
      results saved and the folder counted. */
  method ProcessBoards(boards: seq<string>, dirs: map<string, Folder>, decode: Decoder,
                       processed0: seq<string>, saved0: seq<SavedFile>)
    returns (processed: seq<string>, saved: seq<SavedFile>)
    requires forall k :: 0 <= k < |boards| ==> boards[k] in dirs
    requires saved0 == RunFiles(processed0, dirs, decode)
    ensures processed == processed0 + boards
    ensures saved == RunFiles(processed, dirs, decode)
  {
    processed, saved := processed0, saved0;
    for i := 0 to |boards|
      invariant processed == processed0 + boards[..i]
      invariant saved == RunFiles(processed, dirs, decode)
    {
      var item := boards[i];
      TakeSnoc(boards, i);
      RunFilesSnoc(processed, item, dirs, decode);
      var categoryResults, _, _, _ := ProcessFolder(dirs[item], decode);
      saved := saved + SaveResults(categoryResults, item);
      processed := processed + [item];
    }
    assert boards[..|boards|] == boards;
  }

  /** `main` over one city folder: `listing` is `os.listdir` of it and
      `dirs` its sub-directories.  Returns the boards in processing order,
      the files written, the folder count and the verdict on it. */
  method RunAnalysis(listing: seq<string>, dirs: map<string, Folder>, decode: Decoder)
    returns (processed: seq<string>, saved: seq<SavedFile>, folderCount: nat, verdict: Completeness)
    ensures processed == BoardOrder(listing, dirs)
    ensures saved == RunFiles(processed, dirs, decode)
    ensures folderCount == |processed|
    ensures verdict == Classify(folderCount)
  {
    processed, saved := [], [];
    if MainBoard in dirs {
      processed, saved := ProcessBoards([MainBoard], dirs, decode, processed, saved);
    }
    var subdirectories := CollectSubBoards(listing, dirs);
    subdirectories := SortBy(subdirectories, NaturalLess);
    assert subdirectories == SubBoards(listing, dirs);
    processed, saved := ProcessBoards(subdirectories, dirs, decode, processed, saved);
    folderCount := |processed|;
    verdict := Classify(folderCount);
  }

  /** Every board folder counts, whether or not anything was extracted from
      it: a run over the main board and nineteen sub-boards matches the
      standard, and one sub-board fewer falls below it. */
  lemma StandardRun(listing: seq<string>, dirs: map<string, Folder>)
    requires MainBoard in dirs
    ensures |Filter(listing, IsSubBoard(dirs))| == 19 ==> Classify(|BoardOrder(listing, dirs)|) == MatchesStandard
    ensures |Filter(listing, IsSubBoard(dirs))| == 18 ==> Classify(|BoardOrder(listing, dirs)|) == BelowStandard
  {
  }

  /** `os.path.basename(input_folder).split('_')[0]`: the city as `main`
      derives it, everything before the first '_'. */
  function RunCity(folderName: string): (city: string)
    ensures '_' !in city && StartsWith(folderName, city)
    ensures city != folderName ==> folderName[|city|] == '_'
  {
    var underscore := Find(folderName, '_');
    if underscore == -1 then folderName else folderName[..underscore]
  }
}
