/** The loading side (Upload.py): the record transforms applied to each
    board file before it is upserted, the validation gate in front of the
    upsert, and the per-file tallies of a directory walk. */
module Upload {
  import opened Wrappers
  import opened Text
  import opened Paths
  import opened Seqs
  import opened Records

  /** `REQUIRED_FIELDS`. */
  const RequiredFields: seq<string> := [BoardField, BrandField]
  const UnknownCity: string := "未知"

  /** Why a file is not uploaded. */
  datatype UploadError =
    | NotANonEmptyList              // `validate_data`, Upload.py:46-47
    | MissingRequiredField(field: string)
    | InvalidFileFormat             // `process_json_file`, Upload.py:113-114
    | FileUnreadable                // `open` or `json.load` raised
    | UpsertRejected                // the Supabase call raised

  // ---------------------------------------------------------------------
  // The city of a board file

  /** The regular expression `([^_]+)_` matches at the start of `name` with
      `city` as its group: a non-empty run without '_' followed by '_'. */
  ghost predicate CityPattern(name: string, city: string) {
    city != [] && '_' !in city && StartsWith(name, city + "_")
  }

  /** When the pattern matches, its group is the text before the first '_'. */
  lemma CityPatternAt(name: string, city: string)
    requires CityPattern(name, city)
    ensures Find(name, '_') == |city| && name[..|city|] == city
  {
    assert name[..|city| + 1] == city + "_";
    assert name[|city|] == '_';
    assert name[..|city|] == city;
  }

  /** The pattern matches when the first '_' has something before it. */
  lemma CityPatternWhenPrefixed(name: string)
    requires Find(name, '_') > 0
    ensures CityPattern(name, name[..Find(name, '_')])
  {
    var underscore := Find(name, '_');
    assert name[..underscore + 1] == name[..underscore] + "_";
  }

  /** `re.match(r'([^_]+)_', dir_name)` with the fallback to "未知": the
      group when the pattern matches, and "未知" when it does not. */
  function CityFromDirName(name: string): (city: string)
    ensures city != [] && '_' !in city
    ensures forall c :: CityPattern(name, c) ==> city == c
    ensures (forall c :: !CityPattern(name, c)) ==> city == UnknownCity
  {
    var underscore := Find(name, '_');
    forall c | CityPattern(name, c)
      ensures underscore == |c| && name[..|c|] == c
    {
      CityPatternAt(name, c);
    }
    if underscore > 0 then
      CityPatternWhenPrefixed(name);
      name[..underscore]
    else
      UnknownCity
  }

  /** `extract_city_from_path`: the city of the directory holding the file. */
  function ExtractCity(filePath: string): (city: string)
    ensures city != [] && '_' !in city
  {
    CityFromDirName(Basename(Dirname(filePath)))
  }

  /** A directory named `{city}_{timestamp}` gives back the city, whatever
      the timestamp. */
  lemma CityOfTimestampedFolder(parent: string, city: string, stamp: string, name: string)
    requires city != [] && '_' !in city && '/' !in city + stamp && '/' !in name
    requires parent != [] && parent[|parent| - 1] != '/'
    ensures ExtractCity(Join(Join(parent, city + "_" + stamp), name)) == city
  {
    var dir := Join(parent, city + "_" + stamp);
    JoinThenSplit(parent, city + "_" + stamp);
    JoinThenSplit(dir, name);
    assert (city + "_" + stamp)[..|city| + 1] == city + "_";
    assert CityPattern(city + "_" + stamp, city);
  }

  // ---------------------------------------------------------------------
  // The validation gate

  /** Both required fields are present and non-empty. */
  predicate Complete(r: Record) {
    Truthy(r, BoardField) && Truthy(r, BrandField)
  }

  /** The field `validate_data` reports for an incomplete record: the first
      of `REQUIRED_FIELDS` that is missing or empty. */
  function FirstMissingField(r: Record): string {
    if !Truthy(r, BoardField) then BoardField else BrandField
  }

  /** Record `j` is the first incomplete one from record `i` on. */
  predicate FirstIncomplete(data: seq<Record>, i: nat, j: nat)
    requires i <= j < |data|
  {
    !Complete(data[j]) && forall k :: i <= k < j ==> Complete(data[k])
  }

  /** The loop of `validate_data` from record `i` on. */
  function CheckRecords(data: seq<Record>, i: nat): (r: Result<bool, UploadError>)
    requires i <= |data|
    ensures r.Ok? <==> forall j :: i <= j < |data| ==> Complete(data[j])
    ensures r.Ok? ==> r.value
    ensures r.Err? ==> exists j :: i <= j < |data| && FirstIncomplete(data, i, j) && r.error == MissingRequiredField(FirstMissingField(data[j]))
    decreases |data| - i
  {
    if i == |data| then Ok(true)
    else if !Truthy(data[i], BoardField) then Err(MissingRequiredField(BoardField))
    else if !Truthy(data[i], BrandField) then Err(MissingRequiredField(BrandField))
    else CheckRecords(data, i + 1)
  }

  /** `validate_data`: passes exactly a non-empty list of complete records;
      otherwise names the first missing field of the first incomplete
      record. */
  function ValidateData(data: seq<Record>): (r: Result<bool, UploadError>)
    ensures r.Ok? <==> data != [] && forall j :: 0 <= j < |data| ==> Complete(data[j])
    ensures r.Ok? ==> r.value
    ensures data == [] ==> r == Err(NotANonEmptyList)
    ensures data != [] && r.Err? ==>
      exists j :: 0 <= j < |data| && FirstIncomplete(data, 0, j) && r.error == MissingRequiredField(FirstMissingField(data[j]))
  {
    if data == [] then Err(NotANonEmptyList) else CheckRecords(data, 0)
  }

  // ---------------------------------------------------------------------
  // Dropping incomplete records

  /** `handle_missing_required_fields`: keeps, in order, the records with
      both required fields; every other record is counted once. */
  method HandleMissingRequiredFields(data: seq<Record>) returns (validRecords: seq<Record>, skippedCount: nat)
    ensures validRecords == Filter(data, Complete)
    ensures skippedCount == |data| - |validRecords|
  {
    validRecords, skippedCount := [], 0;
    assert RequiredFields == [BoardField, BrandField];
    for i := 0 to |data|
      invariant validRecords == Filter(data[..i], Complete)
      invariant skippedCount == i - |validRecords|
    {
      var record := data[i];
      var isValid := true;
      for k := 0 to |RequiredFields|
        invariant isValid && skippedCount == i - |validRecords|
        invariant forall j :: 0 <= j < k ==> Truthy(record, RequiredFields[j])
      {
        var field := RequiredFields[k];
        if field !in record || record[field] == [] {
          assert !Complete(record);
          isValid := false;
          skippedCount := skippedCount + 1;
          break;
        }
      }
      if isValid {
        assert Truthy(record, RequiredFields[0]) && Truthy(record, RequiredFields[1]);
      }
      assert isValid <==> Complete(record);
      FilterSnoc(data[..i], record, Complete);
      TakeSnoc(data, i);
      if isValid {
        validRecords := validRecords + [record];
      }
    }
    assert data[..|data|] == data;
  }

  /** The skip count is the number of incomplete records. */
  lemma SkippedAreTheIncomplete(data: seq<Record>)
    ensures |data| - |Filter(data, Complete)| == |Filter(data, Complement(Complete))|
  {
    FilterPartition(data, Complete);
  }

  /** Whatever survives the filter passes the gate, unless nothing does. */
  lemma FilteredPassesValidation(data: seq<Record>)
    ensures ValidateData(Filter(data, Complete)).Ok? <==> Filter(data, Complete) != []
  {
  }

  // ---------------------------------------------------------------------
  // Renaming repeated keys

  predicate HasKey(r: Record) {
    BoardField in r && BrandField in r
  }

  /** The `(榜单, 品牌)` primary key of a record. */
  type Key = (string, string)

  function KeyOf(r: Record): Key
    requires HasKey(r)
  {
    (r[BoardField], r[BrandField])
  }

  predicate HasKeyOf(r: Record, key: Key) {
    HasKey(r) && KeyOf(r) == key
  }

  predicate AllKeyed(data: seq<Record>) {
    forall i :: 0 <= i < |data| ==> HasKey(data[i])
  }

  /** How many records of `data` carry `key`. */
  function CountKey(data: seq<Record>, key: Key): nat {
    if data == [] then 0
    else CountKey(data[..|data| - 1], key) + if HasKeyOf(data[|data| - 1], key) then 1 else 0
  }

  lemma CountKeyStep(data: seq<Record>, i: nat)
    requires i < |data|
    ensures forall key ::
      CountKey(data[..i + 1], key) == CountKey(data[..i], key) + if HasKeyOf(data[i], key) then 1 else 0
  {
    assert data[..i + 1][..i] == data[..i];
  }

  /** Record `i` is the how-many-th with its key. */
  function Occurrence(data: seq<Record>, i: nat): nat
    requires i < |data| && HasKey(data[i])
  {
    CountKey(data[..i + 1], KeyOf(data[i]))
  }

  /** Record `i` after `handle_duplicate_keys`: unchanged for the first
      occurrence of its key, otherwise a copy whose brand carries the
      occurrence number. */
  function DedupAt(data: seq<Record>, i: nat): Record
    requires i < |data| && HasKey(data[i])
  {
    var n := Occurrence(data, i);
    if n > 1 then data[i][BrandField := data[i][BrandField] + "_" + Decimal(n)] else data[i]
  }

  /** `after` is `before`, or a copy of it whose brand is suffixed with
      `_n` for some n >= 2. */
  ghost predicate KeptOrSuffixed(before: Record, after: Record)
    requires BrandField in before
  {
    after == before ||
    exists n: nat :: n >= 2 && after == before[BrandField := before[BrandField] + "_" + Decimal(n)]
  }

  /** `after` has the fields of `before`, with the same values except
      possibly the brand. */
  ghost predicate SameExceptBrand(before: Record, after: Record) {
    && after.Keys == before.Keys
    && forall f :: f in before && f != BrandField ==> after[f] == before[f]
  }

  /** What `handle_duplicate_keys` returns: one record per input record, in
      order, each kept or with its brand suffixed, and no other field
      touched. */
  function Deduplicated(data: seq<Record>): (out: seq<Record>)
    requires AllKeyed(data)
    ensures |out| == |data| && AllKeyed(out)
    ensures forall i :: 0 <= i < |data| ==> KeptOrSuffixed(data[i], out[i])
    ensures forall i :: 0 <= i < |data| ==> SameExceptBrand(data[i], out[i])
    ensures forall i :: 0 <= i < |data| ==>
      (out[i][BrandField] ==
         if Occurrence(data, i) > 1 then data[i][BrandField] + "_" + Decimal(Occurrence(data, i))
         else data[i][BrandField])
  {
    var out := seq(|data|, i requires 0 <= i < |data| => DedupAt(data, i));
    forall i | 0 <= i < |data|
      ensures KeptOrSuffixed(data[i], out[i])
    {
      var n := Occurrence(data, i);
      if n > 1 {
        assert out[i] == data[i][BrandField := data[i][BrandField] + "_" + Decimal(n)];
      }
    }
    out
  }

  /** A key count that defaults to zero, as `defaultdict(int)` does. */
  function SeenCount(seen: map<Key, nat>, key: Key): nat {
    if key in seen then seen[key] else 0
  }

  /** `handle_duplicate_keys`, with a fresh counter map per call. */
  method HandleDuplicateKeys(data: seq<Record>) returns (modifiedData: seq<Record>)
    requires AllKeyed(data)
    ensures modifiedData == Deduplicated(data)
  {
    var seenKeys: map<Key, nat> := map[];
    modifiedData := [];
    for i := 0 to |data|
      invariant |modifiedData| == i
      invariant forall j :: 0 <= j < i ==> modifiedData[j] == DedupAt(data, j)
      invariant forall key :: SeenCount(seenKeys, key) == CountKey(data[..i], key)
    {
      var record := data[i];
      var key := KeyOf(record);
      CountKeyStep(data, i);
      seenKeys := seenKeys[key := SeenCount(seenKeys, key) + 1];
      if seenKeys[key] > 1 {
        var newRecord := record[BrandField := record[BrandField] + "_" + Decimal(seenKeys[key])];
        modifiedData := modifiedData + [newRecord];
      } else {
        modifiedData := modifiedData + [record];
      }
    }
  }

  lemma {:induction false} CountKeyPositive(data: seq<Record>, key: Key)
    ensures CountKey(data, key) > 0 <==> exists j :: 0 <= j < |data| && HasKeyOf(data[j], key)
  {
    if data != [] {
      var init := data[..|data| - 1];
      CountKeyPositive(init, key);
      if j :| 0 <= j < |init| && HasKeyOf(init[j], key) {
        assert data[j] == init[j];
      }
      if j :| 0 <= j < |data| && HasKeyOf(data[j], key) {
        if j < |init| {
          assert init[j] == data[j];
        }
      }
    }
  }

  lemma {:induction false} CountKeyMonotone(data: seq<Record>, a: nat, b: nat, key: Key)
    requires a <= b <= |data|
    ensures CountKey(data[..a], key) <= CountKey(data[..b], key)
  {
    if a < b {
      CountKeyMonotone(data, a, b - 1, key);
      CountKeyStep(data, b - 1);
    }
  }

  /** The n-th record with a key is renamed with n, which counts the
      earlier records with the same key plus one; so the first occurrence
      passes through unchanged and every later one is renamed. */
  lemma OccurrenceCountsEarlier(data: seq<Record>, i: nat)
    requires AllKeyed(data) && i < |data|
    ensures Occurrence(data, i) == CountKey(data[..i], KeyOf(data[i])) + 1
    ensures Deduplicated(data)[i] == data[i] <==> forall j :: 0 <= j < i ==> KeyOf(data[j]) != KeyOf(data[i])
  {
    var key := KeyOf(data[i]);
    var earlier := data[..i];
    assert Occurrence(data, i) == CountKey(earlier, key) + 1 by {
      CountKeyStep(data, i);
    }
    assert CountKey(earlier, key) > 0 <==> exists j :: 0 <= j < i && KeyOf(data[j]) == key by {
      CountKeyPositive(earlier, key);
      forall j | 0 <= j < i
        ensures HasKeyOf(earlier[j], key) <==> KeyOf(data[j]) == key
      {
        assert earlier[j] == data[j];
      }
    }
    if Occurrence(data, i) > 1 {
      var renamed := Deduplicated(data)[i];
      assert |renamed[BrandField]| > |data[i][BrandField]|;
    }
  }

  /** Of two records with the same key, the later has the higher count. */
  lemma OccurrencesIncrease(data: seq<Record>, i: nat, j: nat)
    requires AllKeyed(data) && i < j < |data| && KeyOf(data[i]) == KeyOf(data[j])
    ensures Occurrence(data, i) < Occurrence(data, j)
  {
    CountKeyMonotone(data, i + 1, j, KeyOf(data[i]));
    CountKeyStep(data, j);
  }

  /** Text split at the first '_' determines both halves. */
  lemma SplitAtUnderscore(a: string, m: string, b: string, n: string)
    requires '_' !in a && '_' !in b
    requires a + "_" + m == b + "_" + n
    ensures a == b && m == n
  {
    FindInContext(a, "_", m, '_');
    FindInContext(b, "_", n, '_');
    assert (a + "_" + m)[..|a|] == a;
    assert (b + "_" + n)[..|b|] == b;
    assert (a + "_" + m)[|a| + 1..] == m;
    assert (b + "_" + n)[|b| + 1..] == n;
  }

  lemma DistinctOutputKeys(data: seq<Record>, i: nat, j: nat)
    requires AllKeyed(data) && i < j < |data|
    requires forall k :: 0 <= k < |data| ==> '_' !in data[k][BrandField]
    ensures KeyOf(Deduplicated(data)[i]) != KeyOf(Deduplicated(data)[j])
  {
    var out := Deduplicated(data);
    var ni, nj := Occurrence(data, i), Occurrence(data, j);
    OccurrenceCountsEarlier(data, i);
    OccurrenceCountsEarlier(data, j);
    if KeyOf(out[i]) == KeyOf(out[j]) {
      var bi, bj := data[i][BrandField], data[j][BrandField];
      if ni > 1 && nj > 1 {
        SplitAtUnderscore(bi, Decimal(ni), bj, Decimal(nj));
        DecimalInjective(ni, nj);
        OccurrencesIncrease(data, i, j);
      } else if ni <= 1 && nj <= 1 {
        OccurrencesIncrease(data, i, j);
      }
    }
  }

  /** When no brand contains '_', the renamed keys are all distinct. */
  lemma UniqueKeysWithoutUnderscores(data: seq<Record>)
    requires AllKeyed(data)
    requires forall k :: 0 <= k < |data| ==> '_' !in data[k][BrandField]
    ensures forall i, j :: 0 <= i < j < |data| ==>
      KeyOf(Deduplicated(data)[i]) != KeyOf(Deduplicated(data)[j])
  {
    forall i, j | 0 <= i < j < |data|
      ensures KeyOf(Deduplicated(data)[i]) != KeyOf(Deduplicated(data)[j])
    {
      DistinctOutputKeys(data, i, j);
    }
  }

  /** Without that condition the keys need not be distinct: the counter is
      kept per original key, so a brand already ending in `_2` collides
      with the rename of a later repeat. */
  lemma DuplicateKeyCanSurvive()
    ensures var x := map[BoardField := "b", BrandField := "x"];
      var x2 := map[BoardField := "b", BrandField := "x_2"];
      var out := Deduplicated([x, x2, x]);
      out == [x, x2, x2] && KeyOf(out[1]) == KeyOf(out[2])
  {
    var x := map[BoardField := "b", BrandField := "x"];
    var x2 := map[BoardField := "b", BrandField := "x_2"];
    var data := [x, x2, x];
    FieldsDistinct();
    assert KeyOf(x) != KeyOf(x2) by {
      assert |x[BrandField]| != |x2[BrandField]|;
    }
    assert data[..1] == [x] && data[..2] == [x, x2] && data[..3] == data;
    assert [x, x2][..1] == [x] && [x][..0] == [];
    assert CountKey([x], KeyOf(x)) == 1;
    assert CountKey([x], KeyOf(x2)) == 0;
    assert CountKey([x, x2], KeyOf(x2)) == 1;
    assert CountKey(data, KeyOf(x)) == 2;
    assert Decimal(2) == "2";
    assert "x" + "_" + Decimal(2) == "x_2";
    assert x[BrandField := "x_2"] == x2;
    assert Deduplicated(data)[2] == x2;
  }

  // ---------------------------------------------------------------------
  // One board file

  /** What `json.load` gives for a file: an array of records, another JSON
      value, or an exception from `open` or the decoder. */
  datatype FileContent = JsonArray(records: seq<Record>) | JsonOther | Unreadable

  /** A record after the tagging loop: board overwritten, city added, and
      every other field, the brand among them, left as it was. */
  function Tagged(r: Record, board: string, city: string): (t: Record)
    ensures t.Keys == r.Keys + {BoardField, CityField}
    ensures t[BoardField] == board && t[CityField] == city
    ensures forall f :: f in r && f != BoardField && f != CityField ==> t[f] == r[f]
    ensures BrandField in r ==> t[BrandField] == r[BrandField]
  {
    FieldsDistinct();
    r[BoardField := board][CityField := city]
  }

  /** The tagging loop of `process_json_file` over all records. */
  function TagAll(data: seq<Record>, board: string, city: string): seq<Record> {
    seq(|data|, i requires 0 <= i < |data| => Tagged(data[i], board, city))
  }

  /** The record has the given board and city, and a non-empty brand. */
  predicate HasTags(r: Record, board: string, city: string) {
    BoardField in r && r[BoardField] == board && CityField in r && r[CityField] == city && Truthy(r, BrandField)
  }

  /** Renaming keeps the tags. */
  lemma DeduplicatedKeepsTags(tagged: seq<Record>, board: string, city: string)
    requires AllKeyed(tagged)
    requires forall i :: 0 <= i < |tagged| ==> HasTags(tagged[i], board, city)
    ensures forall i :: 0 <= i < |tagged| ==> HasTags(Deduplicated(tagged)[i], board, city)
  {
    var out := Deduplicated(tagged);
    FieldsDistinct();
    forall i | 0 <= i < |tagged|
      ensures HasTags(out[i], board, city)
    {
      assert SameExceptBrand(tagged[i], out[i]);
      assert KeptOrSuffixed(tagged[i], out[i]);
    }
  }

  /** The complete records of the file, tagged. */
  function TaggedValid(records: seq<Record>, board: string, city: string): (tagged: seq<Record>)
    ensures AllKeyed(tagged)
    ensures |tagged| == |Filter(records, Complete)|
    ensures forall i :: 0 <= i < |tagged| ==> HasTags(tagged[i], board, city)
  {
    TagAll(Filter(records, Complete), board, city)
  }

  /** `os.path.splitext(os.path.basename(file_path))[0]`: the board a file's
      records are given. */
  function BoardOfFile(filePath: string): string {
    SplitExtRoot(Basename(filePath))
  }

  /** The records of a non-empty array after filtering, tagging and
      renaming. */
  function TransformedRecords(records: seq<Record>, board: string, city: string): seq<Record> {
    Deduplicated(TaggedValid(records, board, city))
  }

  /** What `process_json_file` returns for the file at `filePath`. */
  function ProcessedFile(filePath: string, content: FileContent): Result<seq<Record>, UploadError> {
    match content
    case Unreadable => Err(FileUnreadable)
    case JsonOther => Err(InvalidFileFormat)
    case JsonArray(records) =>
      if records == [] then Err(InvalidFileFormat)
      else Ok(TransformedRecords(records, BoardOfFile(filePath), ExtractCity(filePath)))
  }

  /** The file is rejected exactly when it cannot be read or does not hold
      a non-empty array. */
  lemma ProcessedFileErrors(filePath: string, content: FileContent)
    ensures ProcessedFile(filePath, content).Ok? <==> content.JsonArray? && content.records != []
    ensures content == Unreadable ==> ProcessedFile(filePath, content) == Err(FileUnreadable)
    ensures content.JsonOther? || content == JsonArray([]) ==> ProcessedFile(filePath, content) == Err(InvalidFileFormat)
  {
  }

  /** Each record returned carries the file's stem as its board, the
      directory's city and a brand; there is one per complete input
      record. */
  lemma ProcessedFileRecords(filePath: string, records: seq<Record>)
    requires records != []
    ensures var out := ProcessedFile(filePath, JsonArray(records)).value;
      && |out| == |Filter(records, Complete)| <= |records|
      && forall i :: 0 <= i < |out| ==> HasTags(out[i], BoardOfFile(filePath), ExtractCity(filePath))
  {
    var stem, city := BoardOfFile(filePath), ExtractCity(filePath);
    DeduplicatedKeepsTags(TaggedValid(records, stem, city), stem, city);
  }

  /** Incomplete records are dropped before the board is overwritten: a
      record without a board is not rescued by the file name, and a file
      of such records yields no records at all. */
  lemma FilterBeforeOverwrite(filePath: string)
    ensures ProcessedFile(filePath, JsonArray([map[BrandField := "x"]])) == Ok([])
  {
    var r: Record := map[BrandField := "x"];
    assert !Complete(r);
    assert Filter([r], Complete) == [];
  }

  /** `process_json_file`. */
  method ProcessJsonFile(filePath: string, content: FileContent) returns (r: Result<seq<Record>, UploadError>)
    ensures r == ProcessedFile(filePath, content)
  {
    var filename := Basename(filePath);
    var filenameWithoutExt := SplitExtRoot(filename);
    var city := ExtractCity(filePath);
    match content {
      case Unreadable =>
        return Err(FileUnreadable);
      case JsonOther =>
        return Err(InvalidFileFormat);
      case JsonArray(records) =>
        if records == [] {
          return Err(InvalidFileFormat);
        }
        var data := TransformRecords(records, filenameWithoutExt, city);
        return Ok(data);
    }
  }

  /** The three steps `process_json_file` applies to a non-empty array. */
  method TransformRecords(records: seq<Record>, board: string, city: string) returns (data: seq<Record>)
    ensures data == TransformedRecords(records, board, city)
  {
    var skippedCount;
    data, skippedCount := HandleMissingRequiredFields(records);
    data := TagRecords(data, board, city);
    data := HandleDuplicateKeys(data);
  }

  /** The tagging loop of `process_json_file`, updating each record in
      turn. */
  method TagRecords(valid: seq<Record>, board: string, city: string) returns (data: seq<Record>)
    ensures data == TagAll(valid, board, city)
  {
    data := valid;
    for i := 0 to |data|
      invariant |data| == |valid|
      invariant forall j :: 0 <= j < i ==> data[j] == Tagged(valid[j], board, city)
      invariant forall j :: i <= j < |data| ==> data[j] == valid[j]
    {
      var record := data[i];
      record := record[BoardField := board];
      record := record[CityField := city];
      data := data[i := record];
    }
  }

  // ---------------------------------------------------------------------
  // Upload and the directory walk

  /** `upload_to_supabase`: the gate, then the upsert, whose outcome is
      given. */
  function UploadToSupabase(data: seq<Record>, upsertSucceeds: bool): (r: Result<bool, UploadError>)
    ensures r.Ok? <==> ValidateData(data).Ok? && upsertSucceeds
    ensures ValidateData(data).Err? ==> r == Err(ValidateData(data).error)
  {
    match ValidateData(data)
    case Err(e) => Err(e)
    case Ok(_) => if upsertSucceeds then Ok(true) else Err(UpsertRejected)
  }

  /** A file met by `os.walk`: the directory it is in, its name, what
      `json.load` makes of it, and whether the upsert of its records
      succeeds. */
  datatype WalkedFile = WalkedFile(root: string, name: string, content: FileContent, upsertSucceeds: bool)

  /** A `.json` file that is not hidden. */
  predicate IsUploadCandidate(f: WalkedFile) {
    EndsWith(f.name, ".json") && !StartsWith(f.name, ".")
  }

  /** The number of records a file uploads, or None when processing or
      uploading it raises. */
  function FileOutcome(f: WalkedFile): Option<nat> {
    match ProcessedFile(Join(f.root, f.name), f.content)
    case Err(_) => None
    case Ok(data) => if UploadToSupabase(data, f.upsertSucceeds).Ok? then Some(|data|) else None
  }

  predicate Uploads(f: WalkedFile) {
    IsUploadCandidate(f) && FileOutcome(f).Some?
  }

  /** A file whose records are all dropped by the filter fails at the gate. */
  lemma EmptyAfterFilteringFails(f: WalkedFile)
    requires f.content.JsonArray? && f.content.records != []
    requires Filter(f.content.records, Complete) == []
    ensures FileOutcome(f) == None
  {
    ProcessedFileRecords(Join(f.root, f.name), f.content.records);
  }

  /** A visible `.json` file names a non-empty board. */
  lemma CandidateBoardNonEmpty(f: WalkedFile)
    requires IsUploadCandidate(f)
    ensures BoardOfFile(Join(f.root, f.name)) != []
  {
    var p := Join(f.root, f.name);
    assert f.name[|f.name| - 1] == 'n';
    assert p[|p| - 1] == 'n';
    BasenameNonEmpty(p);
    SplitExtRootNonEmpty(Basename(p));
  }

  /** With a non-empty board, the transformed records pass validation
      exactly when some input record was complete. */
  lemma TransformedPassesValidation(records: seq<Record>, board: string, city: string)
    requires board != []
    ensures |TransformedRecords(records, board, city)| == |Filter(records, Complete)|
    ensures ValidateData(TransformedRecords(records, board, city)).Ok? <==> Filter(records, Complete) != []
  {
    var tagged := TaggedValid(records, board, city);
    DeduplicatedKeepsTags(tagged, board, city);
  }

  /** A candidate file uploads exactly when it holds an array with a
      complete record and the upsert succeeds; it then uploads one record
      per complete record. */
  lemma FileOutcomeCases(f: WalkedFile)
    requires IsUploadCandidate(f)
    ensures FileOutcome(f).Some? <==>
      f.content.JsonArray? && Filter(f.content.records, Complete) != [] && f.upsertSucceeds
    ensures FileOutcome(f).Some? ==> FileOutcome(f).value == |Filter(f.content.records, Complete)|
  {
    var path := Join(f.root, f.name);
    if f.content.JsonArray? && f.content.records != [] {
      var records := f.content.records;
      var board, city := BoardOfFile(path), ExtractCity(path);
      var data := TransformedRecords(records, board, city);
      assert ProcessedFile(path, f.content) == Ok(data);
      assert |data| == |Filter(records, Complete)| && (ValidateData(data).Ok? <==> Filter(records, Complete) != []) by {
        CandidateBoardNonEmpty(f);
        TransformedPassesValidation(records, board, city);
      }
      assert FileOutcome(f) == if UploadToSupabase(data, f.upsertSucceeds).Ok? then Some(|data|) else None;
    } else {
      assert ProcessedFile(path, f.content).Err?;
      assert f.content.JsonArray? ==> Filter(f.content.records, Complete) == [];
    }
  }

  /** The records a file uploads when it does: its complete records. */
  function KeptRecords(f: WalkedFile): nat {
    if f.content.JsonArray? then |Filter(f.content.records, Complete)| else 0
  }

  function SumKept(files: seq<WalkedFile>): nat {
    if files == [] then 0 else SumKept(files[..|files| - 1]) + KeptRecords(files[|files| - 1])
  }

  lemma SumKeptSnoc(files: seq<WalkedFile>, f: WalkedFile)
    ensures SumKept(files + [f]) == SumKept(files) + KeptRecords(f)
  {
    assert (files + [f])[..|files|] == files;
  }

  /** The four counters of `process_directory`. */
  datatype Tally = Tally(totalRecords: nat, totalFiles: nat, successfulFiles: nat, failedFiles: nat)

  /** The counters after one more file, given what became of it. */
  function Count(t: Tally, f: WalkedFile, uploaded: Option<nat>): Tally {
    if !IsUploadCandidate(f) then t
    else match uploaded
      case Some(n) => Tally(t.totalRecords + n, t.totalFiles + 1, t.successfulFiles + 1, t.failedFiles)
      case None => Tally(t.totalRecords, t.totalFiles + 1, t.successfulFiles, t.failedFiles + 1)
  }

  /** What one more file adds to each counter. */
  lemma CountStep(t: Tally, f: WalkedFile, uploaded: Option<nat>)
    requires IsUploadCandidate(f) && uploaded.Some? ==> uploaded.value == KeptRecords(f)
    ensures var c := Count(t, f, uploaded);
      && c.totalFiles == t.totalFiles + (if IsUploadCandidate(f) then 1 else 0)
      && c.successfulFiles == t.successfulFiles + (if IsUploadCandidate(f) && uploaded.Some? then 1 else 0)
      && c.failedFiles == t.failedFiles + (if IsUploadCandidate(f) && uploaded.None? then 1 else 0)
      && c.totalRecords == t.totalRecords + (if IsUploadCandidate(f) && uploaded.Some? then KeptRecords(f) else 0)
  {
  }

  /** The counters after the given files. */
  function TallyOf(files: seq<WalkedFile>): Tally {
    if files == [] then Tally(0, 0, 0, 0)
    else Count(TallyOf(files[..|files| - 1]), files[|files| - 1], FileOutcome(files[|files| - 1]))
  }

  /** Every candidate file is counted once, as a success or as a failure;
      no other file is counted; the record total is the number of complete
      records over the files that upload. */
  lemma {:induction false} TallyAccounts(files: seq<WalkedFile>)
    ensures var t := TallyOf(files);
      && t.totalFiles == t.successfulFiles + t.failedFiles
      && t.totalFiles == |Filter(files, IsUploadCandidate)|
      && t.successfulFiles == |Filter(files, Uploads)|
      && t.totalRecords == SumKept(Filter(files, Uploads))
  {
    if files != [] {
      var init, last := files[..|files| - 1], files[|files| - 1];
      var outcome := FileOutcome(last);
      assert files == init + [last];
      assert TallyOf(files) == Count(TallyOf(init), last, outcome);
      assert IsUploadCandidate(last) && outcome.Some? ==> outcome.value == KeptRecords(last) by {
        if IsUploadCandidate(last) {
          FileOutcomeCases(last);
        }
      }
      CountStep(TallyOf(init), last, outcome);
      TallyAccounts(init);
      assert Filter(files, IsUploadCandidate)
          == Filter(init, IsUploadCandidate) + if IsUploadCandidate(last) then [last] else [] by {
        FilterSnoc(init, last, IsUploadCandidate);
      }
      assert Filter(files, Uploads) == Filter(init, Uploads) + if Uploads(last) then [last] else [] by {
        FilterSnoc(init, last, Uploads);
      }
      if Uploads(last) {
        assert TallyOf(files).totalRecords == TallyOf(init).totalRecords + KeptRecords(last);
        SumKeptSnoc(Filter(init, Uploads), last);
        assert SumKept(Filter(files, Uploads)) == SumKept(Filter(init, Uploads)) + KeptRecords(last);
      } else {
        assert TallyOf(files).totalRecords == TallyOf(init).totalRecords;
        assert Filter(files, Uploads) == Filter(init, Uploads);
      }
    }
  }

  /** The body of the walk loop for one candidate file. */
  method UploadFile(file: WalkedFile) returns (uploaded: Option<nat>)
    ensures uploaded == FileOutcome(file)
  {
    var filePath := Join(file.root, file.name);
    var data := ProcessJsonFile(filePath, file.content);
    if data.Ok? && UploadToSupabase(data.value, file.upsertSucceeds).Ok? {
      return Some(|data.value|);
    }
    return None;
  }

  lemma TallyStep(files: seq<WalkedFile>, i: nat)
    requires i < |files|
    ensures TallyOf(files[..i + 1]) == Count(TallyOf(files[..i]), files[i], FileOutcome(files[i]))
  {
    assert files[..i + 1][..i] == files[..i];
  }

  /** `process_directory`: nothing when the directory does not exist,
      otherwise the counters after walking its files. */
  method ProcessDirectory(directoryExists: bool, files: seq<WalkedFile>) returns (summary: Option<Tally>)
    ensures summary == if directoryExists then Some(TallyOf(files)) else None
  {
    if !directoryExists {
      return None;
    }
    var totalRecords: nat, totalFiles: nat, successfulFiles: nat, failedFiles: nat := 0, 0, 0, 0;
    for i := 0 to |files|
      invariant Tally(totalRecords, totalFiles, successfulFiles, failedFiles) == TallyOf(files[..i])
    {
      var file := files[i];
      TallyStep(files, i);
      if EndsWith(file.name, ".json") && !StartsWith(file.name, ".") {
        var uploaded := UploadFile(file);
        match uploaded {
          case Some(n) =>
            totalRecords := totalRecords + n;
            totalFiles := totalFiles + 1;
            successfulFiles := successfulFiles + 1;
          case None =>
            failedFiles := failedFiles + 1;
            totalFiles := totalFiles + 1;
        }
      }
    }
    assert files[..|files|] == files;
    return Some(Tally(totalRecords, totalFiles, successfulFiles, failedFiles));
  }
}
