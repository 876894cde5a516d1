/** How the two halves meet: the analyzer writes `{board}.json` files under
    `分析结果文件/{city}_{timestamp}/`, and the loader reads the board back
    from the file name and the city from the directory name. */
module Handoff {
  import opened Text
  import opened Paths
  import opened Records
  import Analyzer
  import Upload

  /** The folder the analyzer writes its results under. */
  const OutputRoot: string := "分析结果文件"

  /** The analyzer's city (`split('_')[0]`) and the loader's (the regular
      expression with its fallback) agree exactly when the name has a
      non-empty part before an '_', or is the fallback itself. */
  lemma CityConventionsAgree(name: string)
    ensures Analyzer.RunCity(name) == Upload.CityFromDirName(name) <==>
      Find(name, '_') > 0 || name == Upload.UnknownCity
  {
    var underscore := Find(name, '_');
    if underscore > 0 {
      Upload.CityPatternWhenPrefixed(name);
    } else if underscore == 0 {
      forall c ensures !Upload.CityPattern(name, c) {
        if Upload.CityPattern(name, c) {
          Upload.CityPatternAt(name, c);
        }
      }
      assert Analyzer.RunCity(name) == [];
    } else {
      forall c ensures !Upload.CityPattern(name, c) {
        if Upload.CityPattern(name, c) {
          Upload.CityPatternAt(name, c);
        }
      }
      assert Analyzer.RunCity(name) == name;
      assert Upload.UnknownCity[0] != '_' && Upload.UnknownCity[1] != '_';
    }
  }

  /** The file the analyzer writes for a board whose name is empty or
      starts with '.' is hidden, so the loader skips it: its records are
      never uploaded and the file is not counted at all. */
  lemma HiddenBoardFileSkipped(root: string, board: string, content: Upload.FileContent, upsert: bool)
    requires board == [] || board[0] == '.'
    ensures !Upload.IsUploadCandidate(Upload.WalkedFile(root, board + Analyzer.JsonSuffix, content, upsert))
  {
    var name := board + Analyzer.JsonSuffix;
    assert name[0] == '.';
    assert name[..1] == ".";
  }

  /** A board file whose board is not empty is loaded exactly when the
      board does not start with '.'. */
  lemma BoardFileLoaded(root: string, board: string, content: Upload.FileContent, upsert: bool)
    requires board != []
    ensures Upload.IsUploadCandidate(Upload.WalkedFile(root, board + Analyzer.JsonSuffix, content, upsert))
      <==> board[0] != '.'
  {
    var name := board + Analyzer.JsonSuffix;
    assert name[|name| - 5..] == Analyzer.JsonSuffix;
    assert name[..1] == [board[0]];
  }

  /** The loader's board for a file `<board>.json` in the run folder. */
  lemma BoardFileBoard(folder: string, board: string)
    requires folder != [] && '/' !in folder
    requires '/' !in board
    requires exists i :: 0 <= i < |board| && board[i] != '.'
    ensures Upload.BoardOfFile(Join(Join(OutputRoot, folder), board + Analyzer.JsonSuffix)) == board
  {
    var dir := Join(OutputRoot, folder);
    assert dir == OutputRoot + "/" + folder by {
      assert folder[..1] != "/" by {
        assert folder[0] != '/';
      }
      assert OutputRoot[|OutputRoot| - 1..] != "/";
    }
    assert dir[|dir| - 1] == folder[|folder| - 1];
    assert Analyzer.JsonSuffix == "." + "json";
    assert board + Analyzer.JsonSuffix == board + "." + "json";
    assert '/' !in board + Analyzer.JsonSuffix;
    JoinThenSplit(dir, board + Analyzer.JsonSuffix);
    SplitExtOfExtension(board, "json");
  }

  /** A file the analyzer writes for a board named `board` into its run
      folder `folder` is loaded exactly when the board does not start with
      '.', and it is then read back as that board: the extension is the
      only part removed. */
  lemma BoardNameRoundTrip(folder: string, board: string, content: Upload.FileContent, upsert: bool)
    requires folder != [] && '/' !in folder
    requires '/' !in board
    requires exists i :: 0 <= i < |board| && board[i] != '.'
    ensures Upload.IsUploadCandidate(Upload.WalkedFile(Join(OutputRoot, folder), board + Analyzer.JsonSuffix, content, upsert))
      <==> board[0] != '.'
    ensures Upload.BoardOfFile(Join(Join(OutputRoot, folder), board + Analyzer.JsonSuffix)) == board
  {
    BoardFileLoaded(Join(OutputRoot, folder), board, content, upsert);
    BoardFileBoard(folder, board);
  }

  /** The analyzer's city of a run folder `{city}_{timestamp}` is `city`. */
  lemma RunCityOfTimestamped(city: string, stamp: string)
    requires city != [] && '_' !in city
    ensures Analyzer.RunCity(city + "_" + stamp) == city
  {
    var folder := city + "_" + stamp;
    assert folder[|city|] == '_';
    assert forall j :: 0 <= j < |city| ==> folder[j] == city[j];
    FindIs(folder, '_', |city|);
    assert folder[..|city|] == city;
  }

  /** The loader's city for any file in run folder `{city}_{timestamp}`
      is `city`, the same city the analyzer took from that folder name; it
      is what every record of a loaded (visible `.json`) file there gets. */
  lemma LoadedCityIsRunCity(city: string, stamp: string, fileName: string)
    requires city != [] && '_' !in city && '/' !in city + stamp && '/' !in fileName
    ensures Upload.ExtractCity(Join(Join(OutputRoot, city + "_" + stamp), fileName)) == city
    ensures Analyzer.RunCity(city + "_" + stamp) == city
  {
    Upload.CityOfTimestampedFolder(OutputRoot, city, stamp, fileName);
    RunCityOfTimestamped(city, stamp);
  }
}
