/**
 * Where the predictor's artifacts live: one directory per model name and
 * prediction window under `<application base>/customer-patronage`, holding
 * `model.zip` and `metadata.json`.
 *
 * Paths are joined as `Path.Combine` joins two paths on Unix; the
 * application base directory is a parameter.
 */
module FileManager {
  import opened Numerals

  const Separator: char := '/'
  const AppFolder: string := "customer-patronage"
  const ModelFileName: string := "model.zip"
  const MetadataFileName: string := "metadata.json"
  const WindowInfix: string := "-months-window-"

  predicate IsRooted(path: string) {
    |path| > 0 && path[0] == Separator
  }

  predicate HasSeparator(name: string) {
    exists i | 0 <= i < |name| :: name[i] == Separator
  }

  /**
   * `Path.Combine(a, b)`: an empty part yields the other, a rooted `b`
   * replaces `a`, and a separator is inserted only when `a` lacks a
   * trailing one.
   */
  function Combine(a: string, b: string): string {
    if |b| == 0 then a
    else if |a| == 0 || IsRooted(b) then b
    else if a[|a| - 1] == Separator then a + b
    else a + [Separator] + b
  }

  /**
   * What `Combine` keeps of its parts: an empty second part leaves the first,
   * a rooted one replaces it, and a relative one follows the first part,
   * with one separator in between exactly when the first part is non-empty
   * and lacks a trailing one.
   */
  lemma CombineKeepsParts(a: string, b: string)
    ensures |b| == 0 ==> Combine(a, b) == a
    ensures IsRooted(b) ==> Combine(a, b) == b
    ensures |b| > 0 && !IsRooted(b) ==>
      var r := Combine(a, b);
      && |a| + |b| <= |r| <= |a| + |b| + 1
      && r[..|a|] == a
      && r[|r| - |b|..] == b
      && (|r| == |a| + |b| + 1 ==> r[|a|] == Separator)
    ensures |b| > 0 && !IsRooted(b) ==>
      (|Combine(a, b)| == |a| + |b| + 1 <==> |a| > 0 && a[|a| - 1] != Separator)
  {
  }

  /** Index of the last separator in `path`, or -1 when it has none. */
  function LastSeparator(path: string): (k: int)
    ensures -1 <= k < |path|
    ensures k >= 0 ==> path[k] == Separator
    ensures forall j | k < j < |path| :: path[j] != Separator
  {
    if |path| == 0 then -1
    else if path[|path| - 1] == Separator then |path| - 1
    else LastSeparator(path[..|path| - 1])
  }

  /** Everything before the last separator (empty when there is none). */
  function Parent(path: string): string {
    var k := LastSeparator(path);
    if k < 0 then "" else path[..k]
  }

  /** Everything after the last separator. */
  function FileName(path: string): string {
    path[LastSeparator(path) + 1..]
  }

  /**
   * A plain name written after a separator, or at the very start, is what
   * `FileName` reads back, and `Parent` is what precedes that separator.
   */
  lemma NameAfterSeparator(prefix: string, name: string)
    requires |prefix| == 0 || prefix[|prefix| - 1] == Separator
    requires |name| > 0 && !HasSeparator(name)
    ensures LastSeparator(prefix + name) == |prefix| - 1
    ensures FileName(prefix + name) == name
    ensures Parent(prefix + name) == if |prefix| == 0 then "" else prefix[..|prefix| - 1]
  {
    var path := prefix + name;
    var k := LastSeparator(path);
    forall j | |prefix| <= j < |path| ensures path[j] != Separator {
      assert path[j] == name[j - |prefix|];
    }
    assert k < |prefix|;
    if |prefix| > 0 {
      assert path[|prefix| - 1] == Separator;
      assert k >= |prefix| - 1;
      assert path[..k] == prefix[..|prefix| - 1];
    }
    assert k == |prefix| - 1;
    assert path[k + 1..] == name;
  }

  /**
   * Joining a directory that does not end in a separator with a plain file
   * name is undone by splitting at the last separator.
   */
  lemma CombineSplits(dir: string, name: string)
    requires |dir| > 0 && dir[|dir| - 1] != Separator
    requires |name| > 0 && !HasSeparator(name)
    ensures Combine(dir, name) == dir + [Separator] + name
    ensures Parent(Combine(dir, name)) == dir
    ensures FileName(Combine(dir, name)) == name
  {
    assert !IsRooted(name);
    NameAfterSeparator(dir + [Separator], name);
    assert (dir + [Separator])[..|dir|] == dir;
  }

  /** The decimal text of an integer holds digits and at most a sign. */
  lemma TextHasNoSeparator(n: int)
    ensures !HasSeparator(IntToText(n))
  {
  }

  /** The three parts of a concatenation can be sliced back out of it. */
  lemma ThreeParts(a: string, b: string, c: string)
    ensures (a + b + c)[..|a|] == a
    ensures (a + b + c)[|a|..|a| + |b|] == b
    ensures (a + b + c)[|a| + |b|..] == c
  {
  }

  /**
   * The folder of one model and window, `<modelName>-months-window-<N>`: the
   * model name, the fixed infix, and a numeral that reads back as the window.
   */
  function WindowFolder(modelName: string, predictionMonthsWindow: Int32): (r: string)
    ensures |r| > |modelName| + |WindowInfix| && r[..|modelName|] == modelName
    ensures IsDigit(r[|r| - 1])
    ensures r[|modelName|..|modelName| + |WindowInfix|] == WindowInfix
    ensures var numeral := r[|modelName| + |WindowInfix|..];
      && (AllDigits(numeral) || (numeral[0] == '-' && AllDigits(numeral[1..])))
      && ParseInt(numeral) == predictionMonthsWindow as int
  {
    var text := IntToText(predictionMonthsWindow as int);
    IntTextRoundTrip(predictionMonthsWindow as int);
    ThreeParts(modelName, WindowInfix, text);
    assert (modelName + WindowInfix + text)[|modelName + WindowInfix + text| - 1] == text[|text| - 1];
    modelName + WindowInfix + text
  }

  /** A model name without separators gives a window folder without them. */
  lemma WindowFolderPlain(modelName: string, predictionMonthsWindow: Int32)
    requires !HasSeparator(modelName)
    ensures !HasSeparator(WindowFolder(modelName, predictionMonthsWindow))
  {
    var text := IntToText(predictionMonthsWindow as int);
    TextHasNoSeparator(predictionMonthsWindow as int);
    var r := modelName + WindowInfix + text;
    forall i | 0 <= i < |r| ensures r[i] != Separator {
      if i < |modelName| {
        assert r[i] == modelName[i];
      } else if i < |modelName| + |WindowInfix| {
        assert r[i] == WindowInfix[i - |modelName|];
      } else {
        assert r[i] == text[i - |modelName| - |WindowInfix|];
      }
    }
  }

  /**
   * The root of all artifacts, `<application base>/customer-patronage`: the
   * base keeps its own trailing separator or gains one, and
   * `customer-patronage` is the last path component.
   */
  function BaseDirectory(appBase: string): (r: string)
    ensures |r| > 0 && r[|r| - 1] != Separator
    ensures |appBase| == 0 ==> r == AppFolder
    ensures |appBase| > 0 ==>
      r == (if appBase[|appBase| - 1] == Separator then appBase else appBase + [Separator]) + AppFolder
    ensures FileName(r) == AppFolder
    ensures |appBase| > 0 ==>
      Parent(r) == if appBase[|appBase| - 1] == Separator then appBase[..|appBase| - 1] else appBase
  {
    var prefix :=
      if |appBase| == 0 then ""
      else if appBase[|appBase| - 1] == Separator then appBase
      else appBase + [Separator];
    assert !HasSeparator(AppFolder);
    NameAfterSeparator(prefix, AppFolder);
    assert |appBase| > 0 && appBase[|appBase| - 1] != Separator ==> prefix[..|prefix| - 1] == appBase;
    Combine(appBase, AppFolder)
  }

  /**
   * GetTrainingDataPath: the directory holding one model's artifacts. It
   * ends in a digit, never in a separator.
   */
  function TrainingDataPath(appBase: string, modelName: string, predictionMonthsWindow: Int32): (r: string)
    ensures |r| > 0 && IsDigit(r[|r| - 1])
  {
    var folder := WindowFolder(modelName, predictionMonthsWindow);
    CombineEndsLikeLast(BaseDirectory(appBase), folder);
    Combine(BaseDirectory(appBase), folder)
  }

  /** A non-empty second part supplies the last character of `Combine`. */
  lemma CombineEndsLikeLast(a: string, b: string)
    requires |b| > 0
    ensures var r := Combine(a, b); |r| > 0 && r[|r| - 1] == b[|b| - 1]
  {
  }

  /**
   * For a model name without separators, the directory is the window folder
   * directly inside the base directory.
   */
  lemma TrainingDataPathLayout(appBase: string, modelName: string, predictionMonthsWindow: Int32)
    requires !HasSeparator(modelName)
    ensures var dir := TrainingDataPath(appBase, modelName, predictionMonthsWindow);
      && dir == BaseDirectory(appBase) + [Separator] + WindowFolder(modelName, predictionMonthsWindow)
      && Parent(dir) == BaseDirectory(appBase)
      && FileName(dir) == WindowFolder(modelName, predictionMonthsWindow)
  {
    WindowFolderPlain(modelName, predictionMonthsWindow);
    CombineSplits(BaseDirectory(appBase), WindowFolder(modelName, predictionMonthsWindow));
  }

  /** GetFinalPath: the file `filename` inside the model's directory. */
  function FinalPath(appBase: string, fileName: string, modelName: string, predictionMonthsWindow: Int32): (r: string)
    ensures |fileName| > 0 && !HasSeparator(fileName) ==>
      var dir := TrainingDataPath(appBase, modelName, predictionMonthsWindow);
      && r == dir + [Separator] + fileName
      && Parent(r) == dir
      && FileName(r) == fileName
  {
    var dir := TrainingDataPath(appBase, modelName, predictionMonthsWindow);
    if |fileName| > 0 && !HasSeparator(fileName) then
      CombineSplits(dir, fileName);
      Combine(dir, fileName)
    else
      Combine(dir, fileName)
  }

  datatype ArtifactPaths = ArtifactPaths(modelPath: string, metadataPath: string)

  lemma PlainFileNames()
    ensures !HasSeparator(ModelFileName) && !HasSeparator(MetadataFileName)
  {
  }

  /** GetModelPath: `model.zip` directly inside the model's directory. */
  function ModelPath(appBase: string, modelName: string, predictionMonthsWindow: Int32): (r: string)
    ensures var dir := TrainingDataPath(appBase, modelName, predictionMonthsWindow);
      r == dir + [Separator] + ModelFileName && Parent(r) == dir && FileName(r) == ModelFileName
  {
    PlainFileNames();
    FinalPath(appBase, ModelFileName, modelName, predictionMonthsWindow)
  }

  /** GetMetadataPath: `metadata.json` directly inside the model's directory. */
  function MetadataPath(appBase: string, modelName: string, predictionMonthsWindow: Int32): (r: string)
    ensures var dir := TrainingDataPath(appBase, modelName, predictionMonthsWindow);
      r == dir + [Separator] + MetadataFileName && Parent(r) == dir && FileName(r) == MetadataFileName
  {
    PlainFileNames();
    FinalPath(appBase, MetadataFileName, modelName, predictionMonthsWindow)
  }

  /**
   * GetFilePaths: the model and its metadata sit side by side in the
   * model's directory, under their fixed file names, and never coincide.
   */
  function GetFilePaths(appBase: string, modelName: string, predictionMonthsWindow: Int32): (r: ArtifactPaths)
    ensures var dir := TrainingDataPath(appBase, modelName, predictionMonthsWindow);
      && r.modelPath == dir + [Separator] + ModelFileName
      && r.metadataPath == dir + [Separator] + MetadataFileName
      && Parent(r.modelPath) == dir && FileName(r.modelPath) == "model.zip"
      && Parent(r.metadataPath) == dir && FileName(r.metadataPath) == "metadata.json"
    ensures r.modelPath != r.metadataPath
  {
    PlainFileNames();
    var r := ArtifactPaths(
      modelPath := ModelPath(appBase, modelName, predictionMonthsWindow),
      metadataPath := MetadataPath(appBase, modelName, predictionMonthsWindow));
    assert FileName(r.modelPath) != FileName(r.metadataPath);
    r
  }

  /** A relative part joined onto a directory can be read back after the separator. */
  lemma CombineTail(dir: string, part: string)
    requires |dir| > 0 && dir[|dir| - 1] != Separator
    requires |part| > 0 && !IsRooted(part)
    ensures Combine(dir, part)[|dir| + 1..] == part
  {
  }

  /** Two distinct relative window folders give two distinct directories. */
  lemma DistinctFolders(appBase: string, a: string, b: string)
    requires a != b
    requires |a| > 0 && |b| > 0 && !IsRooted(a) && !IsRooted(b)
    ensures Combine(BaseDirectory(appBase), a) != Combine(BaseDirectory(appBase), b)
  {
    var base := BaseDirectory(appBase);
    CombineTail(base, a);
    CombineTail(base, b);
  }

  /** For a fixed model name, distinct windows get distinct directories. */
  lemma WindowsGetDistinctDirectories(appBase: string, modelName: string, n: Int32, m: Int32)
    requires n != m
    ensures TrainingDataPath(appBase, modelName, n) != TrainingDataPath(appBase, modelName, m)
  {
    var a, b := WindowFolder(modelName, n), WindowFolder(modelName, m);
    var k := |modelName| + |WindowInfix|;
    assert a[k..] != b[k..];
    WindowFolderRelative(modelName, n);
    WindowFolderRelative(modelName, m);
    if IsRooted(modelName) {
      CombineKeepsParts(BaseDirectory(appBase), a);
      CombineKeepsParts(BaseDirectory(appBase), b);
    } else {
      DistinctFolders(appBase, a, b);
    }
  }

  /** Appending one suffix to two distinct names keeps them distinct. */
  lemma SuffixKeepsDistinct(name1: string, name2: string, suffix: string)
    requires name1 != name2
    ensures name1 + suffix != name2 + suffix
  {
    var a, b := name1 + suffix, name2 + suffix;
    if |name1| == |name2| {
      assert a[..|name1|] == name1 && b[..|name2|] == name2;
    } else {
      assert |a| != |b|;
    }
  }

  /** A window folder is rooted exactly when its model name is. */
  lemma WindowFolderRelative(modelName: string, predictionMonthsWindow: Int32)
    ensures |WindowFolder(modelName, predictionMonthsWindow)| > 0
    ensures IsRooted(WindowFolder(modelName, predictionMonthsWindow)) <==> IsRooted(modelName)
  {
  }

  /** The window folder is the model name followed by a suffix fixed by the window. */
  lemma WindowFolderSuffix(modelName: string, predictionMonthsWindow: Int32)
    ensures WindowFolder(modelName, predictionMonthsWindow)
      == modelName + (WindowInfix + IntToText(predictionMonthsWindow as int))
  {
  }

  /** For a fixed window, distinct relative model names get distinct directories. */
  lemma ModelNamesGetDistinctDirectories(appBase: string, name1: string, name2: string, n: Int32)
    requires name1 != name2
    requires !IsRooted(name1) && !IsRooted(name2)
    ensures TrainingDataPath(appBase, name1, n) != TrainingDataPath(appBase, name2, n)
  {
    SuffixKeepsDistinct(name1, name2, WindowInfix + IntToText(n as int));
    WindowFolderSuffix(name1, n);
    WindowFolderSuffix(name2, n);
    WindowFolderRelative(name1, n);
    WindowFolderRelative(name2, n);
    DistinctFolders(appBase, WindowFolder(name1, n), WindowFolder(name2, n));
  }

  /** The base directory of a typical absolute application base. */
  lemma TypicalBase()
    ensures BaseDirectory("/app/bin/") == "/app/bin/customer-patronage"
  {
  }

  /** The folder of a typical model name and window. */
  lemma TypicalFolder()
    ensures WindowFolder("spend", 3) == "spend-months-window-3"
  {
  }
}
