/**
 * The Setup panel operators that carry logic of their own: exporting and
 * importing the add-on's custom data (file-name checks and the report), and
 * the release-version check (the status text). The zip work, the download of
 * the latest release and the version comparison belong to helpers whose code
 * is not part of this model; their outcomes are parameters.
 */
module Setup {
  import opened Wrappers
  import Json
  import Text

  /** A message shown to the user through `Operator.report`. */
  datatype Report = Info(text: string) | Error(text: string)

  /** The `.ok` / `.error` result of a custom-data helper. */
  datatype HelperResult = Ok | Failed(error: string)

  /** What an export or import does: the helper calls it makes, as
      (directory, file name) pairs, and the report it shows. */
  datatype FileOutcome = FileOutcome(calls: seq<(string, string)>, report: Report)

  const IncorrectFileName := "Incorrect file name!"
  const ExportedTo := "Data exported to: "
  const ImportedFrom := "Data imported from: "

  /** The last four characters read `.zip` in some letter case. */
  predicate HasZipExtension(name: string) {
    |name| >= 4 && Text.Lower(name[|name| - 4..]) == ".zip"
  }

  /** The name without a trailing `.zip` in any letter case. */
  function ExportStem(name: string): (stem: string)
    ensures |stem| <= |name| && stem == name[..|stem|]
  {
    if HasZipExtension(name) then name[..|name| - 4] else name
  }

  /** The extension is stripped whatever its letter case, and only once. */
  lemma ExportStemOfZipped(stem: string, ext: string)
    requires |ext| == 4 && Text.Lower(ext) == ".zip"
    ensures ExportStem(stem + ext) == stem
  {
    var name := stem + ext;
    assert name[|name| - 4..] == ext;
    assert name[..|name| - 4] == stem;
  }

  /** A name not ending in `.zip` (in any letter case) is kept as it is. */
  lemma ExportStemKeepsOthers(name: string)
    requires !HasZipExtension(name)
    ensures ExportStem(name) == name
  {
  }

  /** A file name the operators accept: at least two characters. */
  predicate AcceptableName(name: string) {
    name != "" && |name| > 1
  }

  /** `DMX_OT_Export_Custom_Data.execute` with the first selected file name:
      strip `.zip`, refuse names shorter than two characters without calling
      the exporter, and report where the zip went or the exporter's error. */
  function Export(directory: string, fileName: string, exported: HelperResult): (r: FileOutcome)
    ensures var stem := ExportStem(fileName);
      && (|stem| < 2 <==> r.calls == [])
      && (|stem| < 2 ==> r.report == Error(IncorrectFileName))
      && (|stem| >= 2 ==> r.calls == [(directory, stem)])
      && (|stem| >= 2 && exported.Ok? ==> r.report == Info(ExportedTo + Text.PathJoin(directory, stem + ".zip")))
      && (|stem| >= 2 && exported.Ok? ==> Text.EndsWith(r.report.text, stem + ".zip"))
      && (|stem| >= 2 && exported.Failed? ==> r.report == Error(exported.error))
  {
    var stem := ExportStem(fileName);
    if AcceptableName(stem) then
      var report := match exported
        case Ok => Info(ExportedTo + Text.PathJoin(directory, stem + ".zip"))
        case Failed(e) => Error(e);
      ReportEndsWithPath(ExportedTo, directory, stem + ".zip");
      FileOutcome([(directory, stem)], report)
    else
      FileOutcome([], Error(IncorrectFileName))
  }

  lemma ReportEndsWithPath(prefix: string, directory: string, file: string)
    ensures Text.EndsWith(prefix + Text.PathJoin(directory, file), file)
  {
    var p := Text.PathJoin(directory, file);
    if Text.StartsWith(file, "/") {
      assert p[|p| - |file|..] == file;
    }
    Text.EndsWithAfterPrefix(prefix, p, file);
  }

  /** `DMX_OT_Import_Custom_Data.execute` with the first selected file name:
      refuse names shorter than two characters without calling the importer,
      and report where the data came from or the importer's error. */
  function Import(directory: string, fileName: string, imported: HelperResult): (r: FileOutcome)
    ensures |fileName| < 2 <==> r.calls == []
    ensures |fileName| < 2 ==> r.report == Error(IncorrectFileName)
    ensures |fileName| >= 2 ==> r.calls == [(directory, fileName)]
    ensures |fileName| >= 2 && imported.Ok? ==> r.report == Info(ImportedFrom + Text.PathJoin(directory, fileName))
    ensures |fileName| >= 2 && imported.Ok? ==> Text.EndsWith(r.report.text, fileName)
    ensures |fileName| >= 2 && imported.Failed? ==> r.report == Error(imported.error)
  {
    if AcceptableName(fileName) then
      var report := match imported
        case Ok => Info(ImportedFrom + Text.PathJoin(directory, fileName))
        case Failed(e) => Error(e);
      ReportEndsWithPath(ImportedFrom, directory, fileName);
      FileOutcome([(directory, fileName)], report)
    else
      FileOutcome([], Error(IncorrectFileName))
  }

  /** Exporting `x` and exporting `x.zip` are the same request, for a name
      `x` without the extension. */
  lemma ExportWithOrWithoutExtension(directory: string, stem: string, exported: HelperResult)
    requires !HasZipExtension(stem)
    ensures Export(directory, stem + ".zip", exported) == Export(directory, stem, exported)
  {
    ExportStemOfZipped(stem, ".zip");
  }

  /** Importing the zip an export wrote: the importer is called on the same
      file, both reports name the same path, and exporting under that zip's
      name again is the same request. */
  lemma ExportThenImport(directory: string, name: string)
    requires |ExportStem(name)| >= 2
    ensures var zip := ExportStem(name) + ".zip";
      && Export(directory, name, Ok).calls == [(directory, ExportStem(name))]
      && Import(directory, zip, Ok).calls == [(directory, zip)]
      && Export(directory, name, Ok).report == Info(ExportedTo + Text.PathJoin(directory, zip))
      && Import(directory, zip, Ok).report == Info(ImportedFrom + Text.PathJoin(directory, zip))
      && Export(directory, zip, Ok) == Export(directory, name, Ok)
  {
    ExportStemOfZipped(ExportStem(name), ".zip");
  }

  // ---------------------------------------------------------------------
  // Version check
  // ---------------------------------------------------------------------

  /** What `blender_utils.version_compare` did: returned a number, or raised
      an exception of the given class with the given message. */
  datatype CompareOutcome = Compared(res: int) | Raised(className: string, message: string)

  /** Python's `str()` of a JSON value read by `json.loads`, for scalars. */
  function Display(v: Json.Value): string {
    match v
    case Null => "None"
    case Bool(b) => if b then "True" else "False"
    case Num(n) => IntText(n)
    case Str(s) => s
    case Arr(_) => ""
    case Obj(_) => ""
  }

  function DigitsText(n: nat): (r: string)
    ensures |r| >= 1
    decreases n
  {
    var d := ['0', '1', '2', '3', '4', '5', '6', '7', '8', '9'][n % 10];
    if n < 10 then [d] else DigitsText(n / 10) + [d]
  }

  /** Decimal text of an integer, with a minus sign when negative. */
  function IntText(n: int): string {
    if n < 0 then "-" + DigitsText(-n) else DigitsText(n)
  }

  const NewVersionPrefix := "New version "
  const NewVersionSuffix := " available"
  const PreRelease := "You are using pre-release version"
  const Latest := "You are using latest version of BlenderDMX"
  const Checking := "Checking..."

  /** The text the callback settles on: the error the release query
      returned, the exception the comparison raised, or the comparison's
      verdict. A missing release name raises `KeyError` before the
      comparison is made. */
  function VersionText(data: Json.Message, compared: CompareOutcome): (text: Json.Value)
    ensures "error" in data ==> text == data["error"]
    ensures "error" !in data && "name" !in data ==> text == Json.Str("KeyError 'name'")
    ensures "error" !in data && "name" in data && compared.Raised? ==>
      text == Json.Str(compared.className + " " + compared.message)
    ensures "error" !in data && "name" in data && compared.Compared? ==>
      text.Str? && text.s == if compared.res < 0 then NewVersionPrefix + Display(data["name"]) + NewVersionSuffix
      else if compared.res > 0 then PreRelease
      else Latest
  {
    if "error" in data then data["error"]
    else if "name" !in data then Json.Str("KeyError 'name'")
    else match compared
      case Raised(cls, msg) => Json.Str(cls + " " + msg)
      case Compared(res) =>
        var name := data["name"];
        Json.Str(if res < 0 then NewVersionPrefix + Display(name) + NewVersionSuffix
                 else if res > 0 then PreRelease
                 else Latest)
  }

  /** What the callback leaves behind: the text it reports, and the new
      `release_version_status`, or `None` when storing a non-string raises
      and the status stays as it was. */
  datatype CallbackOutcome = CallbackOutcome(reported: string, status: Option<string>)

  /** `DMX_OT_VersionCheck.callback`. */
  function VersionCallback(data: Json.Message, compared: CompareOutcome): (r: CallbackOutcome)
    ensures r.reported == Display(VersionText(data, compared))
    ensures r.status.Some? <==> VersionText(data, compared).Str?
    ensures r.status.Some? ==> r.status.value == r.reported
  {
    var text := VersionText(data, compared);
    CallbackOutcome(Display(text), if text.Str? then Some(text.s) else None)
  }

  /** `DMX_OT_VersionCheck.execute` followed by the query's callback: the
      status reads "Checking..." until the callback stores its text. */
  function VersionCheck(data: Json.Message, compared: CompareOutcome): (status: string)
    ensures VersionCallback(data, compared).status.Some? ==> status == VersionCallback(data, compared).status.value
    ensures VersionCallback(data, compared).status.None? ==> status == Checking
  {
    VersionCallback(data, compared).status.GetOr(Checking)
  }

  /** A successful comparison yields exactly one of three texts, and they
      cannot be confused: only a newer release is announced by name. */
  lemma VersionVerdictsDistinct(data: Json.Message, res: int)
    requires "error" !in data && "name" in data
    ensures var s := VersionCheck(data, Compared(res));
      && (res < 0 <==> Text.StartsWith(s, NewVersionPrefix))
      && (res > 0 <==> s == PreRelease)
      && (res == 0 <==> s == Latest)
  {
    var s := VersionCheck(data, Compared(res));
    assert PreRelease[..|NewVersionPrefix|] != NewVersionPrefix by {
      assert PreRelease[0] == 'Y';
    }
    assert Latest[..|NewVersionPrefix|] != NewVersionPrefix by {
      assert Latest[0] == 'Y';
    }
    if res < 0 {
      assert s[..|NewVersionPrefix|] == NewVersionPrefix;
      assert s != PreRelease && s != Latest by {
        assert s[0] == 'N';
      }
    }
  }

  /** An error from the release query takes precedence over the release
      name and the comparison. */
  lemma ErrorWins(data: Json.Message, c1: CompareOutcome, c2: CompareOutcome)
    requires "error" in data
    ensures VersionCallback(data, c1) == VersionCallback(data, c2)
  {
  }
}
