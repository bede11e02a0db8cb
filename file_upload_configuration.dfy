/**
 * app/Services/GenerateSignedUploadUrl/FileUploadConfiguration.php: which disk uploads go to,
 * whether it is cloud storage, and the object path of an upload below the bucket's root. The
 * configuration is a parameter, and so is the Flysystem path normaliser, whose rules are not
 * modelled.
 */
module FileUploadConfiguration {
  import opened Wrappers
  import Text
  import opened Php

  /** The two configuration entries the class reads: `filesystems.default` and `filesystems.disks`. */
  datatype Config = Config(default: string, disks: map<string, Value>)

  const TestDisk := "tmp-for-tests"
  const MediaDirectory := "media-tmp"
  const CloudDrivers := ["s3", "r2"]

  /** `disk()`: the fake test disk while unit tests run, the configured default otherwise. */
  function Disk(runningUnitTests: bool, cfg: Config): (r: string)
    ensures r == TestDisk <==> runningUnitTests || cfg.default == TestDisk
    ensures r != TestDisk ==> r == cfg.default
  {
    if runningUnitTests then TestDisk else cfg.default
  }

  /** `config('filesystems.disks.<name>')`: null for an unknown disk. */
  function DiskNamed(cfg: Config, name: string): (r: Value)
    ensures name !in cfg.disks ==> r == Null
  {
    if name in cfg.disks then cfg.disks[name] else Null
  }

  /** `diskConfig()`. */
  function DiskConfig(runningUnitTests: bool, cfg: Config): Value
  {
    DiskNamed(cfg, Disk(runningUnitTests, cfg))
  }

  /** `config('filesystems.disks.<name>.driver')`: null unless the disk is an array with a driver. */
  function Driver(cfg: Config, name: string): (r: Value)
    ensures r != Null ==> DiskNamed(cfg, name).Arr? && Get(DiskNamed(cfg, name).entries, "driver") == Some(r)
  {
    DataGet(DiskNamed(cfg, name), "driver", Null)
  }

  /**
   * `isUsingCloud()`: the driver of the default disk, looked up under the lower-cased name and
   * even while the test disk is in use, loosely in `['s3', 'r2']`.
   */
  function IsUsingCloud(cfg: Config): (r: bool)
    ensures r <==> Driver(cfg, Text.AsciiLower(cfg.default)) in {Str("s3"), Str("r2"), Bool(true)}
  {
    var driver := Driver(cfg, Text.AsciiLower(cfg.default));
    LooseEqualsNonNumeric(driver, "s3");
    LooseEqualsNonNumeric(driver, "r2");
    assert CloudDrivers[0] == "s3" && CloudDrivers[1] == "r2";
    InArrayLoose(driver, CloudDrivers)
  }

  /** `directory()`: the normalised upload directory. */
  function Directory(normalize: string -> string): string
  {
    normalize(MediaDirectory)
  }

  /**
   * `cloudRoot()`: "" off the cloud, for a disk configuration that is not an array and for a
   * missing or null `root`; otherwise the normalised root. `None` is the `TypeError` an array
   * root raises in the normaliser.
   */
  function CloudRoot(runningUnitTests: bool, cfg: Config, normalize: string -> string): (r: Option<string>)
    ensures !IsUsingCloud(cfg) ==> r == Some("")
    ensures !DiskConfig(runningUnitTests, cfg).Arr? ==> r == Some("")
    ensures DiskConfig(runningUnitTests, cfg).Arr? ==>
      var root := DataGet(DiskConfig(runningUnitTests, cfg), "root", Null);
      && (root == Null ==> r == Some(""))
      && (IsUsingCloud(cfg) && root.Str? ==> r == Some(normalize(root.s)))
      && (IsUsingCloud(cfg) && root.Arr? ==> r == None)
  {
    if !IsUsingCloud(cfg) then Some("")
    else
      var diskConfig := DiskConfig(runningUnitTests, cfg);
      if !diskConfig.Arr? then Some("")
      else
        var root := DataGet(diskConfig, "root", Null);
        if root != Null then
          match StringArg(root)
          case Some(s) => Some(normalize(s))
          case None => None
        else Some("")
  }

  /**
   * Whether a part gets its separator: under PHP truthiness when `asWritten`, whenever it is
   * non-empty otherwise.
   */
  predicate Separated(s: string, asWritten: bool)
  {
    if asWritten then TruthyString(s) else s != ""
  }

  /** The path from its three parts, with a separator after the prefix and before the path when they are `Separated`. */
  function Compose(prefix: string, directory: string, path: string, asWritten: bool): string
  {
    prefix + (if Separated(prefix, asWritten) then "/" else "") + directory + (if Separated(path, asWritten) then "/" else "") + path
  }

  /** PHP truthiness of a string. */
  predicate TruthyString(s: string)
  {
    Truthy(Str(s))
  }

  /**
   * `path($path, $withS3Root)` as written: the separators follow PHP truthiness, so a prefix or
   * path of "0" is glued on without one.
   */
  function PathAsWritten(path: string, withS3Root: bool, runningUnitTests: bool, cfg: Config, normalize: string -> string): Option<string>
  {
    var prefix := if withS3Root then CloudRoot(runningUnitTests, cfg, normalize) else Some("");
    match prefix
    case None => None
    case Some(p) => Some(Compose(p, Directory(normalize), normalize(path), true))
  }

  /** `path` with a separator after every non-empty part. */
  function Path(path: string, withS3Root: bool, runningUnitTests: bool, cfg: Config, normalize: string -> string): (r: Option<string>)
    ensures !withS3Root ==> r.Some?
  {
    var prefix := if withS3Root then CloudRoot(runningUnitTests, cfg, normalize) else Some("");
    match prefix
    case None => None
    case Some(p) => Some(Compose(p, Directory(normalize), normalize(path), false))
  }

  /** The non-empty parts of a path. */
  function Present(s: string): seq<string>
  {
    if s == "" then [] else [s]
  }

  /** With separators after non-empty parts, composing is joining the non-empty outer parts and the directory by "/". */
  lemma ComposeIsJoin(prefix: string, d: string, p: string)
    ensures Compose(prefix, d, p, false) == Text.Join(Present(prefix) + [d] + Present(p), "/")
  {
    if prefix != "" && p != "" {
      Text.JoinAppend([prefix], [d, p], "/");
      assert Text.Join([d, p], "/") == d + "/" + p by {
        assert [d, p][1..] == [p];
      }
      assert Present(prefix) + [d] + Present(p) == [prefix] + [d, p];
    } else if prefix != "" {
      Text.JoinAppend([prefix], [d], "/");
      assert Present(prefix) + [d] + Present(p) == [prefix] + [d];
      assert Compose(prefix, d, p, false) == prefix + "/" + d;
    } else if p != "" {
      Text.JoinAppend([d], [p], "/");
      assert Present(prefix) + [d] + Present(p) == [d] + [p];
      assert Compose(prefix, d, p, false) == d + "/" + p;
    } else {
      assert Present(prefix) + [d] + Present(p) == [d];
      assert Compose(prefix, d, p, false) == d;
    }
  }

  /** The corrected path is its non-empty outer parts and the directory joined by "/". */
  lemma PathIsJoin(path: string, withS3Root: bool, runningUnitTests: bool, cfg: Config, normalize: string -> string)
    requires withS3Root ==> CloudRoot(runningUnitTests, cfg, normalize).Some?
    ensures var prefix := if withS3Root then CloudRoot(runningUnitTests, cfg, normalize).value else "";
      Path(path, withS3Root, runningUnitTests, cfg, normalize)
        == Some(Text.Join(Present(prefix) + [Directory(normalize)] + Present(normalize(path)), "/"))
  {
    var prefix := if withS3Root then CloudRoot(runningUnitTests, cfg, normalize).value else "";
    ComposeIsJoin(prefix, Directory(normalize), normalize(path));
  }

  /** Without the bucket root the path is the directory, followed by "/" and the path if there is one. */
  lemma PathWithoutRoot(path: string, runningUnitTests: bool, cfg: Config, normalize: string -> string)
    ensures var d, p := Directory(normalize), normalize(path);
      Path(path, false, runningUnitTests, cfg, normalize) == Some(if p == "" then d else d + "/" + p)
  {
    var d, p := Directory(normalize), normalize(path);
    assert "" + "" + d == d;
    assert d + "" + "" == d;
  }

  /** With an empty root and a path that normalises to "", the path is the upload directory. */
  lemma EmptyPathIsDirectory(runningUnitTests: bool, cfg: Config, normalize: string -> string)
    requires normalize("") == ""
    requires CloudRoot(runningUnitTests, cfg, normalize) == Some("")
    ensures Path("", true, runningUnitTests, cfg, normalize) == Some(Directory(normalize))
    ensures PathAsWritten("", true, runningUnitTests, cfg, normalize) == Some(Directory(normalize))
  {
    var d := Directory(normalize);
    assert "" + "" + d + "" + "" == d;
  }

  /** Both readings agree unless a part is exactly "0". */
  lemma PathReadingsAgree(path: string, withS3Root: bool, runningUnitTests: bool, cfg: Config, normalize: string -> string)
    requires normalize(path) != "0"
    requires withS3Root ==> CloudRoot(runningUnitTests, cfg, normalize) != Some("0")
    ensures PathAsWritten(path, withS3Root, runningUnitTests, cfg, normalize) == Path(path, withS3Root, runningUnitTests, cfg, normalize)
  {
  }

  /** A file called "0" is glued onto the directory: `path('0', false)` gives "media-tmp0" for a normaliser that keeps both names. */
  lemma ZeroPathGlued(runningUnitTests: bool, cfg: Config, normalize: string -> string)
    requires normalize("0") == "0" && normalize(MediaDirectory) == MediaDirectory
    ensures PathAsWritten("0", false, runningUnitTests, cfg, normalize) == Some("media-tmp0")
    ensures Path("0", false, runningUnitTests, cfg, normalize) == Some("media-tmp/0")
  {
    var d := Directory(normalize);
    assert "" + "" + d + "" + "0" == "media-tmp0";
    assert "" + "" + d + "/" + "0" == "media-tmp/0";
  }
}
