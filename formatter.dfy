/** The HTMLFormatter object: the branch-coverage flag it caches when built, the
    per-line status it reports, the memoised versioned asset directory and the
    `format` run that copies the assets and writes index.html. */
module Formatter {
  import opened Text
  import opened Paths
  import opened Coverage

  /** The part of the disk the formatter touches: the directories that exist and
      the files with their contents. */
  class FileSystem {
    var dirs: set<string>
    var files: map<string, string>

    constructor (dirs: set<string>, files: map<string, string>)
      ensures this.dirs == dirs && this.files == files
    {
      this.dirs := dirs;
      this.files := files;
    }
  }

  /** One entry of the bundled public/ directory: its base name and what it holds. */
  datatype Asset = Asset(name: string, content: string)

  /** File.join(output_path, "assets", VERSION): where a formatter version's assets go,
      which whatever the separators lies inside the output directory. */
  function AssetOutputDir(outputPath: string, version: string): (r: string)
    ensures TrimTrailingSlashes(outputPath) + "/" <= r
  {
    var inner := Join(outputPath, "assets");
    JoinUnder(outputPath, "assets");
    assert inner[|inner| - 1] == 's';
    assert TrimTrailingSlashes(inner) == inner;
    JoinUnder(inner, version);
    Join3(outputPath, "assets", version)
  }

  /** For an output path without a trailing '/' and a version without a leading one,
      the directory is "<output>/assets/<version>". */
  lemma AssetOutputDirLayout(outputPath: string, version: string)
    requires outputPath == [] || outputPath[|outputPath| - 1] != '/'
    requires version == [] || version[0] != '/'
    ensures AssetOutputDir(outputPath, version) == outputPath + "/assets/" + version
  {
    JoinPlain(outputPath, "assets");
    JoinPlain(outputPath + "/" + "assets", version);
  }

  /** The files that copying `assets` into `dir` one after the other writes, each
      FileUtils.cp_r landing on File.join(dir, basename); a later asset of the same
      name overwrites an earlier one. */
  function Copies(dir: string, assets: seq<Asset>): map<string, string>
  {
    if assets == [] then map[]
    else
      var last := assets[|assets| - 1];
      Copies(dir, assets[..|assets| - 1])[Join(dir, last.name) := last.content]
  }

  /** Copying writes exactly one path per asset, each inside `dir`. */
  lemma {:induction false} CopiesTargets(dir: string, assets: seq<Asset>)
    ensures Copies(dir, assets).Keys == set a | a in assets :: Join(dir, a.name)
    ensures forall k :: k in Copies(dir, assets) ==> TrimTrailingSlashes(dir) + "/" <= k
  {
    if assets != [] {
      var init, last := assets[..|assets| - 1], assets[|assets| - 1];
      CopiesTargets(dir, init);
      assert assets == init + [last];
      JoinUnder(dir, last.name);
    }
  }

  /** Every copied file holds the content of some asset of that name. */
  lemma {:induction false} CopiesContents(dir: string, assets: seq<Asset>, k: string)
    requires k in Copies(dir, assets)
    ensures exists a :: a in assets && Join(dir, a.name) == k && a.content == Copies(dir, assets)[k]
  {
    var init, last := assets[..|assets| - 1], assets[|assets| - 1];
    if k != Join(dir, last.name) {
      CopiesContents(dir, init, k);
      var a :| a in init && Join(dir, a.name) == k && a.content == Copies(dir, init)[k];
      assert a in assets;
    }
  }

  /** The files after a `format` run: the assets copied into `assetDir`, then
      File.join(output_path, "index.html") written with the rendered page. */
  function Written(files: map<string, string>, assetDir: string, outputPath: string,
                   assets: seq<Asset>, page: string): map<string, string>
  {
    (files + Copies(assetDir, assets))[Join(outputPath, "index.html") := page]
  }

  /** Running `format` again with the same inputs leaves the same files. */
  lemma WrittenIdempotent(files: map<string, string>, assetDir: string, outputPath: string,
                          assets: seq<Asset>, page: string)
    ensures Written(Written(files, assetDir, outputPath, assets, page), assetDir, outputPath, assets, page)
         == Written(files, assetDir, outputPath, assets, page)
  {
    var once := Written(files, assetDir, outputPath, assets, page);
    var twice := Written(once, assetDir, outputPath, assets, page);
    assert twice.Keys == once.Keys;
    forall k | k in once ensures twice[k] == once[k] {
    }
  }

  /** A `format` run touches nothing but the copied assets and index.html: in particular
      the files under other versions' asset directories keep their contents. */
  lemma WrittenLeavesOthers(files: map<string, string>, assetDir: string, outputPath: string,
                            assets: seq<Asset>, page: string, k: string)
    requires k in files
    requires k != Join(outputPath, "index.html")
    requires !(TrimTrailingSlashes(assetDir) + "/" <= k)
    ensures k in Written(files, assetDir, outputPath, assets, page)
    ensures Written(files, assetDir, outputPath, assets, page)[k] == files[k]
  {
    CopiesTargets(assetDir, assets);
  }

  /** Copying one more asset on top of the files written so far. */
  lemma CopiesExtend(files: map<string, string>, dir: string, assets: seq<Asset>, i: nat)
    requires i < |assets|
    ensures (files + Copies(dir, assets[..i]))[Join(dir, assets[i].name) := assets[i].content]
         == files + Copies(dir, assets[..i + 1])
  {
    assert assets[..i + 1][..i] == assets[..i];
  }

  class HtmlFormatter {
    /** SimpleCov.branch_coverage?, read once when the formatter is built. */
    const branchableResult: bool
    /** SimpleCov::Formatter::HTMLFormatter::VERSION. */
    const version: string
    const fs: FileSystem
    /** @asset_output_path: unset until the first lookup. */
    var assetOutputPath: Option<string>

    /** The memo and the disk agree: a cached asset directory exists. */
    ghost predicate Valid()
      reads this, fs
    {
      assetOutputPath.Some? ==> assetOutputPath.value in fs.dirs
    }

    constructor (branchCoverage: bool, version: string, fs: FileSystem)
      ensures branchableResult == branchCoverage && this.version == version && this.fs == fs
      ensures assetOutputPath == None
      ensures Valid()
    {
      branchableResult := branchCoverage;
      this.version := version;
      this.fs := fs;
      assetOutputPath := None;
    }

    /** line_status?: "missed-branch" when branch coverage is on and the line has a
        missed branch, whatever the line's own status; otherwise that status. */
    function LineStatus(file: SourceFile, line: Line): (r: string)
      ensures r == MissedBranchName <==> branchableResult && file.LineWithMissedBranch(line.number)
      ensures r != MissedBranchName ==> r == line.status.Name()
    {
      if branchableResult && file.LineWithMissedBranch(line.number) then MissedBranchName
      else line.status.Name()
    }

    /** The directory the next asset lookup answers with. */
    function NextAssetOutputPath(outputPath: string): string
      reads this
    {
      match assetOutputPath
      case Some(p) => p
      case None => AssetOutputDir(outputPath, version)
    }

    /** asset_output_path: the first call computes the directory from the output path,
        creates it and remembers it; every later call answers with the remembered one,
        touching nothing, even if the output path has changed since. */
    method AssetOutputPath(outputPath: string) returns (p: string)
      modifies this, fs`dirs
      ensures p == old(NextAssetOutputPath(outputPath))
      ensures assetOutputPath == Some(p)
      ensures old(assetOutputPath).Some? ==> fs.dirs == old(fs.dirs)
      ensures old(assetOutputPath).None? ==> fs.dirs == old(fs.dirs) + {p}
      ensures old(Valid()) ==> Valid()
    {
      if assetOutputPath.Some? {
        return assetOutputPath.value;
      }
      p := AssetOutputDir(outputPath, version);
      assetOutputPath := Some(p);
      fs.dirs := fs.dirs + {p};
    }

    /** format: copies every bundled asset into the asset directory (looking it up once
        per asset, so with no assets the directory is neither computed nor created),
        then writes the rendered page to index.html in the output path. */
    method Format(outputPath: string, assets: seq<Asset>, page: string)
      modifies this, fs
      ensures assets == [] ==> assetOutputPath == old(assetOutputPath) && fs.dirs == old(fs.dirs)
      ensures assets != [] ==> assetOutputPath == Some(old(NextAssetOutputPath(outputPath)))
      ensures assets != [] && old(assetOutputPath).None? ==>
        fs.dirs == old(fs.dirs) + {old(NextAssetOutputPath(outputPath))}
      ensures old(assetOutputPath).Some? ==> fs.dirs == old(fs.dirs)
      ensures fs.files == Written(old(fs.files), old(NextAssetOutputPath(outputPath)), outputPath, assets, page)
      ensures old(Valid()) ==> Valid()
    {
      ghost var dir := NextAssetOutputPath(outputPath);
      var i := 0;
      while i < |assets|
        invariant 0 <= i <= |assets|
        invariant i == 0 ==> assetOutputPath == old(assetOutputPath) && fs.dirs == old(fs.dirs)
        invariant i > 0 ==> assetOutputPath == Some(dir)
        invariant i > 0 && old(assetOutputPath).None? ==> fs.dirs == old(fs.dirs) + {dir}
        invariant old(assetOutputPath).Some? ==> fs.dirs == old(fs.dirs)
        invariant fs.files == old(fs.files) + Copies(dir, assets[..i])
        invariant old(Valid()) ==> Valid()
      {
        var target := AssetOutputPath(outputPath);
        assert target == dir;
        CopiesExtend(old(fs.files), dir, assets, i);
        fs.files := fs.files[Join(target, assets[i].name) := assets[i].content];
        i := i + 1;
      }
      assert assets[..i] == assets;
      fs.files := fs.files[Join(outputPath, "index.html") := page];
    }
  }

  /** Two report runs into one output root, each building its own formatter (so the
      second starts without a remembered directory): the second run creates nothing
      new and, with the same inputs, leaves the same files as the first. */
  method TwoRuns(fs: FileSystem, version: string, outputPath: string, assets: seq<Asset>, page: string)
    modifies fs
    ensures fs.dirs == old(fs.dirs) + (if assets != [] then {AssetOutputDir(outputPath, version)} else {})
    ensures fs.files == Written(old(fs.files), AssetOutputDir(outputPath, version), outputPath, assets, page)
  {
    var first := new HtmlFormatter(false, version, fs);
    first.Format(outputPath, assets, page);
    var second := new HtmlFormatter(false, version, fs);
    second.Format(outputPath, assets, page);
    WrittenIdempotent(old(fs.files), AssetOutputDir(outputPath, version), outputPath, assets, page);
  }
}
