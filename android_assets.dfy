/** The drawable-asset plugin `AndroidAssetExport`: its per-run state (the
    output directory `DIRNAME`) and the part of the filesystem it reads and
    writes, with every method proved to follow the definitions of modules
    AssetPlan and AssetRun. */
module AndroidAssets {
  import opened PathOps
  import opened FileSystem
  import opened Density
  import opened Resolver
  import opened AssetPlan
  import opened AssetRun

  class AndroidAssetExport {
    /** What `getUserDirectory` returns: `USERPROFILE` on Windows, `HOME`
        elsewhere. */
    const Home: Path
    var DIRNAME: Path
    var dirs: set<Path>
    var files: map<Path, Size>
    /** The files written so far, in order; kept for the specification. */
    ghost var writes: seq<Path>

    ghost function State(): Disk
      reads this
    {
      Disk(dirs, files, writes)
    }

    /** `__init__`: the output directory starts as the user's directory. */
    constructor (home: Path, dirs0: set<Path>, files0: map<Path, Size>)
      ensures Home == home && DIRNAME == home
      ensures State() == Disk(dirs0, files0, [])
    {
      Home := home;
      DIRNAME := home;
      dirs := dirs0;
      files := files0;
      writes := [];
    }

    /** `findCurrentWorkingDirectory` as written: `DIRNAME` is reset to the
        user's directory, then the search pattern refers to a name `home`
        that is never bound, so the method always raises `NameError`. */
    method FindCurrentWorkingDirectoryAsWritten() returns (r: Outcome)
      modifies this
      ensures r == Fail(NameError)
      ensures DIRNAME == Home && State() == old(State())
    {
      DIRNAME := Home;
      r := Fail(NameError);
    }

    /** `findCurrentWorkingDirectory` with the search rooted at the user's
        directory, as the icon plugin does it. `docnames` is the result of the
        `sodipodi:docname` query and `matches` what the recursive search for
        the first of them lists. */
    method FindCurrentWorkingDirectory(docnames: seq<string>, matches: seq<Candidate>) returns (r: Outcome)
      modifies this
      ensures docnames == [] ==> r == Fail(IndexError) && DIRNAME == Home
      ensures docnames != [] ==> r == Pass && DIRNAME == ResolveDirectory(Home, matches)
      ensures State() == old(State())
    {
      DIRNAME := Home;
      if |docnames| == 0 {
        return Fail(IndexError);
      }
      var found := RegularFiles(matches);
      if found != [] {
        var sorted := SortByMtime(found);
        DIRNAME := SplitHead(sorted[|sorted| - 1].path);
      }
      r := Pass;
    }

    /** `createDirectory`: `DIRNAME/folder` exists afterwards; nothing else
        changes. */
    method CreateDirectory(folder: string)
      modifies this
      ensures DIRNAME == old(DIRNAME)
      ensures State() == MakeDirIfMissing(old(State()), Join(DIRNAME, folder))
    {
      var dirname := Join(DIRNAME, folder);
      if !(dirname in dirs || dirname in files) {
        dirs := dirs + {dirname};
      }
    }

    /** Writes an image file of the given size. */
    method SaveImage(path: Path, size: Size)
      modifies this
      ensures DIRNAME == old(DIRNAME)
      ensures State() == Save(old(State()), path, size)
    {
      files := files[path := size];
      writes := writes + [path];
    }

    /** `generateImageWithDPI`: `Image.open` fails when there is no baseline
        file (`IsADirectory` for a directory there, `NotADirectory` when the
        temp folder is a regular file, else `FileNotFound`); otherwise the
        tier's folder is created when missing, `resize` raises `ValueError`
        for a zero side, and `save` raises `NotADirectory` when the tier
        folder is a regular file and `IsADirectory` when the output path is a
        directory. */
    method GenerateImageWithDPI(png: string, t: Tier) returns (r: Outcome)
      modifies this
      ensures DIRNAME == old(DIRNAME)
      ensures State() == ImageWithDPI(old(State()), DIRNAME, png, t).disk
      ensures r == Pass <==> ImageWithDPI(old(State()), DIRNAME, png, t).ok
      ensures TempFile(DIRNAME, png) !in old(files) ==>
              r == Fail(if TempFile(DIRNAME, png) in old(dirs) then IsADirectory
                        else if TempDir(DIRNAME) in old(files) then NotADirectory
                        else FileNotFound)
      ensures r == Fail(FileNotFound) ==> TempFile(DIRNAME, png) !in old(files)
      ensures CopyOutcome(r)
    {
      var src := Join(Join(DIRNAME, "temp"), png);
      if src !in files {
        if src in dirs {
          return Fail(IsADirectory);
        }
        if Join(DIRNAME, "temp") in files {
          return Fail(NotADirectory);
        }
        return Fail(FileNotFound);
      }
      var baseline := files[src];
      CreateDirectory(Folder(t));
      var newSize := Size(ScaledDim(baseline.width, t), ScaledDim(baseline.height, t));
      if newSize != baseline && (newSize.width == 0 || newSize.height == 0) {
        return Fail(ValueError);
      }
      var target := Join(Join(DIRNAME, Folder(t)), png);
      if Join(DIRNAME, Folder(t)) in files {
        return Fail(NotADirectory);
      }
      if target in dirs {
        return Fail(IsADirectory);
      }
      SaveImage(target, newSize);
      r := Pass;
    }

    /** `exportImageToPNG`: the temp folder is created when missing and the
        rasterizer writes `temp/<label>.png`, here of size `rendered`. */
    method ExportImageToPNG(assetID: string, assetLABEL: string, rendered: Size)
      modifies this
      ensures DIRNAME == old(DIRNAME)
      ensures State() == ExportImage(old(State()), DIRNAME, Asset(assetID, assetLABEL), rendered)
    {
      var filename := assetLABEL + ".png";
      CreateDirectory("temp");
      SaveImage(Join(Join(DIRNAME, "temp"), filename), rendered);
    }

    /** `generateBaselinePNG`: one baseline per asset, in list order. */
    method GenerateBaselinePNG(assets: seq<Asset>, render: string -> Size)
      modifies this
      ensures DIRNAME == old(DIRNAME)
      ensures State() == ExportAll(old(State()), DIRNAME, assets, render)
    {
      var i := 0;
      while i < |assets|
        invariant 0 <= i <= |assets|
        invariant DIRNAME == old(DIRNAME)
        invariant State() == ExportAll(old(State()), DIRNAME, assets[..i], render)
      {
        assert assets[..i + 1][..i] == assets[..i];
        ExportImageToPNG(assets[i].assetID, assets[i].assetLABEL, render(assets[i].assetID));
        i := i + 1;
      }
      assert assets[..i] == assets;
    }

    /** `generateAssetsWithDPI`: the tier for every asset in order, leaving
        at the first asset whose copy raised. */
    method GenerateAssetsWithDPI(assets: seq<Asset>, t: Tier) returns (r: Outcome)
      modifies this
      ensures DIRNAME == old(DIRNAME)
      ensures State() == AssetsWithDPI(old(State()), DIRNAME, assets, t).disk
      ensures r == Pass <==> AssetsWithDPI(old(State()), DIRNAME, assets, t).ok
      ensures CopyOutcome(r)
    {
      ghost var d0 := State();
      var i := 0;
      while i < |assets|
        invariant 0 <= i <= |assets|
        invariant DIRNAME == old(DIRNAME)
        invariant AssetsWithDPI(d0, DIRNAME, assets[..i], t) == Run(State(), true)
      {
        ghost var before := State();
        AssetsWithDPINext(d0, DIRNAME, assets, t, i, before);
        var filename := assets[i].assetLABEL + ".png";
        r := GenerateImageWithDPI(filename, t);
        if r != Pass {
          return;
        }
        i := i + 1;
      }
      assert assets[..i] == assets;
      r := Pass;
    }

    /** `getAssetsByLayer`: the children with a non-empty id and a non-empty
        label, as assets, in child order. */
    method GetAssetsByLayer(layer: seq<Child>) returns (assets: seq<Asset>)
      ensures assets == AssetsOf(layer)
    {
      assets := [];
      var i := 0;
      while i < |layer|
        invariant 0 <= i <= |layer|
        invariant assets == AssetsOf(layer[..i])
      {
        assert layer[..i + 1][..i] == layer[..i];
        var child := layer[i];
        if IdKey in child.attrib && child.attrib[IdKey] != "" {
          var assetId := child.attrib[IdKey];
          if LabelKey in child.attrib && child.attrib[LabelKey] != "" {
            var assetLabel := child.attrib[LabelKey];
            assets := assets + [Asset(assetId, assetLabel)];
          }
        }
        i := i + 1;
      }
      assert layer[..i] == layer;
    }

    /** `getAssetCollection`: the assets of every layer, layer after layer. */
    method GetAssetCollection(layers: seq<seq<Child>>) returns (assets: seq<Asset>)
      ensures assets == Collection(layers)
    {
      assets := [];
      var i := 0;
      while i < |layers|
        invariant 0 <= i <= |layers|
        invariant assets == Collection(layers[..i])
      {
        assert layers[..i + 1][..i] == layers[..i];
        var assetGroup := GetAssetsByLayer(layers[i]);
        assets := assets + assetGroup;
        i := i + 1;
      }
      assert layers[..i] == layers;
    }

    /** `effect` as written: the directory lookup raises `NameError`, so
        nothing is exported. */
    method EffectAsWritten() returns (r: Outcome)
      modifies this
      ensures r == Fail(NameError)
      ensures DIRNAME == Home && State() == old(State())
    {
      r := FindCurrentWorkingDirectoryAsWritten();
    }

    /** `effect` with the corrected directory lookup: resolve the directory,
        collect the assets of `layers`, export every baseline and then each
        tier from MDPI to XXXHDPI, leaving at the first tier call that
        raises. */
    method Effect(docnames: seq<string>, matches: seq<Candidate>, layers: seq<seq<Child>>, render: string -> Size)
      returns (r: Outcome)
      modifies this
      ensures docnames == [] ==> r == Fail(IndexError) && DIRNAME == Home && State() == old(State())
      ensures docnames != [] ==> DIRNAME == ResolveDirectory(Home, matches)
      ensures docnames != [] ==> State() == EffectRun(old(State()), DIRNAME, Collection(layers), render).disk
      ensures docnames != [] ==> (r == Pass <==> EffectRun(old(State()), DIRNAME, Collection(layers), render).ok)
    {
      r := FindCurrentWorkingDirectory(docnames, matches);
      if r != Pass {
        return;
      }
      var assets := GetAssetCollection(layers);
      ghost var d0 := State();
      assert d0 == old(State()) && assets == Collection(layers);
      GenerateBaselinePNG(assets, render);
      AcrossTiersInOrder(State(), DIRNAME, assets);
      ghost var run := Run(State(), true);
      r := GenerateAssetsWithDPI(assets, MDPI);
      run := ThenTier(run, DIRNAME, assets, MDPI);
      if r != Pass {
        return;
      }
      r := GenerateAssetsWithDPI(assets, HDPI);
      run := ThenTier(run, DIRNAME, assets, HDPI);
      if r != Pass {
        return;
      }
      r := GenerateAssetsWithDPI(assets, XHDPI);
      run := ThenTier(run, DIRNAME, assets, XHDPI);
      if r != Pass {
        return;
      }
      r := GenerateAssetsWithDPI(assets, XXHDPI);
      run := ThenTier(run, DIRNAME, assets, XXHDPI);
      if r != Pass {
        return;
      }
      r := GenerateAssetsWithDPI(assets, XXXHDPI);
      run := ThenTier(run, DIRNAME, assets, XXXHDPI);
    }
  }
}
