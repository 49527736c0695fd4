/** The drawable-asset export as a function of the filesystem: what each
    step of `effect` leaves on disk, and the lemmas that the whole run writes
    every baseline, then every tier file, with the expected sizes. */
module AssetRun {
  import opened PathOps
  import opened FileSystem
  import opened Density
  import opened AssetPlan

  /** `exportImageToPNG`: create `DIRNAME/temp` when missing, then the
      rasterizer writes the baseline `temp/<label>.png`, of size `rendered`. */
  function ExportImage(d: Disk, dirname: Path, a: Asset, rendered: Size): Disk {
    Save(MakeDirIfMissing(d, TempDir(dirname)), TempFile(dirname, FileName(a.assetLABEL)), rendered)
  }

  /** `generateBaselinePNG`: one export per asset, in list order; `render`
      is the size the rasterizer produces for an element id. */
  function ExportAll(d: Disk, dirname: Path, assets: seq<Asset>, render: string -> Size): Disk {
    if assets == [] then d
    else
      var last := assets[|assets| - 1];
      ExportImage(ExportAll(d, dirname, assets[..|assets| - 1], render), dirname, last, render(last.assetID))
  }

  /** `generateImageWithDPI`: open the baseline (failing when it is absent),
      create the tier folder when missing (`os.path.exists` is also true of a
      regular file there, and then nothing is made), resize (failing on a
      zero side) and save the scaled copy, which fails when the tier folder
      is a regular file or the output path is a directory. */
  function ImageWithDPI(d: Disk, dirname: Path, png: string, t: Tier): Run {
    var src := TempFile(dirname, png);
    if src !in d.files then Run(d, false)
    else
      var d1 := MakeDirIfMissing(d, TierDir(dirname, t));
      var target := ScaledSize(d.files[src], t);
      if !Resizable(d.files[src], target) then Run(d1, false)
      else if TierDir(dirname, t) in d1.files || TierFile(dirname, t, png) in d1.dirs then Run(d1, false)
      else Run(Save(d1, TierFile(dirname, t, png), target), true)
  }

  /** `generateAssetsWithDPI`: one tier for every asset in order, stopping at
      the first failure. */
  function AssetsWithDPI(d: Disk, dirname: Path, assets: seq<Asset>, t: Tier): Run {
    if assets == [] then Run(d, true)
    else
      var r := AssetsWithDPI(d, dirname, assets[..|assets| - 1], t);
      if !r.ok then r
      else ImageWithDPI(r.disk, dirname, FileName(assets[|assets| - 1].assetLABEL), t)
  }

  /** The fan-out over a list of tiers, one after the other. */
  function AcrossTiers(d: Disk, dirname: Path, assets: seq<Asset>, ts: seq<Tier>): Run {
    if ts == [] then Run(d, true)
    else
      var r := AcrossTiers(d, dirname, assets, ts[..|ts| - 1]);
      if !r.ok then r
      else AssetsWithDPI(r.disk, dirname, assets, ts[|ts| - 1])
  }

  /** `effect` once the directory is resolved and the assets collected:
      every baseline, then the tiers MDPI to XXXHDPI. */
  function EffectRun(d: Disk, dirname: Path, assets: seq<Asset>, render: string -> Size): Run {
    AcrossTiers(ExportAll(d, dirname, assets, render), dirname, assets, Order)
  }

  /** What one copy can end with: done, or one of the exceptions
      `Image.open`, `resize` and `save` raise. */
  predicate CopyOutcome(r: Outcome) {
    r == Pass || r == Fail(FileNotFound) || r == Fail(ValueError) || r == Fail(NotADirectory) || r == Fail(IsADirectory)
  }

  // ----------------------------------------------------- what gets written

  function BaselineWrites(dirname: Path, assets: seq<Asset>): seq<Path> {
    if assets == [] then []
    else BaselineWrites(dirname, assets[..|assets| - 1]) + [TempFile(dirname, FileName(assets[|assets| - 1].assetLABEL))]
  }

  function TierWrites(dirname: Path, assets: seq<Asset>, t: Tier): seq<Path> {
    if assets == [] then []
    else TierWrites(dirname, assets[..|assets| - 1], t) + [TierFile(dirname, t, FileName(assets[|assets| - 1].assetLABEL))]
  }

  function AllTierWrites(dirname: Path, assets: seq<Asset>, ts: seq<Tier>): seq<Path> {
    if ts == [] then []
    else AllTierWrites(dirname, assets, ts[..|ts| - 1]) + TierWrites(dirname, assets, ts[|ts| - 1])
  }

  predicate AllStayInFolder(assets: seq<Asset>) {
    forall a | a in assets :: StaysInFolder(a.assetLABEL)
  }

  predicate BaselinesPresent(files: map<Path, Size>, dirname: Path, assets: seq<Asset>) {
    forall a | a in assets :: TempFile(dirname, FileName(a.assetLABEL)) in files
  }

  /** Every asset's baseline is there and large enough to resize. */
  predicate BaselinesUsable(files: map<Path, Size>, dirname: Path, assets: seq<Asset>) {
    forall a | a in assets ::
      TempFile(dirname, FileName(a.assetLABEL)) in files && LargeEnough(files[TempFile(dirname, FileName(a.assetLABEL))])
  }

  /** The rasterizer renders every asset at 4 x 4 pixels or more. */
  predicate RendersLargeEnough(assets: seq<Asset>, render: string -> Size) {
    forall a | a in assets :: LargeEnough(render(a.assetID))
  }

  /** Nothing stands where tier `t` saves: no regular file at the tier
      folder, and no directory at any asset's tier file. */
  predicate TierPathsFree(d: Disk, dirname: Path, assets: seq<Asset>, t: Tier) {
    && TierDir(dirname, t) !in d.files
    && forall a | a in assets :: TierFile(dirname, t, FileName(a.assetLABEL)) !in d.dirs
  }

  predicate PathsFreeAt(d: Disk, dirname: Path, assets: seq<Asset>, ts: seq<Tier>) {
    forall t | t in ts :: TierPathsFree(d, dirname, assets, t)
  }

  /** Nothing stands where any tier saves. */
  predicate OutputPathsFree(d: Disk, dirname: Path, assets: seq<Asset>) {
    forall t: Tier :: TierPathsFree(d, dirname, assets, t)
  }

  /** No later asset carries the same label as `assets[i]`. */
  predicate LastWithLabel(assets: seq<Asset>, i: nat)
    requires i < |assets|
  {
    forall j | i < j < |assets| :: assets[j].assetLABEL != assets[i].assetLABEL
  }

  /** The tier files written for one tier are exactly one per asset. */
  lemma {:induction false} TierWritesMembers(dirname: Path, assets: seq<Asset>, t: Tier, p: Path)
    ensures p in TierWrites(dirname, assets, t) <==>
            exists a :: a in assets && p == TierFile(dirname, t, FileName(a.assetLABEL))
  {
    if assets != [] {
      var init := assets[..|assets| - 1];
      assert assets == init + [assets[|assets| - 1]];
      TierWritesMembers(dirname, init, t, p);
    }
  }

  /** Over a list of tiers, the written tier files are exactly
      {assets} x {tiers}. */
  lemma {:induction false} AllTierWritesMembers(dirname: Path, assets: seq<Asset>, ts: seq<Tier>, p: Path)
    ensures p in AllTierWrites(dirname, assets, ts) <==>
            exists t, a :: t in ts && a in assets && p == TierFile(dirname, t, FileName(a.assetLABEL))
  {
    if ts != [] {
      var init := ts[..|ts| - 1];
      var u := ts[|ts| - 1];
      assert ts == init + [u];
      AllTierWritesMembers(dirname, assets, init, p);
      TierWritesMembers(dirname, assets, u, p);
      if p in AllTierWrites(dirname, assets, ts) {
        if p in AllTierWrites(dirname, assets, init) {
          var t, a :| t in init && a in assets && p == TierFile(dirname, t, FileName(a.assetLABEL));
          assert t in ts;
        } else {
          var a :| a in assets && p == TierFile(dirname, u, FileName(a.assetLABEL));
          assert u in ts;
        }
      }
      if exists t, a :: t in ts && a in assets && p == TierFile(dirname, t, FileName(a.assetLABEL)) {
        var t, a :| t in ts && a in assets && p == TierFile(dirname, t, FileName(a.assetLABEL));
        if t != u {
          assert t in init;
        }
      }
    }
  }

  /** The baselines written are exactly one per asset. */
  lemma {:induction false} BaselineWritesMembers(dirname: Path, assets: seq<Asset>, p: Path)
    ensures p in BaselineWrites(dirname, assets) <==>
            exists a :: a in assets && p == TempFile(dirname, FileName(a.assetLABEL))
  {
    if assets != [] {
      var init := assets[..|assets| - 1];
      assert assets == init + [assets[|assets| - 1]];
      BaselineWritesMembers(dirname, init, p);
    }
  }

  /** A tier file is never a baseline (when labels stay inside folders). */
  lemma {:induction false} TempFileNotInTierWrites(dirname: Path, assets: seq<Asset>, t: Tier, png: string)
    requires AllStayInFolder(assets) && !IsAbsolute(png)
    ensures TempFile(dirname, png) !in TierWrites(dirname, assets, t)
  {
    if TempFile(dirname, png) in TierWrites(dirname, assets, t) {
      TierWritesMembers(dirname, assets, t, TempFile(dirname, png));
      var a :| a in assets && TempFile(dirname, png) == TierFile(dirname, t, FileName(a.assetLABEL));
      TempFileIsNoTierFile(dirname, t, png, FileName(a.assetLABEL));
    }
  }

  /** A tier file of tier `t` is never written by the fan-out of another
      tier. */
  lemma {:induction false} TierFileNotInOtherTier(dirname: Path, assets: seq<Asset>, t: Tier, u: Tier, png: string)
    requires AllStayInFolder(assets) && !IsAbsolute(png) && t != u
    ensures TierFile(dirname, t, png) !in TierWrites(dirname, assets, u)
  {
    if TierFile(dirname, t, png) in TierWrites(dirname, assets, u) {
      TierWritesMembers(dirname, assets, u, TierFile(dirname, t, png));
      var a :| a in assets && TierFile(dirname, t, png) == TierFile(dirname, u, FileName(a.assetLABEL));
      TierFilesDistinct(dirname, t, u, png, FileName(a.assetLABEL));
    }
  }

  /** No tier call writes at a tier folder. */
  lemma {:induction false} TierDirNotInTierWrites(dirname: Path, assets: seq<Asset>, t: Tier, u: Tier)
    requires AllStayInFolder(assets)
    ensures TierDir(dirname, u) !in TierWrites(dirname, assets, t)
  {
    if TierDir(dirname, u) in TierWrites(dirname, assets, t) {
      TierWritesMembers(dirname, assets, t, TierDir(dirname, u));
      var a :| a in assets && TierDir(dirname, u) == TierFile(dirname, t, FileName(a.assetLABEL));
      TierFileIsNoTierDir(dirname, t, u, FileName(a.assetLABEL));
    }
  }

  /** No baseline is written at a tier folder. */
  lemma {:induction false} TierDirNotInBaselineWrites(dirname: Path, assets: seq<Asset>, u: Tier)
    requires AllStayInFolder(assets)
    ensures TierDir(dirname, u) !in BaselineWrites(dirname, assets)
  {
    if TierDir(dirname, u) in BaselineWrites(dirname, assets) {
      BaselineWritesMembers(dirname, assets, TierDir(dirname, u));
      var a :| a in assets && TierDir(dirname, u) == TempFile(dirname, FileName(a.assetLABEL));
      TempFileIsNoTierDir(dirname, u, FileName(a.assetLABEL));
    }
  }

  // --------------------------------------------------------- the baselines

  /** After `generateBaselinePNG` every asset has its baseline, the writes
      are the baselines in asset order, the temp folder exists once there is
      an asset, and every file the export does not write is untouched. */
  lemma {:induction false} ExportAllFacts(d: Disk, dirname: Path, assets: seq<Asset>, render: string -> Size)
    ensures ExportAll(d, dirname, assets, render).writes == d.writes + BaselineWrites(dirname, assets)
    ensures ExportAll(d, dirname, assets, render).dirs ==
            if assets == [] then d.dirs else MakeDirIfMissing(d, TempDir(dirname)).dirs
    ensures BaselinesPresent(ExportAll(d, dirname, assets, render).files, dirname, assets)
    ensures KeepsOthers(d.files, ExportAll(d, dirname, assets, render).files, BaselineWrites(dirname, assets))
  {
    if assets != [] {
      var n := |assets|;
      var init := assets[..n - 1];
      var last := assets[n - 1];
      assert assets == init + [last];
      ExportAllFacts(d, dirname, init, render);
      var r1 := ExportAll(d, dirname, init, render);
      assert ExportAll(d, dirname, assets, render) == ExportImage(r1, dirname, last, render(last.assetID));
      AppendAssoc(d.writes, BaselineWrites(dirname, init), [TempFile(dirname, FileName(last.assetLABEL))]);
      if init != [] {
        assert Exists(MakeDirIfMissing(d, TempDir(dirname)), TempDir(dirname));
        assert Exists(r1, TempDir(dirname));
      }
    }
  }

  /** The baselines leave free the paths where a tier saves: they are not
      tier folders, and the temp folder is no tier file. */
  lemma ExportAllPathsStay(d: Disk, dirname: Path, assets: seq<Asset>, render: string -> Size, u: Tier)
    requires AllStayInFolder(assets) && TierPathsFree(d, dirname, assets, u)
    ensures TierPathsFree(ExportAll(d, dirname, assets, render), dirname, assets, u)
  {
    ExportAllFacts(d, dirname, assets, render);
    TierDirNotInBaselineWrites(dirname, assets, u);
    forall a | a in assets
      ensures TierFile(dirname, u, FileName(a.assetLABEL)) != TempDir(dirname)
    {
      TierFileIsNoTempDir(dirname, u, FileName(a.assetLABEL));
    }
  }

  lemma ExportAllFree(d: Disk, dirname: Path, assets: seq<Asset>, render: string -> Size)
    requires AllStayInFolder(assets) && OutputPathsFree(d, dirname, assets)
    ensures OutputPathsFree(ExportAll(d, dirname, assets, render), dirname, assets)
  {
    forall u: Tier ensures TierPathsFree(ExportAll(d, dirname, assets, render), dirname, assets, u) {
      ExportAllPathsStay(d, dirname, assets, render, u);
    }
  }

  /** When labels stay inside their folders, the baseline of each label is
      the rendering of the last asset carrying it. */
  lemma {:induction false} ExportAllRenders(d: Disk, dirname: Path, assets: seq<Asset>, render: string -> Size)
    requires AllStayInFolder(assets)
    ensures forall i | 0 <= i < |assets| && LastWithLabel(assets, i) ::
              && TempFile(dirname, FileName(assets[i].assetLABEL)) in ExportAll(d, dirname, assets, render).files
              && ExportAll(d, dirname, assets, render).files[TempFile(dirname, FileName(assets[i].assetLABEL))]
                 == render(assets[i].assetID)
  {
    if assets != [] {
      var n := |assets|;
      var init := assets[..n - 1];
      var last := assets[n - 1];
      assert assets == init + [last];
      ExportAllRenders(d, dirname, init, render);
      var r1 := ExportAll(d, dirname, init, render);
      var r := ExportAll(d, dirname, assets, render);
      assert r == ExportImage(r1, dirname, last, render(last.assetID));
      forall i | 0 <= i < n && LastWithLabel(assets, i)
        ensures TempFile(dirname, FileName(assets[i].assetLABEL)) in r.files
        ensures r.files[TempFile(dirname, FileName(assets[i].assetLABEL))] == render(assets[i].assetID)
      {
        if i < n - 1 {
          assert assets[i] == init[i] && LastWithLabel(init, i);
          assert last.assetLABEL != assets[i].assetLABEL;
          if TempFile(dirname, FileName(assets[i].assetLABEL)) == TempFile(dirname, FileName(last.assetLABEL)) {
            FileNameInjective(TempDir(dirname), assets[i].assetLABEL, last.assetLABEL);
          }
        }
      }
    }
  }

  /** When the rasterizer renders every asset large enough, so are the
      baselines it leaves. */
  lemma {:induction false} ExportAllUsable(d: Disk, dirname: Path, assets: seq<Asset>, render: string -> Size)
    requires RendersLargeEnough(assets, render)
    ensures BaselinesUsable(ExportAll(d, dirname, assets, render).files, dirname, assets)
  {
    if assets != [] {
      var n := |assets|;
      var init := assets[..n - 1];
      var last := assets[n - 1];
      assert assets == init + [last];
      ExportAllUsable(d, dirname, init, render);
      var r1 := ExportAll(d, dirname, init, render);
      assert ExportAll(d, dirname, assets, render).files ==
             r1.files[TempFile(dirname, FileName(last.assetLABEL)) := render(last.assetID)];
    }
  }

  /** The last asset carrying a label: every listed label has one. */
  lemma {:induction false} LastWithLabelExists(assets: seq<Asset>, a: Asset)
    requires a in assets
    ensures exists i | 0 <= i < |assets| :: LastWithLabel(assets, i) && assets[i].assetLABEL == a.assetLABEL
  {
    var n := |assets|;
    if assets[n - 1].assetLABEL == a.assetLABEL {
      assert LastWithLabel(assets, n - 1);
    } else {
      var init := assets[..n - 1];
      assert assets == init + [assets[n - 1]];
      assert a in init;
      LastWithLabelExists(init, a);
      var i :| 0 <= i < |init| && LastWithLabel(init, i) && init[i].assetLABEL == a.assetLABEL;
      assert LastWithLabel(assets, i);
    }
  }

  // ------------------------------------------------------------ one tier

  /** Every asset's tier-`t` file exists with the scaled size of the
      asset's baseline in `base`. */
  predicate TierScaled(files: map<Path, Size>, base: map<Path, Size>, dirname: Path, t: Tier, assets: seq<Asset>) {
    forall a | a in assets ::
      && TempFile(dirname, FileName(a.assetLABEL)) in base
      && TierFile(dirname, t, FileName(a.assetLABEL)) in files
      && files[TierFile(dirname, t, FileName(a.assetLABEL))] == ScaledSize(base[TempFile(dirname, FileName(a.assetLABEL))], t)
  }

  /** A present, large enough baseline is resized and saved exactly when
      the tier folder is no regular file and the output path no directory,
      counting the folder the call makes. */
  lemma ImageWithDPIDone(d: Disk, dirname: Path, png: string, t: Tier)
    requires TempFile(dirname, png) in d.files && LargeEnough(d.files[TempFile(dirname, png)])
    ensures ImageWithDPI(d, dirname, png, t).ok <==>
            TierDir(dirname, t) !in d.files && TierFile(dirname, t, png) !in d.dirs + {TierDir(dirname, t)}
    ensures ImageWithDPI(d, dirname, png, t).ok ==>
            ImageWithDPI(d, dirname, png, t) ==
            Run(Save(MakeDirIfMissing(d, TierDir(dirname, t)), TierFile(dirname, t, png),
                     ScaledSize(d.files[TempFile(dirname, png)], t)), true)
  {
    LargeEnoughResizes(d.files[TempFile(dirname, png)], t);
  }

  /** With labels inside their folders and every baseline present and
      large enough, one tier's fan-out succeeds, writes one file per asset in
      order, creates the tier folder when there is an asset, and changes or
      creates no file it does not write. */
  lemma AssetsWithDPIFacts(d: Disk, dirname: Path, assets: seq<Asset>, t: Tier)
    requires BaselinesUsable(d.files, dirname, assets) && AllStayInFolder(assets)
    requires TierPathsFree(d, dirname, assets, t)
    ensures AssetsWithDPI(d, dirname, assets, t).ok
    ensures AssetsWithDPI(d, dirname, assets, t).disk.writes == d.writes + TierWrites(dirname, assets, t)
    ensures AssetsWithDPI(d, dirname, assets, t).disk.dirs ==
            if assets == [] then d.dirs else MakeDirIfMissing(d, TierDir(dirname, t)).dirs
    ensures KeepsOthers(d.files, AssetsWithDPI(d, dirname, assets, t).disk.files, TierWrites(dirname, assets, t))
  {
    AssetsWithDPICompletes(d, dirname, assets, t);
    AssetsWithDPIDirs(d, dirname, assets, t);
    AssetsWithDPIKeeps(d, dirname, assets, t);
  }

  lemma {:induction false} AssetsWithDPICompletes(d: Disk, dirname: Path, assets: seq<Asset>, t: Tier)
    requires BaselinesUsable(d.files, dirname, assets) && AllStayInFolder(assets)
    requires TierPathsFree(d, dirname, assets, t)
    ensures AssetsWithDPI(d, dirname, assets, t).ok
    ensures AssetsWithDPI(d, dirname, assets, t).disk.writes == d.writes + TierWrites(dirname, assets, t)
  {
    if assets != [] {
      var n := |assets|;
      var init := assets[..n - 1];
      var last := assets[n - 1];
      assert assets == init + [last];
      AssetsWithDPICompletes(d, dirname, init, t);
      AssetsWithDPILast(d, dirname, assets, t);
      AppendAssoc(d.writes, TierWrites(dirname, init, t), [TierFile(dirname, t, FileName(last.assetLABEL))]);
    }
  }

  lemma {:induction false} AssetsWithDPIDirs(d: Disk, dirname: Path, assets: seq<Asset>, t: Tier)
    requires BaselinesUsable(d.files, dirname, assets) && AllStayInFolder(assets)
    requires TierPathsFree(d, dirname, assets, t)
    ensures AssetsWithDPI(d, dirname, assets, t).disk.dirs ==
            if assets == [] then d.dirs else MakeDirIfMissing(d, TierDir(dirname, t)).dirs
  {
    if assets != [] {
      var n := |assets|;
      var init := assets[..n - 1];
      assert assets == init + [assets[n - 1]];
      AssetsWithDPIDirs(d, dirname, init, t);
      AssetsWithDPICompletes(d, dirname, init, t);
      var r1 := AssetsWithDPI(d, dirname, init, t);
      AssetsWithDPILast(d, dirname, assets, t);
      if init != [] {
        assert Exists(MakeDirIfMissing(d, TierDir(dirname, t)), TierDir(dirname, t));
        assert Exists(r1.disk, TierDir(dirname, t));
      }
    }
  }

  /** Once the copies of all but the last asset are done, the last asset's
      baseline is still as it was and its scaled copy is saved. */
  lemma AssetsWithDPILast(d: Disk, dirname: Path, assets: seq<Asset>, t: Tier)
    requires assets != [] && BaselinesUsable(d.files, dirname, assets) && AllStayInFolder(assets)
    requires TierPathsFree(d, dirname, assets, t)
    requires AssetsWithDPI(d, dirname, assets[..|assets| - 1], t).ok
    ensures var r1 := AssetsWithDPI(d, dirname, assets[..|assets| - 1], t);
            var png := FileName(assets[|assets| - 1].assetLABEL);
            && TempFile(dirname, png) in r1.disk.files
            && r1.disk.files[TempFile(dirname, png)] == d.files[TempFile(dirname, png)]
            && AssetsWithDPI(d, dirname, assets, t) ==
               Run(Save(MakeDirIfMissing(r1.disk, TierDir(dirname, t)), TierFile(dirname, t, png),
                        ScaledSize(d.files[TempFile(dirname, png)], t)), true)
  {
    var init := assets[..|assets| - 1];
    var png := FileName(assets[|assets| - 1].assetLABEL);
    var r1 := AssetsWithDPI(d, dirname, init, t);
    AssetsWithDPIKeeps(d, dirname, init, t);
    TempFileNotInTierWrites(dirname, init, t, png);
    TierPathsStay(d, dirname, init, assets, t, t);
    TierFileIsNoTierDir(dirname, t, t, png);
    ImageWithDPIDone(r1.disk, dirname, png, t);
  }

  /** When labels stay inside their folders, the fan-out of tier `t` gives
      each asset's tier file the scaled size of its baseline. */
  lemma {:induction false} AssetsWithDPISizes(d: Disk, dirname: Path, assets: seq<Asset>, t: Tier)
    requires BaselinesUsable(d.files, dirname, assets) && AllStayInFolder(assets)
    requires TierPathsFree(d, dirname, assets, t)
    ensures TierScaled(AssetsWithDPI(d, dirname, assets, t).disk.files, d.files, dirname, t, assets)
  {
    if assets != [] {
      var n := |assets|;
      var init := assets[..n - 1];
      var last := assets[n - 1];
      var png := FileName(last.assetLABEL);
      assert assets == init + [last];
      AssetsWithDPIFacts(d, dirname, init, t);
      AssetsWithDPISizes(d, dirname, init, t);
      var r1 := AssetsWithDPI(d, dirname, init, t);
      AssetsWithDPILast(d, dirname, assets, t);
      TierScaledStep(r1.disk.files, d.files, dirname, t, init, last);
    }
  }

  /** Saving the scaled copy of one more asset extends `TierScaled` to it. */
  lemma TierScaledStep(files: map<Path, Size>, base: map<Path, Size>, dirname: Path, t: Tier, init: seq<Asset>, last: Asset)
    requires TierScaled(files, base, dirname, t, init)
    requires TempFile(dirname, FileName(last.assetLABEL)) in base
    requires AllStayInFolder(init + [last])
    ensures TierScaled(files[TierFile(dirname, t, FileName(last.assetLABEL)) :=
                             ScaledSize(base[TempFile(dirname, FileName(last.assetLABEL))], t)],
                       base, dirname, t, init + [last])
  {
    var png := FileName(last.assetLABEL);
    forall a | a in init + [last] && a != last
      ensures TierFile(dirname, t, FileName(a.assetLABEL)) != TierFile(dirname, t, png) ||
              a.assetLABEL == last.assetLABEL
    {
      assert a in init;
      if TierFile(dirname, t, FileName(a.assetLABEL)) == TierFile(dirname, t, png) {
        FileNameInjective(TierDir(dirname, t), a.assetLABEL, last.assetLABEL);
      }
    }
  }

  /** The fan-out over `assets[..i + 1]` is the one over `assets[..i]`
      followed, when that succeeded, by the tier file of `assets[i]`. */
  lemma AssetsWithDPIPrefix(d: Disk, dirname: Path, assets: seq<Asset>, t: Tier, i: nat)
    requires i < |assets|
    ensures AssetsWithDPI(d, dirname, assets[..i + 1], t) ==
            var r := AssetsWithDPI(d, dirname, assets[..i], t);
            if !r.ok then r else ImageWithDPI(r.disk, dirname, FileName(assets[i].assetLABEL), t)
  {
    assert assets[..i + 1][..i] == assets[..i];
  }

  /** The loop of `generateAssetsWithDPI` one asset further: after the
      copies of `assets[..i]` left `before`, the copy of `assets[i]` either
      extends the run or, when it raised, ends the whole tier there. */
  lemma AssetsWithDPINext(d0: Disk, dirname: Path, assets: seq<Asset>, t: Tier, i: nat, before: Disk)
    requires i < |assets| && AssetsWithDPI(d0, dirname, assets[..i], t) == Run(before, true)
    ensures var next := ImageWithDPI(before, dirname, FileName(assets[i].assetLABEL), t);
            && (next.ok ==> AssetsWithDPI(d0, dirname, assets[..i + 1], t) == next)
            && (!next.ok ==> AssetsWithDPI(d0, dirname, assets, t) == next)
  {
    AssetsWithDPIPrefix(d0, dirname, assets, t, i);
    if !ImageWithDPI(before, dirname, FileName(assets[i].assetLABEL), t).ok {
      AssetsWithDPIStops(d0, dirname, assets, t, i + 1);
    }
  }

  /** One tier call, finished or stopped, leaves every file it does not
      write as it was. */
  lemma {:induction false} AssetsWithDPIFrame(d: Disk, dirname: Path, assets: seq<Asset>, t: Tier, p: Path)
    requires p in d.files && p !in TierWrites(dirname, assets, t)
    ensures p in AssetsWithDPI(d, dirname, assets, t).disk.files
    ensures AssetsWithDPI(d, dirname, assets, t).disk.files[p] == d.files[p]
  {
    if assets != [] {
      var init := assets[..|assets| - 1];
      var png := FileName(assets[|assets| - 1].assetLABEL);
      assert TierWrites(dirname, assets, t) == TierWrites(dirname, init, t) + [TierFile(dirname, t, png)];
      AssetsWithDPIFrame(d, dirname, init, t, p);
      var r1 := AssetsWithDPI(d, dirname, init, t);
      if r1.ok {
        ImageWithDPIKeeps(r1.disk, dirname, png, t, p);
      }
    }
  }

  /** One copy leaves every file but its tier file as it was. */
  lemma ImageWithDPIKeeps(d: Disk, dirname: Path, png: string, t: Tier, p: Path)
    requires p in d.files && p != TierFile(dirname, t, png)
    ensures p in ImageWithDPI(d, dirname, png, t).disk.files
    ensures ImageWithDPI(d, dirname, png, t).disk.files[p] == d.files[p]
  {
  }

  /** One tier call, finished or stopped, changes or creates files only at
      that tier's outputs, and creates no directory but the tier folder. */
  lemma {:induction false} AssetsWithDPIKeeps(d: Disk, dirname: Path, assets: seq<Asset>, t: Tier)
    ensures KeepsOthers(d.files, AssetsWithDPI(d, dirname, assets, t).disk.files, TierWrites(dirname, assets, t))
    ensures AssetsWithDPI(d, dirname, assets, t).disk.dirs <= d.dirs + {TierDir(dirname, t)}
  {
    if assets != [] {
      var init := assets[..|assets| - 1];
      var png := FileName(assets[|assets| - 1].assetLABEL);
      AssetsWithDPIKeeps(d, dirname, init, t);
      var r1 := AssetsWithDPI(d, dirname, init, t);
      var r := AssetsWithDPI(d, dirname, assets, t);
      if r1.ok {
        ImageWithDPIBounds(r1.disk, dirname, png, t);
      }
      KeepsOthersTrans(d.files, r1.disk.files, r.disk.files, TierWrites(dirname, init, t), [TierFile(dirname, t, png)]);
    }
  }

  /** One copy, saved or not, changes or creates only its tier file and
      creates no directory but the tier folder. */
  lemma ImageWithDPIBounds(d: Disk, dirname: Path, png: string, t: Tier)
    ensures KeepsOthers(d.files, ImageWithDPI(d, dirname, png, t).disk.files, [TierFile(dirname, t, png)])
    ensures ImageWithDPI(d, dirname, png, t).disk.dirs <= d.dirs + {TierDir(dirname, t)}
  {
  }

  /** A tier call leaves free whatever paths of a tier were free, for any
      list of assets whose labels stay in their folders. */
  lemma TierPathsStay(d: Disk, dirname: Path, assets: seq<Asset>, others: seq<Asset>, t: Tier, u: Tier)
    requires AllStayInFolder(assets) && AllStayInFolder(others) && TierPathsFree(d, dirname, others, u)
    ensures TierPathsFree(AssetsWithDPI(d, dirname, assets, t).disk, dirname, others, u)
  {
    AssetsWithDPIKeeps(d, dirname, assets, t);
    TierDirNotInTierWrites(dirname, assets, t, u);
    forall a | a in others
      ensures TierFile(dirname, u, FileName(a.assetLABEL)) != TierDir(dirname, t)
    {
      TierFileIsNoTierDir(dirname, u, t, FileName(a.assetLABEL));
    }
  }

  /** Once a prefix of the assets has failed, the rest of the fan-out does
      nothing more: `Image.open` raised for a missing baseline, `resize`
      refused a zero side, or `save` found a file or directory in the way,
      and the loop was left. */
  lemma {:induction false} AssetsWithDPIStops(d: Disk, dirname: Path, assets: seq<Asset>, t: Tier, k: nat)
    requires k <= |assets|
    requires !AssetsWithDPI(d, dirname, assets[..k], t).ok
    ensures AssetsWithDPI(d, dirname, assets, t) == AssetsWithDPI(d, dirname, assets[..k], t)
  {
    if k < |assets| {
      var init := assets[..|assets| - 1];
      assert init[..k] == assets[..k];
      AssetsWithDPIStops(d, dirname, init, t, k);
    } else {
      assert assets[..k] == assets;
    }
  }

  // ------------------------------------------------------------ all tiers

  lemma {:induction false} TempFileNotInAllTierWrites(dirname: Path, assets: seq<Asset>, ts: seq<Tier>, png: string)
    requires AllStayInFolder(assets) && !IsAbsolute(png)
    ensures TempFile(dirname, png) !in AllTierWrites(dirname, assets, ts)
  {
    if ts != [] {
      TempFileNotInAllTierWrites(dirname, assets, ts[..|ts| - 1], png);
      TempFileNotInTierWrites(dirname, assets, ts[|ts| - 1], png);
    }
  }

  /** No tier call writes over any asset's baseline. */
  lemma BaselinesOutsideTierWrites(dirname: Path, assets: seq<Asset>, ts: seq<Tier>)
    requires AllStayInFolder(assets)
    ensures forall a | a in assets :: TempFile(dirname, FileName(a.assetLABEL)) !in AllTierWrites(dirname, assets, ts)
  {
    forall a | a in assets
      ensures TempFile(dirname, FileName(a.assetLABEL)) !in AllTierWrites(dirname, assets, ts)
    {
      TempFileNotInAllTierWrites(dirname, assets, ts, FileName(a.assetLABEL));
    }
  }

  lemma BaselinesStay(m1: map<Path, Size>, m2: map<Path, Size>, dirname: Path, assets: seq<Asset>, ws: seq<Path>)
    requires BaselinesUsable(m1, dirname, assets) && KeepsOthers(m1, m2, ws)
    requires forall a | a in assets :: TempFile(dirname, FileName(a.assetLABEL)) !in ws
    ensures BaselinesUsable(m2, dirname, assets)
  {
  }

  /** With usable baselines the fan-out over a list of tiers succeeds and
      writes the tiers' files one tier after the other. */
  lemma {:induction false} AcrossTiersFacts(d: Disk, dirname: Path, assets: seq<Asset>, ts: seq<Tier>)
    requires BaselinesUsable(d.files, dirname, assets) && AllStayInFolder(assets)
    requires PathsFreeAt(d, dirname, assets, ts)
    ensures AcrossTiers(d, dirname, assets, ts).ok
    ensures AcrossTiers(d, dirname, assets, ts).disk.writes == d.writes + AllTierWrites(dirname, assets, ts)
    decreases |ts|
  {
    if ts != [] {
      var init := ts[..|ts| - 1];
      var u := ts[|ts| - 1];
      assert ts == init + [u];
      var r1 := AcrossTiers(d, dirname, assets, init);
      assert r1.ok && r1.disk.writes == d.writes + AllTierWrites(dirname, assets, init) by {
        AcrossTiersFacts(d, dirname, assets, init);
      }
      assert BaselinesUsable(r1.disk.files, dirname, assets) by {
        AcrossTiersKeeps(d, dirname, assets, init);
        BaselinesOutsideTierWrites(dirname, assets, init);
        BaselinesStay(d.files, r1.disk.files, dirname, assets, AllTierWrites(dirname, assets, init));
      }
      AcrossTiersPathsStay(d, dirname, assets, init, u);
      var r2 := AssetsWithDPI(r1.disk, dirname, assets, u);
      assert r2.ok && r2.disk.writes == r1.disk.writes + TierWrites(dirname, assets, u) by {
        AssetsWithDPIFacts(r1.disk, dirname, assets, u);
      }
      assert AcrossTiers(d, dirname, assets, ts) == r2;
      assert AllTierWrites(dirname, assets, ts) == AllTierWrites(dirname, assets, init) + TierWrites(dirname, assets, u);
      AppendAssoc(d.writes, AllTierWrites(dirname, assets, init), TierWrites(dirname, assets, u));
    }
  }

  /** The fan-out over a list of tiers, finished or stopped, changes no file
      it does not write and creates no other file. */
  lemma {:induction false} AcrossTiersKeeps(d: Disk, dirname: Path, assets: seq<Asset>, ts: seq<Tier>)
    ensures KeepsOthers(d.files, AcrossTiers(d, dirname, assets, ts).disk.files, AllTierWrites(dirname, assets, ts))
    decreases |ts|
  {
    if ts != [] {
      var init := ts[..|ts| - 1];
      var u := ts[|ts| - 1];
      AcrossTiersKeeps(d, dirname, assets, init);
      var r1 := AcrossTiers(d, dirname, assets, init);
      var r := AcrossTiers(d, dirname, assets, ts);
      if r1.ok {
        AssetsWithDPIKeeps(r1.disk, dirname, assets, u);
        assert r == AssetsWithDPI(r1.disk, dirname, assets, u);
      }
      assert KeepsOthers(r1.disk.files, r.disk.files, TierWrites(dirname, assets, u));
      assert AllTierWrites(dirname, assets, ts) == AllTierWrites(dirname, assets, init) + TierWrites(dirname, assets, u);
      KeepsOthersTrans(d.files, r1.disk.files, r.disk.files, AllTierWrites(dirname, assets, init), TierWrites(dirname, assets, u));
    }
  }

  /** The tier calls leave free whatever paths of a tier were free. */
  lemma {:induction false} AcrossTiersPathsStay(d: Disk, dirname: Path, assets: seq<Asset>, ts: seq<Tier>, u: Tier)
    requires AllStayInFolder(assets) && TierPathsFree(d, dirname, assets, u)
    ensures TierPathsFree(AcrossTiers(d, dirname, assets, ts).disk, dirname, assets, u)
  {
    if ts != [] {
      var init := ts[..|ts| - 1];
      AcrossTiersPathsStay(d, dirname, assets, init, u);
      var r1 := AcrossTiers(d, dirname, assets, init);
      if r1.ok {
        TierPathsStay(r1.disk, dirname, assets, assets, ts[|ts| - 1], u);
      }
    }
  }

  lemma AcrossTiersFree(d: Disk, dirname: Path, assets: seq<Asset>, ts: seq<Tier>)
    requires AllStayInFolder(assets) && OutputPathsFree(d, dirname, assets)
    ensures OutputPathsFree(AcrossTiers(d, dirname, assets, ts).disk, dirname, assets)
  {
    forall u: Tier ensures TierPathsFree(AcrossTiers(d, dirname, assets, ts).disk, dirname, assets, u) {
      AcrossTiersPathsStay(d, dirname, assets, ts, u);
    }
  }

  /** The tier calls complete and leave every baseline usable. */
  lemma AcrossTiersUsable(d: Disk, dirname: Path, assets: seq<Asset>, ts: seq<Tier>)
    requires BaselinesUsable(d.files, dirname, assets) && AllStayInFolder(assets)
    requires PathsFreeAt(d, dirname, assets, ts)
    ensures AcrossTiers(d, dirname, assets, ts).ok
    ensures BaselinesUsable(AcrossTiers(d, dirname, assets, ts).disk.files, dirname, assets)
  {
    AcrossTiersFacts(d, dirname, assets, ts);
    AcrossTiersKeeps(d, dirname, assets, ts);
    BaselinesOutsideTierWrites(dirname, assets, ts);
    BaselinesStay(d.files, AcrossTiers(d, dirname, assets, ts).disk.files, dirname, assets, AllTierWrites(dirname, assets, ts));
  }

  /** One tier call keeps every existing path, creates its folder once
      there is an asset, and creates no directory when that folder existed. */
  lemma TierDirsStep(d1: Disk, dirname: Path, assets: seq<Asset>, u: Tier)
    requires BaselinesUsable(d1.files, dirname, assets) && AllStayInFolder(assets)
    requires TierPathsFree(d1, dirname, assets, u)
    ensures d1.dirs <= AssetsWithDPI(d1, dirname, assets, u).disk.dirs
    ensures forall p | Exists(d1, p) :: Exists(AssetsWithDPI(d1, dirname, assets, u).disk, p)
    ensures assets != [] ==> Exists(AssetsWithDPI(d1, dirname, assets, u).disk, TierDir(dirname, u))
    ensures (assets == [] || Exists(d1, TierDir(dirname, u))) ==>
            AssetsWithDPI(d1, dirname, assets, u).disk.dirs == d1.dirs
  {
    AssetsWithDPIFacts(d1, dirname, assets, u);
  }

  /** The tier calls never remove a directory or a path; once there is an
      asset every tier's folder exists afterwards; and when there is no
      asset, or every one of those folders existed already, the directories
      stay as they were. */
  lemma {:induction false} AcrossTiersDirs(d: Disk, dirname: Path, assets: seq<Asset>, ts: seq<Tier>)
    requires BaselinesUsable(d.files, dirname, assets) && AllStayInFolder(assets)
    requires PathsFreeAt(d, dirname, assets, ts)
    ensures d.dirs <= AcrossTiers(d, dirname, assets, ts).disk.dirs
    ensures forall p | Exists(d, p) :: Exists(AcrossTiers(d, dirname, assets, ts).disk, p)
    ensures assets != [] ==> forall t | t in ts :: Exists(AcrossTiers(d, dirname, assets, ts).disk, TierDir(dirname, t))
    ensures (assets == [] || forall t | t in ts :: Exists(d, TierDir(dirname, t))) ==>
            AcrossTiers(d, dirname, assets, ts).disk.dirs == d.dirs
    decreases |ts|
  {
    if ts != [] {
      var init := ts[..|ts| - 1];
      var u := ts[|ts| - 1];
      assert ts == init + [u];
      AcrossTiersUsable(d, dirname, assets, init);
      AcrossTiersDirs(d, dirname, assets, init);
      var r1 := AcrossTiers(d, dirname, assets, init);
      AcrossTiersPathsStay(d, dirname, assets, init, u);
      TierDirsStep(r1.disk, dirname, assets, u);
      var r := AcrossTiers(d, dirname, assets, ts);
      assert r == AssetsWithDPI(r1.disk, dirname, assets, u);
      if assets != [] && forall t | t in ts :: Exists(d, TierDir(dirname, t)) {
        assert forall t | t in init :: Exists(d, TierDir(dirname, t));
        assert Exists(r1.disk, TierDir(dirname, u));
      }
    }
  }

  /** When labels stay inside their folders and the baselines are usable,
      after the fan-out over a list of tiers every tier file of every asset
      has the scaled size of the asset's baseline as it was before. */
  lemma {:induction false} AcrossTiersSizes(d: Disk, dirname: Path, assets: seq<Asset>, ts: seq<Tier>)
    requires BaselinesUsable(d.files, dirname, assets) && AllStayInFolder(assets)
    requires PathsFreeAt(d, dirname, assets, ts)
    ensures forall t | t in ts :: TierScaled(AcrossTiers(d, dirname, assets, ts).disk.files, d.files, dirname, t, assets)
  {
    if ts != [] {
      var init := ts[..|ts| - 1];
      var u := ts[|ts| - 1];
      assert ts == init + [u];
      AcrossTiersFacts(d, dirname, assets, init);
      AcrossTiersKeeps(d, dirname, assets, init);
      AcrossTiersSizes(d, dirname, assets, init);
      var r1 := AcrossTiers(d, dirname, assets, init);
      var r := AcrossTiers(d, dirname, assets, ts);
      BaselinesOutsideTierWrites(dirname, assets, init);
      BaselinesStay(d.files, r1.disk.files, dirname, assets, AllTierWrites(dirname, assets, init));
      AcrossTiersPathsStay(d, dirname, assets, init, u);
      AssetsWithDPIFacts(r1.disk, dirname, assets, u);
      AssetsWithDPISizes(r1.disk, dirname, assets, u);
      assert r == AssetsWithDPI(r1.disk, dirname, assets, u);
      assert forall a | a in assets ::
        r1.disk.files[TempFile(dirname, FileName(a.assetLABEL))] == d.files[TempFile(dirname, FileName(a.assetLABEL))];
      assert TierScaled(r.disk.files, d.files, dirname, u, assets);
      forall t | t in ts
        ensures TierScaled(r.disk.files, d.files, dirname, t, assets)
      {
        if t != u {
          assert t in init;
          forall a | a in assets
            ensures TierFile(dirname, t, FileName(a.assetLABEL)) !in TierWrites(dirname, assets, u)
          {
            TierFileNotInOtherTier(dirname, assets, t, u, FileName(a.assetLABEL));
          }
        }
      }
    }
  }

  /** The fan-out over `ts[..i + 1]` is the one over `ts[..i]` followed, when
      that completed, by the fan-out of tier `ts[i]`. */
  lemma AcrossTiersPrefix(d: Disk, dirname: Path, assets: seq<Asset>, ts: seq<Tier>, i: nat)
    requires i < |ts|
    ensures AcrossTiers(d, dirname, assets, ts[..i + 1]) ==
            var r := AcrossTiers(d, dirname, assets, ts[..i]);
            if !r.ok then r else AssetsWithDPI(r.disk, dirname, assets, ts[i])
  {
    assert ts[..i + 1][..i] == ts[..i];
  }

  /** Once a tier call has raised, the later ones do nothing: the exception
      leaves `effect`. */
  lemma {:induction false} AcrossTiersStops(d: Disk, dirname: Path, assets: seq<Asset>, ts: seq<Tier>, k: nat)
    requires k <= |ts|
    requires !AcrossTiers(d, dirname, assets, ts[..k]).ok
    ensures AcrossTiers(d, dirname, assets, ts) == AcrossTiers(d, dirname, assets, ts[..k])
  {
    if k < |ts| {
      var init := ts[..|ts| - 1];
      assert init[..k] == ts[..k];
      AcrossTiersStops(d, dirname, assets, init, k);
    } else {
      assert ts[..k] == ts;
    }
  }

  /** One more tier call after the run `r`: once a call has raised, the
      later ones do nothing. */
  function ThenTier(r: Run, dirname: Path, assets: seq<Asset>, t: Tier): Run {
    if !r.ok then r else AssetsWithDPI(r.disk, dirname, assets, t)
  }

  /** The fan-out over `Order` is the five tier calls of `effect`, one after
      the other, each skipped once an earlier one has raised. */
  lemma AcrossTiersInOrder(d: Disk, dirname: Path, assets: seq<Asset>)
    ensures AcrossTiers(d, dirname, assets, Order) ==
            ThenTier(ThenTier(ThenTier(ThenTier(ThenTier(Run(d, true),
              dirname, assets, MDPI), dirname, assets, HDPI), dirname, assets, XHDPI),
              dirname, assets, XXHDPI), dirname, assets, XXXHDPI)
  {
    var r0 := Run(d, true);
    var r1 := ThenTier(r0, dirname, assets, MDPI);
    var r2 := ThenTier(r1, dirname, assets, HDPI);
    var r3 := ThenTier(r2, dirname, assets, XHDPI);
    var r4 := ThenTier(r3, dirname, assets, XXHDPI);
    assert AcrossTiers(d, dirname, assets, Order[..0]) == r0 by { assert Order[..0] == []; }
    AcrossTiersPrefix(d, dirname, assets, Order, 0);
    assert AcrossTiers(d, dirname, assets, Order[..1]) == r1;
    AcrossTiersPrefix(d, dirname, assets, Order, 1);
    assert AcrossTiers(d, dirname, assets, Order[..2]) == r2;
    AcrossTiersPrefix(d, dirname, assets, Order, 2);
    assert AcrossTiers(d, dirname, assets, Order[..3]) == r3;
    AcrossTiersPrefix(d, dirname, assets, Order, 3);
    assert AcrossTiers(d, dirname, assets, Order[..4]) == r4;
    AcrossTiersPrefix(d, dirname, assets, Order, 4);
    assert Order[..5] == Order;
  }

  // ------------------------------------------------------------ the effect

  /** With labels inside their folders, every asset rendered large enough
      and nothing standing where a tier saves, the whole export completes;
      the writes are every baseline in asset order and then the tier files
      tier by tier from MDPI to XXXHDPI; no other file is changed or
      created, and the tier paths are still free afterwards. */
  lemma EffectRunFacts(d: Disk, dirname: Path, assets: seq<Asset>, render: string -> Size)
    requires AllStayInFolder(assets) && RendersLargeEnough(assets, render)
    requires OutputPathsFree(d, dirname, assets)
    ensures EffectRun(d, dirname, assets, render).ok
    ensures EffectRun(d, dirname, assets, render).disk.writes ==
            d.writes + BaselineWrites(dirname, assets) + AllTierWrites(dirname, assets, Order)
    ensures KeepsOthers(d.files, EffectRun(d, dirname, assets, render).disk.files,
                        BaselineWrites(dirname, assets) + AllTierWrites(dirname, assets, Order))
    ensures OutputPathsFree(EffectRun(d, dirname, assets, render).disk, dirname, assets)
  {
    ExportAllFacts(d, dirname, assets, render);
    ExportAllUsable(d, dirname, assets, render);
    ExportAllFree(d, dirname, assets, render);
    var d0 := ExportAll(d, dirname, assets, render);
    AcrossTiersFree(d0, dirname, assets, Order);
    AcrossTiersFacts(d0, dirname, assets, Order);
    AcrossTiersKeeps(d0, dirname, assets, Order);
    AppendAssoc(d.writes, BaselineWrites(dirname, assets), AllTierWrites(dirname, assets, Order));
    KeepsOthersTrans(d.files, d0.files, EffectRun(d, dirname, assets, render).disk.files,
                     BaselineWrites(dirname, assets), AllTierWrites(dirname, assets, Order));
  }

  /** When labels stay in their folders, one asset whose rendering has a side
      of 1 to 3 pixels makes the export raise, unless a later asset with the
      same label overwrites its baseline first: the MDPI copy of that
      baseline is refused by `resize`, or an earlier copy raised already. */
  lemma NarrowLastStopsRun(d: Disk, dirname: Path, assets: seq<Asset>, render: string -> Size, i: nat)
    requires AllStayInFolder(assets) && i < |assets| && LastWithLabel(assets, i)
    requires TooNarrow(render(assets[i].assetID))
    ensures !EffectRun(d, dirname, assets, render).ok
  {
    var e := ExportAll(d, dirname, assets, render);
    ExportAllRenders(d, dirname, assets, render);
    var png := FileName(assets[i].assetLABEL);
    var src := TempFile(dirname, png);
    assert src in e.files && e.files[src] == render(assets[i].assetID);
    var r := AssetsWithDPI(e, dirname, assets[..i], MDPI);
    AssetsWithDPIPrefix(e, dirname, assets, MDPI, i);
    if r.ok {
      assert assets[i] in assets;
      assert AllStayInFolder(assets[..i]);
      TempFileNotInTierWrites(dirname, assets[..i], MDPI, png);
      AssetsWithDPIFrame(e, dirname, assets[..i], MDPI, src);
      NarrowBaselineRefused(render(assets[i].assetID));
      assert !ImageWithDPI(r.disk, dirname, png, MDPI).ok;
    }
    AssetsWithDPIStops(e, dirname, assets, MDPI, i + 1);
    assert Order[..0] == [] && Order[0] == MDPI;
    AcrossTiersPrefix(e, dirname, assets, Order, 0);
    AcrossTiersStops(e, dirname, assets, Order, 1);
  }

  /** A single asset rendered with a side of 1 to 3 pixels stops the export
      at its MDPI copy: `resize` raises `ValueError`, so nothing is written
      after the baseline. */
  lemma TinyAssetStopsRun(d: Disk, dirname: Path, a: Asset, render: string -> Size)
    requires TooNarrow(render(a.assetID))
    ensures !EffectRun(d, dirname, [a], render).ok
    ensures EffectRun(d, dirname, [a], render).disk.writes == d.writes + [TempFile(dirname, FileName(a.assetLABEL))]
  {
    var e := ExportAll(d, dirname, [a], render);
    assert [a][..|[a]| - 1] == [] && [a][|[a]| - 1] == a;
    assert ExportAll(d, dirname, [], render) == d;
    assert e == ExportImage(ExportAll(d, dirname, [], render), dirname, a, render(a.assetID));
    NarrowBaselineRefused(render(a.assetID));
    assert AssetsWithDPI(e, dirname, [a], MDPI) == ImageWithDPI(e, dirname, FileName(a.assetLABEL), MDPI);
    assert Order[..0] == [] && Order[0] == MDPI;
    AcrossTiersPrefix(e, dirname, [a], Order, 0);
    AcrossTiersStops(e, dirname, [a], Order, 1);
  }

  /** `p` is the output of some asset at some tier. */
  /** `p` is the file of some asset at one of the tiers `ts`. */
  predicate IsTierOutputIn(dirname: Path, assets: seq<Asset>, ts: seq<Tier>, p: Path) {
    exists t, a :: t in ts && a in assets && p == TierFile(dirname, t, FileName(a.assetLABEL))
  }

  predicate IsTierOutput(dirname: Path, assets: seq<Asset>, p: Path) {
    IsTierOutputIn(dirname, assets, Order, p)
  }

  /** `after` extends `before`, and every path it adds is a tier file of one
      of the assets at one of the tiers `ts`. */
  predicate AppendsTierOutputs(before: seq<Path>, after: seq<Path>, dirname: Path, assets: seq<Asset>, ts: seq<Tier>) {
    && |before| <= |after| && after[..|before|] == before
    && forall i | |before| <= i < |after| :: IsTierOutputIn(dirname, assets, ts, after[i])
  }

  /** One copy writes its tier file or nothing. */
  lemma ImageWithDPIWrites(d: Disk, dirname: Path, png: string, t: Tier)
    ensures ImageWithDPI(d, dirname, png, t).disk.writes == d.writes
         || ImageWithDPI(d, dirname, png, t).disk.writes == d.writes + [TierFile(dirname, t, png)]
  {
  }

  /** One tier call, finished or stopped, only appends that tier's files,
      whatever the labels and the baselines. */
  lemma {:induction false} AssetsWithDPIAppends(d: Disk, dirname: Path, assets: seq<Asset>, t: Tier)
    ensures AppendsTierOutputs(d.writes, AssetsWithDPI(d, dirname, assets, t).disk.writes, dirname, assets, [t])
  {
    if assets != [] {
      var init := assets[..|assets| - 1];
      var last := assets[|assets| - 1];
      AssetsWithDPIAppends(d, dirname, init, t);
      var r1 := AssetsWithDPI(d, dirname, init, t);
      var w1 := r1.disk.writes;
      var w := AssetsWithDPI(d, dirname, assets, t).disk.writes;
      var f := TierFile(dirname, t, FileName(last.assetLABEL));
      if r1.ok {
        ImageWithDPIWrites(r1.disk, dirname, FileName(last.assetLABEL), t);
      }
      assert w == w1 || w == w1 + [f];
      forall i | |d.writes| <= i < |w| ensures IsTierOutputIn(dirname, assets, [t], w[i]) {
        if i < |w1| {
          assert w[i] == w1[i];
          var u, a :| u in [t] && a in init && w1[i] == TierFile(dirname, u, FileName(a.assetLABEL));
          assert a in assets;
        } else {
          assert w[i] == f;
          assert t in [t] && last in assets;
        }
      }
      assert w[..|w1|] == w1;
      assert w[..|d.writes|] == w1[..|d.writes|];
    }
  }

  /** The tier calls, finished or stopped, only append tier files. */
  lemma {:induction false} AcrossTiersAppends(d: Disk, dirname: Path, assets: seq<Asset>, ts: seq<Tier>)
    ensures AppendsTierOutputs(d.writes, AcrossTiers(d, dirname, assets, ts).disk.writes, dirname, assets, ts)
  {
    if ts != [] {
      var init := ts[..|ts| - 1];
      var u := ts[|ts| - 1];
      AcrossTiersAppends(d, dirname, assets, init);
      var r1 := AcrossTiers(d, dirname, assets, init);
      var w1 := r1.disk.writes;
      var w := AcrossTiers(d, dirname, assets, ts).disk.writes;
      if r1.ok {
        AssetsWithDPIAppends(r1.disk, dirname, assets, u);
        assert w == AssetsWithDPI(r1.disk, dirname, assets, u).disk.writes;
      }
      assert |w1| <= |w| && w[..|w1|] == w1;
      forall i | |d.writes| <= i < |w| ensures IsTierOutputIn(dirname, assets, ts, w[i]) {
        if i < |w1| {
          assert w[i] == w1[i];
          var t, a :| t in init && a in assets && w1[i] == TierFile(dirname, t, FileName(a.assetLABEL));
          assert t in ts;
        } else {
          var t, a :| t in [u] && a in assets && w[i] == TierFile(dirname, t, FileName(a.assetLABEL));
          assert t in ts;
        }
      }
      assert w[..|d.writes|] == w1[..|d.writes|];
    }
  }

  lemma {:induction false} BaselineWritesLength(dirname: Path, assets: seq<Asset>)
    ensures |BaselineWrites(dirname, assets)| == |assets|
  {
    if assets != [] {
      BaselineWritesLength(dirname, assets[..|assets| - 1]);
    }
  }

  /** On every input, whether the run finishes or raises, the first
      `|assets|` writes are the baselines in asset order, and everything
      written after them is a tier file of some asset at some tier. */
  lemma EffectRunBaselinesFirst(d: Disk, dirname: Path, assets: seq<Asset>, render: string -> Size)
    ensures |d.writes| + |assets| <= |EffectRun(d, dirname, assets, render).disk.writes|
    ensures EffectRun(d, dirname, assets, render).disk.writes[..|d.writes| + |assets|]
            == d.writes + BaselineWrites(dirname, assets)
    ensures forall i | |d.writes| + |assets| <= i < |EffectRun(d, dirname, assets, render).disk.writes| ::
              IsTierOutput(dirname, assets, EffectRun(d, dirname, assets, render).disk.writes[i])
  {
    ExportAllFacts(d, dirname, assets, render);
    BaselineWritesLength(dirname, assets);
    var d0 := ExportAll(d, dirname, assets, render);
    AcrossTiersAppends(d0, dirname, assets, Order);
    var w := EffectRun(d, dirname, assets, render).disk.writes;
    assert |d0.writes| == |d.writes| + |assets|;
    assert w[..|d0.writes|] == d0.writes;
  }

  /** When labels stay in their folders and every rendering is at least
      4 x 4, the writes after the baselines are exactly the tier files:
      every asset gets one at every tier. */
  lemma EffectRunEveryTierOutput(d: Disk, dirname: Path, assets: seq<Asset>, render: string -> Size)
    requires AllStayInFolder(assets) && RendersLargeEnough(assets, render)
    requires OutputPathsFree(d, dirname, assets)
    ensures |d.writes| + |assets| <= |EffectRun(d, dirname, assets, render).disk.writes|
    ensures forall p :: p in EffectRun(d, dirname, assets, render).disk.writes[|d.writes| + |assets|..] <==>
                          IsTierOutput(dirname, assets, p)
  {
    EffectRunFacts(d, dirname, assets, render);
    BaselineWritesLength(dirname, assets);
    var w := EffectRun(d, dirname, assets, render).disk.writes;
    var k := |d.writes| + |assets|;
    assert w[k..] == AllTierWrites(dirname, assets, Order);
    assert w[..k] == d.writes + BaselineWrites(dirname, assets);
    forall p ensures p in w[k..] <==> IsTierOutput(dirname, assets, p) {
      AllTierWritesMembers(dirname, assets, Order, p);
    }
  }

  /** Whether the run finishes or raises, each label's baseline ends as the
      rendering of the last asset carrying it. */
  lemma EffectRunBaselines(d: Disk, dirname: Path, assets: seq<Asset>, render: string -> Size)
    requires AllStayInFolder(assets)
    ensures forall i | 0 <= i < |assets| && LastWithLabel(assets, i) ::
              && TempFile(dirname, FileName(assets[i].assetLABEL)) in EffectRun(d, dirname, assets, render).disk.files
              && EffectRun(d, dirname, assets, render).disk.files[TempFile(dirname, FileName(assets[i].assetLABEL))]
                 == render(assets[i].assetID)
  {
    ExportAllRenders(d, dirname, assets, render);
    var d0 := ExportAll(d, dirname, assets, render);
    AcrossTiersKeeps(d0, dirname, assets, Order);
    BaselinesOutsideTierWrites(dirname, assets, Order);
    forall i | 0 <= i < |assets| && LastWithLabel(assets, i)
      ensures TempFile(dirname, FileName(assets[i].assetLABEL)) !in AllTierWrites(dirname, assets, Order)
    {
      assert assets[i] in assets;
    }
  }

  /** Every tier file of every asset ends with the scaled size of the
      rendering of the last asset carrying its label. */
  lemma EffectRunSizes(d: Disk, dirname: Path, assets: seq<Asset>, render: string -> Size)
    requires AllStayInFolder(assets) && RendersLargeEnough(assets, render)
    requires OutputPathsFree(d, dirname, assets)
    ensures forall t, i | t in Order && 0 <= i < |assets| && LastWithLabel(assets, i) ::
              && TierFile(dirname, t, FileName(assets[i].assetLABEL)) in EffectRun(d, dirname, assets, render).disk.files
              && EffectRun(d, dirname, assets, render).disk.files[TierFile(dirname, t, FileName(assets[i].assetLABEL))]
                 == ScaledSize(render(assets[i].assetID), t)
  {
    ExportAllFacts(d, dirname, assets, render);
    ExportAllRenders(d, dirname, assets, render);
    ExportAllUsable(d, dirname, assets, render);
    ExportAllFree(d, dirname, assets, render);
    var d0 := ExportAll(d, dirname, assets, render);
    AcrossTiersSizes(d0, dirname, assets, Order);
    forall t, i | t in Order && 0 <= i < |assets| && LastWithLabel(assets, i)
      ensures TierFile(dirname, t, FileName(assets[i].assetLABEL)) in EffectRun(d, dirname, assets, render).disk.files
      ensures EffectRun(d, dirname, assets, render).disk.files[TierFile(dirname, t, FileName(assets[i].assetLABEL))]
              == ScaledSize(render(assets[i].assetID), t)
    {
      assert assets[i] in assets;
      assert TierScaled(EffectRun(d, dirname, assets, render).disk.files, d0.files, dirname, t, assets);
    }
  }

  /** Running the export again on the tree it left writes the same sizes to
      the same files: the file map stays exactly as it was. */
  lemma EffectRunIdempotentFiles(d: Disk, dirname: Path, assets: seq<Asset>, render: string -> Size)
    requires AllStayInFolder(assets) && RendersLargeEnough(assets, render)
    requires OutputPathsFree(d, dirname, assets)
    ensures EffectRun(EffectRun(d, dirname, assets, render).disk, dirname, assets, render).disk.files
            == EffectRun(d, dirname, assets, render).disk.files
  {
    var d1 := EffectRun(d, dirname, assets, render).disk;
    var d2 := EffectRun(d1, dirname, assets, render).disk;
    var ws := BaselineWrites(dirname, assets) + AllTierWrites(dirname, assets, Order);
    EffectRunFacts(d, dirname, assets, render);
    EffectRunFacts(d1, dirname, assets, render);
    EffectRunBaselines(d, dirname, assets, render);
    EffectRunBaselines(d1, dirname, assets, render);
    EffectRunSizes(d, dirname, assets, render);
    EffectRunSizes(d1, dirname, assets, render);
    forall p | p in ws
      ensures p in d1.files && p in d2.files && d2.files[p] == d1.files[p]
    {
      if p in BaselineWrites(dirname, assets) {
        BaselineWritesMembers(dirname, assets, p);
        var a :| a in assets && p == TempFile(dirname, FileName(a.assetLABEL));
        LastWithLabelExists(assets, a);
        var i :| 0 <= i < |assets| && LastWithLabel(assets, i) && assets[i].assetLABEL == a.assetLABEL;
        assert p == TempFile(dirname, FileName(assets[i].assetLABEL));
      } else {
        AllTierWritesMembers(dirname, assets, Order, p);
        var t, a :| t in Order && a in assets && p == TierFile(dirname, t, FileName(a.assetLABEL));
        LastWithLabelExists(assets, a);
        var i :| 0 <= i < |assets| && LastWithLabel(assets, i) && assets[i].assetLABEL == a.assetLABEL;
        assert p == TierFile(dirname, t, FileName(assets[i].assetLABEL));
      }
    }
    assert forall p :: p in d2.files <==> p in d1.files;
    assert forall p | p in d1.files :: d2.files[p] == d1.files[p];
  }

  /** Running the export again on the tree it left creates no directory. */
  lemma EffectRunIdempotentDirs(d: Disk, dirname: Path, assets: seq<Asset>, render: string -> Size)
    requires AllStayInFolder(assets) && RendersLargeEnough(assets, render)
    requires OutputPathsFree(d, dirname, assets)
    ensures EffectRun(EffectRun(d, dirname, assets, render).disk, dirname, assets, render).disk.dirs
            == EffectRun(d, dirname, assets, render).disk.dirs
  {
    var e0 := ExportAll(d, dirname, assets, render);
    ExportAllFacts(d, dirname, assets, render);
    ExportAllUsable(d, dirname, assets, render);
    ExportAllFree(d, dirname, assets, render);
    AcrossTiersDirs(e0, dirname, assets, Order);
    AcrossTiersKeeps(e0, dirname, assets, Order);
    AcrossTiersFree(e0, dirname, assets, Order);
    var d1 := AcrossTiers(e0, dirname, assets, Order).disk;
    var e1 := ExportAll(d1, dirname, assets, render);
    ExportAllFacts(d1, dirname, assets, render);
    ExportAllUsable(d1, dirname, assets, render);
    ExportAllFree(d1, dirname, assets, render);
    if assets != [] {
      assert Exists(e0, TempDir(dirname));
      assert Exists(d1, TempDir(dirname));
      assert e1.dirs == d1.dirs;
      forall t | t in Order ensures Exists(e1, TierDir(dirname, t)) {
        assert Exists(d1, TierDir(dirname, t));
      }
    }
    AcrossTiersDirs(e1, dirname, assets, Order);
  }
}
