/** The decision logic of the launcher-icon plugin as values: the fixed
    icon sizes, the `mipmap-*` folders, the paths of the baseline and of
    every tier icon, and the filesystem state each step of the export
    leaves behind. The class in module AndroidIcons follows these
    definitions. */
module IconPlan {
  import opened PathOps
  import opened FileSystem
  import opened Density

  // ---------------------------------------------------------------- tables

  /** `DPI_SIZES`: the side of the square icon of each tier, in pixels. */
  function IconSize(t: Tier): nat {
    match t
    case MDPI => 48
    case HDPI => 72
    case XHDPI => 96
    case XXHDPI => 144
    case XXXHDPI => 192
  }

  /** `DPI_FOLDERS` */
  function IconFolder(t: Tier): string {
    match t
    case MDPI => "mipmap-mdpi"
    case HDPI => "mipmap-hdpi"
    case XHDPI => "mipmap-xhdpi"
    case XXHDPI => "mipmap-xxhdpi"
    case XXXHDPI => "mipmap-xxxhdpi"
  }

  /** The icon is a square whose side grows strictly with the density. */
  lemma IconSizeIncreases(t1: Tier, t2: Tier)
    requires Rank(t1) < Rank(t2)
    ensures IconSize(t1) < IconSize(t2)
  {
  }

  /** Relative to the 48-pixel MDPI icon the sides are 1, 1.5, 2, 3 and 4
      times larger; the factors are kept as halves to stay integral. */
  lemma IconSizeIsMultipleOfBase(t: Tier)
    ensures 2 * IconSize(t) == 48 * [2, 3, 4, 6, 8][Rank(t)]
  {
  }

  /** The square drawn for a tier, whatever the baseline's size. */
  function IconSquare(t: Tier): Size {
    Size(IconSize(t), IconSize(t))
  }

  /** A position at which two different tiers' folder names differ: after
      the common "mipmap-" prefix, one 'x' per step above HDPI. */
  function IconFolderDiff(t1: Tier, t2: Tier): (k: nat)
    requires t1 != t2
    ensures k < |IconFolder(t1)| && k < |IconFolder(t2)| && IconFolder(t1)[k] != IconFolder(t2)[k]
  {
    7 + Min(XCount(t1), XCount(t2))
  }

  // ------------------------------------------------------------------ paths

  const IconName: string := "ic_launcher.png"

  /** `os.path.join(DIRNAME, "temp", 'ic_launcher.png')` */
  function TempIcon(dirname: Path): Path {
    Join(TempDir(dirname), IconName)
  }

  function IconDir(dirname: Path, t: Tier): Path {
    Join(dirname, IconFolder(t))
  }

  /** `os.path.join(DIRNAME, DPI_FOLDERS[t], 'ic_launcher.png')` */
  function IconFile(dirname: Path, t: Tier): Path {
    Join(IconDir(dirname, t), IconName)
  }

  lemma IconFoldersAreComponents(t: Tier)
    ensures NoSep(IconFolder(t)) && IconFolder(t) != ""
  {
  }

  /** The icons of different tiers never share a path. */
  lemma IconFilesDistinct(dirname: Path, t1: Tier, t2: Tier)
    requires t1 != t2
    ensures IconFile(dirname, t1) != IconFile(dirname, t2)
  {
    assert !IsAbsolute(IconName);
    IconFoldersAreComponents(t1);
    IconFoldersAreComponents(t2);
    JoinDiverges(dirname, IconFolder(t1), IconFolder(t2), IconName, IconName, IconFolderDiff(t1, t2));
  }

  /** No tier icon is the baseline. */
  lemma TempIconIsNoIconFile(dirname: Path, t: Tier)
    ensures TempIcon(dirname) != IconFile(dirname, t)
  {
    assert !IsAbsolute(IconName);
    IconFoldersAreComponents(t);
    assert NoSep("temp");
    JoinDiverges(dirname, "temp", IconFolder(t), IconName, IconName, 0);
  }

  /** No tier icon is a tier folder, of its own tier or another. */
  lemma IconFileIsNoIconDir(dirname: Path, t: Tier, u: Tier)
    ensures IconFile(dirname, t) != IconDir(dirname, u)
  {
    assert !IsAbsolute(IconName);
    IconFoldersAreComponents(t);
    IconFoldersAreComponents(u);
    ChildIsNoSibling(dirname, IconFolder(t), IconFolder(u), IconName);
  }

  /** The baseline is no tier folder, and no tier icon is the temp folder. */
  lemma TempPathsAreNoIconPaths(dirname: Path, t: Tier)
    ensures TempIcon(dirname) != IconDir(dirname, t)
    ensures IconFile(dirname, t) != TempDir(dirname)
  {
    assert !IsAbsolute(IconName);
    IconFoldersAreComponents(t);
    assert NoSep("temp");
    ChildIsNoSibling(dirname, "temp", IconFolder(t), IconName);
    ChildIsNoSibling(dirname, IconFolder(t), "temp", IconName);
  }

  /** In a drawing kept in /p, the MDPI icon is /p/mipmap-mdpi/ic_launcher.png. */
  lemma IconFileExample()
    ensures IconFile("/p", MDPI) == "/p/mipmap-mdpi/ic_launcher.png"
  {
    assert !IsAbsolute("mipmap-mdpi") && IconDir("/p", MDPI) == "/p/mipmap-mdpi";
    assert !IsAbsolute(IconName);
  }

  // ------------------------------------------------------------ the steps

  /** `exportImageToPNG`: create `DIRNAME/temp` when missing, then the
      rasterizer writes the baseline, of size `rendered`. */
  function ExportIcon(d: Disk, dirname: Path, rendered: Size): Disk {
    Save(MakeDirIfMissing(d, TempDir(dirname)), TempIcon(dirname), rendered)
  }

  /** `generateIconWithDPI`: open the baseline (failing when it is absent),
      create the tier folder when missing (nothing is made when a regular
      file is there), and save the square of the tier, which fails when the
      tier folder is a regular file or the icon path is a directory. */
  function IconWithDPI(d: Disk, dirname: Path, t: Tier): Run {
    if TempIcon(dirname) !in d.files then Run(d, false)
    else
      var d1 := MakeDirIfMissing(d, IconDir(dirname, t));
      if IconDir(dirname, t) in d1.files || IconFile(dirname, t) in d1.dirs then Run(d1, false)
      else Run(Save(d1, IconFile(dirname, t), IconSquare(t)), true)
  }

  /** The tiers `ts` one after the other, stopping at the first failure. */
  function IconTiers(d: Disk, dirname: Path, ts: seq<Tier>): Run {
    if ts == [] then Run(d, true)
    else
      var r := IconTiers(d, dirname, ts[..|ts| - 1]);
      if !r.ok then r else IconWithDPI(r.disk, dirname, ts[|ts| - 1])
  }

  /** `effect` once the directory is resolved and the icon id picked: the
      baseline, then the tiers MDPI to XXXHDPI. */
  function IconRun(d: Disk, dirname: Path, rendered: Size): Run {
    IconTiers(ExportIcon(d, dirname, rendered), dirname, Order)
  }

  function IconWrites(dirname: Path, ts: seq<Tier>): seq<Path> {
    if ts == [] then [] else IconWrites(dirname, ts[..|ts| - 1]) + [IconFile(dirname, ts[|ts| - 1])]
  }

  /** Nothing stands where tier `t` saves: no regular file at its folder
      and no directory at its icon. */
  predicate IconPathsFree(d: Disk, dirname: Path, t: Tier) {
    IconDir(dirname, t) !in d.files && IconFile(dirname, t) !in d.dirs
  }

  predicate IconPathsFreeAt(d: Disk, dirname: Path, ts: seq<Tier>) {
    forall t | t in ts :: IconPathsFree(d, dirname, t)
  }

  /** Nothing stands where any tier saves. */
  predicate IconOutputsFree(d: Disk, dirname: Path) {
    forall t: Tier :: IconPathsFree(d, dirname, t)
  }

  /** One tier call, saved or not, changes or creates only its icon and
      creates no directory but its folder. */
  lemma IconWithDPIBounds(d: Disk, dirname: Path, t: Tier)
    ensures KeepsOthers(d.files, IconWithDPI(d, dirname, t).disk.files, [IconFile(dirname, t)])
    ensures IconWithDPI(d, dirname, t).disk.dirs <= d.dirs + {IconDir(dirname, t)}
  {
  }

  /** A tier call leaves free whatever tier paths were free. */
  lemma IconPathsStay(d: Disk, dirname: Path, t: Tier, u: Tier)
    requires IconPathsFree(d, dirname, u)
    ensures IconPathsFree(IconWithDPI(d, dirname, t).disk, dirname, u)
  {
    IconWithDPIBounds(d, dirname, t);
    IconFileIsNoIconDir(dirname, t, u);
    IconFileIsNoIconDir(dirname, u, t);
  }

  lemma {:induction false} IconTiersPathsStay(d: Disk, dirname: Path, ts: seq<Tier>, u: Tier)
    requires IconPathsFree(d, dirname, u)
    ensures IconPathsFree(IconTiers(d, dirname, ts).disk, dirname, u)
  {
    if ts != [] {
      var init := ts[..|ts| - 1];
      IconTiersPathsStay(d, dirname, init, u);
      var r1 := IconTiers(d, dirname, init);
      if r1.ok {
        IconPathsStay(r1.disk, dirname, ts[|ts| - 1], u);
      }
    }
  }

  lemma IconTiersFree(d: Disk, dirname: Path, ts: seq<Tier>)
    requires IconOutputsFree(d, dirname)
    ensures IconOutputsFree(IconTiers(d, dirname, ts).disk, dirname)
  {
    forall u: Tier ensures IconPathsFree(IconTiers(d, dirname, ts).disk, dirname, u) {
      IconTiersPathsStay(d, dirname, ts, u);
    }
  }

  /** The baseline export leaves the tier paths as free as they were, and
      frees none: it writes no tier path and makes only the temp folder. */
  lemma ExportIconFree(d: Disk, dirname: Path, rendered: Size)
    ensures IconOutputsFree(ExportIcon(d, dirname, rendered), dirname) <==> IconOutputsFree(d, dirname)
  {
    forall u: Tier
      ensures IconPathsFree(ExportIcon(d, dirname, rendered), dirname, u) <==> IconPathsFree(d, dirname, u)
    {
      TempPathsAreNoIconPaths(dirname, u);
    }
  }

  /** With the baseline present, the tiers `ts` all succeed, write one icon
      each in order, keep the baseline, and leave each tier's icon as the
      square of that tier. */
  lemma {:induction false} IconTiersFacts(d: Disk, dirname: Path, ts: seq<Tier>)
    requires TempIcon(dirname) in d.files && IconPathsFreeAt(d, dirname, ts)
    ensures IconTiers(d, dirname, ts).ok
    ensures IconTiers(d, dirname, ts).disk.writes == d.writes + IconWrites(dirname, ts)
    ensures TempIcon(dirname) in IconTiers(d, dirname, ts).disk.files
    ensures IconTiers(d, dirname, ts).disk.files[TempIcon(dirname)] == d.files[TempIcon(dirname)]
    ensures forall t | t in ts ::
              IconFile(dirname, t) in IconTiers(d, dirname, ts).disk.files
              && IconTiers(d, dirname, ts).disk.files[IconFile(dirname, t)] == IconSquare(t)
  {
    if ts != [] {
      var init := ts[..|ts| - 1];
      var u := ts[|ts| - 1];
      assert ts == init + [u];
      IconTiersFacts(d, dirname, init);
      var r1 := IconTiers(d, dirname, init);
      var r := IconTiers(d, dirname, ts);
      IconTiersPathsStay(d, dirname, init, u);
      IconFileIsNoIconDir(dirname, u, u);
      assert r == IconWithDPI(r1.disk, dirname, u);
      AppendAssoc(d.writes, IconWrites(dirname, init), [IconFile(dirname, u)]);
      assert r.disk.files == r1.disk.files[IconFile(dirname, u) := IconSquare(u)];
      TempIconIsNoIconFile(dirname, u);
      forall t | t in ts
        ensures IconFile(dirname, t) in r.disk.files && r.disk.files[IconFile(dirname, t)] == IconSquare(t)
      {
        if t != u {
          assert t in init;
          IconFilesDistinct(dirname, t, u);
        }
      }
    }
  }

  /** With the baseline present and the tier paths free, after the tiers
      `done` the icon of tier `t` is produced and extends the run to
      `done + [t]`. */
  lemma IconTiersStep(d: Disk, dirname: Path, done: seq<Tier>, t: Tier)
    requires TempIcon(dirname) in d.files && IconPathsFreeAt(d, dirname, done + [t])
    ensures IconWithDPI(IconTiers(d, dirname, done).disk, dirname, t).ok
    ensures IconTiers(d, dirname, done + [t]) == IconWithDPI(IconTiers(d, dirname, done).disk, dirname, t)
  {
    IconTiersFacts(d, dirname, done + [t]);
    assert (done + [t])[..|done|] == done;
  }

  /** One more tier call after the run `r`: once a call has raised, the
      later ones do nothing. */
  function ThenIcon(r: Run, dirname: Path, t: Tier): Run {
    if !r.ok then r else IconWithDPI(r.disk, dirname, t)
  }

  /** The tiers over `Order` are the five calls of `effect`, one after the
      other, each skipped once an earlier one has raised. */
  lemma IconTiersInOrder(d: Disk, dirname: Path)
    ensures IconTiers(d, dirname, Order) ==
            ThenIcon(ThenIcon(ThenIcon(ThenIcon(ThenIcon(Run(d, true),
              dirname, MDPI), dirname, HDPI), dirname, XHDPI), dirname, XXHDPI), dirname, XXXHDPI)
  {
    var r0 := Run(d, true);
    var r1 := ThenIcon(r0, dirname, MDPI);
    var r2 := ThenIcon(r1, dirname, HDPI);
    var r3 := ThenIcon(r2, dirname, XHDPI);
    var r4 := ThenIcon(r3, dirname, XXHDPI);
    assert IconTiers(d, dirname, Order[..0]) == r0 by { assert Order[..0] == []; }
    IconTiersPrefix(d, dirname, Order, 0);
    assert IconTiers(d, dirname, Order[..1]) == r1;
    IconTiersPrefix(d, dirname, Order, 1);
    assert IconTiers(d, dirname, Order[..2]) == r2;
    IconTiersPrefix(d, dirname, Order, 2);
    assert IconTiers(d, dirname, Order[..3]) == r3;
    IconTiersPrefix(d, dirname, Order, 3);
    assert IconTiers(d, dirname, Order[..4]) == r4;
    IconTiersPrefix(d, dirname, Order, 4);
    assert Order[..5] == Order;
  }

  /** The tiers `ts[..i + 1]` are the tiers `ts[..i]` followed, when those
      completed, by the call for `ts[i]`. */
  lemma IconTiersPrefix(d: Disk, dirname: Path, ts: seq<Tier>, i: nat)
    requires i < |ts|
    ensures IconTiers(d, dirname, ts[..i + 1]) == ThenIcon(IconTiers(d, dirname, ts[..i]), dirname, ts[i])
  {
    assert ts[..i + 1][..i] == ts[..i];
  }

  /** Over all tiers the icons are written in the order MDPI to XXXHDPI. */
  lemma IconWritesInOrder(dirname: Path)
    ensures IconWrites(dirname, Order) ==
            [IconFile(dirname, MDPI), IconFile(dirname, HDPI), IconFile(dirname, XHDPI),
             IconFile(dirname, XXHDPI), IconFile(dirname, XXXHDPI)]
  {
    var f := t => IconFile(dirname, t);
    assert [MDPI][..0] == [];
    assert IconWrites(dirname, [MDPI]) == [f(MDPI)];
    assert [MDPI, HDPI][..1] == [MDPI];
    assert IconWrites(dirname, [MDPI, HDPI]) == [f(MDPI), f(HDPI)];
    assert [MDPI, HDPI, XHDPI][..2] == [MDPI, HDPI];
    assert IconWrites(dirname, [MDPI, HDPI, XHDPI]) == [f(MDPI), f(HDPI), f(XHDPI)];
    assert [MDPI, HDPI, XHDPI, XXHDPI][..3] == [MDPI, HDPI, XHDPI];
    assert IconWrites(dirname, [MDPI, HDPI, XHDPI, XXHDPI]) == [f(MDPI), f(HDPI), f(XHDPI), f(XXHDPI)];
    assert Order[..4] == [MDPI, HDPI, XHDPI, XXHDPI];
  }

  /** The whole export with the tier paths free: it completes, writes the
      baseline once and then the five icons from MDPI to XXXHDPI, and every
      icon ends as the square of its tier, whatever size the baseline was
      rendered at. */
  lemma IconRunFacts(d: Disk, dirname: Path, rendered: Size)
    requires IconOutputsFree(d, dirname)
    ensures IconRun(d, dirname, rendered).ok
    ensures IconRun(d, dirname, rendered).disk.writes ==
            d.writes + [TempIcon(dirname), IconFile(dirname, MDPI), IconFile(dirname, HDPI),
                        IconFile(dirname, XHDPI), IconFile(dirname, XXHDPI), IconFile(dirname, XXXHDPI)]
    ensures TempIcon(dirname) in IconRun(d, dirname, rendered).disk.files
    ensures IconRun(d, dirname, rendered).disk.files[TempIcon(dirname)] == rendered
    ensures forall t: Tier ::
              IconFile(dirname, t) in IconRun(d, dirname, rendered).disk.files
              && IconRun(d, dirname, rendered).disk.files[IconFile(dirname, t)] == IconSquare(t)
  {
    var r := IconRun(d, dirname, rendered);
    assert r == IconTiers(ExportIcon(d, dirname, rendered), dirname, Order);
    ExportThenTiersFacts(d, dirname, rendered, Order);
    assert r.disk.writes == d.writes + ([TempIcon(dirname)] + IconWrites(dirname, Order)) by {
      AppendAssoc(d.writes, [TempIcon(dirname)], IconWrites(dirname, Order));
    }
    IconWritesInOrder(dirname);
    PrependToFive(TempIcon(dirname), IconFile(dirname, MDPI), IconFile(dirname, HDPI),
                  IconFile(dirname, XHDPI), IconFile(dirname, XXHDPI), IconFile(dirname, XXXHDPI));
    forall t: Tier
      ensures IconFile(dirname, t) in r.disk.files && r.disk.files[IconFile(dirname, t)] == IconSquare(t)
    {
      TierInOrder(t);
    }
  }

  /** `IconRunFacts` for any list of tiers run after the export. */
  lemma ExportThenTiersFacts(d: Disk, dirname: Path, rendered: Size, ts: seq<Tier>)
    requires IconOutputsFree(d, dirname)
    ensures IconTiers(ExportIcon(d, dirname, rendered), dirname, ts).ok
    ensures IconTiers(ExportIcon(d, dirname, rendered), dirname, ts).disk.writes ==
            d.writes + [TempIcon(dirname)] + IconWrites(dirname, ts)
    ensures TempIcon(dirname) in IconTiers(ExportIcon(d, dirname, rendered), dirname, ts).disk.files
    ensures IconTiers(ExportIcon(d, dirname, rendered), dirname, ts).disk.files[TempIcon(dirname)] == rendered
    ensures forall t | t in ts ::
              IconFile(dirname, t) in IconTiers(ExportIcon(d, dirname, rendered), dirname, ts).disk.files
              && IconTiers(ExportIcon(d, dirname, rendered), dirname, ts).disk.files[IconFile(dirname, t)] == IconSquare(t)
  {
    var d0 := ExportIcon(d, dirname, rendered);
    assert IconPathsFreeAt(d0, dirname, ts) by {
      ExportIconFree(d, dirname, rendered);
    }
    IconTiersFacts(d0, dirname, ts);
  }

  lemma PrependToFive<T>(x: T, a: T, b: T, c: T, e: T, f: T)
    ensures [x] + [a, b, c, e, f] == [x, a, b, c, e, f]
  {
  }

  lemma TierInOrder(t: Tier)
    ensures t in Order
  {
    OrderIsByRank();
    assert Order[Rank(t)] == t;
  }

  /** The tier calls, finished or stopped, change no file but the icons
      they write, create no other, and remove no directory. */
  lemma {:induction false} IconTiersKeeps(d: Disk, dirname: Path, ts: seq<Tier>)
    ensures KeepsOthers(d.files, IconTiers(d, dirname, ts).disk.files, IconWrites(dirname, ts))
    ensures d.dirs <= IconTiers(d, dirname, ts).disk.dirs
  {
    if ts != [] {
      var init := ts[..|ts| - 1];
      var u := ts[|ts| - 1];
      IconTiersKeeps(d, dirname, init);
      var r1 := IconTiers(d, dirname, init);
      var r := IconTiers(d, dirname, ts);
      if r1.ok {
        IconWithDPIBounds(r1.disk, dirname, u);
      }
      KeepsOthersTrans(d.files, r1.disk.files, r.disk.files, IconWrites(dirname, init), [IconFile(dirname, u)]);
    }
  }

  /** The tier calls complete only when every tier path was free. */
  lemma {:induction false} IconTiersOkOnlyIfFree(d: Disk, dirname: Path, ts: seq<Tier>)
    ensures IconTiers(d, dirname, ts).ok ==> IconPathsFreeAt(d, dirname, ts)
  {
    if ts != [] {
      var init := ts[..|ts| - 1];
      var u := ts[|ts| - 1];
      assert ts == init + [u];
      IconTiersOkOnlyIfFree(d, dirname, init);
      IconTiersKeeps(d, dirname, init);
      var r1 := IconTiers(d, dirname, init);
      if IconTiers(d, dirname, ts).ok {
        assert r1.ok && IconWithDPI(r1.disk, dirname, u).ok;
        assert IconPathsFree(r1.disk, dirname, u);
        assert IconPathsFree(d, dirname, u);
      }
    }
  }

  /** The export completes exactly when nothing stands where a tier saves:
      a regular file at a `mipmap-*` folder or a directory at a tier icon
      makes `save` raise. */
  lemma IconRunOk(d: Disk, dirname: Path, rendered: Size)
    ensures IconRun(d, dirname, rendered).ok <==> IconOutputsFree(d, dirname)
  {
    var e := ExportIcon(d, dirname, rendered);
    ExportIconFree(d, dirname, rendered);
    IconTiersOkOnlyIfFree(e, dirname, Order);
    if IconOutputsFree(d, dirname) {
      IconRunFacts(d, dirname, rendered);
    }
    OrderIsByRank();
    forall t: Tier ensures t in Order {
      assert Order[Rank(t)] == t;
    }
  }

  /** With the baseline present and the tier paths free, the tiers but the
      last complete and the last one saves its square. */
  lemma IconTiersLast(d: Disk, dirname: Path, ts: seq<Tier>)
    requires ts != [] && TempIcon(dirname) in d.files && IconPathsFreeAt(d, dirname, ts)
    ensures var r1 := IconTiers(d, dirname, ts[..|ts| - 1]);
            var u := ts[|ts| - 1];
            && r1.ok
            && IconTiers(d, dirname, ts) ==
               Run(Save(MakeDirIfMissing(r1.disk, IconDir(dirname, u)), IconFile(dirname, u), IconSquare(u)), true)
  {
    var init := ts[..|ts| - 1];
    var u := ts[|ts| - 1];
    assert ts == init + [u];
    IconTiersFacts(d, dirname, init);
    IconTiersPathsStay(d, dirname, init, u);
    IconFileIsNoIconDir(dirname, u, u);
  }

  /** The tier calls never remove a directory, leave every tier's folder in
      place, and change no directory when those folders all existed. */
  lemma {:induction false} IconTiersDirs(d: Disk, dirname: Path, ts: seq<Tier>)
    requires TempIcon(dirname) in d.files && IconPathsFreeAt(d, dirname, ts)
    ensures d.dirs <= IconTiers(d, dirname, ts).disk.dirs
    ensures forall t | t in ts :: Exists(IconTiers(d, dirname, ts).disk, IconDir(dirname, t))
    ensures (forall t | t in ts :: Exists(d, IconDir(dirname, t))) ==> IconTiers(d, dirname, ts).disk.dirs == d.dirs
  {
    if ts != [] {
      var init := ts[..|ts| - 1];
      var u := ts[|ts| - 1];
      assert ts == init + [u];
      IconTiersDirs(d, dirname, init);
      IconTiersLast(d, dirname, ts);
      if forall t | t in ts :: Exists(d, IconDir(dirname, t)) {
        assert forall t | t in init :: Exists(d, IconDir(dirname, t));
        assert Exists(d, IconDir(dirname, u));
      }
    }
  }

  /** The whole export changes no file but the baseline and the five icons,
      and creates no other. */
  lemma IconRunKeeps(d: Disk, dirname: Path, rendered: Size)
    ensures KeepsOthers(d.files, IconRun(d, dirname, rendered).disk.files, [TempIcon(dirname)] + IconWrites(dirname, Order))
  {
    var d0 := ExportIcon(d, dirname, rendered);
    IconTiersKeeps(d0, dirname, Order);
    KeepsOthersTrans(d.files, d0.files, IconRun(d, dirname, rendered).disk.files, [TempIcon(dirname)], IconWrites(dirname, Order));
  }

  /** Exporting the same icon again on the tree the export left writes the
      same sizes to the same files: the file map stays exactly as it was. */
  lemma IconRunIdempotentFiles(d: Disk, dirname: Path, rendered: Size)
    requires IconOutputsFree(d, dirname)
    ensures IconRun(IconRun(d, dirname, rendered).disk, dirname, rendered).disk.files
            == IconRun(d, dirname, rendered).disk.files
  {
    var d1 := IconRun(d, dirname, rendered).disk;
    var d2 := IconRun(d1, dirname, rendered).disk;
    assert IconOutputsFree(d1, dirname) by {
      ExportIconFree(d, dirname, rendered);
      IconTiersFree(ExportIcon(d, dirname, rendered), dirname, Order);
    }
    IconRunFacts(d, dirname, rendered);
    IconRunFacts(d1, dirname, rendered);
    IconRunKeeps(d1, dirname, rendered);
    HoldsIconOutputsSame(d1.files, d2.files, dirname, rendered);
  }

  /** Two file maps that both hold the exported icon and its five squares,
      of which the second keeps every other file of the first, are equal. */
  lemma HoldsIconOutputsSame(m1: map<Path, Size>, m2: map<Path, Size>, dirname: Path, rendered: Size)
    requires HoldsIconOutputs(m1, dirname, rendered) && HoldsIconOutputs(m2, dirname, rendered)
    requires KeepsOthers(m1, m2, [TempIcon(dirname)] + IconWrites(dirname, Order))
    ensures m2 == m1
  {
    IconWritesInOrder(dirname);
    PrependToFive(TempIcon(dirname), IconFile(dirname, MDPI), IconFile(dirname, HDPI),
                  IconFile(dirname, XHDPI), IconFile(dirname, XXHDPI), IconFile(dirname, XXXHDPI));
    KeepsOthersSame(m1, m2, [TempIcon(dirname)] + IconWrites(dirname, Order));
  }

  /** The file map holds the rendered icon in temp and every tier's square. */
  predicate HoldsIconOutputs(m: map<Path, Size>, dirname: Path, rendered: Size) {
    && TempIcon(dirname) in m && m[TempIcon(dirname)] == rendered
    && forall t: Tier :: IconFile(dirname, t) in m && m[IconFile(dirname, t)] == IconSquare(t)
  }

  /** Exporting again on the tree the export left creates no directory. */
  lemma IconRunIdempotentDirs(d: Disk, dirname: Path, rendered: Size)
    requires IconOutputsFree(d, dirname)
    ensures IconRun(IconRun(d, dirname, rendered).disk, dirname, rendered).disk.dirs
            == IconRun(d, dirname, rendered).disk.dirs
  {
    var e0 := ExportIcon(d, dirname, rendered);
    ExportIconFree(d, dirname, rendered);
    IconTiersDirs(e0, dirname, Order);
    IconTiersKeeps(e0, dirname, Order);
    IconTiersFree(e0, dirname, Order);
    var d1 := IconTiers(e0, dirname, Order).disk;
    var e1 := ExportIcon(d1, dirname, rendered);
    ExportIconFree(d1, dirname, rendered);
    assert Exists(e0, TempDir(dirname));
    assert Exists(d1, TempDir(dirname));
    assert e1.dirs == d1.dirs;
    forall t | t in Order ensures Exists(e1, IconDir(dirname, t)) {
      assert Exists(d1, IconDir(dirname, t));
    }
    IconTiersDirs(e1, dirname, Order);
  }
}
