# Android export plugins for Inkscape, modelled in Dafny

Two Inkscape effect plugins export a drawing into an Android project. Both
work the same way. They decide the output directory `DIRNAME`, render a
baseline PNG into `DIRNAME/temp`, and then write one copy per screen-density
tier (MDPI, HDPI, XHDPI, XXHDPI, XXXHDPI) into that tier's resource folder.

- `hacagusae_android_assets.py` (`AndroidAssetExport`) exports every
  layer child that has a non-empty `id` and a non-empty `inkscape:label`.
  It scales each baseline by 1/4, 3/8, 1/2, 3/4 or 1 into `drawable-*/<label>.png`.
- `hacagusae_android_icons.py` (`AndroidIconExport`) exports the first
  selected element as a launcher icon. It writes fixed squares of 48, 72, 96,
  144 and 192 pixels into `mipmap-*/ic_launcher.png`.

The model keeps the decisions and leaves out the tools the plugins drive:

- The rasterizer is a function from element id to image size.
- The recursive file search is a list of candidates, each with a path, a
  regular-file flag and a modification time.
- The filesystem is a set of directories plus a map from file path to image
  size. A ghost record of the writes, in order, is kept for the
  specification.

Modules:

- `PathOps` (paths.dfy): POSIX `os.path.join` and the head of
  `os.path.split`, on strings.
- `FileSystem` (filesystem.dfy): the disk value, `mkdir`-if-missing, saving
  an image, and the error outcomes.
- `Density` (density.dfy): the five tiers and the order in which both
  plugins produce them.
- `Resolver` (resolver.dfy): working-directory resolution. It keeps the
  regular files, sorts them stably by mtime, and takes the head of the last
  path.
- `AssetPlan`, `AssetRun` (asset_plan.dfy, asset_run.dfy): the asset
  plugin as functions. They cover the scale table, asset enumeration, the
  output paths, and the disk after every step of `effect`.
- `IconPlan` (icon_plan.dfy): the same for the icon plugin.
- `AndroidAssets`, `AndroidIcons` (android_assets.dfy, android_icons.dfy):
  the two plugin classes. Their fields are `DIRNAME`, the selection and the
  disk. Each method is proved to leave exactly the state that the
  corresponding function describes. The lemmas about those functions carry
  the properties.

Target sizes are truncated, not rounded. The code computes
`int(scale * dim)`, and the model follows it: `AssetPlan.ScaledDim` is the
floor of `dim * num / den`. For example, 100 pixels at HDPI give 37, where
rounding would give 38.

## Model

| member | source | states |
|---|---|---|
| PathOps.SplitHeadOfJoin | hacagusae_android_icons.py:76 | `os.path.split` of `d` joined with a one-component file name gives `d` back as the head |
| PathOps.JoinInjective | hacagusae_android_assets.py:108 | two relative names joined onto the same directory give the same path only if the names are equal |
| PathOps.JoinDiverges | hacagusae_android_assets.py:98 | files under two sibling folders whose names differ at some position never share a path |
| PathOps.ChildIsNoSibling | hacagusae_android_assets.py:86-98 | a file inside one subfolder of a directory is never itself a subfolder of that directory |
| FileSystem.MakeDirIfMissing | hacagusae_android_assets.py:85-88 | afterwards the path exists; if it already existed nothing changes; otherwise only that directory is added; files and writes are untouched |
| FileSystem.MakeDirIdempotent | hacagusae_android_assets.py:85-88 | creating a directory twice leaves the same disk as creating it once |
| Density.OrderIsByRank | hacagusae_android_assets.py:148-152 | the tier order used by `effect` has five entries, lists every tier exactly once, and goes by increasing density |
| Resolver.RegularFiles | hacagusae_android_icons.py:72 | a candidate is kept exactly when it is in the listing and is a regular file; never more entries than the listing |
| Resolver.InsertByMtimeAdds | hacagusae_android_icons.py:75 | inserting adds exactly the new element (multiset) |
| Resolver.InsertByMtimeSorted | hacagusae_android_icons.py:75 | inserting into an mtime-sorted sequence keeps it sorted |
| Resolver.InsertByMtimeLast | hacagusae_android_icons.py:75 | after insertion the last element is the new one unless the previous last is strictly later, so ties go to the element inserted later |
| Resolver.SortByMtime | hacagusae_android_icons.py:75 | the result is sorted by mtime and is a permutation of the input |
| Resolver.LatestIndex | hacagusae_android_icons.py:75-76 | the index has a maximal mtime, and every later entry has a strictly smaller one |
| Resolver.LatestIsUnique | hacagusae_android_icons.py:75-76 | only one index has that property |
| Resolver.LastOfSortIsLatest | hacagusae_android_icons.py:75-76 | `files[-1]` after the stable sort is the latest file, with ties going to the one listed last |
| Resolver.RegularFilesKeepsOrder | hacagusae_android_icons.py:72 | the filter keeps every regular file of the listing and only those, in listing order: the i-th kept file is the listing entry at the i-th of a strictly increasing sequence of positions |
| Resolver.LatestOfRegularFiles | hacagusae_android_icons.py:72-76 | the latest of the kept files is, at its listing position, the latest regular file of the listing itself, ties going to the one listed last |
| Resolver.ResolveDirectoryPicksLatest | hacagusae_android_icons.py:72-77 | when no match is a regular file the directory is unchanged; otherwise it is the split head of the path of the listing's regular file with the greatest mtime, the last listed among equal mtimes |
| AssetPlan.Scale | hacagusae_android_assets.py:37-43 | every scale factor is a fraction in (0, 1] |
| AssetPlan.ScaledDim | hacagusae_android_assets.py:94-96 | the new dimension is the floor of `dim * scale`: `r * den <= dim * num < (r + 1) * den` |
| AssetPlan.ScaledSizeBounds | hacagusae_android_assets.py:94-97 | a scaled image is never larger than its baseline in either dimension, and XXXHDPI keeps the baseline size exactly |
| AssetPlan.ScaledDimMonotone | hacagusae_android_assets.py:37-43 | scaled dimensions do not decrease from MDPI to XXXHDPI |
| AssetPlan.LargeEnoughResizes | hacagusae_android_assets.py:94-97 | a baseline at least 4 pixels on each side scales to a size `resize` accepts at every tier |
| AssetPlan.NarrowBaselineRefused | hacagusae_android_assets.py:94-97 | a baseline with a side of 1 to 3 pixels scales to a zero side at MDPI, which `resize` refuses |
| AssetPlan.ScaledSizeExample | hacagusae_android_assets.py:94-97 | 200 x 100 gives 50 x 25 at MDPI, 75 x 37 at HDPI and 200 x 100 at XXXHDPI |
| AssetPlan.FolderDiff | hacagusae_android_assets.py:44-50 | the folder names of two different tiers differ at a given position, so they are distinct |
| AssetPlan.FoldersAreComponents | hacagusae_android_assets.py:44-50 | every tier folder is a single, non-empty path component |
| AssetPlan.AssetsOf | hacagusae_android_assets.py:120-128 | no more assets than children, and every asset has a non-empty id and a non-empty label |
| AssetPlan.AssetsOfSingle | hacagusae_android_assets.py:122-127 | one child gives its asset if it has both attributes, and nothing otherwise (an id without a label is skipped) |
| AssetPlan.AssetsOfConcat | hacagusae_android_assets.py:122-128 | enumerating concatenated children is enumerating each part in turn, so child order is kept |
| AssetPlan.AssetsOfMembers | hacagusae_android_assets.py:120-128 | an asset is listed exactly when some child has that id and label, both non-empty |
| AssetPlan.CollectionIsFlatEnumeration | hacagusae_android_assets.py:130-136 | the collection is the enumeration of all children, layer outer and child inner; its length is the sum of the per-layer counts |
| AssetPlan.TierFilesDistinct | hacagusae_android_assets.py:98 | outputs of different tiers never collide |
| AssetPlan.TempFileIsNoTierFile | hacagusae_android_assets.py:91 | no tier output lands on a baseline in `temp` |
| AssetPlan.TierFileIsNoTierDir | hacagusae_android_assets.py:86-98 | no tier output is the folder of any tier |
| AssetPlan.TempFileIsNoTierDir | hacagusae_android_assets.py:86-91 | no baseline is the folder of any tier |
| AssetPlan.TierFileIsNoTempDir | hacagusae_android_assets.py:98-100 | no tier output is the `temp` folder |
| AssetPlan.FileNameInjective | hacagusae_android_assets.py:102 | within one folder, two labels produce the same file only if they are equal |
| AssetPlan.TierFileExample | hacagusae_android_assets.py:98 | asset `logo_a` of a drawing in `/p` goes to `/p/drawable-mdpi/logo_a.png` at MDPI |
| AssetRun.TierWritesMembers | hacagusae_android_assets.py:115-118 | one tier's fan-out writes exactly one file per asset, at that asset's tier path |
| AssetRun.AllTierWritesMembers | hacagusae_android_assets.py:148-152 | over a list of tiers, the tier files written are exactly assets x tiers |
| AssetRun.TempFileNotInTierWrites | hacagusae_android_assets.py:91 | a tier fan-out never writes a baseline path |
| AssetRun.TierFileNotInOtherTier | hacagusae_android_assets.py:98 | the fan-out of one tier never writes a file of another tier |
| AssetRun.BaselineWritesMembers | hacagusae_android_assets.py:101-113 | the baseline loop writes exactly one `temp/<label>.png` per asset |
| AssetRun.ExportAllFacts | hacagusae_android_assets.py:101-113 | after the baseline loop every asset has its baseline; the writes are the baselines in asset order; `temp` exists once there is an asset; no other file changes and no other file appears |
| AssetRun.ExportAllRenders | hacagusae_android_assets.py:111-113 | each label's baseline is the rendering of the last asset with that label |
| AssetRun.ExportAllUsable | hacagusae_android_assets.py:111-113 | when every rendering is at least 4 x 4, every baseline is present and at least 4 x 4 after the loop |
| AssetRun.LastWithLabelExists | hacagusae_android_assets.py:111-113 | every label in the list has a last asset carrying it, whose rendering is the one left in `temp` |
| AssetRun.ImageWithDPIDone | hacagusae_android_assets.py:90-99 | with a present baseline of at least 4 x 4, the call succeeds exactly when the tier folder is no regular file and the output path is no directory (counting the folder the call makes); when it succeeds, the tier folder is created if missing and the scaled copy is saved at the tier path |
| AssetRun.AssetsWithDPIFacts | hacagusae_android_assets.py:90-99 | with every baseline present and at least 4 x 4, no label leaving its folder, no regular file at the tier folder and no directory at any output path, one tier's fan-out succeeds, writes one file per asset in order, creates the tier folder, and changes or creates no file it does not write |
| AssetRun.AssetsWithDPISizes | hacagusae_android_assets.py:94-99 | each asset's tier file has its baseline's size scaled for that tier |
| AssetRun.AssetsWithDPIAppends | hacagusae_android_assets.py:115-118 | on every input, finished or stopped, one tier's fan-out only appends writes, each a tier file of that tier for one of the assets |
| AssetRun.AssetsWithDPIFrame | hacagusae_android_assets.py:115-118 | on every input, finished or stopped, one tier's fan-out leaves every file it does not write as it was |
| AssetRun.ImageWithDPIBounds | hacagusae_android_assets.py:90-99 | one copy, saved or not, changes or creates at most its own tier file and creates no directory but the tier folder |
| AssetRun.AssetsWithDPIKeeps | hacagusae_android_assets.py:115-118 | on every input, finished or stopped, one tier's fan-out changes or creates only files it writes and creates no directory but the tier folder |
| AssetRun.TierPathsStay | hacagusae_android_assets.py:85-99 | a tier call never puts a regular file at a tier folder or a directory at an output path, of any tier |
| AssetRun.AssetsWithDPIStops | hacagusae_android_assets.py:92-99 | once an asset's copy raises (missing baseline, refused resize, or a save blocked by a file or directory in the way) the loop stops, and later assets change nothing |
| AssetRun.AcrossTiersFacts | hacagusae_android_assets.py:148-152 | with usable baselines, labels that stay in their folder and nothing standing where those tiers save, the tier calls all succeed and write their files tier after tier |
| AssetRun.AcrossTiersKeeps | hacagusae_android_assets.py:148-152 | on every input, finished or stopped, the tier calls change no file they do not write and create no other file, so every baseline survives them |
| AssetRun.AcrossTiersFree | hacagusae_android_assets.py:148-152 | when nothing stands where any tier saves, the tier calls leave it so |
| AssetRun.ExportAllFree | hacagusae_android_assets.py:101-113 | when nothing stands where any tier saves, the baseline loop leaves it so |
| AssetRun.AcrossTiersDirs | hacagusae_android_assets.py:85-99 | with usable baselines and free tier paths, the tier calls never remove a directory, leave every tier folder in place when there is an asset, and create none when the folders all existed |
| AssetRun.AcrossTiersSizes | hacagusae_android_assets.py:148-152 | with usable baselines and free tier paths, after every tier each tier file has the scaled size of its baseline |
| AssetRun.AcrossTiersStops | hacagusae_android_assets.py:148-152 | once a tier call raises, the remaining tier calls do not run and change nothing |
| AssetRun.AcrossTiersInOrder | hacagusae_android_assets.py:148-152 | the tier phase is the five calls MDPI, HDPI, XHDPI, XXHDPI, XXXHDPI in that order, each running only if the previous ones completed |
| AssetRun.EffectRunFacts | hacagusae_android_assets.py:143-152 | when no label leaves its folder, every rendering is at least 4 x 4, and no tier folder is a regular file and no output path a directory, `effect` completes; it writes all baselines, then the tiers MDPI to XXXHDPI; files it does not write are untouched, no other file appears, and the tier paths are still free afterwards |
| AssetRun.AcrossTiersAppends | hacagusae_android_assets.py:148-152 | on every input, finished or stopped, the tier calls only append writes, each a tier file of one of the tiers for one of the assets |
| AssetRun.NarrowLastStopsRun | hacagusae_android_assets.py:94-97 | when labels stay in their folders and the last asset carrying some label renders with a side of 1 to 3 pixels, `effect` raises |
| AssetRun.TinyAssetStopsRun | hacagusae_android_assets.py:94-97 | an asset rendered with a side of 1 to 3 pixels makes `effect` raise at MDPI after writing only its baseline |
| AssetRun.EffectRunBaselinesFirst | hacagusae_android_assets.py:143-152 | on every input, whether the run finishes or raises, the first writes are exactly the baselines in asset order and every later write is a tier file of some asset at some tier |
| AssetRun.EffectRunEveryTierOutput | hacagusae_android_assets.py:143-152 | under the premises of `EffectRunFacts`, the writes after the baselines are exactly the tier files: each asset gets one at every tier |
| AssetRun.EffectRunBaselines | hacagusae_android_assets.py:147-152 | on every input whose labels stay in their folders, whether the run finishes or raises, every baseline ends as the rendering of the last asset carrying its label |
| AssetRun.EffectRunSizes | hacagusae_android_assets.py:147-152 | under the premises of `EffectRunFacts`, every tier file ends with the scaled size of the rendering of the last asset carrying its label |
| AssetRun.EffectRunIdempotentFiles | hacagusae_android_assets.py:143-152 | under the premises of `EffectRunFacts`, running `effect` again on the tree it left leaves exactly the same files with the same sizes |
| AssetRun.EffectRunIdempotentDirs | hacagusae_android_assets.py:143-152 | under the premises of `EffectRunFacts`, running `effect` again on the tree it left creates no directory |
| IconPlan.IconSizeIncreases | hacagusae_android_icons.py:37-43 | icon sides grow strictly from MDPI to XXXHDPI |
| IconPlan.IconSizeIsMultipleOfBase | hacagusae_android_icons.py:37-43 | the sides are 48 times 1, 1.5, 2, 3 and 4 |
| IconPlan.IconFolderDiff | hacagusae_android_icons.py:44-50 | the `mipmap-*` names of two different tiers differ at a given position |
| IconPlan.IconFoldersAreComponents | hacagusae_android_icons.py:44-50 | every `mipmap-*` folder is a single, non-empty path component |
| IconPlan.IconFilesDistinct | hacagusae_android_icons.py:95 | icons of different tiers never share a path |
| IconPlan.TempIconIsNoIconFile | hacagusae_android_icons.py:91 | no tier icon is the baseline `temp/ic_launcher.png` |
| IconPlan.IconFileIsNoIconDir | hacagusae_android_icons.py:86-95 | no tier icon is the `mipmap-*` folder of any tier |
| IconPlan.TempPathsAreNoIconPaths | hacagusae_android_icons.py:86-99 | the baseline is no `mipmap-*` folder, and no tier icon is the `temp` folder |
| IconPlan.IconFileExample | hacagusae_android_icons.py:95 | the MDPI icon of a drawing in `/p` is `/p/mipmap-mdpi/ic_launcher.png` |
| IconPlan.IconTiersFacts | hacagusae_android_icons.py:90-96 | with the baseline present and nothing standing where those tiers save, the tier calls succeed, write one icon each in order, keep the baseline, and leave each tier's icon as its square |
| IconPlan.IconTiersStep | hacagusae_android_icons.py:116-124 | with the baseline present and the paths free, each further tier call succeeds and extends the run by that tier |
| IconPlan.IconWritesInOrder | hacagusae_android_icons.py:115-124 | over all tiers the icons are written in the order MDPI, HDPI, XHDPI, XXHDPI, XXXHDPI |
| IconPlan.IconRunFacts | hacagusae_android_icons.py:109-124 | when no `mipmap-*` folder is a regular file and no tier icon a directory, `effect` completes once an icon is picked; it writes the baseline once, then the five icons in order; each icon is its tier's square, whatever the baseline's size |
| IconPlan.IconRunOk | hacagusae_android_icons.py:90-124 | once an icon is picked, `effect` completes exactly when no `mipmap-*` folder is a regular file and no tier icon is a directory |
| IconPlan.IconTiersOkOnlyIfFree | hacagusae_android_icons.py:90-96 | on every input, the tier calls complete only if every one of those tiers had its folder and icon path free |
| IconPlan.IconTiersInOrder | hacagusae_android_icons.py:115-124 | the tier phase is the five calls MDPI, HDPI, XHDPI, XXHDPI, XXXHDPI in that order, each running only if the previous ones completed |
| IconPlan.ExportIconFree | hacagusae_android_icons.py:98-102 | the baseline export frees no tier path and blocks none |
| IconPlan.IconWithDPIBounds | hacagusae_android_icons.py:90-96 | one tier call, saved or not, changes or creates at most its icon and creates no directory but its folder |
| IconPlan.IconPathsStay | hacagusae_android_icons.py:85-96 | a tier call never puts a regular file at a `mipmap-*` folder or a directory at a tier icon |
| IconPlan.IconTiersFree | hacagusae_android_icons.py:115-124 | when nothing stands where any tier saves, the tier calls leave it so |
| IconPlan.IconTiersKeeps | hacagusae_android_icons.py:90-96 | on every input, finished or stopped, the tier calls change no file but the icons they write, create no other file, and remove no directory |
| IconPlan.IconTiersDirs | hacagusae_android_icons.py:85-96 | with the baseline present and the tier paths free, the tier calls never remove a directory, leave every tier's `mipmap-*` folder in place, and create none when they all existed |
| IconPlan.IconRunKeeps | hacagusae_android_icons.py:109-124 | the whole export changes no file but the baseline and the five icons, and creates no other file |
| IconPlan.IconRunIdempotentFiles | hacagusae_android_icons.py:109-124 | when nothing stands where a tier saves, exporting the same icon again on the tree the export left leaves exactly the same files with the same sizes |
| IconPlan.IconRunIdempotentDirs | hacagusae_android_icons.py:109-124 | when nothing stands where a tier saves, exporting again on the tree the export left creates no directory |
| AndroidAssets.AndroidAssetExport.constructor | hacagusae_android_assets.py:61-64 | `DIRNAME` starts as the user's directory |
| AndroidAssets.AndroidAssetExport.FindCurrentWorkingDirectoryAsWritten | hacagusae_android_assets.py:67-72 | `DIRNAME` is reset to the user's directory and the method always raises `NameError` |
| AndroidAssets.AndroidAssetExport.FindCurrentWorkingDirectory | hacagusae_android_assets.py:67-77 | `IndexError` when there is no document name; otherwise `DIRNAME` is the resolved directory, searching from the user's directory (corrected search root) |
| AndroidAssets.AndroidAssetExport.CreateDirectory | hacagusae_android_assets.py:85-88 | the new disk is the old one with `DIRNAME/folder` created if it was missing |
| AndroidAssets.AndroidAssetExport.GenerateImageWithDPI | hacagusae_android_assets.py:90-99 | with no baseline file, nothing changes and `Image.open` fails: `IsADirectory` for a directory there, `NotADirectory` when `temp` is a regular file, else `FileNotFound`; otherwise the tier folder is created if missing, then `ValueError` when the scaled size has a zero side and differs from the baseline, `NotADirectory` when the tier folder is a regular file, `IsADirectory` when the output path is a directory, and the scaled copy is saved at the tier path otherwise |
| AndroidAssets.AndroidAssetExport.ExportImageToPNG | hacagusae_android_assets.py:101-109 | `temp` is created if missing and `temp/<label>.png` is written |
| AndroidAssets.AndroidAssetExport.GenerateBaselinePNG | hacagusae_android_assets.py:111-113 | the loop leaves the disk the baseline function describes |
| AndroidAssets.AndroidAssetExport.GenerateAssetsWithDPI | hacagusae_android_assets.py:115-118 | the loop leaves the disk of the one-tier fan-out, stopping with the error of the first asset whose copy raises (`FileNotFound`, `NotADirectory`, `IsADirectory` or `ValueError`) |
| AndroidAssets.AndroidAssetExport.GetAssetsByLayer | hacagusae_android_assets.py:120-128 | the loop returns the layer's enumeration |
| AndroidAssets.AndroidAssetExport.GetAssetCollection | hacagusae_android_assets.py:130-136 | the loop returns the concatenated enumeration of all layers |
| AndroidAssets.AndroidAssetExport.EffectAsWritten | hacagusae_android_assets.py:143-144 | `effect` as written raises `NameError` and exports nothing |
| AndroidAssets.AndroidAssetExport.Effect | hacagusae_android_assets.py:143-152 | with the corrected lookup: `IndexError` and no change without a document name; otherwise `DIRNAME` is resolved, the disk is the export run stopped at the first tier call that raises, and the outcome is `Pass` exactly when that run completes |
| AndroidIcons.AndroidIconExport.constructor | hacagusae_android_icons.py:61-64 | `DIRNAME` starts as the user's directory; the selection has distinct keys |
| AndroidIcons.AndroidIconExport.FindCurrentWorkingDirectory | hacagusae_android_icons.py:67-77 | `IndexError` with `DIRNAME` unchanged when there is no document name; otherwise the resolved directory, which is the previous `DIRNAME` when no regular file matched |
| AndroidIcons.AndroidIconExport.GetCurrentIcon | hacagusae_android_icons.py:104-107 | `KeyError` on an empty selection; otherwise returns the first key, removes only that entry, and the key is no longer selected |
| AndroidIcons.AndroidIconExport.CreateDirectory | hacagusae_android_icons.py:85-88 | the new disk is the old one with `DIRNAME/folder` created if it was missing |
| AndroidIcons.AndroidIconExport.GenerateIconWithDPI | hacagusae_android_icons.py:90-96 | with no baseline file, nothing changes and `Image.open` fails (`IsADirectory`, `NotADirectory` or `FileNotFound` as for assets); otherwise the tier folder is created if missing and the call passes exactly when the folder is no regular file and the icon path no directory, saving the tier's square, and raises `NotADirectory` or `IsADirectory` otherwise |
| AndroidIcons.AndroidIconExport.ExportImageToPNG | hacagusae_android_icons.py:98-102 | `temp` is created if missing and `temp/ic_launcher.png` is written |
| AndroidIcons.AndroidIconExport.Effect | hacagusae_android_icons.py:109-124 | `IndexError` or `KeyError` leave the disk and the selection unchanged; otherwise the first selected element is exported, the selection loses it, the disk is the icon run stopped at the first tier call that raises, and the outcome is `Pass` exactly when no `mipmap-*` folder was a regular file and no tier icon a directory |

## Left out

- The `inkscape(...)` export call is a separate process. It is modelled as writing the baseline with a size given by the `render` parameter. A rasterizer failure, such as an unknown element id, is not modelled.
- Pillow's `Image.open`, `resize`, `save` and the ANTIALIAS filter: only the target size and path of each saved image are kept. Pixel content is not modelled. The one `resize` failure modelled is the `ValueError` for a target with a zero side. `Image.ANTIALIAS` is taken to exist, as it does in Pillow before version 10; a newer Pillow raises `AttributeError` at that line.
- IconPlan.IconRunFacts: every icon target is a square of 48 pixels or more, which `resize` accepts; the model takes the resize to succeed whatever the baseline's size, including an empty rendering.
- Paths are POSIX only. On Windows `os.path` is `ntpath`, with backslash separators and drive letters; that variant is not modelled.
- Paths are compared as strings: `..`, `.` and repeated separators are not resolved. The premise `AllStayInFolder` therefore asks every label to be a single path component with no '/', so that distinct strings are distinct files on a real disk too.
- `glob.glob(..., recursive=True)`, `os.path.isfile` and `os.path.getmtime` are filesystem I/O. Their results are the input list of candidates. The search pattern `home + './**/...'` has no separator, and its glob semantics are not modelled.
- `getUserDirectory` reads `os.environ` and `sys.platform`. Its result is the constant `Home` given to the constructor. A missing environment variable (a `KeyError`) is not modelled.
- The `sodipodi:docname` XPath query is the input `docnames`. The layer query `//svg:g[@inkscape:groupmode="layer"]` in `getLayers` is the input list of layers, each a list of attribute maps. Nested layers found by `//` are outside the model.
- The Pillow import guard with `sys.exit`, localization, and the `inkex.utils.debug` messages are user-interface concerns.
- Floating point: the scale factors are dyadic and their products with pixel counts are exact, so exact fractions are used.
- `os.mkdir` failures are not modelled: a missing parent directory, missing permissions, or a file created between the `os.path.exists` check and the call. A regular file already at a tier folder is modelled: `mkdir` is skipped and the later `save` raises `NotADirectoryError`.
- AssetRun.ExportImage, AndroidAssets.AndroidAssetExport.ExportImageToPNG, IconPlan.ExportIcon and AndroidIcons.AndroidIconExport.ExportImageToPNG: when `temp` is a regular file or the baseline path is a directory, the rasterizer cannot write the baseline; the model records the baseline as written all the same, since the outcome of the separate process is not modelled.
- AssetRun.EffectRunSizes: excludes labels containing '/'. A leading '/' makes `os.path.join` discard the folder, and `..` components would let one label's output land on another's file, so the stated sizes need `AllStayInFolder`.
- AndroidAssets.AndroidAssetExport.GenerateImageWithDPI, AndroidAssets.AndroidAssetExport.ExportImageToPNG and AndroidAssets.AndroidAssetExport.Effect: a label with an inner '/' is saved into a subdirectory of the tier folder or of `temp` that may not exist, where the program raises `FileNotFoundError`; the model (`AssetRun.ImageWithDPI`, `AssetRun.ExportImage`) treats that save as succeeding, so `Effect` can report `Pass` for such a label.
- AssetRun.ExportAllRenders: has the same `AllStayInFolder` premise, for the same reason.
- AssetRun.EffectRunFacts: the premise that every rendering is at least 4 x 4 is sufficient for the run to complete, not necessary. In the model alone an empty 0 x 0 rendering is copied unchanged at every tier and the run completes; the program cannot get there, since such a file is no PNG and `Image.open` would refuse it at hacagusae_android_assets.py:92. `TinyAssetStopsRun` and `NarrowLastStopsRun` show the run raising for a side of 1 to 3 pixels.
- Resolver.SortByMtime: proved sorted and a permutation. Stability is shown only through `InsertByMtimeLast`, which is what selecting `files[-1]` relies on; no general stability theorem is stated.
- `inkex.EffectExtension` option parsing and `run()` entry points are outside the plugins' logic.

## Findings

| source | as written | input that shows it | evidently intended | confidence | as-written member | corrected member |
|---|---|---|---|---|---|---|
| hacagusae_android_assets.py:68-72 | the search pattern is built from `home`, which this method never binds (line 68 assigns `self.DIRNAME` instead), so `findCurrentWorkingDirectory` and hence `effect` always raise `NameError` | any document, e.g. one saved as `art.svg`: `effect` stops at line 72 before exporting anything | bind `home = self.getUserDirectory()` as the icon plugin does, then resolve the directory from the search | high (not executed) | AndroidAssets.AndroidAssetExport.FindCurrentWorkingDirectoryAsWritten | AndroidAssets.AndroidAssetExport.FindCurrentWorkingDirectory |
