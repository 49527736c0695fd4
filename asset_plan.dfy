/** The decision logic of the drawable-asset plugin as values: the density
    tables, which layer children become assets, where every file goes, and
    the filesystem state each step of the export leaves behind. The class in
    module AndroidAssets is proved to follow these definitions. */
module AssetPlan {
  import opened PathOps
  import opened FileSystem
  import opened Density

  // ---------------------------------------------------------------- tables

  /** An exact non-negative fraction `num / den`. */
  datatype Fraction = Fraction(num: nat, den: nat)

  /** `DPI_SIZES`: 0.25, 0.375, 0.5, 0.75 and 1, which are exact binary
      fractions, so each is written here as the fraction it denotes. */
  function Scale(t: Tier): (s: Fraction)
    ensures 0 < s.num <= s.den
  {
    match t
    case MDPI => Fraction(1, 4)
    case HDPI => Fraction(3, 8)
    case XHDPI => Fraction(1, 2)
    case XXHDPI => Fraction(3, 4)
    case XXXHDPI => Fraction(1, 1)
  }

  /** `DPI_FOLDERS` */
  function Folder(t: Tier): string {
    match t
    case MDPI => "drawable-mdpi"
    case HDPI => "drawable-hdpi"
    case XHDPI => "drawable-xhdpi"
    case XXHDPI => "drawable-xxhdpi"
    case XXXHDPI => "drawable-xxxhdpi"
  }

  /** `int(DPI_SIZES[t] * dim)`: the product is exact and not negative, so
      `int` truncates it to its floor. */
  function ScaledDim(dim: nat, t: Tier): (r: nat)
    ensures r * Scale(t).den <= dim * Scale(t).num < (r + 1) * Scale(t).den
  {
    match t
    case MDPI => dim / 4
    case HDPI => dim * 3 / 8
    case XHDPI => dim / 2
    case XXHDPI => dim * 3 / 4
    case XXXHDPI => dim
  }

  /** The target size `(newWidth, newHeight)` of `generateImageWithDPI`. */
  function ScaledSize(s: Size, t: Tier): Size {
    Size(ScaledDim(s.width, t), ScaledDim(s.height, t))
  }

  /** `tempImage.resize((newWidth, newHeight))` succeeds: asked for the
      image's own size it returns a copy, and otherwise it raises
      `ValueError` for a target with a zero side. */
  predicate Resizable(from: Size, to: Size) {
    to == from || (to.width > 0 && to.height > 0)
  }

  /** A baseline of at least 4 x 4 pixels, the smallest for which the MDPI
      quarter keeps both sides positive. */
  predicate LargeEnough(s: Size) {
    s.width >= 4 && s.height >= 4
  }

  /** Both sides positive and one of them below 4 pixels. */
  predicate TooNarrow(s: Size) {
    (0 < s.width < 4 && s.height > 0) || (s.width > 0 && 0 < s.height < 4)
  }

  /** A large enough baseline can be resized for every tier. */
  lemma LargeEnoughResizes(s: Size, t: Tier)
    requires LargeEnough(s)
    ensures Resizable(s, ScaledSize(s, t))
  {
  }

  /** A baseline with a side of 1 to 3 pixels cannot be resized for MDPI: that
      side becomes 0. With LargeEnoughResizes, a baseline with positive sides
      resizes at every tier exactly when it is large enough. */
  lemma NarrowBaselineRefused(s: Size)
    requires TooNarrow(s)
    ensures !Resizable(s, ScaledSize(s, MDPI))
  {
  }

  /** A density never enlarges the baseline, and the highest keeps it. */
  lemma ScaledSizeBounds(s: Size, t: Tier)
    ensures ScaledSize(s, t).width <= s.width && ScaledSize(s, t).height <= s.height
    ensures t == XXXHDPI ==> ScaledSize(s, t) == s
  {
  }

  /** The scaled dimension does not decrease from MDPI to XXXHDPI. */
  lemma ScaledDimMonotone(dim: nat, t1: Tier, t2: Tier)
    requires Rank(t1) <= Rank(t2)
    ensures ScaledDim(dim, t1) <= ScaledDim(dim, t2)
  {
  }

  /** A 200 x 100 baseline gives 50 x 25 at MDPI and stays 200 x 100 at
      XXXHDPI. */
  lemma ScaledSizeExample()
    ensures ScaledSize(Size(200, 100), MDPI) == Size(50, 25)
    ensures ScaledSize(Size(200, 100), HDPI) == Size(75, 37)
    ensures ScaledSize(Size(200, 100), XXXHDPI) == Size(200, 100)
  {
  }

  /** A position at which the folder names of two different tiers differ:
      after the common "drawable-" prefix, one 'x' per step above HDPI. */
  function FolderDiff(t1: Tier, t2: Tier): (k: nat)
    requires t1 != t2
    ensures k < |Folder(t1)| && k < |Folder(t2)| && Folder(t1)[k] != Folder(t2)[k]
  {
    9 + Min(XCount(t1), XCount(t2))
  }

  // ------------------------------------------------------ asset enumeration

  const IdKey: string := "id"
  const LabelKey: string := "{http://www.inkscape.org/namespaces/inkscape}label"

  /** A child element of a layer, seen through its attributes. */
  datatype Child = Child(attrib: map<string, string>)

  /** The `{assetID, assetLABEL}` record. */
  datatype Asset = Asset(assetID: string, assetLABEL: string)

  /** `child.attrib.get(key)` is truthy: present and not the empty string. */
  predicate Has(c: Child, key: string) {
    key in c.attrib && c.attrib[key] != ""
  }

  predicate Qualifies(c: Child) {
    Has(c, IdKey) && Has(c, LabelKey)
  }

  function AssetOf(c: Child): Asset
    requires Qualifies(c)
  {
    Asset(c.attrib[IdKey], c.attrib[LabelKey])
  }

  /** The assets of one layer, in child order. */
  function AssetsOf(layer: seq<Child>): (r: seq<Asset>)
    ensures |r| <= |layer|
    ensures forall a | a in r :: a.assetID != "" && a.assetLABEL != ""
  {
    if layer == [] then []
    else
      var c := layer[|layer| - 1];
      AssetsOf(layer[..|layer| - 1]) + if Qualifies(c) then [AssetOf(c)] else []
  }

  /** The assets of a single child: itself when it qualifies, else nothing. */
  lemma AssetsOfSingle(c: Child)
    ensures AssetsOf([c]) == if Qualifies(c) then [AssetOf(c)] else []
  {
    assert [c][..0] == [];
  }

  /** Enumeration distributes over concatenation of children, so it keeps
      their order; with AssetsOfSingle this determines AssetsOf entirely. */
  lemma {:induction false} AssetsOfConcat(l1: seq<Child>, l2: seq<Child>)
    ensures AssetsOf(l1 + l2) == AssetsOf(l1) + AssetsOf(l2)
    decreases |l2|
  {
    if l2 == [] {
      assert l1 + l2 == l1;
    } else {
      var init := l2[..|l2| - 1];
      assert (l1 + l2)[..|l1 + l2| - 1] == l1 + init;
      AssetsOfConcat(l1, init);
    }
  }

  /** An asset is produced exactly for each child carrying both a non-empty
      id and a non-empty label; a child with an id and no label gives none. */
  lemma {:induction false} AssetsOfMembers(layer: seq<Child>, a: Asset)
    ensures a in AssetsOf(layer) <==> exists c :: c in layer && Qualifies(c) && AssetOf(c) == a
  {
    if layer != [] {
      var init := layer[..|layer| - 1];
      var c := layer[|layer| - 1];
      assert layer == init + [c];
      AssetsOfMembers(init, a);
      if a in AssetsOf(layer) && a !in AssetsOf(init) {
        assert Qualifies(c) && AssetOf(c) == a;
      }
      if exists c' :: c' in layer && Qualifies(c') && AssetOf(c') == a {
        var c' :| c' in layer && Qualifies(c') && AssetOf(c') == a;
        if c' != c {
          assert c' in init;
        }
      }
    }
  }

  /** The flat asset list of `getAssetCollection`: layer order outer, child
      order inner. */
  function Collection(layers: seq<seq<Child>>): seq<Asset> {
    if layers == [] then []
    else Collection(layers[..|layers| - 1]) + AssetsOf(layers[|layers| - 1])
  }

  function Flatten(layers: seq<seq<Child>>): seq<Child> {
    if layers == [] then [] else Flatten(layers[..|layers| - 1]) + layers[|layers| - 1]
  }

  function SumOfCounts(layers: seq<seq<Child>>): nat {
    if layers == [] then 0
    else SumOfCounts(layers[..|layers| - 1]) + |AssetsOf(layers[|layers| - 1])|
  }

  /** Collecting layer by layer is the same as enumerating all their children
      in document order, and the count is the sum of the per-layer counts. */
  lemma {:induction false} CollectionIsFlatEnumeration(layers: seq<seq<Child>>)
    ensures Collection(layers) == AssetsOf(Flatten(layers))
    ensures |Collection(layers)| == SumOfCounts(layers)
  {
    if layers != [] {
      var init := layers[..|layers| - 1];
      CollectionIsFlatEnumeration(init);
      AssetsOfConcat(Flatten(init), layers[|layers| - 1]);
    }
  }

  // ------------------------------------------------------------------ paths

  function FileName(name: string): string {
    name + ".png"
  }

  /** The label yields a file name of a single path component, so that
      `os.path.join` appends it to the folder and the file is a direct entry
      of that folder: no '/' at the start (which would discard the folder)
      and none inside (which would leave it through a subdirectory or
      `..`). */
  predicate StaysInFolder(name: string) {
    NoSep(FileName(name))
  }

  /** `os.path.join(DIRNAME, "temp", png)` */
  function TempFile(dirname: Path, png: string): Path {
    Join(TempDir(dirname), png)
  }

  function TierDir(dirname: Path, t: Tier): Path {
    Join(dirname, Folder(t))
  }

  /** `os.path.join(DIRNAME, DPI_FOLDERS[t], png)` */
  function TierFile(dirname: Path, t: Tier, png: string): Path {
    Join(TierDir(dirname, t), png)
  }

  lemma FoldersAreComponents(t: Tier)
    ensures NoSep(Folder(t)) && Folder(t) != ""
  {
  }

  /** Outputs of different tiers never collide. */
  lemma TierFilesDistinct(dirname: Path, t1: Tier, t2: Tier, n1: string, n2: string)
    requires t1 != t2 && !IsAbsolute(n1) && !IsAbsolute(n2)
    ensures TierFile(dirname, t1, n1) != TierFile(dirname, t2, n2)
  {
    FoldersAreComponents(t1);
    FoldersAreComponents(t2);
    JoinDiverges(dirname, Folder(t1), Folder(t2), n1, n2, FolderDiff(t1, t2));
  }

  /** No tier output lands on a baseline in the temp directory. */
  lemma TempFileIsNoTierFile(dirname: Path, t: Tier, n1: string, n2: string)
    requires !IsAbsolute(n1) && !IsAbsolute(n2)
    ensures TempFile(dirname, n1) != TierFile(dirname, t, n2)
  {
    FoldersAreComponents(t);
    assert NoSep("temp");
    JoinDiverges(dirname, "temp", Folder(t), n1, n2, 0);
  }

  /** No tier output is a tier folder, of its own tier or another. */
  lemma TierFileIsNoTierDir(dirname: Path, t: Tier, u: Tier, png: string)
    requires !IsAbsolute(png)
    ensures TierFile(dirname, t, png) != TierDir(dirname, u)
  {
    FoldersAreComponents(t);
    FoldersAreComponents(u);
    ChildIsNoSibling(dirname, Folder(t), Folder(u), png);
  }

  /** No baseline is a tier folder. */
  lemma TempFileIsNoTierDir(dirname: Path, u: Tier, png: string)
    requires !IsAbsolute(png)
    ensures TempFile(dirname, png) != TierDir(dirname, u)
  {
    FoldersAreComponents(u);
    assert NoSep("temp");
    ChildIsNoSibling(dirname, "temp", Folder(u), png);
  }

  /** No tier output is the temp folder. */
  lemma TierFileIsNoTempDir(dirname: Path, t: Tier, png: string)
    requires !IsAbsolute(png)
    ensures TierFile(dirname, t, png) != TempDir(dirname)
  {
    FoldersAreComponents(t);
    assert NoSep("temp");
    ChildIsNoSibling(dirname, Folder(t), "temp", png);
  }

  /** Within one directory, two labels share a file only when they are equal. */
  lemma FileNameInjective(dir: Path, l1: string, l2: string)
    requires StaysInFolder(l1) && StaysInFolder(l2)
    requires Join(dir, FileName(l1)) == Join(dir, FileName(l2))
    ensures l1 == l2
  {
    JoinInjective(dir, FileName(l1), FileName(l2));
    assert FileName(l1)[..|l1|] == l1 && FileName(l2)[..|l2|] == l2;
  }

  /** Asset "logo_a" of a drawing kept in /p: its MDPI output. */
  lemma TierFileExample()
    ensures TierFile("/p", MDPI, FileName("logo_a")) == "/p/drawable-mdpi/logo_a.png"
  {
    assert !IsAbsolute("drawable-mdpi") && TierDir("/p", MDPI) == "/p/drawable-mdpi";
    assert !IsAbsolute("logo_a.png") && FileName("logo_a") == "logo_a.png";
  }
}
