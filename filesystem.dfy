/** The part of the filesystem the plugins touch: which directories exist,
    which PNG files exist (with their pixel dimensions, the only property of
    an image the model keeps) and, for specification only, the order in which
    files were written. */
module FileSystem {
  import opened PathOps

  datatype Size = Size(width: nat, height: nat)

  datatype Disk = Disk(dirs: set<Path>, files: map<Path, Size>, writes: seq<Path>)

  /** The exceptions the plugins can raise: an unbound name, an index into an
      empty list, `popitem` on an empty dictionary, `Image.open` of a file
      that is not there, `resize` to a size with a zero side, and opening for
      reading or writing a path whose folder is a regular file
      (`NotADirectoryError`) or which is itself a directory
      (`IsADirectoryError`). */
  datatype Error = NameError | IndexError | KeyError | FileNotFound | ValueError | NotADirectory | IsADirectory

  datatype Outcome = Pass | Fail(error: Error)

  /** The disk after a step, and whether the step completed (false when
      `Image.open`, `resize` or `save` raised). */
  datatype Run = Run(disk: Disk, ok: bool)

  /** Both plugins keep their baselines in `os.path.join(DIRNAME, "temp")`. */
  function TempDir(dirname: Path): Path {
    Join(dirname, "temp")
  }

  /** `os.path.exists(p)`: true for directories and files alike. */
  predicate Exists(d: Disk, p: Path) {
    p in d.dirs || p in d.files
  }

  /** `if not os.path.exists(p): os.mkdir(p)` */
  function MakeDirIfMissing(d: Disk, p: Path): (r: Disk)
    ensures Exists(r, p)
    ensures Exists(d, p) ==> r == d
    ensures r.files == d.files && r.writes == d.writes
    ensures r.dirs == d.dirs || r.dirs == d.dirs + {p}
  {
    if Exists(d, p) then d else d.(dirs := d.dirs + {p})
  }

  /** Writing an image file: the file now holds an image of the given size
      (an existing file is overwritten) and the write is recorded. */
  function Save(d: Disk, p: Path, size: Size): Disk {
    d.(files := d.files[p := size], writes := d.writes + [p])
  }

  /** The file map changed only where `ws` wrote: every old file is still
      there, unchanged unless written, and every file there is either old or
      written. */
  predicate KeepsOthers(before: map<Path, Size>, after: map<Path, Size>, ws: seq<Path>) {
    && (forall p | p in before :: p in after && (p !in ws ==> after[p] == before[p]))
    && (forall p | p in after :: p in before || p in ws)
  }

  lemma KeepsOthersTrans(m0: map<Path, Size>, m1: map<Path, Size>, m2: map<Path, Size>, w1: seq<Path>, w2: seq<Path>)
    requires KeepsOthers(m0, m1, w1) && KeepsOthers(m1, m2, w2)
    ensures KeepsOthers(m0, m2, w1 + w2)
  {
  }

  /** A step that keeps every other file and leaves each written file as
      it found it leaves the whole file map as it was. */
  lemma KeepsOthersSame(m1: map<Path, Size>, m2: map<Path, Size>, ws: seq<Path>)
    requires KeepsOthers(m1, m2, ws)
    requires forall p | p in ws :: p in m1 && p in m2 && m2[p] == m1[p]
    ensures m2 == m1
  {
  }

  /** Records of writes are appended to; regrouping them changes nothing. */
  lemma AppendAssoc<T>(a: seq<T>, b: seq<T>, c: seq<T>)
    ensures a + b + c == a + (b + c)
  {
  }

  /** Creating a directory twice is the same as creating it once. */
  lemma MakeDirIdempotent(d: Disk, p: Path)
    ensures MakeDirIfMissing(MakeDirIfMissing(d, p), p) == MakeDirIfMissing(d, p)
  {
  }
}
