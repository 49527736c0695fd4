/** Working-directory resolution shared by both plugins: among the files the
    recursive search found, the one modified last decides the directory. */
module Resolver {
  import opened PathOps

  /** One match of the recursive search: its path, whether it is a regular
      file (`os.path.isfile`) and its modification time (`os.path.getmtime`). */
  datatype Candidate = Candidate(path: Path, isFile: bool, mtime: int)

  /** `list(filter(os.path.isfile, matches))` */
  function RegularFiles(cs: seq<Candidate>): (r: seq<Candidate>)
    ensures |r| <= |cs|
    ensures forall c :: c in r <==> c in cs && c.isFile
  {
    if cs == [] then []
    else if cs[0].isFile then [cs[0]] + RegularFiles(cs[1..])
    else RegularFiles(cs[1..])
  }

  predicate SortedByMtime(s: seq<Candidate>) {
    forall i, j | 0 <= i < j < |s| :: s[i].mtime <= s[j].mtime
  }

  /** Inserts `x` into `s` after every trailing element whose mtime is
      greater than its own, so that `x` follows the elements it ties with. */
  function InsertByMtime(x: Candidate, s: seq<Candidate>): (r: seq<Candidate>)
    ensures |r| == |s| + 1
  {
    if s == [] || s[|s| - 1].mtime <= x.mtime then s + [x]
    else InsertByMtime(x, s[..|s| - 1]) + [s[|s| - 1]]
  }

  /** Insertion adds exactly `x`. */
  lemma {:induction false} InsertByMtimeAdds(x: Candidate, s: seq<Candidate>)
    ensures multiset(InsertByMtime(x, s)) == multiset(s) + multiset{x}
  {
    if s != [] && x.mtime < s[|s| - 1].mtime {
      var init := s[..|s| - 1];
      assert s == init + [s[|s| - 1]];
      InsertByMtimeAdds(x, init);
    }
  }

  /** The inserted sequence ends with `x` unless the old last element is
      later, in which case that element stays last. */
  lemma InsertByMtimeLast(x: Candidate, s: seq<Candidate>)
    ensures InsertByMtime(x, s)[|s|] == if s == [] || s[|s| - 1].mtime <= x.mtime then x else s[|s| - 1]
  {
  }

  /** Inserting into a sorted sequence keeps it sorted. */
  lemma {:induction false} InsertByMtimeSorted(x: Candidate, s: seq<Candidate>)
    requires SortedByMtime(s)
    ensures SortedByMtime(InsertByMtime(x, s))
  {
    if s != [] && x.mtime < s[|s| - 1].mtime {
      var init := s[..|s| - 1];
      var y := s[|s| - 1];
      assert s == init + [y];
      InsertByMtimeSorted(x, init);
      InsertByMtimeAdds(x, init);
      var r' := InsertByMtime(x, init);
      forall i | 0 <= i < |r'| ensures r'[i].mtime <= y.mtime {
        assert r'[i] in multiset(r');
        assert r'[i] in multiset(init) || r'[i] == x;
      }
      SortedSnoc(r', y);
    }
  }

  lemma SortedSnoc(s: seq<Candidate>, y: Candidate)
    requires SortedByMtime(s)
    requires forall i | 0 <= i < |s| :: s[i].mtime <= y.mtime
    ensures SortedByMtime(s + [y])
  {
  }

  /** `files.sort(key=os.path.getmtime)`: a stable sort by modification
      time, built by inserting the elements in listing order. */
  function SortByMtime(s: seq<Candidate>): (r: seq<Candidate>)
    ensures SortedByMtime(r)
    ensures multiset(r) == multiset(s)
    ensures |r| == |s|
  {
    if s == [] then []
    else
      var init := s[..|s| - 1];
      assert s == init + [s[|s| - 1]];
      InsertByMtimeSorted(s[|s| - 1], SortByMtime(init));
      InsertByMtimeAdds(s[|s| - 1], SortByMtime(init));
      InsertByMtime(s[|s| - 1], SortByMtime(init))
  }

  /** `k` is the position of the file modified last, and the last in listing
      order among those sharing that time. */
  predicate IsLatest(s: seq<Candidate>, k: nat) {
    && k < |s|
    && (forall j | 0 <= j < |s| :: s[j].mtime <= s[k].mtime)
    && (forall j | k < j < |s| :: s[j].mtime < s[k].mtime)
  }

  function LatestIndex(s: seq<Candidate>): (k: nat)
    requires s != []
    ensures IsLatest(s, k)
  {
    if |s| == 1 then 0
    else
      var k := LatestIndex(s[..|s| - 1]);
      if s[k].mtime <= s[|s| - 1].mtime then |s| - 1 else k
  }

  /** At most one position is the latest. */
  lemma LatestIsUnique(s: seq<Candidate>, k1: nat, k2: nat)
    requires IsLatest(s, k1) && IsLatest(s, k2)
    ensures k1 == k2
  {
    assert s[k1].mtime == s[k2].mtime;
  }

  /** `files[-1]` after the stable sort is the latest file of the listing. */
  lemma {:induction false} LastOfSortIsLatest(s: seq<Candidate>)
    requires s != []
    ensures SortByMtime(s)[|s| - 1] == s[LatestIndex(s)]
  {
    if |s| > 1 {
      var init := s[..|s| - 1];
      LastOfSortIsLatest(init);
      InsertByMtimeLast(s[|s| - 1], SortByMtime(init));
      var k := LatestIndex(init);
      assert s[k] == init[k];
    }
  }

  /** The directory `findCurrentWorkingDirectory` settles on, starting from
      `current`: unchanged when no regular file matched, otherwise the head
      of the path of the last file after sorting by mtime. */
  function ResolveDirectory(current: Path, matches: seq<Candidate>): Path {
    var files := RegularFiles(matches);
    if files == [] then current
    else SplitHead(SortByMtime(files)[|files| - 1].path)
  }

  /** Adds one to every position. */
  function Shift(ps: seq<nat>): (r: seq<nat>)
    ensures |r| == |ps| && forall i | 0 <= i < |ps| :: r[i] == ps[i] + 1
  {
    seq(|ps|, i requires 0 <= i < |ps| => ps[i] + 1)
  }

  /** The positions of the regular files in `cs`, in listing order. */
  function FilePositions(cs: seq<Candidate>): seq<nat> {
    if cs == [] then []
    else if cs[0].isFile then [0] + Shift(FilePositions(cs[1..]))
    else Shift(FilePositions(cs[1..]))
  }

  /** The i-th kept file sits at the i-th position. */
  lemma {:induction false} FilePositionsSelect(cs: seq<Candidate>)
    ensures |FilePositions(cs)| == |RegularFiles(cs)|
    ensures forall i | 0 <= i < |FilePositions(cs)| ::
              FilePositions(cs)[i] < |cs| && cs[FilePositions(cs)[i]] == RegularFiles(cs)[i]
  {
    if cs != [] {
      var tail := cs[1..];
      FilePositionsSelect(tail);
      var rest := FilePositions(tail);
      var ps := FilePositions(cs);
      var fs := RegularFiles(cs);
      var off := if cs[0].isFile then 1 else 0;
      assert ps == if cs[0].isFile then [0] + Shift(rest) else Shift(rest);
      assert fs == if cs[0].isFile then [cs[0]] + RegularFiles(tail) else RegularFiles(tail);
      forall i | 0 <= i < |ps| ensures ps[i] < |cs| && cs[ps[i]] == fs[i] {
        if i >= off {
          assert ps[i] == rest[i - off] + 1;
          assert fs[i] == RegularFiles(tail)[i - off];
          assert cs[rest[i - off] + 1] == tail[rest[i - off]];
        }
      }
    }
  }

  /** The positions increase: the filter keeps the listing order. */
  lemma {:induction false} FilePositionsIncrease(cs: seq<Candidate>)
    ensures forall i, j | 0 <= i < j < |FilePositions(cs)| :: FilePositions(cs)[i] < FilePositions(cs)[j]
  {
    if cs != [] {
      FilePositionsIncrease(cs[1..]);
    }
  }

  /** Every regular file's position is among them: the filter drops none. */
  lemma {:induction false} FilePositionsComplete(cs: seq<Candidate>)
    ensures forall j | 0 <= j < |cs| && cs[j].isFile :: j in FilePositions(cs)
  {
    if cs != [] {
      var tail := cs[1..];
      FilePositionsComplete(tail);
      var rest := FilePositions(tail);
      forall j | 1 <= j < |cs| && cs[j].isFile ensures j in Shift(rest) {
        assert tail[j - 1] == cs[j];
        var i :| 0 <= i < |rest| && rest[i] == j - 1;
        assert Shift(rest)[i] == j;
      }
    }
  }

  /** The filter keeps the regular files, all of them, in the order they
      were listed. */
  lemma RegularFilesKeepsOrder(cs: seq<Candidate>)
    ensures |FilePositions(cs)| == |RegularFiles(cs)|
    ensures forall i | 0 <= i < |FilePositions(cs)| ::
              FilePositions(cs)[i] < |cs| && cs[FilePositions(cs)[i]] == RegularFiles(cs)[i]
    ensures forall i, j | 0 <= i < j < |FilePositions(cs)| :: FilePositions(cs)[i] < FilePositions(cs)[j]
    ensures forall j | 0 <= j < |cs| && cs[j].isFile :: j in FilePositions(cs)
  {
    FilePositionsSelect(cs);
    FilePositionsIncrease(cs);
    FilePositionsComplete(cs);
  }

  /** `k` is the position in the listing of the regular file modified last,
      and the last listed among the regular files sharing that time. */
  predicate IsLatestFile(ms: seq<Candidate>, k: nat) {
    && k < |ms| && ms[k].isFile
    && (forall j | 0 <= j < |ms| && ms[j].isFile :: ms[j].mtime <= ms[k].mtime)
    && (forall j | k < j < |ms| && ms[j].isFile :: ms[j].mtime < ms[k].mtime)
  }

  /** In an increasing sequence a smaller value sits at an earlier index. */
  lemma IncreasingBack(ps: seq<nat>, a: nat, b: nat)
    requires forall i, j | 0 <= i < j < |ps| :: ps[i] < ps[j]
    requires a < |ps| && b < |ps| && ps[a] < ps[b]
    ensures a < b
  {
  }

  /** The latest of the filtered files is the latest regular file of the
      listing itself. */
  lemma LatestOfRegularFiles(ms: seq<Candidate>, k: nat)
    requires IsLatest(RegularFiles(ms), k)
    ensures k < |FilePositions(ms)|
    ensures IsLatestFile(ms, FilePositions(ms)[k])
  {
    var files := RegularFiles(ms);
    var ps := FilePositions(ms);
    FilePositionsSelect(ms);
    FilePositionsIncrease(ms);
    FilePositionsComplete(ms);
    var p := ps[k];
    assert ms[p] == files[k];
    forall j | 0 <= j < |ms| && ms[j].isFile ensures ms[j].mtime <= ms[p].mtime {
      var i :| 0 <= i < |ps| && ps[i] == j;
      assert ms[j] == files[i];
    }
    forall j | p < j < |ms| && ms[j].isFile ensures ms[j].mtime < ms[p].mtime {
      var i :| 0 <= i < |ps| && ps[i] == j;
      assert ms[j] == files[i];
      IncreasingBack(ps, k, i);
    }
  }

  /** What the resolution means: with no regular file among the matches the
      directory stays; otherwise it is the directory of the regular file of
      the listing with the greatest mtime, ties going to the one listed
      last. */
  lemma ResolveDirectoryPicksLatest(current: Path, matches: seq<Candidate>)
    ensures (forall j | 0 <= j < |matches| :: !matches[j].isFile) ==> ResolveDirectory(current, matches) == current
    ensures (exists j | 0 <= j < |matches| :: matches[j].isFile) ==>
      exists k: nat :: IsLatestFile(matches, k)
                  && ResolveDirectory(current, matches) == SplitHead(matches[k].path)
  {
    var files := RegularFiles(matches);
    if files == [] {
      forall j | 0 <= j < |matches| ensures !matches[j].isFile {
        assert matches[j] in matches;
      }
    } else {
      LastOfSortIsLatest(files);
      var k := LatestIndex(files);
      LatestOfRegularFiles(matches, k);
      RegularFilesKeepsOrder(matches);
      var p := FilePositions(matches)[k];
      assert IsLatestFile(matches, p) && matches[p] == files[k];
    }
  }
}
