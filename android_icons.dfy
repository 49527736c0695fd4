/** The launcher-icon plugin `AndroidIconExport`: its per-run state (the
    output directory `DIRNAME` and the ordered selection) and the part of
    the filesystem it reads and writes, with every method proved to follow
    the definitions of module IconPlan. */
module AndroidIcons {
  import opened PathOps
  import opened FileSystem
  import opened Density
  import opened Resolver
  import opened IconPlan

  class AndroidIconExport {
    /** What `getUserDirectory` returns: `USERPROFILE` on Windows, `HOME`
        elsewhere. */
    const Home: Path
    var DIRNAME: Path
    /** The ids of the selected elements, in selection order (the keys of
        the ordered dictionary `svg.selected`). */
    var selection: seq<string>
    var dirs: set<Path>
    var files: map<Path, Size>
    /** The files written so far, in order; kept for the specification. */
    ghost var writes: seq<Path>

    ghost function State(): Disk
      reads this
    {
      Disk(dirs, files, writes)
    }

    /** Dictionary keys are distinct. */
    ghost predicate Valid()
      reads this
    {
      forall i, j | 0 <= i < j < |selection| :: selection[i] != selection[j]
    }

    /** `__init__`: the output directory starts as the user's directory. */
    constructor (home: Path, selected: seq<string>, dirs0: set<Path>, files0: map<Path, Size>)
      requires forall i, j | 0 <= i < j < |selected| :: selected[i] != selected[j]
      ensures Valid()
      ensures Home == home && DIRNAME == home && selection == selected
      ensures State() == Disk(dirs0, files0, [])
    {
      Home := home;
      DIRNAME := home;
      selection := selected;
      dirs := dirs0;
      files := files0;
      writes := [];
    }

    /** `findCurrentWorkingDirectory`: `docnames` is the result of the
        `sodipodi:docname` query and `matches` what the recursive search
        below the user's directory lists for the first of them. With no
        document name the lookup raises `IndexError`; with no regular file
        among the matches `DIRNAME` keeps its value. */
    method FindCurrentWorkingDirectory(docnames: seq<string>, matches: seq<Candidate>) returns (r: Outcome)
      modifies this
      ensures docnames == [] ==> r == Fail(IndexError) && DIRNAME == old(DIRNAME)
      ensures docnames != [] ==> r == Pass && DIRNAME == ResolveDirectory(old(DIRNAME), matches)
      ensures selection == old(selection) && State() == old(State())
    {
      if |docnames| == 0 {
        return Fail(IndexError);
      }
      var found := RegularFiles(matches);
      if found != [] {
        var sorted := SortByMtime(found);
        DIRNAME := SplitHead(sorted[|sorted| - 1].path);
      }
      r := Pass;
    }

    /** `getCurrentIcon`: `popitem(last=False)` on the selection, which is
        `KeyError` when nothing is selected. */
    method GetCurrentIcon() returns (r: Outcome, iconID: string)
      requires Valid()
      modifies this
      ensures Valid()
      ensures old(selection) == [] ==> r == Fail(KeyError) && selection == []
      ensures old(selection) != [] ==>
                && r == Pass && iconID == old(selection)[0]
                && selection == old(selection)[1..] && iconID !in selection
      ensures DIRNAME == old(DIRNAME) && State() == old(State())
    {
      if |selection| == 0 {
        return Fail(KeyError), "";
      }
      iconID := selection[0];
      selection := selection[1..];
      r := Pass;
      assert iconID == old(selection)[0];
      forall i | 0 <= i < |selection| ensures selection[i] != iconID {
        assert selection[i] == old(selection)[i + 1];
      }
    }

    /** `createDirectory`: `DIRNAME/folder` exists afterwards; nothing else
        changes. */
    method CreateDirectory(folder: string)
      modifies this
      ensures DIRNAME == old(DIRNAME) && selection == old(selection)
      ensures State() == MakeDirIfMissing(old(State()), Join(DIRNAME, folder))
    {
      var dirname := Join(DIRNAME, folder);
      if !(dirname in dirs || dirname in files) {
        dirs := dirs + {dirname};
      }
    }

    /** Writes an image file of the given size. */
    method SaveImage(path: Path, size: Size)
      modifies this
      ensures DIRNAME == old(DIRNAME) && selection == old(selection)
      ensures State() == Save(old(State()), path, size)
    {
      files := files[path := size];
      writes := writes + [path];
    }

    /** `generateIconWithDPI`: `Image.open` fails when there is no baseline
        file (`IsADirectory` for a directory there, `NotADirectory` when the
        temp folder is a regular file, else `FileNotFound`); otherwise the
        tier's folder is created when missing and the square of the tier is
        saved, which raises `NotADirectory` when the folder is a regular file
        and `IsADirectory` when the icon path is a directory. */
    method GenerateIconWithDPI(t: Tier) returns (r: Outcome)
      modifies this
      ensures DIRNAME == old(DIRNAME) && selection == old(selection)
      ensures State() == IconWithDPI(old(State()), DIRNAME, t).disk
      ensures r == Pass <==> IconWithDPI(old(State()), DIRNAME, t).ok
      ensures TempIcon(DIRNAME) !in old(files) ==>
              r == Fail(if TempIcon(DIRNAME) in old(dirs) then IsADirectory
                        else if TempDir(DIRNAME) in old(files) then NotADirectory
                        else FileNotFound)
      ensures TempIcon(DIRNAME) in old(files) ==> (r == Pass <==> IconPathsFree(old(State()), DIRNAME, t))
      ensures r == Pass || r == Fail(FileNotFound) || r == Fail(NotADirectory) || r == Fail(IsADirectory)
    {
      var src := Join(Join(DIRNAME, "temp"), "ic_launcher.png");
      if src !in files {
        if src in dirs {
          return Fail(IsADirectory);
        }
        if Join(DIRNAME, "temp") in files {
          return Fail(NotADirectory);
        }
        return Fail(FileNotFound);
      }
      IconFileIsNoIconDir(DIRNAME, t, t);
      CreateDirectory(IconFolder(t));
      var target := Join(Join(DIRNAME, IconFolder(t)), "ic_launcher.png");
      if Join(DIRNAME, IconFolder(t)) in files {
        return Fail(NotADirectory);
      }
      if target in dirs {
        return Fail(IsADirectory);
      }
      SaveImage(target, Size(IconSize(t), IconSize(t)));
      r := Pass;
    }

    /** `exportImageToPNG`: the temp folder is created when missing and the
        rasterizer writes `temp/ic_launcher.png`, here of size `rendered`. */
    method ExportImageToPNG(iconID: string, rendered: Size)
      modifies this
      ensures DIRNAME == old(DIRNAME) && selection == old(selection)
      ensures State() == ExportIcon(old(State()), DIRNAME, rendered)
    {
      CreateDirectory("temp");
      SaveImage(Join(Join(DIRNAME, "temp"), "ic_launcher.png"), rendered);
    }

    /** `effect`: resolve the directory, take the first selected element,
        export it as the baseline and then each tier from MDPI to XXXHDPI,
        leaving at the first tier call that raises; `render` is the size the
        rasterizer produces for an element id. No tier ever misses the
        baseline; a tier raises only when something stands where it saves. */
    method Effect(docnames: seq<string>, matches: seq<Candidate>, render: string -> Size) returns (r: Outcome)
      requires Valid()
      modifies this
      ensures Valid()
      ensures docnames == [] ==>
                r == Fail(IndexError) && DIRNAME == old(DIRNAME) && selection == old(selection) && State() == old(State())
      ensures docnames != [] ==> DIRNAME == ResolveDirectory(old(DIRNAME), matches)
      ensures docnames != [] && old(selection) == [] ==>
                r == Fail(KeyError) && selection == old(selection) && State() == old(State())
      ensures docnames != [] && old(selection) != [] ==>
                && selection == old(selection)[1..]
                && State() == IconRun(old(State()), DIRNAME, render(old(selection)[0])).disk
                && (r == Pass <==> IconRun(old(State()), DIRNAME, render(old(selection)[0])).ok)
                && (r == Pass <==> IconOutputsFree(old(State()), DIRNAME))
    {
      r := FindCurrentWorkingDirectory(docnames, matches);
      if r != Pass {
        return;
      }
      var iconID;
      r, iconID := GetCurrentIcon();
      if r != Pass {
        return;
      }
      IconRunOk(old(State()), DIRNAME, render(iconID));
      ExportImageToPNG(iconID, render(iconID));
      IconTiersInOrder(State(), DIRNAME);
      ghost var run := Run(State(), true);
      r := GenerateIconWithDPI(MDPI);
      run := ThenIcon(run, DIRNAME, MDPI);
      if r != Pass {
        return;
      }
      r := GenerateIconWithDPI(HDPI);
      run := ThenIcon(run, DIRNAME, HDPI);
      if r != Pass {
        return;
      }
      r := GenerateIconWithDPI(XHDPI);
      run := ThenIcon(run, DIRNAME, XHDPI);
      if r != Pass {
        return;
      }
      r := GenerateIconWithDPI(XXHDPI);
      run := ThenIcon(run, DIRNAME, XXHDPI);
      if r != Pass {
        return;
      }
      r := GenerateIconWithDPI(XXXHDPI);
      run := ThenIcon(run, DIRNAME, XXXHDPI);
    }
  }
}
