/**
 * Saving the finished figure (src/export/exporters.py): per-format path
 * naming, case-insensitive dispatch over a list of format names that skips
 * the unsupported ones, and the file-information record of an exported file.
 * `savefig` is modelled as an entry in the exporter's log of saved files.
 */
module Exporters {
  import opened Wrappers
  import opened Plot
  import opened Text
  import Paths
  import Config

  datatype Format = Png | Pdf | Svg

  function Extension(f: Format): (ext: string)
    ensures |ext| == 3 && '.' !in ext && '/' !in ext
  {
    match f
    case Png => "png"
    case Pdf => "pdf"
    case Svg => "svg"
  }

  /** The format `export_all_formats` dispatches a name to, if it supports it. */
  function ParseFormat(fmt: string): (r: Option<Format>)
    ensures r.Some? ==> Lower(fmt) == Extension(r.value)
  {
    var l := Lower(fmt);
    if l == "png" then Some(Png)
    else if l == "pdf" then Some(Pdf)
    else if l == "svg" then Some(Svg)
    else None
  }

  /**
   * `str(output_dir / f"{filename}.{ext}")`: pathlib joins the two with
   * `os.path.join` and normalises the result.
   */
  function ExportPath(dir: string, filename: string, f: Format): string
  {
    Paths.Format(Paths.Parse(Paths.PosixJoin(dir, filename + "." + Extension(f))))
  }

  /** The formats an export run writes: the supported entries, in input order, duplicates kept. */
  function ExportPlan(formats: seq<string>): (plan: seq<Format>)
    ensures |plan| <= |formats|
  {
    if formats == [] then [] else Dispatched(formats[0]) + ExportPlan(formats[1..])
  }

  /** What one entry contributes: its format, or nothing when it is unsupported. */
  function Dispatched(fmt: string): (fs: seq<Format>)
    ensures ParseFormat(fmt).Some? ==> fs == [ParseFormat(fmt).value]
    ensures ParseFormat(fmt).None? ==> fs == []
    ensures |fs| <= 1 && (fs != [] ==> Lower(fmt) == Extension(fs[0]))
  {
    if ParseFormat(fmt).Some? then [ParseFormat(fmt).value] else []
  }

  /** `formats=None` stands for the configured list. */
  function RequestedFormats(formats: Option<seq<string>>): (fs: seq<string>)
    ensures formats.None? ==> fs == ["png", "pdf", "svg"]
    ensures formats.Some? ==> fs == formats.value
  {
    if formats.None? then Config.EXPORT_FORMATS else formats.value
  }

  /** One `savefig`: the path, the format, the dpi when one is passed, and the figure saved. */
  datatype SaveCall = SaveCall(path: string, format: Format, dpi: Option<int>, figure: Figure)

  /** The save `export_all_formats` makes for a format: only PNG is given a dpi, the default one. */
  function DefaultSave(dir: string, filename: string, fig: Figure, f: Format): (c: SaveCall)
    ensures c.path == ExportPath(dir, filename, f) && c.format == f && c.figure == fig
    ensures c.dpi.Some? <==> f == Png
    ensures c.dpi.Some? ==> c.dpi.value == Config.PNG_DPI
  {
    SaveCall(ExportPath(dir, filename, f), f, if f == Png then Some(Config.PNG_DPI) else None, fig)
  }

  function PlannedSaves(dir: string, filename: string, fig: Figure, plan: seq<Format>): (cs: seq<SaveCall>)
    ensures |cs| == |plan|
    ensures forall i :: 0 <= i < |plan| ==> cs[i] == DefaultSave(dir, filename, fig, plan[i])
  {
    if plan == [] then []
    else
      var init := PlannedSaves(dir, filename, fig, plan[..|plan| - 1]);
      var last := DefaultSave(dir, filename, fig, plan[|plan| - 1]);
      SnocPointwise(plan, init, last, (g: Format) => DefaultSave(dir, filename, fig, g));
      init + [last]
  }

  function PlannedPaths(dir: string, filename: string, plan: seq<Format>): (ps: seq<string>)
    ensures |ps| == |plan|
    ensures forall i :: 0 <= i < |plan| ==> ps[i] == ExportPath(dir, filename, plan[i])
  {
    if plan == [] then []
    else
      var init := PlannedPaths(dir, filename, plan[..|plan| - 1]);
      var last := ExportPath(dir, filename, plan[|plan| - 1]);
      SnocPointwise(plan, init, last, (g: Format) => ExportPath(dir, filename, g));
      init + [last]
  }

  /** Appending `g` of the last element to `g` of the others gives `g` of every element. */
  lemma SnocPointwise<T, U>(xs: seq<T>, ys: seq<U>, y: U, g: T -> U)
    requires |xs| == |ys| + 1 && y == g(xs[|ys|])
    requires forall i :: 0 <= i < |ys| ==> ys[i] == g(xs[i])
    ensures forall i :: 0 <= i < |xs| ==> (ys + [y])[i] == g(xs[i])
  {
  }

  /** What `get_file_info` returns: the error record, or the five facts about the file. */
  datatype FileInfo =
    | FileError(error: string)
    | Info(filename: string, sizeBytes: nat, sizeMb: real, format: string, fileExists: bool)

  class MapExporter {
    var outputDir: string
    /** The files saved so far, oldest first. */
    var saved: seq<SaveCall>

    constructor (outputDir: string := Config.OUTPUT_DIR)
      ensures this.outputDir == outputDir && saved == []
    {
      this.outputDir := outputDir;
      saved := [];
    }

    method ExportPng(fig: Figure, filename: string, dpi: int := Config.PNG_DPI) returns (path: string)
      modifies this`saved
      ensures path == ExportPath(outputDir, filename, Png)
      ensures saved == old(saved) + [SaveCall(path, Png, Some(dpi), fig)]
    {
      var name := filename + ".png";
      assert name == filename + "." + Extension(Png);
      path := Paths.Format(Paths.Parse(Paths.PosixJoin(outputDir, name)));
      saved := saved + [SaveCall(path, Png, Some(dpi), fig)];
    }

    method ExportPdf(fig: Figure, filename: string) returns (path: string)
      modifies this`saved
      ensures path == ExportPath(outputDir, filename, Pdf)
      ensures saved == old(saved) + [SaveCall(path, Pdf, None, fig)]
    {
      var name := filename + ".pdf";
      assert name == filename + "." + Extension(Pdf);
      path := Paths.Format(Paths.Parse(Paths.PosixJoin(outputDir, name)));
      saved := saved + [SaveCall(path, Pdf, None, fig)];
    }

    method ExportSvg(fig: Figure, filename: string) returns (path: string)
      modifies this`saved
      ensures path == ExportPath(outputDir, filename, Svg)
      ensures saved == old(saved) + [SaveCall(path, Svg, None, fig)]
    {
      var name := filename + ".svg";
      assert name == filename + "." + Extension(Svg);
      path := Paths.Format(Paths.Parse(Paths.PosixJoin(outputDir, name)));
      saved := saved + [SaveCall(path, Svg, None, fig)];
    }

    /** The branch of `export_all_formats`' dispatch taken for a supported format. */
    method ExportFormat(fig: Figure, filename: string, f: Format) returns (path: string)
      modifies this`saved
      ensures path == ExportPath(outputDir, filename, f)
      ensures saved == old(saved) + [DefaultSave(outputDir, filename, fig, f)]
    {
      if f == Png {
        path := ExportPng(fig, filename);
      } else if f == Pdf {
        path := ExportPdf(fig, filename);
      } else {
        path := ExportSvg(fig, filename);
      }
    }

    /**
     * `export_all_formats`: one save and one path per supported entry, in
     * order; an unsupported entry is skipped and the loop goes on.
     */
    method ExportAllFormats(fig: Figure, baseFilename: string, formats: Option<seq<string>>)
      returns (exportedFiles: seq<string>)
      modifies this`saved
      ensures exportedFiles == PlannedPaths(outputDir, baseFilename, ExportPlan(RequestedFormats(formats)))
      ensures saved == old(saved) + PlannedSaves(outputDir, baseFilename, fig, ExportPlan(RequestedFormats(formats)))
    {
      var fs := RequestedFormats(formats);
      exportedFiles := [];
      ghost var plan: seq<Format> := [];
      var i := 0;
      while i < |fs|
        invariant 0 <= i <= |fs|
        invariant plan == ExportPlan(fs[..i])
        invariant exportedFiles == PlannedPaths(outputDir, baseFilename, plan)
        invariant saved == old(saved) + PlannedSaves(outputDir, baseFilename, fig, plan)
      {
        ExportPlanStep(fs, i);
        ghost var savedBefore := saved;
        var paths := ExportEntry(fig, baseFilename, fs[i]);
        SaveStep(old(saved), savedBefore, saved, outputDir, baseFilename, fig, plan, Dispatched(fs[i]));
        exportedFiles := exportedFiles + paths;
        plan := plan + Dispatched(fs[i]);
        i := i + 1;
      }
      assert fs[..i] == fs;
    }

    /** One entry of `export_all_formats`' loop: its export when it is supported, nothing otherwise. */
    method ExportEntry(fig: Figure, baseFilename: string, fmt: string) returns (paths: seq<string>)
      modifies this`saved
      ensures paths == PlannedPaths(outputDir, baseFilename, Dispatched(fmt))
      ensures saved == old(saved) + PlannedSaves(outputDir, baseFilename, fig, Dispatched(fmt))
    {
      var format := ParseFormat(fmt);
      if format.Some? {
        var path := ExportFormat(fig, baseFilename, format.value);
        PlannedSnoc(outputDir, baseFilename, fig, [], format.value);
        assert [] + [format.value] == [format.value];
        paths := [path];
      } else {
        paths := [];
      }
    }

    /**
     * `get_file_info`. `size` is the file's size in bytes as the file system
     * reports it, or None when there is no file at `filepath`.
     */
    static function GetFileInfo(filepath: string, size: Option<nat>): (info: FileInfo)
      ensures size.None? <==> info == FileError("File not found")
      ensures size.Some? ==> info.Info? && info.fileExists && info.sizeBytes == size.value
      ensures size.Some? ==> info.filename == Paths.Name(Paths.Parse(filepath)) && '/' !in info.filename
      ensures size.Some? ==> info.format == Lower(Paths.Suffix(info.filename))
      ensures size.Some? ==> -0.005 <= info.sizeMb - size.value as real / 1048576.0 <= 0.005
      ensures size.Some? ==> (info.sizeMb * 100.0).Floor as real == info.sizeMb * 100.0
    {
      if size.None? then FileError("File not found")
      else
        var name := Paths.Name(Paths.Parse(filepath));
        Info(name, size.value, Round2(size.value as real / (1024.0 * 1024.0)), Lower(Paths.Suffix(name)), true)
    }
  }

  /** `round(x, 2)` on an exact real: to the nearest hundredth, ties to the even hundredth. */
  function Round2(x: real): (r: real)
    ensures -0.005 <= r - x <= 0.005
    ensures (r * 100.0).Floor as real == r * 100.0
  {
    var y := x * 100.0;
    var k := y.Floor;
    var d := y - k as real;
    var n := if d > 0.5 then k + 1 else if d < 0.5 then k else if k % 2 == 0 then k else k + 1;
    assert (n as real / 100.0) * 100.0 == n as real;
    n as real / 100.0
  }

  // ---------------------------------------------------------------- lemmas

  lemma {:induction false} ExportPlanConcat(a: seq<string>, b: seq<string>)
    ensures ExportPlan(a + b) == ExportPlan(a) + ExportPlan(b)
  {
    if a == [] {
      assert a + b == b;
    } else {
      ExportPlanConcat(a[1..], b);
      assert a + b == [a[0]] + (a[1..] + b);
      assert a == [a[0]] + a[1..];
      ExportPlanCons(a[0], a[1..] + b);
      ExportPlanCons(a[0], a[1..]);
      AppendAssoc(Dispatched(a[0]), ExportPlan(a[1..]), ExportPlan(b));
    }
  }

  /** A format is planned exactly when some entry of the list is dispatched to it. */
  lemma {:induction false} ExportPlanMembers(formats: seq<string>, f: Format)
    ensures f in ExportPlan(formats) <==> exists j :: 0 <= j < |formats| && ParseFormat(formats[j]) == Some(f)
  {
    if formats != [] {
      ExportPlanMembers(formats[1..], f);
      if f in ExportPlan(formats[1..]) {
        var j :| 0 <= j < |formats[1..]| && ParseFormat(formats[1..][j]) == Some(f);
        assert ParseFormat(formats[j + 1]) == Some(f);
      }
      if exists j :: 0 <= j < |formats| && ParseFormat(formats[j]) == Some(f) {
        var j :| 0 <= j < |formats| && ParseFormat(formats[j]) == Some(f);
        if j > 0 {
          assert ParseFormat(formats[1..][j - 1]) == Some(f);
        }
      }
    }
  }

  lemma ExportPlanSnoc(a: seq<string>, fmt: string)
    ensures ExportPlan(a + [fmt]) == ExportPlan(a) + Dispatched(fmt)
  {
    ExportPlanConcat(a, [fmt]);
    assert [fmt][1..] == [];
  }

  lemma SaveStep(start: seq<SaveCall>, before: seq<SaveCall>, after: seq<SaveCall>,
                 dir: string, filename: string, fig: Figure, plan: seq<Format>, d: seq<Format>)
    requires |d| <= 1
    requires before == start + PlannedSaves(dir, filename, fig, plan)
    requires after == before + PlannedSaves(dir, filename, fig, d)
    ensures after == start + PlannedSaves(dir, filename, fig, plan + d)
    ensures PlannedPaths(dir, filename, plan + d) == PlannedPaths(dir, filename, plan) + PlannedPaths(dir, filename, d)
  {
    PlannedAppend(dir, filename, fig, plan, d);
    AppendAssoc(start, PlannedSaves(dir, filename, fig, plan), PlannedSaves(dir, filename, fig, d));
  }

  lemma AppendAssoc<T>(a: seq<T>, b: seq<T>, c: seq<T>)
    ensures (a + b) + c == a + (b + c)
  {
  }

  /** Planning at most one more format extends the planned saves and paths by its own. */
  lemma PlannedAppend(dir: string, filename: string, fig: Figure, plan: seq<Format>, d: seq<Format>)
    requires |d| <= 1
    ensures PlannedSaves(dir, filename, fig, plan + d) == PlannedSaves(dir, filename, fig, plan) + PlannedSaves(dir, filename, fig, d)
    ensures PlannedPaths(dir, filename, plan + d) == PlannedPaths(dir, filename, plan) + PlannedPaths(dir, filename, d)
  {
    if d == [] {
      assert plan + d == plan;
    } else {
      var f := d[0];
      assert d == [f];
      PlannedSnoc(dir, filename, fig, plan, f);
      PlannedOne(dir, filename, fig, f);
    }
  }

  /** Under a plain directory every planned path is `{dir}/{filename}.{ext}` as written. */
  lemma PlainPlannedPaths(dir: string, filename: string, plan: seq<Format>)
    requires Paths.Plain(dir) && '/' !in filename
    ensures forall i :: 0 <= i < |plan| ==>
      PlannedPaths(dir, filename, plan)[i] == dir + "/" + filename + "." + Extension(plan[i])
  {
    forall i | 0 <= i < |plan|
      ensures PlannedPaths(dir, filename, plan)[i] == dir + "/" + filename + "." + Extension(plan[i])
    {
      PlainExportPath(dir, filename, plan[i]);
    }
  }

  /** Under a plain directory the formats PNG, PDF and SVG are written to `{dir}/{filename}.png`, `.pdf` and `.svg`. */
  lemma PlainDefaultPaths(dir: string, filename: string, plan: seq<Format>)
    requires Paths.Plain(dir) && '/' !in filename
    requires |plan| == 3 && plan[0] == Png && plan[1] == Pdf && plan[2] == Svg
    ensures PlannedPaths(dir, filename, plan) ==
      [dir + "/" + filename + ".png", dir + "/" + filename + ".pdf", dir + "/" + filename + ".svg"]
  {
    PlainPlannedPaths(dir, filename, plan);
    DefaultPlanPaths(PlannedPaths(dir, filename, plan), dir + "/" + filename, plan);
  }

  /** Three paths `{stem}.{ext}` for PNG, PDF and SVG, in that order, spelled out. */
  lemma DefaultPlanPaths(ps: seq<string>, stem: string, plan: seq<Format>)
    requires |plan| == 3 && plan[0] == Png && plan[1] == Pdf && plan[2] == Svg
    requires |ps| == |plan| && forall i :: 0 <= i < |plan| ==> ps[i] == stem + "." + Extension(plan[i])
    ensures ps == [stem + ".png", stem + ".pdf", stem + ".svg"]
  {
    ExtensionSpelling(stem);
    assert ps == [ps[0], ps[1], ps[2]];
  }

  /** `{stem}.{ext}` spelled out for the three formats. */
  lemma ExtensionSpelling(stem: string)
    ensures stem + "." + Extension(Png) == stem + ".png"
    ensures stem + "." + Extension(Pdf) == stem + ".pdf"
    ensures stem + "." + Extension(Svg) == stem + ".svg"
  {
    assert "." + "png" == ".png" && "." + "pdf" == ".pdf" && "." + "svg" == ".svg";
  }

  lemma PlannedOne(dir: string, filename: string, fig: Figure, f: Format)
    ensures PlannedSaves(dir, filename, fig, [f]) == [DefaultSave(dir, filename, fig, f)]
    ensures PlannedPaths(dir, filename, [f]) == [ExportPath(dir, filename, f)]
  {
    assert [f][..0] == [];
  }

  lemma PlannedSnoc(dir: string, filename: string, fig: Figure, plan: seq<Format>, f: Format)
    ensures PlannedSaves(dir, filename, fig, plan + [f]) ==
      PlannedSaves(dir, filename, fig, plan) + [DefaultSave(dir, filename, fig, f)]
    ensures PlannedPaths(dir, filename, plan + [f]) == PlannedPaths(dir, filename, plan) + [ExportPath(dir, filename, f)]
  {
    assert (plan + [f])[..|plan|] == plan;
  }

  lemma ExportPlanStep(fs: seq<string>, i: nat)
    requires i < |fs|
    ensures ExportPlan(fs[..i + 1]) == ExportPlan(fs[..i]) + Dispatched(fs[i])
  {
    assert fs[..i + 1] == fs[..i] + [fs[i]];
    ExportPlanSnoc(fs[..i], fs[i]);
  }

  /** Dispatch ignores letter case: a name means what its lower-case form means. */
  lemma ParseFormatIgnoresCase(fmt: string)
    ensures ParseFormat(fmt) == ParseFormat(Lower(fmt))
  {
    LowerOfLowercase(Lower(fmt));
  }

  /** An unsupported entry is skipped without disturbing what comes before or after it. */
  lemma UnsupportedFormatSkipped(a: seq<string>, fmt: string, b: seq<string>)
    requires ParseFormat(fmt).None?
    ensures ExportPlan(a + [fmt] + b) == ExportPlan(a) + ExportPlan(b)
  {
    ExportPlanConcat(a + [fmt], b);
    ExportPlanSnoc(a, fmt);
  }

  /** When every entry is supported, there is one export per entry, in order. */
  lemma {:induction false} AllSupportedAllExported(fs: seq<string>)
    requires forall i :: 0 <= i < |fs| ==> ParseFormat(fs[i]).Some?
    ensures |ExportPlan(fs)| == |fs|
    ensures forall i :: 0 <= i < |fs| ==> ExportPlan(fs)[i] == ParseFormat(fs[i]).value
  {
    if fs != [] {
      AllSupportedAllExported(fs[1..]);
    }
  }

  /** Unfolds one entry at the front of the requested list. */
  lemma ExportPlanCons(fmt: string, rest: seq<string>)
    ensures ExportPlan([fmt] + rest) == Dispatched(fmt) + ExportPlan(rest)
  {
    assert ([fmt] + rest)[1..] == rest;
  }

  /** A name already in lower case is dispatched as written. */
  lemma ParseLowercase(fmt: string)
    requires forall i :: 0 <= i < |fmt| ==> !('A' <= fmt[i] <= 'Z')
    ensures ParseFormat(fmt) == if fmt == "png" then Some(Png)
                                else if fmt == "pdf" then Some(Pdf)
                                else if fmt == "svg" then Some(Svg)
                                else None
  {
    LowerOfLowercase(fmt);
  }

  /** The upper-case `"PNG"` selects PNG. */
  lemma UpperPng()
    ensures ParseFormat("PNG") == Some(Png)
  {
    var s := "PNG";
    assert Lower(s) == [LowerChar('P')] + Lower(s[1..]);
    assert Lower(s[1..]) == [LowerChar('N')] + Lower(s[2..]);
    assert Lower(s[2..]) == [LowerChar('G')] + Lower(s[3..]);
    assert Lower(s) == "png";
  }

  /** A one-entry list is planned as its own dispatch. */
  lemma ExportPlanSingle(fmt: string)
    ensures ExportPlan([fmt]) == Dispatched(fmt)
  {
    ExportPlanCons(fmt, []);
  }

  /** Each configured name selects its own format. */
  lemma ConfiguredNamesDispatch()
    ensures Dispatched("png") == [Png] && Dispatched("pdf") == [Pdf] && Dispatched("svg") == [Svg]
  {
    ParseLowercase("png");
    ParseLowercase("pdf");
    ParseLowercase("svg");
  }

  /** With no `formats` argument, the configured PNG, PDF and SVG are all written, in that order. */
  lemma DefaultFormats()
    ensures ExportPlan(RequestedFormats(None)) == [Png, Pdf, Svg]
  {
    ConfiguredNamesDispatch();
    var tail := ["pdf", "svg"];
    ExportPlanSingle("svg");
    assert tail == ["pdf"] + ["svg"];
    ExportPlanCons("pdf", ["svg"]);
    assert Config.EXPORT_FORMATS == ["png"] + tail;
    ExportPlanCons("png", tail);
  }

  /** `["png", "bmp"]` writes the PNG alone; `["PNG", "png"]` writes it twice. */
  lemma MixedFormatExamples()
    ensures ExportPlan(["png", "bmp"]) == [Png]
    ensures ExportPlan(["PNG", "png"]) == [Png, Png]
  {
    assert Dispatched("png") == [Png] by { ParseLowercase("png"); }
    assert Dispatched("bmp") == [] by { ParseLowercase("bmp"); }
    assert Dispatched("PNG") == [Png] by { UpperPng(); }
    ExportPlanSingle("bmp");
    ExportPlanSingle("png");
    ExportPlanCons("png", ["bmp"]);
    assert ["png", "bmp"] == ["png"] + ["bmp"];
    ExportPlanCons("PNG", ["png"]);
    assert ["PNG", "png"] == ["PNG"] + ["png"];
  }

  /** `f"{filename}.{ext}"` of a filename without a separator is one component, which normalising keeps. */
  lemma ExportNameIsComponent(filename: string, f: Format)
    requires '/' !in filename
    ensures var name := filename + "." + Extension(f);
      name != "" && name != "." && '/' !in name
  {
    var name := filename + "." + Extension(f);
    assert name[|filename|] == '.';
    assert |name| == |filename| + 4;
  }

  /**
   * An exported path, parsed, is the directory's root and components
   * followed by `{filename}.{ext}`, whatever separators and "." pieces the
   * directory string carries.
   */
  lemma ExportPathParts(dir: string, filename: string, f: Format)
    requires '/' !in filename
    ensures Paths.Parse(ExportPath(dir, filename, f)) ==
      Paths.PurePath(Paths.Root(dir), Paths.Components(dir) + [filename + "." + Extension(f)])
  {
    var name := filename + "." + Extension(f);
    ExportNameIsComponent(filename, f);
    Paths.JoinName(dir, name);
    Paths.ParseFormat(Paths.Parse(Paths.PosixJoin(dir, name)));
  }

  /** Under a plain directory, such as the configured "output", the path is `{dir}/{filename}.{ext}` as written. */
  lemma PlainExportPath(dir: string, filename: string, f: Format)
    requires Paths.Plain(dir) && '/' !in filename
    ensures ExportPath(dir, filename, f) == dir + "/" + filename + "." + Extension(f)
  {
    var name := filename + "." + Extension(f);
    ExportNameIsComponent(filename, f);
    Paths.PlainJoin(dir, name);
    NameAfterSeparator(dir, filename, Extension(f));
  }

  /** `{dir}/` followed by `{filename}.{ext}` is `{dir}/{filename}.{ext}`. */
  lemma NameAfterSeparator(dir: string, filename: string, ext: string)
    ensures dir + "/" + (filename + "." + ext) == dir + "/" + filename + "." + ext
  {
  }

  /** Under the configured directory a file is written to `output/{filename}.{ext}`. */
  lemma DefaultDirectory(filename: string, f: Format)
    requires '/' !in filename
    ensures ExportPath(Config.OUTPUT_DIR, filename, f) == "output/" + filename + "." + Extension(f)
  {
    Paths.PieceIsPlain(Config.OUTPUT_DIR);
    PlainExportPath(Config.OUTPUT_DIR, filename, f);
    assert Config.OUTPUT_DIR + "/" == "output/";
  }

  /** A trailing separator on a plain directory changes nothing. */
  lemma TrailingSeparatorIgnored(dir: string, filename: string, f: Format)
    requires Paths.Plain(dir) && '/' !in filename
    ensures ExportPath(dir + "/", filename, f) == ExportPath(dir, filename, f)
  {
    var name := filename + "." + Extension(f);
    ExportNameIsComponent(filename, f);
    Paths.JoinName(dir + "/", name);
    Paths.JoinName(dir, name);
    Paths.TrailingSeparator(dir);
    assert (dir + "/")[0] == dir[0];
    assert Paths.Parse(Paths.PosixJoin(dir + "/", name)) == Paths.Parse(Paths.PosixJoin(dir, name));
  }

  /** The empty directory leaves the file name alone, without a leading separator. */
  lemma EmptyDirectory(filename: string, f: Format)
    requires '/' !in filename
    ensures ExportPath("", filename, f) == filename + "." + Extension(f)
  {
    ExportNameIsComponent(filename, f);
    ExportPathParts("", filename, f);
    Paths.ComponentsOfPiece("");
    var name := filename + "." + Extension(f);
    assert Paths.Parse(ExportPath("", filename, f)) == Paths.PurePath("", [name]);
    Paths.ParseFormat(Paths.Parse(Paths.PosixJoin("", name)));
  }

  /** An absolute file name replaces the directory. */
  lemma AbsoluteFilename(dir: string, filename: string, f: Format)
    requires '/' !in filename
    ensures ExportPath(dir, "/" + filename, f) == "/" + filename + "." + Extension(f)
  {
    var name := filename + "." + Extension(f);
    ExportNameIsComponent(filename, f);
    assert "/" + filename + "." + Extension(f) == "/" + name;
    assert Paths.PosixJoin(dir, "/" + name) == "/" + name;
    assert name[0] in name;
    Paths.ComponentsAfterSeparator(name);
    Paths.ComponentsOfPiece(name);
    assert Paths.Parse("/" + name) == Paths.PurePath("/", [name]);
  }

  /**
   * The file information of an exported file names it `{filename}.{ext}`
   * and reports its format as `.{ext}`, for any non-empty filename without
   * a directory separator.
   */
  lemma ExportedFileInfo(dir: string, filename: string, f: Format, size: nat)
    requires filename != [] && '/' !in filename
    ensures var info := MapExporter.GetFileInfo(ExportPath(dir, filename, f), Some(size));
      && info.Info?
      && info.filename == filename + "." + Extension(f)
      && info.format == "." + Extension(f)
      && info.sizeBytes == size
      && info.fileExists
  {
    ExportedName(dir, filename, f);
    ExportedSuffix(filename, f);
  }

  /** An exported file's name (`Path.name`) is `{filename}.{ext}`. */
  lemma ExportedName(dir: string, filename: string, f: Format)
    requires '/' !in filename
    ensures Paths.Name(Paths.Parse(ExportPath(dir, filename, f))) == filename + "." + Extension(f)
  {
    ExportPathParts(dir, filename, f);
  }

  /** The lower-cased suffix of `{filename}.{ext}` is `.{ext}` when the filename is not empty. */
  lemma ExportedSuffix(filename: string, f: Format)
    requires filename != []
    ensures Lower(Paths.Suffix(filename + "." + Extension(f))) == "." + Extension(f)
  {
    var ext := Extension(f);
    assert filename + "." + ext == filename + ['.'] + ext;
    LastIndexOfAfter(filename, '.', ext);
    assert Paths.Suffix(filename + "." + ext) == "." + ext;
    LowerOfLowercase("." + ext);
  }
}
