/**
 * The manifest builder's text and paths: the Gemfile written for one target, and the
 * directory it is written to.
 */
module Gemfile {
  import opened Wrappers
  import opened Strings
  import Paths

  /** One gem dependency of a target, with its version constraint as vanagon reports it. */
  datatype Gem = Gem(name: string, version: string)

  /** The directory under which every target's output directory is made. */
  const LOCKFILE_DIR: string := "gen_lockfile"

  /** The first line of every Gemfile, without its line break. */
  const HEADER_LINE: string := "source ENV['GEM_SOURCE'] || " + "\"https://rubygems.org\""

  /** The declaration of one gem, without its line break: `gem "<name>", <version>`. */
  function Declaration(g: Gem): string
  {
    "gem \"" + g.name + "\", " + g.version
  }

  /** The declarations of `gems`, one per gem, in order. */
  function Declarations(gems: seq<Gem>): (r: seq<string>)
    ensures |r| == |gems| && forall i :: 0 <= i < |gems| ==> r[i] == Declaration(gems[i])
  {
    if gems == [] then [] else Declarations(gems[..|gems| - 1]) + [Declaration(gems[|gems| - 1])]
  }

  /** The text the loop appends for `gems`: each declaration followed by a line break. */
  function DeclarationLines(gems: seq<Gem>): string
  {
    if gems == [] then "" else DeclarationLines(gems[..|gems| - 1]) + Declaration(gems[|gems| - 1]) + "\n"
  }

  /** The whole Gemfile for `gems`. */
  function GemfileText(gems: seq<Gem>): string
  {
    HEADER_LINE + "\n" + DeclarationLines(gems)
  }

  /** Build the Gemfile text by appending one line per gem to the header, as the source's loop does. */
  method RenderGemfile(gems: seq<Gem>) returns (gemfile: string)
    ensures gemfile == GemfileText(gems)
    ensures gems == [] ==> gemfile == HEADER_LINE + "\n"
  {
    gemfile := HEADER_LINE + "\n";
    for i := 0 to |gems|
      invariant gemfile == HEADER_LINE + "\n" + DeclarationLines(gems[..i])
    {
      assert gems[..i + 1][..i] == gems[..i];
      gemfile := gemfile + Declaration(gems[i]) + "\n";
    }
    assert gems[..|gems|] == gems;
  }

  /** The appended lines are the declarations joined by line breaks, with a final line break. */
  lemma {:induction false} DeclarationLinesJoin(gems: seq<Gem>)
    ensures DeclarationLines(gems) == Join(Declarations(gems) + [""], '\n')
  {
    if gems != [] {
      var init := gems[..|gems| - 1];
      var d := Declaration(gems[|gems| - 1]);
      var ds := Declarations(init);
      DeclarationLinesJoin(init);
      assert Declarations(gems) + [""] == (ds + [d]) + [""];
      assert Join((ds + [d]) + [""], '\n') == Join(ds + [d], '\n') + "\n" by {
        JoinSnoc(ds + [d], "", '\n');
      }
      JoinSnoc(ds, d, '\n');
      JoinSnoc(ds, "", '\n');
      if ds == [] {
        assert Join(ds + [""], '\n') == "";
      } else {
        assert Join(ds + [""], '\n') == Join(ds, '\n') + "\n";
      }
    }
  }

  /** A declaration has no line break when its name and version have none. */
  lemma DeclarationHasNoLineBreak(g: Gem)
    requires '\n' !in g.name && '\n' !in g.version
    ensures '\n' !in Declaration(g)
  {
  }

  /** The header is a single line. */
  lemma HeaderHasNoLineBreak()
    ensures '\n' !in HEADER_LINE
  {
  }

  /**
   * Read back line by line, a Gemfile is the header, then exactly one declaration per gem
   * in input order, then nothing after the last line break, provided no name or version
   * itself contains a line break.
   */
  lemma GemfileLines(gems: seq<Gem>)
    requires forall i :: 0 <= i < |gems| ==> '\n' !in gems[i].name && '\n' !in gems[i].version
    ensures Split(GemfileText(gems), '\n') == [HEADER_LINE] + Declarations(gems) + [""]
  {
    HeaderHasNoLineBreak();
    LinesUnderHeader(HEADER_LINE, gems);
  }

  /** `GemfileLines` for any single-line header `h`. */
  lemma LinesUnderHeader(h: string, gems: seq<Gem>)
    requires '\n' !in h
    requires forall i :: 0 <= i < |gems| ==> '\n' !in gems[i].name && '\n' !in gems[i].version
    ensures Split(h + "\n" + DeclarationLines(gems), '\n') == [h] + Declarations(gems) + [""]
  {
    var ds := Declarations(gems);
    var parts := [h] + (ds + [""]);
    assert Join(parts, '\n') == h + "\n" + DeclarationLines(gems) by {
      DeclarationLinesJoin(gems);
      assert parts[1..] == ds + [""];
    }
    forall i | 0 <= i < |gems| ensures '\n' !in ds[i] {
      DeclarationHasNoLineBreak(gems[i]);
    }
    PiecesHaveNoLineBreak(h, ds);
    SplitJoin(parts, '\n');
  }

  /** The pieces of a header, lines and a final empty piece hold no line break when each line holds none. */
  lemma PiecesHaveNoLineBreak(h: string, ds: seq<string>)
    requires '\n' !in h
    requires forall i :: 0 <= i < |ds| ==> '\n' !in ds[i]
    ensures forall i :: 0 <= i < |ds| + 2 ==> '\n' !in ([h] + (ds + [""]))[i]
  {
    var parts := [h] + (ds + [""]);
    forall i | 0 <= i < |parts| ensures '\n' !in parts[i] {
      if i == 0 {
      } else if i <= |ds| {
        assert parts[i] == ds[i - 1];
      } else {
        assert parts[i] == "";
      }
    }
  }

  /** A target without gems still gets a Gemfile: the header line alone. */
  lemma EmptyGemfileIsHeader()
    ensures Split(GemfileText([]), '\n') == [HEADER_LINE, ""]
  {
    GemfileLines([]);
  }

  // ---------------------------------------------------------------------
  // Output paths

  /** The name of a target's output directory: `<project>_<platform>`. */
  function OutputFolder(project: string, platform: string): string
  {
    project + "_" + platform
  }

  /** `filepath.Join(LOCKFILE_DIR, OutputFolder(project, platform))`. */
  function OutputPath(project: string, platform: string): string
  {
    Paths.Join2(LOCKFILE_DIR, OutputFolder(project, platform))
  }

  lemma LockfileDirIsPlain()
    ensures Paths.IsNormalElement(LOCKFILE_DIR) && '/' !in LOCKFILE_DIR
  {
  }

  /** Without slashes in the names, the output directory is `gen_lockfile/<project>_<platform>`. */
  lemma OutputPathPlain(project: string, platform: string)
    requires '/' !in project && '/' !in platform
    ensures OutputPath(project, platform) == LOCKFILE_DIR + "/" + project + "_" + platform
  {
    var folder := OutputFolder(project, platform);
    assert folder[|project|] == '_';
    LockfileDirIsPlain();
    Paths.Join2Plain(LOCKFILE_DIR, folder);
  }

  lemma OutputPathUnderDir(project: string, platform: string)
    requires '/' !in project && '/' !in platform
    ensures OutputPath(project, platform) == (LOCKFILE_DIR + "/") + OutputFolder(project, platform)
  {
    OutputPathPlain(project, platform);
  }

  lemma PrefixCancel(prefix: string, x: string, y: string)
    requires prefix + x == prefix + y
    ensures x == y
  {
    assert x == (prefix + x)[|prefix|..];
    assert y == (prefix + y)[|prefix|..];
  }

  /** Distinct slash-free targets get distinct output directories when the project names have no `_`. */
  lemma OutputPathInjective(project1: string, platform1: string, project2: string, platform2: string)
    requires '/' !in project1 && '/' !in platform1 && '/' !in project2 && '/' !in platform2
    requires '_' !in project1 && '_' !in project2
    requires OutputPath(project1, platform1) == OutputPath(project2, platform2)
    ensures project1 == project2 && platform1 == platform2
  {
    var prefix := LOCKFILE_DIR + "/";
    OutputPathUnderDir(project1, platform1);
    OutputPathUnderDir(project2, platform2);
    PrefixCancel(prefix, OutputFolder(project1, platform1), OutputFolder(project2, platform2));
    UnderscoreSplit(project1, platform1, project2, platform2);
  }

  /** `a1 + "_" + b1 == a2 + "_" + b2` with no `_` in `a1`, `a2` splits at the same place. */
  lemma UnderscoreSplit(a1: string, b1: string, a2: string, b2: string)
    requires '_' !in a1 && '_' !in a2
    requires a1 + "_" + b1 == a2 + "_" + b2
    ensures a1 == a2 && b1 == b2
  {
    var s := a1 + "_" + b1;
    assert s[|a1|] == '_' && s[|a2|] == '_';
    assert |a1| == |a2|;
    assert a1 == s[..|a1|] && a2 == s[..|a2|];
    assert b1 == s[|a1| + 1..] && b2 == s[|a2| + 1..];
  }

  // ---------------------------------------------------------------------
  // buildGemFile

  /** The file-system and process steps of `buildGemFile`, in the order they run. */
  datatype BuildStep =
    | MakeLockfileDir   // os.MkdirAll(LOCKFILE_DIR)
    | MakeOutputDir     // os.MkdirAll(<output path>)
    | WriteGemfile      // os.WriteFile(<output path>/Gemfile)
    | GetWorkingDir     // os.Getwd()
    | EnterOutputDir    // os.Chdir(<output path>)
    | BundleLock        // bundle lock
    | LeaveOutputDir    // os.Chdir(<previous directory>)

  function StepIndex(step: BuildStep): nat
  {
    match step
    case MakeLockfileDir => 0
    case MakeOutputDir => 1
    case WriteGemfile => 2
    case GetWorkingDir => 3
    case EnterOutputDir => 4
    case BundleLock => 5
    case LeaveOutputDir => 6
  }

  /** A file `buildGemFile` wrote. */
  datatype FileWrite = FileWrite(path: string, content: string)

  /**
   * `buildGemFile(project, platform, gems)`, with the file system and `bundle lock` reduced
   * to `failure`: the first step that fails, or None when every step succeeds. The call returns
   * the output directory or the failing step, and reports the Gemfile it wrote, if it got that far.
   */
  method BuildGemFile(project: string, platform: string, gems: seq<Gem>, failure: Option<BuildStep>)
    returns (written: Option<FileWrite>, r: Result<string, BuildStep>)
    ensures failure.None? ==> r == Ok(OutputPath(project, platform))
    ensures failure.Some? ==> r == Err(failure.value)
    ensures written.Some? <==> failure.None? || StepIndex(failure.value) > StepIndex(WriteGemfile)
    ensures written.Some? ==> written.value == FileWrite(
      Paths.Clean(LOCKFILE_DIR + "/" + OutputFolder(project, platform) + "/" + "Gemfile"), GemfileText(gems))
  {
    var gemfile := RenderGemfile(gems);
    var oFolder := OutputFolder(project, platform);
    var lOutpath := Paths.Join2(LOCKFILE_DIR, oFolder);
    // the steps before the failing one succeed; 7 means that none fails
    var failsAt := if failure.Some? then StepIndex(failure.value) else 7;
    written := if failsAt > StepIndex(WriteGemfile)
      then Some(FileWrite(Paths.Clean(LOCKFILE_DIR + "/" + oFolder + "/" + "Gemfile"), gemfile))
      else None;
    r := if failure.Some? then Err(failure.value) else Ok(lOutpath);
  }
}
