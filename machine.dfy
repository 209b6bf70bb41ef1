/**
  The side-effecting half of quick-init. A Machine stands for the outside
  world the program acts on: the log of processes it has started and the
  text files of the project directory. Each method follows one function of
  the program step by step and is proved to have exactly the effect the
  corresponding function of module Pipeline describes.
 */
module Orchestrator {
  import opened Text
  import opened Commands
  import opened Tailwind
  import opened Pipeline

  class Machine {
    /** `cfg!(target_os = "windows")`. */
    const windows: bool
    /** Every process started so far, oldest first. */
    var trace: seq<Invocation>
    /** The project directory's files, by relative path. */
    var files: map<string, string>

    constructor (windows: bool, files: map<string, string>)
      ensures this.windows == windows && this.files == files && trace == []
    {
      this.windows := windows;
      this.files := files;
      trace := [];
    }

    /** `dynamic_exec`: start one process and wait for it. */
    method DynamicExec(command: seq<string>, dir: Path)
      requires windows || |command| > 0
      modifies this
      ensures trace == old(trace) + [Run(command, dir, windows)]
      ensures files == old(files)
    {
      var spawn: Spawn;
      if windows {
        spawn := Spawn("cmd", ["/C"] + command);
      } else {
        spawn := Spawn(command[0], command[1..]);
      }
      trace := trace + [Invocation(spawn, dir, Captured)];
    }

    /** `install_dependancies`: one install per name, in order. `isDev` only
        chooses the progress label, so the effect does not depend on it. */
    method InstallDependencies(deps: seq<string>, dir: Path, isDev: bool)
      modifies this
      ensures trace == old(trace) + InstallTrace(deps, dir, windows)
      ensures files == old(files)
    {
      var i := 0;
      while i < |deps|
        invariant 0 <= i <= |deps|
        invariant trace == old(trace) + InstallTrace(deps[..i], dir, windows)
        invariant files == old(files)
      {
        DynamicExec(InstallCommand(deps[i]), dir);
        assert InstallTrace(deps[..i + 1], dir, windows)
            == InstallTrace(deps[..i], dir, windows) + [Run(InstallCommand(deps[i]), dir, windows)];
        i := i + 1;
      }
      assert deps[..i] == deps;
    }

    /** `init_tailwind`: generate the config, patch its content list, then
        overwrite the global stylesheet; stop quietly at a missing file. */
    method InitTailwind(args: Args, projectDir: Path)
      modifies this
      ensures trace == old(trace) + TailwindTrace(projectDir, windows)
      ensures files == TailwindFiles(old(files), args.template)
    {
      DynamicExec(TailwindInitCommand, projectDir);

      var contentPath := "";
      if args.template == "vite" {
        contentPath := ViteGlob;
      } else if args.template == "next" {
        contentPath := NextGlob;
      }
      var contentConfig := "content: [" + contentPath + "]";
      assert contentConfig == ContentConfig(args.template);

      var found := PatchConfigFile(contentConfig, args.template);
      if !found {
        return;
      }
      OverwriteStylesheet();
    }

    /** The config half of `init_tailwind`: replace the marker in the first
        config file that exists, reporting whether there was one. */
    method PatchConfigFile(contentConfig: string, template: string) returns (found: bool)
      requires contentConfig == ContentConfig(template)
      modifies this
      ensures found <==> PatchedConfig(old(files), template).Some?
      ensures files == if found then PatchedConfig(old(files), template).value else old(files)
      ensures trace == old(trace)
    {
      var configPath: string;
      if ConfigJs in files {
        configPath := ConfigJs;
        assert FirstExisting(files, ConfigCandidates) == Some(0);
      } else if ConfigCjs in files {
        configPath := ConfigCjs;
        assert FirstExisting(files, ConfigCandidates) == Some(1);
      } else {
        assert FirstExisting(files, ConfigCandidates) == None;
        return false;
      }
      var config := files[configPath];
      config := Replace(config, Marker, contentConfig);
      files := files[configPath := config];
      return true;
    }

    /** The stylesheet half of `init_tailwind`: overwrite the first
        stylesheet that exists. */
    method OverwriteStylesheet()
      modifies this
      ensures files == WithStylesheet(old(files))
      ensures trace == old(trace)
    {
      var stylesheetPath: string;
      if IndexCss in files {
        stylesheetPath := IndexCss;
        assert FirstExisting(files, StylesheetCandidates) == Some(0);
      } else if GlobalsCss in files {
        stylesheetPath := GlobalsCss;
        assert FirstExisting(files, StylesheetCandidates) == Some(1);
      } else {
        assert FirstExisting(files, StylesheetCandidates) == None;
        return;
      }
      files := files[stylesheetPath := Stylesheet];
    }

    /** `start_server`: on a yes, start the development server attached to
        the terminal, without waiting for it. */
    method StartServer(dir: Path, answer: string)
      modifies this
      ensures trace == old(trace) + ServerTrace(dir, answer, windows)
      ensures files == old(files)
    {
      if WantsServer(answer) {
        var spawn: Spawn;
        if windows {
          spawn := Spawn("cmd", ["/C"] + ServerCommand);
        } else {
          spawn := Spawn(ServerCommand[0], ServerCommand[1..]);
        }
        trace := trace + [Invocation(spawn, dir, Attached)];
      }
    }

    /** `main` after argument parsing and configuration loading: validate the
        template, scaffold, install both lists, configure tailwindcss when
        asked for, offer the server, and report the exit code. */
    method Bootstrap(args: Args, config: Config, cwd: Path, answer: string) returns (exitCode: int)
      modifies this
      ensures exitCode == ExitCode(args)
      ensures trace == old(trace) + PipelineTrace(args, config, cwd, answer, windows)
      ensures files == PipelineFiles(args, config, old(files))
    {
      if args.template !in ValidTemplates {
        return 1;
      }
      var projectDir := Join(cwd, args.name);

      var initCommand := GenerateInitCommand(args);
      DynamicExec(initCommand, cwd);

      var deps := SelectDependencies(config, args.template);
      InstallDependencies(deps.dev, projectDir, true);
      InstallDependencies(deps.proj, projectDir, false);

      ghost var installed := trace;
      if TailwindPackage in deps.dev {
        InitTailwind(args, projectDir);
      }
      ghost var tw := if TailwindRequested(deps) then TailwindTrace(projectDir, windows) else [];
      assert trace == installed + tw;
      StartServer(projectDir, answer);

      assert PipelineTrace(args, config, cwd, answer, windows)
          == [Run(initCommand, cwd, windows)] + InstallTrace(deps.dev, projectDir, windows)
             + InstallTrace(deps.proj, projectDir, windows) + tw + ServerTrace(projectDir, answer, windows);
      AppendFive(old(trace), [Run(initCommand, cwd, windows)], InstallTrace(deps.dev, projectDir, windows),
                 InstallTrace(deps.proj, projectDir, windows), tw, ServerTrace(projectDir, answer, windows));
      return 0;
    }
  }

  /** Five successive appends to a log amount to appending their concatenation. */
  lemma AppendFive<T>(t: seq<T>, a: seq<T>, b: seq<T>, c: seq<T>, d: seq<T>, e: seq<T>)
    ensures t + a + b + c + d + e == t + (a + b + c + d + e)
  {
    assert t + a + b == t + (a + b);
    assert t + (a + b) + c == t + (a + b + c);
    assert t + (a + b + c) + d == t + (a + b + c + d);
    assert t + (a + b + c + d) + e == t + (a + b + c + d + e);
  }
}
