/**
  What a run of quick-init does, as values: the dependency configuration,
  the sequence of external process calls a run issues, the files it leaves
  behind, and its exit code. The imperative run in module Orchestrator is
  proved to produce exactly these.
 */
module Pipeline {
  import opened Text
  import opened Commands
  import opened Tailwind

  /** The dependency lists per template (`struct Config`). */
  datatype Config = Config(
    viteProj: seq<string>, viteDev: seq<string>,
    nextProj: seq<string>, nextDev: seq<string>)

  /** The two lists used by one run (`struct Dependancies`). */
  datatype Dependencies = Dependencies(dev: seq<string>, proj: seq<string>)

  /** The built-in defaults. */
  const DefaultConfig: Config := Config(
    ["react-router-dom"], ["tailwindcss", "postcss", "autoprefixer"],
    [], ["tailwindcss", "postcss", "autoprefixer"])

  /** The package that switches the tailwindcss configuration step on. */
  const TailwindPackage: string := "tailwindcss"

  /** The lists named after the selected template. The source panics for any
      other template, which its own validation has already excluded. */
  function SelectDependencies(config: Config, template: string): (r: Dependencies)
    requires template in ValidTemplates
    ensures template == "vite" ==> r.dev == config.viteDev && r.proj == config.viteProj
    ensures template == "next" ==> r.dev == config.nextDev && r.proj == config.nextProj
  {
    if template == "vite" then Dependencies(config.viteDev, config.viteProj)
    else Dependencies(config.nextDev, config.nextProj)
  }

  predicate TailwindRequested(deps: Dependencies)
  {
    TailwindPackage in deps.dev
  }

  /** With the built-in defaults both templates get the tailwindcss step. */
  lemma DefaultConfigRequestsTailwind(template: string)
    requires template in ValidTemplates
    ensures TailwindRequested(SelectDependencies(DefaultConfig, template))
  {
  }

  function InstallCommand(dependency: string): seq<string>
  {
    ["npm", "install", dependency]
  }

  /** The calls `install_dependancies` makes: the i-th is `npm install` of
      the i-th name, all in the same directory. */
  function InstallTrace(deps: seq<string>, dir: Path, windows: bool): seq<Invocation>
  {
    seq(|deps|, i requires 0 <= i < |deps| => Run(InstallCommand(deps[i]), dir, windows))
  }

  /** The one call `init_tailwind` makes, whatever files it then finds. */
  function TailwindTrace(dir: Path, windows: bool): seq<Invocation>
  {
    [Run(TailwindInitCommand, dir, windows)]
  }

  const ServerCommand: seq<string> := ["npm", "run", "dev"]

  /** The development server, attached to the terminal and not waited for. */
  function ServerInvocation(dir: Path, windows: bool): Invocation
  {
    Invocation(Dispatch(ServerCommand, windows), dir, Attached)
  }

  /** `server_start.trim().to_uppercase() == "Y"`. The only strings whose
      upper case is "Y" are "y" and "Y". */
  predicate WantsServer(answer: string)
  {
    var t := Trim(answer);
    t == "y" || t == "Y"
  }

  function ServerTrace(dir: Path, answer: string, windows: bool): seq<Invocation>
  {
    if WantsServer(answer) then [ServerInvocation(dir, windows)] else []
  }

  /** The process exit code: 1 for an unknown template, 0 otherwise. */
  function ExitCode(args: Args): int
  {
    if args.template in ValidTemplates then 0 else 1
  }

  /** Every call of a valid run, from its parts: the scaffold call, the
      selected lists, the project directory and whether the answer was yes. */
  function RunTrace(init: Invocation, deps: Dependencies, dir: Path, server: bool, windows: bool)
    : seq<Invocation>
  {
    [init] + InstallTrace(deps.dev, dir, windows) + InstallTrace(deps.proj, dir, windows)
    + (if TailwindRequested(deps) then TailwindTrace(dir, windows) else [])
    + (if server then [ServerInvocation(dir, windows)] else [])
  }

  /** Every external process call of one run, in order. */
  function PipelineTrace(args: Args, config: Config, cwd: Path, answer: string, windows: bool)
    : seq<Invocation>
  {
    if args.template !in ValidTemplates then []
    else RunTrace(Run(GenerateInitCommand(args), cwd, windows), SelectDependencies(config, args.template),
                  Join(cwd, args.name), WantsServer(answer), windows)
  }

  /** The project directory's files after one run. */
  function PipelineFiles(args: Args, config: Config, files: map<string, string>)
    : map<string, string>
  {
    if args.template in ValidTemplates
       && TailwindRequested(SelectDependencies(config, args.template))
    then TailwindFiles(files, args.template)
    else files
  }

  /** An unknown template stops the run with exit code 1 before any process
      is started or any file touched. */
  lemma InvalidTemplateAborts(args: Args, config: Config, cwd: Path, answer: string,
                              windows: bool, files: map<string, string>)
    requires args.template !in ValidTemplates
    ensures ExitCode(args) == 1
    ensures PipelineTrace(args, config, cwd, answer, windows) == []
    ensures PipelineFiles(args, config, files) == files
  {
  }

  /** Where each call of a run lands, whatever its parts. */
  lemma RunTraceOrder(init: Invocation, deps: Dependencies, dir: Path, server: bool, windows: bool)
    ensures var r := RunTrace(init, deps, dir, server, windows);
            var nd, np := |deps.dev|, |deps.proj|;
            && |r| == 1 + nd + np + (if TailwindRequested(deps) then 1 else 0) + (if server then 1 else 0)
            && r[0] == init
            && r[1..1 + nd] == InstallTrace(deps.dev, dir, windows)
            && r[1 + nd..1 + nd + np] == InstallTrace(deps.proj, dir, windows)
            && (TailwindRequested(deps) ==> r[1 + nd + np] == Run(TailwindInitCommand, dir, windows))
            && (server ==> r[|r| - 1] == ServerInvocation(dir, windows))
  {
    Layout(init, InstallTrace(deps.dev, dir, windows), InstallTrace(deps.proj, dir, windows),
           if TailwindRequested(deps) then TailwindTrace(dir, windows) else [],
           if server then [ServerInvocation(dir, windows)] else []);
  }

  /** Where each part of a five-part log ends up. */
  lemma Layout<T>(x: T, b: seq<T>, c: seq<T>, d: seq<T>, e: seq<T>)
    ensures var r := [x] + b + c + d + e;
            && |r| == 1 + |b| + |c| + |d| + |e| && r[0] == x
            && r[1..1 + |b|] == b
            && r[1 + |b|..1 + |b| + |c|] == c
            && (|d| > 0 ==> r[1 + |b| + |c|] == d[0])
            && (|e| > 0 ==> r[|r| - 1] == e[|e| - 1])
  {
    var r := [x] + b + c + d + e;
    var xb := [x] + b;
    var xbc := xb + c;
    assert r == xbc + d + e;
    assert r[1..1 + |b|] == xbc[1..1 + |b|] == xb[1..];
    assert r[1 + |b|..1 + |b| + |c|] == xbc[|xb|..];
  }

  /** The order of a run: scaffold in the working directory, then every
      development dependency, then every project dependency in the project
      directory, then the tailwindcss step if requested, then the server if
      the answer was yes. */
  lemma PipelineOrder(args: Args, config: Config, cwd: Path, answer: string, windows: bool,
                      dir: Path, deps: Dependencies)
    requires args.template in ValidTemplates
    requires dir == Join(cwd, args.name) && deps == SelectDependencies(config, args.template)
    ensures var r := PipelineTrace(args, config, cwd, answer, windows);
            var nd, np := |deps.dev|, |deps.proj|;
            && |r| == 1 + nd + np + (if TailwindRequested(deps) then 1 else 0)
                      + (if WantsServer(answer) then 1 else 0)
            && r[0] == Run(GenerateInitCommand(args), cwd, windows)
            && r[1..1 + nd] == InstallTrace(deps.dev, dir, windows)
            && r[1 + nd..1 + nd + np] == InstallTrace(deps.proj, dir, windows)
            && (TailwindRequested(deps) ==> r[1 + nd + np] == Run(TailwindInitCommand, dir, windows))
            && (WantsServer(answer) ==> r[|r| - 1] == ServerInvocation(dir, windows))
  {
    RunTraceOrder(Run(GenerateInitCommand(args), cwd, windows), deps, dir, WantsServer(answer), windows);
  }

  /** In any run, the tailwindcss init call appears exactly when requested,
      provided the scaffold call is not made in the project directory. */
  lemma RunTraceTailwind(init: Invocation, deps: Dependencies, dir: Path, server: bool, windows: bool)
    requires init.dir != dir
    ensures Run(TailwindInitCommand, dir, windows) in RunTrace(init, deps, dir, server, windows)
            <==> TailwindRequested(deps)
  {
    RunTraceOrder(init, deps, dir, server, windows);
    var r := RunTrace(init, deps, dir, server, windows);
    var x := Run(TailwindInitCommand, dir, windows);
    var nd, np := |deps.dev|, |deps.proj|;
    if TailwindRequested(deps) {
      assert r[1 + nd + np] == x;
    } else {
      forall k | 0 <= k < |r| ensures r[k] != x {
        if k == 0 {
          assert r[k].dir == init.dir;
        } else if k < 1 + nd {
          DispatchInjective(InstallCommand(deps.dev[k - 1]), TailwindInitCommand, windows);
          assert r[k] == r[1..1 + nd][k - 1];
        } else if k < 1 + nd + np {
          DispatchInjective(InstallCommand(deps.proj[k - 1 - nd]), TailwindInitCommand, windows);
          assert r[k] == r[1 + nd..1 + nd + np][k - 1 - nd];
        } else {
          assert r[k].mode == Attached;
        }
      }
    }
  }

  /** The tailwindcss step happens exactly when the development list names
      tailwindcss; without it no file changes. */
  lemma TailwindOnlyWhenRequested(args: Args, config: Config, cwd: Path, answer: string,
                                  windows: bool, files: map<string, string>)
    requires args.template in ValidTemplates
    ensures var deps := SelectDependencies(config, args.template);
            && (Run(TailwindInitCommand, Join(cwd, args.name), windows)
                  in PipelineTrace(args, config, cwd, answer, windows)
                <==> TailwindRequested(deps))
            && (!TailwindRequested(deps) ==> PipelineFiles(args, config, files) == files)
  {
    var dir := Join(cwd, args.name);
    assert |cwd| != |dir|;
    RunTraceTailwind(Run(GenerateInitCommand(args), cwd, windows), SelectDependencies(config, args.template),
                     dir, WantsServer(answer), windows);
  }

  /** Every call in `s` is waited for. */
  predicate AllCaptured(s: seq<Invocation>)
  {
    forall k :: 0 <= k < |s| ==> s[k].mode == Captured
  }

  lemma CapturedConcat(a: seq<Invocation>, b: seq<Invocation>)
    requires AllCaptured(a) && AllCaptured(b)
    ensures AllCaptured(a + b)
  {
    forall k | 0 <= k < |a + b| ensures (a + b)[k].mode == Captured {
      if k >= |a| {
        assert (a + b)[k] == b[k - |a|];
      }
    }
  }

  /** In any run whose scaffold call is waited for, only the server is
      attached, and it is there exactly when asked for. */
  lemma RunTraceServer(init: Invocation, deps: Dependencies, dir: Path, server: bool, windows: bool)
    requires init.mode == Captured
    ensures var r := RunTrace(init, deps, dir, server, windows);
            && (forall k :: 0 <= k < |r| && r[k].mode == Attached ==> r[k] == ServerInvocation(dir, windows))
            && (ServerInvocation(dir, windows) in r <==> server)
  {
    var r := RunTrace(init, deps, dir, server, windows);
    var a := [init];
    var b := InstallTrace(deps.dev, dir, windows);
    var c := InstallTrace(deps.proj, dir, windows);
    var d := if TailwindRequested(deps) then TailwindTrace(dir, windows) else [];
    CapturedConcat(a, b);
    CapturedConcat(a + b, c);
    CapturedConcat(a + b + c, d);
    var pre := a + b + c + d;
    var s := ServerInvocation(dir, windows);
    assert forall k :: 0 <= k < |pre| ==> pre[k] != s;
    if server {
      assert r == pre + [s];
      assert r[|pre|] == s;
    } else {
      assert r == pre;
    }
  }

  /** Only the development server is attached to the terminal, and it is
      started exactly when the answer is yes. */
  lemma ServerOnlyOnYes(args: Args, config: Config, cwd: Path, answer: string, windows: bool)
    requires args.template in ValidTemplates
    ensures var r := PipelineTrace(args, config, cwd, answer, windows);
            && (forall k :: 0 <= k < |r| && r[k].mode == Attached ==>
                  r[k] == ServerInvocation(Join(cwd, args.name), windows))
            && (ServerInvocation(Join(cwd, args.name), windows) in r <==> WantsServer(answer))
  {
    RunTraceServer(Run(GenerateInitCommand(args), cwd, windows), SelectDependencies(config, args.template),
                   Join(cwd, args.name), WantsServer(answer), windows);
  }

  /** A Vite run whose only dependency is tailwindcss: one scaffold call,
      one install, then the tailwindcss step, and no project installs. */
  lemma TailwindOnlyViteScenario(name: string, cwd: Path, windows: bool)
    ensures var config := Config([], [TailwindPackage], [], []);
            var args := Args(name, "vite", false);
            var dir := Join(cwd, name);
            PipelineTrace(args, config, cwd, "n", windows)
              == [Run(GenerateInitCommand(args), cwd, windows),
                  Run(InstallCommand(TailwindPackage), dir, windows),
                  Run(TailwindInitCommand, dir, windows)]
  {
    var config := Config([], [TailwindPackage], [], []);
    assert !WantsServer("n");
    assert TailwindRequested(SelectDependencies(config, "vite"));
  }

  /** An answer counts as yes when it is one `y` or `Y` with nothing but
      whitespace around it ... */
  lemma PaddedYesWantsServer(before: string, c: char, after: string)
    requires AllWhitespace(before) && AllWhitespace(after) && (c == 'y' || c == 'Y')
    ensures WantsServer(before + [c] + after)
  {
    TrimPadded(before, [c], after);
  }

  /** ... and only then: every yes answer has that shape. */
  lemma WantsServerIsPaddedYes(answer: string) returns (i: nat)
    requires WantsServer(answer)
    ensures i < |answer| && (answer[i] == 'y' || answer[i] == 'Y')
    ensures AllWhitespace(answer[..i]) && AllWhitespace(answer[i + 1..])
  {
    var u := TrimStart(answer);
    i := |answer| - |u|;
    var t := TrimEnd(u);
    assert |t| == 1 && u[0] == t[0];
    assert answer[i] == u[0] && answer[i + 1..] == u[1..];
  }
}
