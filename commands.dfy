/**
  The commands quick-init sends to the operating system: the scaffolding
  command chosen by template and language, and the platform dispatch that
  turns a token vector into the program that is actually spawned.
 */
module Commands {

  /** A directory as its sequence of components. */
  type Path = seq<string>

  /** `PathBuf::join` with a single plain component. */
  function Join(dir: Path, name: string): (r: Path)
    ensures |r| == |dir| + 1 && r[..|dir|] == dir && r[|dir|] == name
  {
    dir + [name]
  }

  /** The parsed command line: project name, `--template`, `--javascript`. */
  datatype Args = Args(name: string, template: string, js: bool)

  /** The templates the command line accepts, matched exactly. */
  const ValidTemplates: seq<string> := ["vite", "next"]

  /** The scaffolding command for a template. A template outside the two
      known ones falls through to a vector holding one empty token. */
  function GenerateInitCommand(args: Args): (r: seq<string>)
    ensures |r| > 0
    ensures args.template == "vite" ==>
              && |r| == 13 && r[0] == "npm" && r[2] == "vite@latest"
              && r[3] == args.name && r[9] == args.name
              && r[6] == (if args.js then "react" else "react-ts")
    ensures args.template == "next" ==>
              && |r| == 5 && r[0] == "npx" && r[1] == "create-next-app@latest"
              && r[2] == args.name
              && r[3] == (if args.js then "" else "--typescript")
    ensures args.template !in ValidTemplates ==> r == [""]
  {
    match args.template
    case "vite" =>
      ["npm", "create", "vite@latest", args.name, "--", "--template",
       if args.js then "react" else "react-ts",
       "&&", "cd", args.name, "&&", "npm", "install"]
    case "next" =>
      ["npx", "create-next-app@latest", args.name,
       if !args.js then "--typescript" else "", "--use-npm"]
    case _ => [""]
  }

  /** The position of the token that carries the language choice. */
  function VariantIndex(template: string): nat
  {
    if template == "vite" then 6 else 3
  }

  /** The `--javascript` flag changes exactly one token of the scaffolding
      command, and nothing else. */
  lemma LanguageChoiceIsOneToken(name: string, template: string)
    requires template in ValidTemplates
    ensures var ts := GenerateInitCommand(Args(name, template, false));
            var js := GenerateInitCommand(Args(name, template, true));
            && |ts| == |js|
            && forall i :: 0 <= i < |ts| ==> (ts[i] != js[i] <==> i == VariantIndex(template))
  {
  }

  /** The tokens of the scaffolding command that do not depend on the
      project name. */
  const FixedTokens: set<string> :=
    {"npm", "create", "vite@latest", "--", "--template", "react", "react-ts",
     "&&", "cd", "install", "npx", "create-next-app@latest", "--typescript", "", "--use-npm"}

  /** Where the project name appears: twice in the Vite chain (the create
      step and the `cd`), once in the Next command. */
  lemma NamePositions(args: Args)
    requires args.template in ValidTemplates
    requires args.name !in FixedTokens
    ensures var r := GenerateInitCommand(args);
            forall i :: 0 <= i < |r| ==>
              (r[i] == args.name <==> (if args.template == "vite" then i == 3 || i == 9 else i == 2))
  {
  }

  /** What the operating system is asked to start. */
  datatype Spawn = Spawn(program: string, args: seq<string>)

  /** `dynamic_exec`'s argument rewriting. On Windows the whole vector goes to
      `cmd /C`; elsewhere its first token is the program and the rest its
      arguments. Only the latter indexes the vector, so only it needs a token. */
  function Dispatch(command: seq<string>, windows: bool): (r: Spawn)
    requires windows || |command| > 0
    ensures windows ==> r.program == "cmd" && |r.args| == |command| + 1
                        && r.args[0] == "/C" && r.args[1..] == command
    ensures !windows ==> [r.program] + r.args == command
  {
    if windows then Spawn("cmd", ["/C"] + command)
    else Spawn(command[0], command[1..])
  }

  /** Dispatch loses nothing: different vectors spawn different processes. */
  lemma DispatchInjective(c1: seq<string>, c2: seq<string>, windows: bool)
    requires windows || (|c1| > 0 && |c2| > 0)
    ensures Dispatch(c1, windows) == Dispatch(c2, windows) ==> c1 == c2
  {
    var s1, s2 := Dispatch(c1, windows), Dispatch(c2, windows);
    if windows {
      assert c1 == s1.args[1..] && c2 == s2.args[1..];
    } else {
      assert c1 == [s1.program] + s1.args && c2 == [s2.program] + s2.args;
    }
  }

  /** Captured: wait for the child and collect its output (`.output()`).
      Attached: inherit stdout and stderr, get no stdin, and do not wait
      (`.spawn()`). */
  datatype Mode = Captured | Attached

  /** One external process call, as the outside world sees it. */
  datatype Invocation = Invocation(spawn: Spawn, dir: Path, mode: Mode)

  /** The call `dynamic_exec(command, dir)` makes. */
  function Run(command: seq<string>, dir: Path, windows: bool): Invocation
    requires windows || |command| > 0
  {
    Invocation(Dispatch(command, windows), dir, Captured)
  }

  /** On a platform without `cmd`, the Vite chain is not given to a shell:
      one `npm` process receives the `&&` separators as plain arguments. */
  lemma ViteChainWithoutShell(name: string, js: bool)
    ensures var s := Dispatch(GenerateInitCommand(Args(name, "vite", js)), false);
            && s.program == "npm" && |s.args| == 12
            && s.args[6] == "&&" && s.args[9] == "&&"
  {
  }
}
