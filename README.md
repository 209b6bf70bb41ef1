# quick-init bootstrap orchestrator, modelled in Dafny

quick-init is a command-line tool. It scaffolds a React project with Vite or
Next.js, installs two lists of npm dependencies, wires up tailwindcss and
offers to start the development server. This project models the part of
`src/main.rs` that decides what happens:

- **Scaffolding command** (`Commands.GenerateInitCommand`): the exact token
  vector for each template and language choice.
- **Platform dispatch** (`Commands.Dispatch`): on Windows the vector is handed
  to `cmd /C`; elsewhere its first token is the program and the rest are its
  arguments.
- **Dependency installs** (`Orchestrator.Machine.InstallDependencies`): one
  `npm install <name>` per dependency, in list order, in the project
  directory.
- **tailwindcss step** (`Orchestrator.Machine.InitTailwind`): run
  `npx tailwindcss init -p`. Then pick `tailwind.config.js` or else
  `tailwind.config.cjs`. Replace every `content: []` in it with the
  template's globs. Then overwrite `src/index.css` or else
  `styles/globals.css` with the three `@tailwind` directives. A missing file
  ends the step quietly. The two file blocks of `init_tailwind` are modelled as
  two methods that it calls (`PatchConfigFile`, `OverwriteStylesheet`).
- **Run sequencing** (`Orchestrator.Machine.Bootstrap`): check the template
  (exit code 1 if unknown), scaffold in the working directory, install the
  development list and then the project list, run the tailwindcss step only
  when the development list names `tailwindcss`, and start the server when the
  answer is yes.

The outside world is a `Machine`. It holds the log of started processes
(`trace`, one `Invocation` of program, arguments, directory and mode per
call) and the project directory's files (`files`, relative path to text).
Each method of `Machine` is proved to produce exactly the trace and files
that a function of module `Commands`, `Pipeline` or `Tailwind` describes. The lemmas
state the source's promises about those functions: order, preference,
idempotence, and what never happens.

Modules: `Text` (substring search, Rust's `str::replace` and `str::trim`),
`Commands`, `Tailwind`, `Pipeline` (configuration, traces, files, exit code),
`Orchestrator` (the `Machine` class).

Facts about the code that are easy to miss:

- The Vite command names the project twice: in the create step (index 3) and
  in `cd` (index 9).
- Off Windows, no shell sees the Vite command. One `npm` process gets the `&&`
  tokens as plain arguments (`Commands.ViteChainWithoutShell`).
- The configuration step (src/main.rs:59-81) never yields the defaults. The
  failure arm ends in the statement `default_config;`, so it has type `()`,
  and `toml::from_str` is then read as producing `()` as well. The field
  reads at lines 117-123 therefore do not type-check, and `main` as written
  does not compile. The model takes the dependency lists as a parameter, in
  place of the configuration the code evidently intends (see below).

## Model

| member | source | states |
|---|---|---|
| `Commands.GenerateInitCommand` | src/main.rs:168-201 | Vite: 13 tokens, starts with `npm`, `vite@latest` at 2, project name at 3 and 9, `react` or `react-ts` at 6 by the js flag. Next: 5 tokens, starts with `npx create-next-app@latest`, name at 2, `--typescript` or `""` at 3. Any other template: the single empty token. Never empty. |
| `Commands.LanguageChoiceIsOneToken` | src/main.rs:171-195 | For both templates the js flag changes exactly one token (index 6 for Vite, 3 for Next). Length and every other token stay the same. |
| `Commands.NamePositions` | src/main.rs:171-195 | If the name is not one of the fixed tokens, it appears at exactly indices 3 and 9 (Vite) or exactly index 2 (Next). |
| `Commands.Dispatch` | src/main.rs:147-163 | On Windows: program `cmd`, arguments `/C` followed by the whole command. Elsewhere (the command must be non-empty there): program followed by arguments gives back the command, with nothing added or dropped. |
| `Commands.DispatchInjective` | src/main.rs:149-163 | Two commands that dispatch to the same program and arguments are equal. |
| `Commands.ViteChainWithoutShell` | src/main.rs:156-162 | Off Windows, the Vite command starts one `npm` process with 12 arguments. The `&&` separators are two of them. |
| `Commands.Join` | src/main.rs:100 | The project directory is the working directory with the name added as one more component. |
| `Text.Replace` | src/main.rs:271 | Identity when the pattern does not occur. What it puts in each occurrence's place is stated by `Text.ReplaceAtFirstOccurrence`. |
| `Text.ReplaceAtFirstOccurrence` | src/main.rs:271 | For text `a + pat + b` whose first occurrence is the one after `a`: the result is `a`, then `rep` in the occurrence's place, then the replacement of `b`. Text before an occurrence is kept and the scan resumes after it. |
| `Text.ReplaceRemovesAll` | src/main.rs:271 | No occurrence of the pattern is left when the replacement (a) starts with the pattern's first character, (b) has that character nowhere else in the pattern, (c) does not contain the pattern and (d) cannot form one across its end. |
| `Text.IsWhitespace` | src/main.rs:302 | Holds exactly for the Unicode White_Space characters that `char::is_whitespace` accepts. |
| `Text.Trim` | src/main.rs:302 | The result is no longer than the input and neither starts nor ends with whitespace. |
| `Text.TrimPadded` | src/main.rs:302 | Whitespace, then text that neither starts nor ends with whitespace, then whitespace: trimming gives back exactly that text. With `Trim`'s own contract this characterizes `str::trim`. |
| `Text.TrimStart` | src/main.rs:302 | Drops the longest prefix of Unicode whitespace, so the result is empty or starts with a non-whitespace character. |
| `Text.TrimEnd` | src/main.rs:302 | Drops the longest suffix of Unicode whitespace, so the result is empty or ends with a non-whitespace character. |
| `Tailwind.ContentGlob` | src/main.rs:236-253 | The contract states only that the globs are empty exactly for a template other than `vite` and `next` (the `_` arm leaves `content_path` empty). Which glob each template gets is in the body: the constants hold the raw literals of lines 238-248 character for character. |
| `Tailwind.ContentConfig` | src/main.rs:235-256 | The replacement text starts like the marker (`content: [`) and ends in `]`. For an unknown template the glob is empty, so it equals the marker. |
| `Tailwind.ContentConfigClean` | src/main.rs:238-256 | For Vite and Next, the replacement text contains no `content: []`, and none can form across its end. |
| `Tailwind.PatchConfig` | src/main.rs:268-271 | A config without the marker is left unchanged. For a known template, a patched config contains no marker. |
| `Tailwind.PatchConfigAtMarker` | src/main.rs:256-271 | The content list `content: [` + globs + `]` takes the place of the first `content: []`; text before it is kept and the rest is patched in turn. |
| `Tailwind.PatchConfigSingleMarker` | src/main.rs:256-271 | A config with exactly one `content: []` becomes the same text with the content list in its place. |
| `Tailwind.PatchConfigIdempotent` | src/main.rs:271 | Patching a patched config changes nothing, for every template. |
| `Tailwind.FirstExisting` | src/main.rs:259-265 | Returns the first candidate that exists: it exists and every earlier one is missing. Returns nothing only when no candidate exists. |
| `Tailwind.TailwindFiles` | src/main.rs:221-289 | No file is created or deleted. With no config, nothing changes. `tailwind.config.js` is patched in preference to `tailwind.config.cjs`. `src/index.css` is overwritten in preference to `styles/globals.css`, and only when a config was found. Every other file stays the same. |
| `Tailwind.TailwindFilesIdempotent` | src/main.rs:259-286 | Running the file edits twice gives the same files as running them once. |
| `Pipeline.SelectDependencies` | src/main.rs:115-127 | `vite` selects the two Vite lists and `next` the two Next lists, development list first. |
| `Pipeline.DefaultConfigRequestsTailwind` | src/main.rs:44-55 | With the built-in defaults, both templates' development lists name `tailwindcss`. |
| `Pipeline.InvalidTemplateAborts` | src/main.rs:86-94 | An unknown template gives exit code 1, starts no process and changes no file. |
| `Pipeline.RunTraceOrder` | src/main.rs:105-140 | For any scaffold call, lists, directory and answer, the run's calls lie in this order. (1) The scaffold call first. (2) The development installs, exactly. (3) The project installs, exactly. (4) The tailwindcss call, if requested. (5) The server, last, if asked for. The length is the sum of the parts. |
| `Pipeline.PipelineOrder` | src/main.rs:105-140 | A valid run goes in this order. (1) The scaffold call in the working directory. (2) The calls at positions 1 to the development list's length are exactly its installs (the i-th is `npm install` of the i-th name, in the project directory). (3) The project list's installs follow in the same way. (4) The tailwindcss call, if requested. (5) The server, last, if the answer was yes. Nothing else is in the trace. |
| `Pipeline.RunTraceTailwind` | src/main.rs:132-135 | In any run whose scaffold call is not made in the project directory, the tailwindcss init call appears exactly when the development list names `tailwindcss`. |
| `Pipeline.TailwindOnlyWhenRequested` | src/main.rs:132-135 | The tailwindcss init call appears exactly when the development list contains `tailwindcss`. Without it, no file changes. |
| `Pipeline.RunTraceServer` | src/main.rs:292-324 | In any run whose scaffold call is waited for, every attached call is the server, and the server is present exactly when asked for. |
| `Pipeline.ServerOnlyOnYes` | src/main.rs:292-324 | Only the development server is started attached. It is started exactly when the answer is yes. |
| `Pipeline.TailwindOnlyViteScenario` | src/main.rs:105-135 | Vite with development list `[tailwindcss]`, no project dependencies and answer `n`: exactly the scaffold call, one install, then the tailwindcss call. |
| `Pipeline.WantsServer` | src/main.rs:302 | The answer test `trim().to_uppercase() == "Y"`: the trimmed answer is `y` or `Y`. `PaddedYesWantsServer` and `WantsServerIsPaddedYes` characterize it in both directions. |
| `Pipeline.PaddedYesWantsServer` | src/main.rs:302 | One `y` or `Y` with only whitespace around it is a yes. |
| `Pipeline.WantsServerIsPaddedYes` | src/main.rs:302 | Every yes answer is one `y` or `Y` with only whitespace around it. |
| `Orchestrator.Machine.DynamicExec` | src/main.rs:147-165 | Appends one waited-for call, the dispatched command in the given directory. Files stay the same. |
| `Orchestrator.Machine.InstallDependencies` | src/main.rs:204-218 | The loop appends exactly `InstallTrace` of the list: one call per name, the i-th being `npm install` of the i-th name in the given directory. This holds whatever `isDev` is. Files stay the same. |
| `Orchestrator.Machine.InitTailwind` | src/main.rs:221-289 | Appends the one tailwindcss init call. Leaves the files as `TailwindFiles` describes. |
| `Orchestrator.Machine.PatchConfigFile` | src/main.rs:258-274 | Reports whether a config candidate exists. If one does, the first one has its marker replaced and nothing else changes; otherwise no file changes. No process is started. |
| `Orchestrator.Machine.OverwriteStylesheet` | src/main.rs:276-286 | The first stylesheet candidate that exists is overwritten with the directives. If none exists, no file changes. |
| `Orchestrator.Machine.StartServer` | src/main.rs:292-324 | The inline Windows/other branching gives the same program and arguments as dispatch. On a yes, it appends one attached server call, and otherwise nothing. |
| `Orchestrator.Machine.Bootstrap` | src/main.rs:86-143 | The exit code is 1 for an unknown template and 0 otherwise. The trace gains exactly `PipelineTrace` and the files become `PipelineFiles`. |

## Left out

- Loading the configuration (src/main.rs:59-81) is not modelled: `ProjectDirs`, reading `config.toml`, TOML parsing. The lists are a parameter; `Pipeline.DefaultConfig` holds the built-in defaults of lines 44-55. As written, the failure arm ends in `default_config;` and so has type `()`; both arms then agree on `()`, the defaults are thrown away, and the field reads at lines 117-123 do not compile.
- Everything `main` does after building the defaults sits inside `if let Some(proj_dirs) = ProjectDirs::from(..)` (src/main.rs:59-144). When no home directory can be found, nothing runs and the process exits with 0 whatever the template. `Orchestrator.Machine.Bootstrap` and `Pipeline.InvalidTemplateAborts` assume the directories were found.
- When the configuration file cannot be read, `fs::write(&config_file_path, "")` runs (src/main.rs:78) before the template is checked. If the configuration directory does not exist yet, its `.unwrap()` panics there, before the template check; otherwise an empty `config.toml` is written. `Pipeline.InvalidTemplateAborts` states that no file changes in the project directory only; the configuration directory is not modelled.
- Command-line parsing with clap and `std::env::current_dir` are not modelled. Name, template, js flag and working directory are parameters.
- Spinners and printed progress are not modelled, including the invalid-template message and the "dev " label of `install_dependancies`.
- Running processes is not modelled. A call is recorded, not executed: output and child exit codes are not captured (the source never inspects them). Spawn failures (`.expect`, `.unwrap`) are not modelled.
- What external tools do to the file system is not modelled, such as the scaffold creating the project or `tailwindcss init` creating config files. `files` is the state the tailwindcss step finds.
- File read and write failures (`unwrap`, `expect` on `fs` calls) are not modelled. Files are a map that is always readable and writable.
- Reading the answer from standard input is not modelled. It is a parameter.
- `Commands.Join` covers only a name that is a single relative component. `PathBuf::join` with an absolute name or one containing separators is not modelled.
- `Text.Replace` is defined only for a non-empty pattern. Rust's behaviour for an empty pattern is not modelled; the marker is a fixed non-empty literal.
- `Pipeline.WantsServer` does not model `to_uppercase` in general. It uses the fact that only "y" and "Y" upper-case to "Y".
- `Pipeline.SelectDependencies` treats the source's `panic!` for an unknown template as a precondition. The source's own validation excludes that case.
