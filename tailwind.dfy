/**
  The tailwindcss configuration step: the content globs per template, the
  choice among candidate file names, the literal marker substitution in the
  generated config and the overwrite of the global stylesheet.
  The project directory's files are a map from relative path to text.
 */
module Tailwind {
  import opened Text
  import opened Commands

  datatype Option<T> = None | Some(value: T)

  /** The command that generates tailwind's config files. */
  const TailwindInitCommand: seq<string> := ["npx", "tailwindcss", "init", "-p"]

  /** The empty content list a freshly generated config carries. */
  const Marker: string := "content: []"

  /** A line break followed by the raw literals' twelve-space indentation. */
  const Indent: string := "\n            "

  /** The content globs, character for character as the raw string literals
      hold them: each entry on its own indented line, each followed by a comma. */
  const SrcEntry: string := "\"./src/**/*.{js,jsx,ts,tsx}\","
  const PagesEntry: string := "\"./pages/**/*.{js,ts,jsx,tsx}\","
  const ComponentsEntry: string := "\"./components/**/*.{js,ts,jsx,tsx}\","
  const ViteGlob: string := Indent + SrcEntry + Indent
  const NextGlob: string := Indent + PagesEntry + Indent + ComponentsEntry + Indent

  /** What the chosen stylesheet is overwritten with. */
  const Stylesheet: string := "@tailwind base;\n@tailwind components;\n@tailwind utilities;"

  const ConfigJs: string := "tailwind.config.js"
  const ConfigCjs: string := "tailwind.config.cjs"
  const IndexCss: string := "src/index.css"
  const GlobalsCss: string := "styles/globals.css"

  /** Candidate paths, most preferred first. */
  const ConfigCandidates: seq<string> := [ConfigJs, ConfigCjs]
  const StylesheetCandidates: seq<string> := [IndexCss, GlobalsCss]

  /** The content globs for a template; empty for an unknown template. */
  function ContentGlob(template: string): (r: string)
    ensures r == [] <==> template !in ValidTemplates
  {
    match template
    case "vite" => ViteGlob
    case "next" => NextGlob
    case _ => ""
  }

  /** The text that takes the marker's place. */
  function ContentConfig(template: string): (r: string)
    ensures |r| > |Marker| - 1 && r[..|Marker| - 1] == Marker[..|Marker| - 1] && r[|r| - 1] == ']'
    ensures template !in ValidTemplates ==> r == Marker
  {
    "content: [" + ContentGlob(template) + "]"
  }

  /** A glob that opens on a new line and holds no colon, once wrapped as
      the content list, holds no marker. */
  lemma WrappedGlobClean(g: string)
    requires |g| > 0 && g[0] == '\n' && ':' !in g
    ensures !Occurs("content: [" + g + "]", Marker)
  {
    var pre := "content: [";
    var r := pre + g + "]";
    assert r[10] == g[0];
    assert r[..|Marker|] != Marker by { assert r[..|Marker|][10] != Marker[10]; }
    forall k | 8 <= k < |r| ensures r[k] != ':' {
      if k < 10 {
        assert r[k] == pre[k];
      } else if k < |r| - 1 {
        assert r[k] == g[k - 10];
      }
    }
    var t := r[1..];
    forall k | 7 <= k < |t| ensures t[k] != Marker[7] {
      assert t[k] == r[k + 1];
    }
    NoOccurrenceByMissingChar(t, Marker, 7);
  }

  /** The wrapped content list ends in a character no proper prefix of the
      marker ends in, so no marker can form across its end. */
  lemma WrappedGlobNoBorder(g: string)
    ensures NoBorder("content: [" + g + "]", Marker)
  {
    NoBorderByLastChar("content: [" + g + "]", Marker);
  }

  /** The Vite glob opens on a new line and holds no colon. */
  lemma ViteGlobWellFormed()
    ensures |ViteGlob| > 0 && ViteGlob[0] == '\n' && ':' !in ViteGlob
  {
    assert ViteGlob[0] == Indent[0];
    assert ':' !in Indent && ':' !in SrcEntry;
  }

  /** The Next glob opens on a new line and holds no colon. */
  lemma NextGlobWellFormed()
    ensures |NextGlob| > 0 && NextGlob[0] == '\n' && ':' !in NextGlob
  {
    assert NextGlob[0] == Indent[0];
    assert ':' !in Indent && ':' !in PagesEntry && ':' !in ComponentsEntry;
  }

  /** For a known template the replacement text holds no marker, and no
      marker can form across its end. */
  lemma ContentConfigClean(template: string)
    requires template in ValidTemplates
    ensures !Occurs(ContentConfig(template), Marker)
    ensures NoBorder(ContentConfig(template), Marker)
  {
    if template == "vite" {
      ViteGlobWellFormed();
      WrappedGlobClean(ViteGlob);
      WrappedGlobNoBorder(ViteGlob);
    } else {
      NextGlobWellFormed();
      WrappedGlobClean(NextGlob);
      WrappedGlobNoBorder(NextGlob);
    }
  }

  /** `tailwind_config.replace("content: []", &content_config)`. */
  function PatchConfig(text: string, template: string): (r: string)
    ensures !Occurs(text, Marker) ==> r == text
    ensures template in ValidTemplates ==> !Occurs(r, Marker)
  {
    if template in ValidTemplates then
      PatchLeavesNoMarker(text, template);
      Replace(text, Marker, ContentConfig(template))
    else
      Replace(text, Marker, ContentConfig(template))
  }

  /** The marker's first character appears nowhere else in it. */
  lemma MarkerHeadUnique()
    ensures |Marker| > 0 && Marker[0] !in Marker[1..]
  {
    assert Marker[1..] == "ontent: []";
  }

  /** With a known template's content list, no marker survives the patch. */
  lemma PatchLeavesNoMarker(text: string, template: string)
    requires template in ValidTemplates
    ensures !Occurs(Replace(text, Marker, ContentConfig(template)), Marker)
  {
    var rep := ContentConfig(template);
    ContentConfigClean(template);
    MarkerHeadUnique();
    assert rep[0] == Marker[0];
    ReplaceRemovesAll(text, Marker, rep);
  }

  /** The content list takes the place of the first marker; the rest of the
      config is patched in turn. */
  lemma PatchConfigAtMarker(a: string, b: string, template: string)
    requires !Occurs(a + Marker[..|Marker| - 1], Marker)
    ensures PatchConfig(a + Marker + b, template) == a + ContentConfig(template) + PatchConfig(b, template)
  {
    ReplaceAtFirstOccurrence(a, b, Marker, ContentConfig(template));
  }

  /** A config with a single marker gets the content list in its place and
      is otherwise unchanged. */
  lemma PatchConfigSingleMarker(a: string, b: string, template: string)
    requires !Occurs(a + Marker[..|Marker| - 1], Marker) && !Occurs(b, Marker)
    ensures PatchConfig(a + Marker + b, template) == a + ContentConfig(template) + b
  {
    PatchConfigAtMarker(a, b, template);
  }

  /** Patching an already patched config changes nothing. */
  lemma PatchConfigIdempotent(text: string, template: string)
    ensures PatchConfig(PatchConfig(text, template), template) == PatchConfig(text, template)
  {
    if template !in ValidTemplates {
      ReplaceWithItself(text, Marker);
    }
  }

  /** The index of the first candidate that exists, if any. */
  function FirstExisting(files: map<string, string>, candidates: seq<string>): (r: Option<nat>)
    ensures r.Some? ==> r.value < |candidates| && candidates[r.value] in files
    ensures r.Some? ==> forall j :: 0 <= j < r.value ==> candidates[j] !in files
    ensures r.None? ==> forall j :: 0 <= j < |candidates| ==> candidates[j] !in files
    decreases |candidates|
  {
    if candidates == [] then None
    else if candidates[0] in files then Some(0)
    else match FirstExisting(files, candidates[1..])
      case None => None
      case Some(i) => Some(i + 1)
  }

  /** The four candidate paths are pairwise different. */
  lemma CandidatesDistinct()
    ensures ConfigJs != ConfigCjs && IndexCss != GlobalsCss
    ensures ConfigJs != IndexCss && ConfigJs != GlobalsCss
    ensures ConfigCjs != IndexCss && ConfigCjs != GlobalsCss
  {
    assert |ConfigJs| != |ConfigCjs|;
    assert |IndexCss| != |GlobalsCss|;
    assert ConfigJs[0] != IndexCss[0] && ConfigJs[0] != GlobalsCss[0];
  }

  /** The files after the config step of `init_tailwind`: the first config
      candidate that exists has its marker replaced. None when there is none. */
  function PatchedConfig(files: map<string, string>, template: string): Option<map<string, string>>
  {
    match FirstExisting(files, ConfigCandidates)
    case None => None
    case Some(i) =>
      var config := ConfigCandidates[i];
      Some(files[config := PatchConfig(files[config], template)])
  }

  /** The files after the stylesheet step: the first stylesheet candidate
      that exists is overwritten. */
  function WithStylesheet(files: map<string, string>): map<string, string>
  {
    match FirstExisting(files, StylesheetCandidates)
    case None => files
    case Some(j) => files[StylesheetCandidates[j] := Stylesheet]
  }

  /** The effect of `init_tailwind` on the project directory. */
  function TailwindFiles(files: map<string, string>, template: string): (r: map<string, string>)
    ensures r.Keys == files.Keys
    ensures ConfigJs !in files && ConfigCjs !in files ==> r == files
    ensures ConfigJs in files ==> r[ConfigJs] == PatchConfig(files[ConfigJs], template)
    ensures ConfigJs in files && ConfigCjs in files ==> r[ConfigCjs] == files[ConfigCjs]
    ensures ConfigJs !in files && ConfigCjs in files ==>
              r[ConfigCjs] == PatchConfig(files[ConfigCjs], template)
    ensures (ConfigJs in files || ConfigCjs in files) && IndexCss in files ==>
              r[IndexCss] == Stylesheet
    ensures (ConfigJs in files || ConfigCjs in files) && IndexCss !in files && GlobalsCss in files ==>
              r[GlobalsCss] == Stylesheet
    ensures IndexCss in files && GlobalsCss in files ==> r[GlobalsCss] == files[GlobalsCss]
    ensures forall p :: p in files && p !in ConfigCandidates && p !in StylesheetCandidates ==>
              r[p] == files[p]
  {
    assert ConfigCandidates[1] == ConfigCjs && StylesheetCandidates[1] == GlobalsCss;
    CandidatesDistinct();
    match PatchedConfig(files, template)
    case None => files
    case Some(patched) => WithStylesheet(patched)
  }

  /** Running the configuration step a second time leaves the files as the
      first run left them. */
  lemma TailwindFilesIdempotent(files: map<string, string>, template: string)
    ensures TailwindFiles(TailwindFiles(files, template), template) == TailwindFiles(files, template)
  {
    var once := TailwindFiles(files, template);
    var twice := TailwindFiles(once, template);
    forall p | p in once ensures twice[p] == once[p] {
      if p in ConfigCandidates {
        PatchConfigIdempotent(files[p], template);
      }
    }
  }
}
