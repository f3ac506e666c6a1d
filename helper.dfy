/** The command and persona helper of src/superclaude_helper.py: lookups in
    the loaded configuration, the keyword classifier that picks a persona for
    a task description, and the numbered command listing. The configuration
    is the JSON object the helper loads; Python's run-time errors on
    ill-shaped values are returned as errors. */
module PersonaHelper {
  import opened Wrappers
  import opened Text

  /** A JSON value as `json.load` returns it. Numbers are integers here. */
  datatype Json =
    | JNull
    | JBool(b: bool)
    | JNum(n: int)
    | JStr(s: string)
    | JList(items: seq<Json>)
    | JObject(fields: map<string, Json>)

  /** The exceptions Python raises on values of the wrong shape. */
  datatype PyError = AttributeError | IndexError | KeyError | TypeError

  /** The loaded configuration: a JSON object. */
  type Config = map<string, Json>

  /** `dict.get(key, default)`. */
  function Get(config: map<string, Json>, key: string, default: Json): (v: Json)
    ensures key in config ==> v == config[key]
    ensures key !in config ==> v == default
  {
    if key in config then config[key] else default
  }

  /** _get_default_config: the configuration used when the file is missing. */
  function DefaultConfig(): Config {
    map[
      "preferred_personas" := JList([JStr("architect"), JStr("backend")]),
      "auto_cleanup" := JBool(true),
      "token_optimization" := JStr("moderate"),
      "mcp_servers" := JList([JStr("Context7"), JStr("Sequential")])
    ]
  }

  // ------------------------------------------------------------------
  // Configuration lookups
  // ------------------------------------------------------------------

  /** `config.get(section, {}).get(key, [])`: a missing section or key gives
      an empty list, a section that is not an object has no `get`, and
      otherwise the stored entry is returned as it is. */
  function SectionEntry(config: Config, section: string, key: string): (r: Result<Json, PyError>)
    ensures section !in config ==> r == Ok(JList([]))
    ensures section in config && !config[section].JObject? ==> r == Err(AttributeError)
    ensures section in config && config[section].JObject? ==>
      r == Ok(if key in config[section].fields then config[section].fields[key] else JList([]))
  {
    match Get(config, section, JObject(map[]))
    case JObject(entries) => Ok(Get(entries, key, JList([])))
    case _ => Err(AttributeError)
  }

  /** get_workflow_commands: the command list stored for a workflow type. */
  function WorkflowCommands(config: Config, workflowType: string): (r: Result<Json, PyError>)
    ensures "workflow_patterns" !in config ==> r == Ok(JList([]))
    ensures "workflow_patterns" in config && !config["workflow_patterns"].JObject? ==> r == Err(AttributeError)
    ensures "workflow_patterns" in config && config["workflow_patterns"].JObject? ==>
      r == Ok(if workflowType in config["workflow_patterns"].fields then config["workflow_patterns"].fields[workflowType] else JList([]))
  {
    SectionEntry(config, "workflow_patterns", workflowType)
  }

  /** get_quality_checklist: the checklist stored for a check type. */
  function QualityChecklist(config: Config, checkType: string): (r: Result<Json, PyError>)
    ensures "quality_checklist" !in config ==> r == Ok(JList([]))
    ensures "quality_checklist" in config && !config["quality_checklist"].JObject? ==> r == Err(AttributeError)
    ensures "quality_checklist" in config && config["quality_checklist"].JObject? ==>
      r == Ok(if checkType in config["quality_checklist"].fields then config["quality_checklist"].fields[checkType] else JList([]))
  {
    SectionEntry(config, "quality_checklist", checkType)
  }

  /** The default configuration has no workflow or checklist section, so
      every lookup in it gives an empty list. */
  lemma DefaultConfigHasNoWorkflows(key: string)
    ensures WorkflowCommands(DefaultConfig(), key) == Ok(JList([]))
    ensures QualityChecklist(DefaultConfig(), key) == Ok(JList([]))
  {
    assert "workflow_patterns" !in DefaultConfig();
    assert "quality_checklist" !in DefaultConfig();
  }

  /** A stored list comes back unchanged, and an unknown key gives the empty
      list, whatever else the section holds. */
  lemma WorkflowLookup(config: Config, entries: map<string, Json>, key: string)
    requires "workflow_patterns" in config && config["workflow_patterns"] == JObject(entries)
    ensures key in entries ==> WorkflowCommands(config, key) == Ok(entries[key])
    ensures key !in entries ==> WorkflowCommands(config, key) == Ok(JList([]))
  {
  }

  /** is_auto_cleanup_enabled: the stored value, false when the key is absent.
      Like the source, a stored value that is not a boolean is returned as
      it is. */
  function AutoCleanupEnabled(config: Config): (r: Json)
    ensures "auto_cleanup" !in config ==> r == JBool(false)
    ensures "auto_cleanup" in config ==> r == config["auto_cleanup"]
  {
    Get(config, "auto_cleanup", JBool(false))
  }

  /** The built-in default enables auto cleanup, while a configuration
      without the key leaves it off. */
  lemma DefaultConfigEnablesAutoCleanup()
    ensures AutoCleanupEnabled(DefaultConfig()) == JBool(true)
    ensures AutoCleanupEnabled(DefaultConfig() - {"auto_cleanup"}) == JBool(false)
  {
    assert "auto_cleanup" in DefaultConfig();
  }

  // ------------------------------------------------------------------
  // Persona suggestion
  // ------------------------------------------------------------------

  /** Python's `any(k in text for k in keywords)`. */
  predicate AnyContains(text: string, keywords: seq<string>) {
    exists k :: 0 <= k < |keywords| && Contains(text, keywords[k])
  }

  const FrontendKeywords: seq<string> := ["ui", "frontend", "react", "vue", "angular"]
  const BackendKeywords: seq<string> := ["api", "backend", "server", "database"]
  const ArchitectKeywords: seq<string> := ["architecture", "design", "system"]
  const AnalyzerKeywords: seq<string> := ["debug", "error", "bug", "analyze"]
  const SecurityKeywords: seq<string> := ["security", "vulnerability", "auth"]
  const ScribeKeywords: seq<string> := ["document", "readme", "guide"]

  /** The keyword groups in the order the classifier tries them, each with
      the persona it suggests. */
  function PersonaGroups(): seq<(string, seq<string>)> {
    [ ("frontend", FrontendKeywords), ("backend", BackendKeywords),
      ("architect", ArchitectKeywords), ("analyzer", AnalyzerKeywords),
      ("security", SecurityKeywords), ("scribe", ScribeKeywords) ]
  }

  /** The persona of the first group with a keyword in `text`. */
  function FirstMatchingGroup(text: string, groups: seq<(string, seq<string>)>): (r: Option<string>)
    ensures r.None? <==> forall g :: 0 <= g < |groups| ==> !AnyContains(text, groups[g].1)
    ensures r.Some? ==> exists g :: (0 <= g < |groups| && AnyContains(text, groups[g].1) && r.value == groups[g].0
      && forall h :: 0 <= h < g ==> !AnyContains(text, groups[h].1))
  {
    if groups == [] then None
    else if AnyContains(text, groups[0].1) then Some(groups[0].0)
    else
      var r := FirstMatchingGroup(text, groups[1..]);
      assert forall g :: 1 <= g < |groups| ==> groups[1..][g - 1] == groups[g];
      r
  }

  /** `value[0]` in Python: the first element of a list, the first character
      of a string, a failed key lookup on an object, and a TypeError on
      anything else. */
  function FirstElement(value: Json): (r: Result<Json, PyError>)
    ensures value.JList? && value.items != [] ==> r == Ok(value.items[0])
    ensures value.JStr? && value.s != [] ==> r == Ok(JStr([value.s[0]]))
    ensures (value.JList? && value.items == []) || (value.JStr? && value.s == []) ==> r == Err(IndexError)
    ensures value.JObject? ==> r == Err(KeyError)
    ensures value.JNull? || value.JBool? || value.JNum? ==> r == Err(TypeError)
  {
    match value
    case JList(items) => if |items| == 0 then Err(IndexError) else Ok(items[0])
    case JStr(s) => if |s| == 0 then Err(IndexError) else Ok(JStr([s[0]]))
    case JObject(_) => Err(KeyError)
    case _ => Err(TypeError)
  }

  /** Trying the groups of PersonaGroups in turn is the source's chain of
      tests. */
  lemma PersonaGroupsInOrder(text: string)
    ensures FirstMatchingGroup(text, PersonaGroups()) ==
      if AnyContains(text, FrontendKeywords) then Some("frontend")
      else if AnyContains(text, BackendKeywords) then Some("backend")
      else if AnyContains(text, ArchitectKeywords) then Some("architect")
      else if AnyContains(text, AnalyzerKeywords) then Some("analyzer")
      else if AnyContains(text, SecurityKeywords) then Some("security")
      else if AnyContains(text, ScribeKeywords) then Some("scribe")
      else None
  {
    var g0 := PersonaGroups();
    var g1 := g0[1..];
    var g2 := g1[1..];
    var g3 := g2[1..];
    var g4 := g3[1..];
    var g5 := g4[1..];
    assert g5 == [("scribe", ScribeKeywords)];
    assert g5[1..] == [];
    assert FirstMatchingGroup(text, g5) == if AnyContains(text, ScribeKeywords) then Some("scribe") else None;
    assert g4[0] == ("security", SecurityKeywords);
    assert FirstMatchingGroup(text, g4) == if AnyContains(text, SecurityKeywords) then Some("security") else FirstMatchingGroup(text, g5);
    assert g3[0] == ("analyzer", AnalyzerKeywords);
    assert FirstMatchingGroup(text, g3) == if AnyContains(text, AnalyzerKeywords) then Some("analyzer") else FirstMatchingGroup(text, g4);
    assert g2[0] == ("architect", ArchitectKeywords);
    assert FirstMatchingGroup(text, g2) == if AnyContains(text, ArchitectKeywords) then Some("architect") else FirstMatchingGroup(text, g3);
    assert g1[0] == ("backend", BackendKeywords);
    assert FirstMatchingGroup(text, g1) == if AnyContains(text, BackendKeywords) then Some("backend") else FirstMatchingGroup(text, g2);
  }

  /** suggest_persona, written as the source's `if`/`elif` chain. Its result
      is the persona of the first keyword group found in the lowercased
      description; with no match it is the first preferred persona, and
      "architect" when none is configured. */
  function SuggestPersona(config: Config, taskDescription: string): (r: Result<Json, PyError>)
    ensures var found := FirstMatchingGroup(ToLower(taskDescription), PersonaGroups());
      && (found.Some? ==> r == Ok(JStr(found.value)))
      && (found.None? ==> r == FirstElement(Get(config, "preferred_personas", JList([JStr("architect")]))))
  {
    var taskLower := ToLower(taskDescription);
    PersonaGroupsInOrder(taskLower);
    if AnyContains(taskLower, FrontendKeywords) then Ok(JStr("frontend"))
    else if AnyContains(taskLower, BackendKeywords) then Ok(JStr("backend"))
    else if AnyContains(taskLower, ArchitectKeywords) then Ok(JStr("architect"))
    else if AnyContains(taskLower, AnalyzerKeywords) then Ok(JStr("analyzer"))
    else if AnyContains(taskLower, SecurityKeywords) then Ok(JStr("security"))
    else if AnyContains(taskLower, ScribeKeywords) then Ok(JStr("scribe"))
    else FirstElement(Get(config, "preferred_personas", JList([JStr("architect")])))
  }

  /** A frontend keyword decides the persona, whatever later groups the
      description also mentions. */
  lemma FrontendKeywordWins(config: Config, taskDescription: string, k: nat)
    requires k < |FrontendKeywords| && Contains(ToLower(taskDescription), FrontendKeywords[k])
    ensures SuggestPersona(config, taskDescription) == Ok(JStr("frontend"))
  {
    assert AnyContains(ToLower(taskDescription), PersonaGroups()[0].1);
  }

  /** With no keyword in the description, the default configuration suggests
      "architect", and so does a configuration without preferred personas. */
  lemma FallbackPersona(config: Config, taskDescription: string)
    requires FirstMatchingGroup(ToLower(taskDescription), PersonaGroups()).None?
    ensures SuggestPersona(DefaultConfig(), taskDescription) == Ok(JStr("architect"))
    ensures "preferred_personas" !in config ==> SuggestPersona(config, taskDescription) == Ok(JStr("architect"))
  {
    assert "preferred_personas" in DefaultConfig();
  }

  // ------------------------------------------------------------------
  // Command listing
  // ------------------------------------------------------------------

  const NoCommandsMessage: string := "명령어가 없습니다."
  const ListingTitle: string := "SuperClaude 명령어 시퀀스:"

  /** One numbered entry, `f"{i}. {cmd}"`. */
  function NumberedLine(i: nat, cmd: string): string {
    NatToString(i) + ". " + cmd
  }

  /** The entries of `commands`, numbered from `start` in list order. */
  function NumberedLines(commands: seq<string>, start: nat): (r: seq<string>)
    ensures |r| == |commands|
    ensures forall k :: 0 <= k < |commands| ==> r[k] == NumberedLine(start + k, commands[k])
  {
    seq(|commands|, k requires 0 <= k < |commands| => NumberedLine(start + k, commands[k]))
  }

  /** The text the loop accumulates: each entry followed by a newline. */
  function Listing(commands: seq<string>, start: nat): string
    decreases |commands|
  {
    if commands == [] then ""
    else
      var n := |commands| - 1;
      Listing(commands[..n], start) + NumberedLine(start + n, commands[n]) + "\n"
  }

  /** The whole formatted text for a non-empty list. */
  function FormattedCommands(commands: seq<string>): string {
    if commands == [] then NoCommandsMessage else ListingTitle + "\n" + Listing(commands, 1)
  }

  /** format_command_sequence: the loop over `enumerate(commands, 1)`. */
  method FormatCommandSequence(commands: seq<string>) returns (formatted: string)
    ensures formatted == FormattedCommands(commands)
  {
    if |commands| == 0 {
      return NoCommandsMessage;
    }
    formatted := ListingTitle + "\n";
    for i := 0 to |commands|
      invariant formatted == ListingTitle + "\n" + Listing(commands[..i], 1)
    {
      assert commands[..i + 1][..i] == commands[..i];
      formatted := formatted + NumberedLine(i + 1, commands[i]) + "\n";
    }
    assert commands[..|commands|] == commands;
  }

  /** Numbering one more command adds one entry at the end. */
  lemma NumberedLinesSnoc(commands: seq<string>, start: nat)
    requires commands != []
    ensures var n := |commands| - 1;
      NumberedLines(commands, start) == NumberedLines(commands[..n], start) + [NumberedLine(start + n, commands[n])]
  {
  }

  /** The accumulated text is the numbered entries joined by newlines, with
      a final newline. */
  lemma {:induction false} ListingIsJoinedLines(commands: seq<string>, start: nat)
    requires commands != []
    ensures Listing(commands, start) == Join(NumberedLines(commands, start), "\n") + "\n"
    decreases |commands|
  {
    var n := |commands| - 1;
    var prefix := commands[..n];
    var last := NumberedLine(start + n, commands[n]);
    assert Listing(commands, start) == Listing(prefix, start) + last + "\n";
    if n == 0 {
      assert NumberedLines(commands, start) == [last];
    } else {
      ListingIsJoinedLines(prefix, start);
      NumberedLinesSnoc(commands, start);
      JoinSnoc(NumberedLines(prefix, start), last, "\n");
    }
  }

  lemma NumberedLineHasNoNewline(i: nat, cmd: string)
    requires '\n' !in cmd
    ensures '\n' !in NumberedLine(i, cmd)
  {
    var digits := NatToString(i);
    assert forall k :: 0 <= k < |digits| ==> digits[k] != '\n';
  }

  /** The formatted text of a non-empty list is the title, the numbered
      entries and an empty last line, joined by newlines. */
  lemma FormattedIsJoined(commands: seq<string>)
    requires commands != []
    ensures FormattedCommands(commands) == Join([ListingTitle] + NumberedLines(commands, 1) + [""], "\n")
  {
    var lines := NumberedLines(commands, 1);
    ListingIsJoinedLines(commands, 1);
    JoinSnoc(lines, "", "\n");
    var all := [ListingTitle] + lines + [""];
    assert all[1..] == lines + [""];
    assert Join(all, "\n") == ListingTitle + "\n" + Join(lines + [""], "\n");
  }

  /** Read line by line, the formatted text of a non-empty list is the title,
      then `"{i}. {cmd}"` for the i-th command counted from 1, in order, and
      an empty remainder after the final newline. */
  lemma FormattedLines(commands: seq<string>)
    requires commands != []
    requires forall k :: 0 <= k < |commands| ==> '\n' !in commands[k]
    ensures Split(FormattedCommands(commands), '\n') == [ListingTitle] + NumberedLines(commands, 1) + [""]
  {
    var lines := NumberedLines(commands, 1);
    var all := [ListingTitle] + lines + [""];
    FormattedIsJoined(commands);
    forall k | 0 <= k < |all| ensures '\n' !in all[k] {
      if 1 <= k <= |lines| {
        NumberedLineHasNoNewline(k, commands[k - 1]);
      } else {
        assert all[k] == ListingTitle || all[k] == "";
        assert '\n' !in ListingTitle;
      }
    }
    SplitJoin(all, '\n');
  }
}
