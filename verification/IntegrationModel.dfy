/**
 Installing into a Codex home and uninstalling from it: the notify setting of the configuration,
 the hooks document, and the provenance that lets an uninstallation know its own work.
 */
module IntegrationModel {
  import opened Basics
  import opened JsonTree
  import opened HooksModel

  // ---- Files ----

  /** A command-line argument: a text, or the JSON text of an argument list. */
  datatype Arg = Text(text: string) | NotifyJson(argv: seq<Arg>)

  /** A value of the configuration: a list of strings, or anything else. */
  datatype Setting = Argv(argv: seq<Arg>) | OtherSetting(value: nat)

  type Config = map<string, Setting>

  datatype File<+T> = Missing | Malformed | Parsed(document: T)

  datatype FileProvenance<+T> = FileProvenance(created: bool, after: T)

  datatype Provenance = Provenance(
    binary: string,
    notify: seq<Arg>,
    previous: Option<seq<Arg>>,
    commands: set<string>,
    config: FileProvenance<Config>,
    hooks: FileProvenance<Json>)

  datatype Home = Home(config: File<Config>, hooks: File<Json>, provenance: Option<Provenance>)

  function ToOption<T>(file: File<T>): Option<T> {
    if file.Parsed? then Some(file.document) else None
  }

  predicate ArgMarked(arg: Arg) {
    match arg
    case Text(text) => Marked(text)
    case NotifyJson(argv) => exists i :: 0 <= i < |argv| && ArgMarked(argv[i])
  }

  predicate ArgvMarked(argv: seq<Arg>) {
    exists arg :: arg in argv && ArgMarked(arg)
  }

  // ---- Planning ----

  datatype NotifyKind = NoNotify | InvalidNotify | OtherNotify | LiliNotify

  function NotifyArgv(config: Config): Option<seq<Arg>> {
    if "notify" in config && config["notify"].Argv? then Some(config["notify"].argv) else None
  }

  function Notify(config: Config): NotifyKind {
    if "notify" !in config then NoNotify
    else match config["notify"]
      case OtherSetting(_) => InvalidNotify
      case Argv(argv) => if ArgvMarked(argv) then LiliNotify else OtherNotify
  }

  datatype Mode = Exclusive | Coexist

  function OurNotify(binary: string, previous: Option<seq<Arg>>): seq<Arg> {
    [Text(binary), Text("--integration-id"), Text(MARKER)]
    + if previous.Some? then [Text("--coexist-notify-json"), NotifyJson(previous.value)] else [Text("--json-argv")]
  }

  /** The command a coexisting installation has to pass notifications on to. */
  function CoexistOriginal(config: Config, mode: Mode): Option<seq<Arg>> {
    if mode != Coexist || NotifyArgv(config).None? then None
    else
      var argv := NotifyArgv(config).value;
      if Notify(config) == OtherNotify then Some(argv)
      else if |argv| == 5 && argv[1] == Text("--integration-id") && argv[2] == Text(MARKER)
              && argv[3] == Text("--coexist-notify-json") && argv[4].NotifyJson? then Some(argv[4].argv)
      else None
  }

  datatype Status = Ready | Conflict | Blocked

  datatype Plan = Plan(
    status: Status,
    notify: seq<Arg>,
    previous: Option<seq<Arg>>,
    writesConfig: bool,
    additions: seq<string>)

  function ConfigOf(home: Home): Config {
    if home.config.Parsed? then home.config.document else map[]
  }

  function BuildPlan(home: Home, binary: string, mode: Mode): Plan {
    var config := ConfigOf(home);
    var previous := CoexistOriginal(config, mode);
    var notify := OurNotify(binary, previous);
    var status :=
      if home.config.Malformed? || home.hooks.Malformed? then Blocked
      else if Notify(config) == InvalidNotify then Conflict
      else if Notify(config) == OtherNotify && mode == Exclusive then Conflict
      else Ready;
    Plan(status, notify, previous, NotifyArgv(config) != Some(notify), Additions(ToOption(home.hooks), SURFACES))
  }

  // ---- Installing ----

  /** Where an installation may be made to fail after its checks. */
  datatype Fault = WritingConfig | WritingHooks | Verifying | WritingProvenance

  datatype InstallError = InvalidPlan | InvalidHooks | Interrupted(fault: Fault)

  ghost predicate IsProvenance(p: Provenance, before: Home, plan: Plan, binary: string, config: Config, hooks: Json) {
    && p.binary == binary && p.notify == plan.notify && p.previous == plan.previous
    && (forall command :: command in p.commands <==>
          (HooksOf(hooks).Some? && IsManagedCommand(HooksOf(hooks).value, command)))
    && p.config == (if !plan.writesConfig && before.provenance.Some? then before.provenance.value.config
                    else FileProvenance(before.config == Missing, config))
    && p.hooks == (if plan.additions == [] && before.provenance.Some? then before.provenance.value.hooks
                   else FileProvenance(before.hooks == Missing, hooks))
  }

  /** All documents and provenances an installation without a fault leaves. */
  ghost predicate Installs(before: Home, binary: string, mode: Mode, after: Home) {
    var plan := BuildPlan(before, binary, mode);
    && plan.status == Ready
    && plan.previous != Some([])
    && after.config == Parsed(if plan.writesConfig then ConfigOf(before)["notify" := Argv(plan.notify)]
                              else ConfigOf(before))
    && after.hooks.Parsed?
    && (if plan.additions == [] then after.hooks == before.hooks
        else RenderHooks(ToOption(before.hooks), plan.additions, binary) == Ok(after.hooks.document))
    && after.provenance.Some?
    && IsProvenance(after.provenance.value, before, plan, binary, after.config.document, after.hooks.document)
  }

  // ---- Uninstalling ----

  datatype ConfigMutation = KeepConfig | WriteConfig(config: Config) | RemoveConfig

  datatype ConfigPlan = ConfigPlan(mutation: ConfigMutation, restored: bool, complete: bool, conflict: bool)

  function PlanConfigUninstall(p: Provenance, contents: Option<Config>): ConfigPlan {
    if contents.None? then ConfigPlan(KeepConfig, false, true, false)
    else
      var config := contents.value;
      var current := NotifyArgv(config);
      if current != Some(p.notify) then
        ConfigPlan(KeepConfig, false, !(current.Some? && ArgvMarked(current.value)), true)
      else if p.config.created && p.previous.None? && config == p.config.after then
        ConfigPlan(RemoveConfig, false, true, false)
      else if p.previous.Some? then
        ConfigPlan(WriteConfig(config["notify" := Argv(p.previous.value)]), true, true, false)
      else
        ConfigPlan(WriteConfig(config - {"notify"}), false, true, false)
  }

  predicate ValidProvenance(p: Provenance) {
    && p.notify != [] && ArgvMarked(p.notify)
    && p.commands != {} && forall command :: command in p.commands ==> Marked(command)
  }

  function HooksRecord(p: Provenance): HooksProvenance {
    HooksProvenance(p.commands, p.binary, p.hooks.created, p.hooks.after)
  }

  datatype Uninstalled = Uninstalled(complete: bool, restored: bool, removed: nat, conflict: bool)

  datatype UninstallError = NotInstalled | InvalidProvenance | InvalidConfiguration

  function Applied(mutation: ConfigMutation, file: File<Config>): File<Config> {
    match mutation
    case KeepConfig => file
    case WriteConfig(config) => Parsed(config)
    case RemoveConfig => Missing
  }

  function AppliedHooks(mutation: Mutation, file: File<Json>): File<Json> {
    match mutation
    case Unchanged => file
    case Write(document) => Parsed(document)
    case Remove => Missing
  }

  ghost function Uninstall(home: Home): (Home, Result<Uninstalled, UninstallError>) {
    if home.provenance.None? then (home, Err(NotInstalled))
    else if !ValidProvenance(home.provenance.value) then (home, Err(InvalidProvenance))
    else if home.config.Malformed? || home.hooks.Malformed? then (home, Err(UninstallError.InvalidConfiguration))
    else
      var p := home.provenance.value;
      var config := PlanConfigUninstall(p, ToOption(home.config));
      var hooks := PlanHooksUninstall(HooksRecord(p), ToOption(home.hooks));
      var complete := config.complete && hooks.complete;
      (Home(Applied(config.mutation, home.config), AppliedHooks(hooks.mutation, home.hooks),
            if complete then None else home.provenance),
       Ok(Uninstalled(complete, config.restored, hooks.removed, config.conflict || hooks.conflict)))
  }
}
