/** The hooks document: what an installation adds to it and what an uninstallation takes out. */
module HooksModel {
  import opened Basics
  import opened JsonTree

  const SURFACES: seq<string> := ["SessionStart", "UserPromptSubmit", "PermissionRequest", "Stop", "SessionEnd"]

  type Hooks = map<string, Json>

  datatype HooksError = InvalidConfiguration

  // ---- Handlers ----

  /** The handlers of a group, if it has a list of them. */
  function Handlers(group: Json): Option<seq<Json>> {
    ItemsAt(group, "hooks")
  }

  function Groups(hooks: Hooks, event: string): seq<Json> {
    if event in hooks && hooks[event].Arr? then hooks[event].items else []
  }

  predicate IsLiliHandler(handler: Json) {
    || (StringAt(handler, "command").Some? && Marked(StringAt(handler, "command").value))
    || (StringAt(handler, "commandWindows").Some? && Marked(StringAt(handler, "commandWindows").value))
  }

  function HooksOf(document: Json): Option<Hooks> {
    if document.Obj? && "hooks" in document.fields && document.fields["hooks"].Obj?
    then Some(document.fields["hooks"].fields) else None
  }

  /** Some handler listed for the event is a command of ours. */
  predicate Serves(document: Json, event: string) {
    HooksOf(document).Some?
    && var groups := Groups(HooksOf(document).value, event);
       exists i, j :: 0 <= i < |groups| && Handlers(groups[i]).Some? && 0 <= j < |Handlers(groups[i]).value|
                      && StringAt(Handlers(groups[i]).value[j], "command").Some?
                      && Marked(StringAt(Handlers(groups[i]).value[j], "command").value)
  }

  // ---- Installing ----

  function Replace(s: string, c: char, instead: string): string {
    if s == [] then [] else (if s[0] == c then instead else [s[0]]) + Replace(s[1..], c, instead)
  }

  function PosixCommand(binary: string): string {
    "'" + Replace(binary, '\'', "'\"'\"'") + "' --integration-id " + MARKER + " --json-stdin"
  }

  function WindowsCommand(binary: string): string {
    "\"" + Replace(binary, '"', "\\\"") + "\" --integration-id " + MARKER + " --json-stdin"
  }

  function PlannedHandler(binary: string): Json {
    Obj(map["type" := Str("command"),
            "command" := Str(PosixCommand(binary)),
            "commandWindows" := Str(WindowsCommand(binary)),
            "timeout" := Num(2),
            "statusMessage" := Str("Notify Lili")])
  }

  function PlannedGroup(binary: string): Json {
    Obj(map["hooks" := Arr([PlannedHandler(binary)])])
  }

  /** The events a plan adds a hook for: those we do not serve yet. */
  function Additions(document: Option<Json>, events: seq<string>): seq<string> {
    if events == [] then []
    else (if document.Some? && Serves(document.value, events[0]) then [] else [events[0]])
         + Additions(document, events[1..])
  }

  function AddHook(hooks: Hooks, event: string, binary: string): Result<Hooks, HooksError> {
    if event in hooks && !hooks[event].Arr? then Err(InvalidConfiguration)
    else Ok(hooks[event := Arr(Groups(hooks, event) + [PlannedGroup(binary)])])
  }

  function AddHooks(hooks: Hooks, additions: seq<string>, binary: string): Result<Hooks, HooksError>
    decreases |additions|
  {
    if additions == [] then Ok(hooks)
    else match AddHook(hooks, additions[0], binary)
      case Err(error) => Err(error)
      case Ok(added) => AddHooks(added, additions[1..], binary)
  }

  function EmptyDocument(): Json {
    Obj(map["hooks" := Obj(map[])])
  }

  function RenderHooks(original: Option<Json>, additions: seq<string>, binary: string): Result<Json, HooksError> {
    RenderInto(if original.Some? then original.value else EmptyDocument(), additions, binary)
  }

  function RenderInto(document: Json, additions: seq<string>, binary: string): Result<Json, HooksError> {
    if !document.Obj? then Err(InvalidConfiguration)
    else if "hooks" in document.fields && !document.fields["hooks"].Obj? then Err(InvalidConfiguration)
    else
      var hooks := if "hooks" in document.fields then document.fields["hooks"].fields else map[];
      match AddHooks(hooks, additions, binary)
      case Err(error) => Err(error)
      case Ok(added) => Ok(Obj(document.fields["hooks" := Obj(added)]))
  }

  /** The command is that of some handler of ours in the document. */
  predicate IsManagedCommand(hooks: Hooks, command: string) {
    Marked(command)
    && exists event, i, j ::
         event in hooks && 0 <= i < |Groups(hooks, event)|
         && Handlers(Groups(hooks, event)[i]).Some? && 0 <= j < |Handlers(Groups(hooks, event)[i]).value|
         && StringAt(Handlers(Groups(hooks, event)[i]).value[j], "command") == Some(command)
  }

  // ---- Uninstalling ----

  /** What an installation recorded about the hooks document. */
  datatype HooksProvenance = HooksProvenance(
    commands: set<string>,
    binary: string,
    created: bool,
    after: Json)

  predicate IsRecorded(handler: Json, p: HooksProvenance) {
    && handler.Obj?
    && handler.fields.Keys == {"type", "command", "commandWindows", "timeout", "statusMessage"}
    && StringAt(handler, "command").Some? && StringAt(handler, "command").value in p.commands
    && StringAt(handler, "type") == Some("command")
    && StringAt(handler, "commandWindows") == Some(WindowsCommand(p.binary))
    && handler.fields["timeout"] in {Num(1), Num(2)}
    && StringAt(handler, "statusMessage") == Some("Notify Lili")
  }

  predicate GroupIsRemovable(group: Json) {
    HasMarker(group) ==>
      && group.Obj?
      && forall field :: field in group.fields ==>
           if field == "hooks" then
             && group.fields[field].Arr?
             && forall handler :: handler in group.fields[field].items ==>
                  (HasMarker(handler) ==> IsLiliHandler(handler))
           else !Marked(field) && !HasMarker(group.fields[field])
  }

  /** The marker occurs in handlers of ours only. */
  predicate LayoutIsRemovable(hooks: Hooks) {
    forall event :: event in hooks ==>
      && !Marked(event)
      && (HasMarker(hooks[event]) ==>
            hooks[event].Arr? && forall group :: group in hooks[event].items ==> GroupIsRemovable(group))
  }

  /** Every handler of ours is as the installation left it. */
  predicate AllRecorded(hooks: Hooks, p: HooksProvenance) {
    forall event :: event in hooks ==>
      forall group :: group in Groups(hooks, event) && Handlers(group).Some? ==>
        forall handler :: handler in Handlers(group).value && IsLiliHandler(handler) ==> IsRecorded(handler, p)
  }

  function Others(handlers: seq<Json>): seq<Json> {
    if handlers == [] then []
    else (if IsLiliHandler(handlers[0]) then [] else [handlers[0]]) + Others(handlers[1..])
  }

  function StripGroup(group: Json): Json {
    match Handlers(group)
    case None => group
    case Some(handlers) => Obj(group.fields["hooks" := Arr(Others(handlers))])
  }

  predicate IsEmptyGroup(group: Json) {
    Handlers(group) == Some([])
  }

  /** Without our handlers, and without the groups that are left empty. */
  function StripGroups(groups: seq<Json>): seq<Json> {
    if groups == [] then []
    else
      var group := StripGroup(groups[0]);
      (if IsEmptyGroup(group) then [] else [group]) + StripGroups(groups[1..])
  }

  function StripEvent(groups: Json): Json {
    if groups.Arr? then Arr(StripGroups(groups.items)) else groups
  }

  /** Without the events that are left empty. */
  function StripHooks(hooks: Hooks): Hooks {
    map event | event in hooks && StripEvent(hooks[event]) != Arr([]) :: StripEvent(hooks[event])
  }

  function RemovedFrom(groups: seq<Json>): nat {
    if groups == [] then 0
    else OursIn(groups[0]) + RemovedFrom(groups[1..])
  }

  function OursIn(group: Json): nat {
    match Handlers(group)
    case None => 0
    case Some(handlers) => Ours(handlers)
  }

  function Ours(handlers: seq<Json>): nat {
    if handlers == [] then 0 else (if IsLiliHandler(handlers[0]) then 1 else 0) + Ours(handlers[1..])
  }

  ghost function AnyOf(events: set<string>): (event: string)
    requires events != {}
    ensures event in events
  {
    var event :| event in events;
    event
  }

  /** How many handlers go, over all events. */
  ghost function Removed(hooks: Hooks, events: set<string>): nat
    requires events <= hooks.Keys
  {
    if events == {} then 0
    else
      var event := AnyOf(events);
      RemovedFrom(Groups(hooks, event)) + Removed(hooks, events - {event})
  }

  datatype Mutation = Unchanged | Write(document: Json) | Remove

  /** The change planned, the handlers it removes, whether nothing of ours stays, and the conflict met. */
  datatype HooksPlan = HooksPlan(mutation: Mutation, removed: nat, complete: bool, conflict: bool)

  ghost function PlanHooksUninstall(p: HooksProvenance, contents: Option<Json>): HooksPlan {
    if contents.None? then HooksPlan(Unchanged, 0, true, false)
    else
      var document := contents.value;
      match HooksOf(document)
      case None => HooksPlan(Unchanged, 0, !HasMarker(document), HasMarker(document))
      case Some(hooks) =>
        if !LayoutIsRemovable(hooks) then HooksPlan(Unchanged, 0, false, true)
        else if !AllRecorded(hooks, p) then HooksPlan(Unchanged, 0, false, true)
        else
          var removed := Removed(hooks, hooks.Keys);
          if removed == 0 then HooksPlan(Unchanged, 0, true, false)
          else if p.created && document == p.after then HooksPlan(Remove, removed, true, false)
          else HooksPlan(Write(Obj(document.fields["hooks" := Obj(StripHooks(hooks))])), removed, true, false)
  }
}
