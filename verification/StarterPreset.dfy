/**
 The starter preset: slot overrides and addon plugins are resolved against the
 slot table, laid out in slot order, and turned into bootstrap plugin specs
 whose dependencies come from the slot dependency table. The main result is
 the composition with the plugin host's resolver.
 */
module StarterPreset {

  import opened Options
  import opened Strings
  import DependencyOrder

  type Id = DependencyOrder.Id

  datatype Slot =
    | Config | Workspace | Storage | Queue | Logging | TerminalTools | FileTools | RepoMap
    | Lsp | Mcp | Skills | Delegation | Messaging | Memory | Output | Transport

  datatype Source = Default | Override | Addon

  datatype SlotBinding = SlotBinding(slot: Slot, pluginId: Id, required: bool, description: string)

  datatype Resolved = Resolved(binding: SlotBinding, source: Source)

  datatype SlotOverride =
    SlotOverride(slot: Slot, pluginId: Option<Id>, enabled: Option<bool>, description: Option<string>)

  datatype Insert = Before | After

  datatype AddonPlugin =
    AddonPlugin(pluginId: Id, anchorSlot: Slot, insert: Insert, required: Option<bool>, description: Option<string>)

  // `slot` is present for slot plugins, `anchor` for addons.
  datatype PresetPlugin =
    | SlotPlugin(pluginId: Id, required: bool, source: Source, slot: Slot, description: string)
    | AddonEntry(pluginId: Id, required: bool, anchorSlot: Slot, insert: Insert, addonDescription: Option<string>)

  datatype SandboxMode = Docker | NoSandbox

  datatype SandboxSource = DefaultSource | Environment | Explicit

  datatype Error =
    | DuplicateOverride(slot: Slot)
    | UnknownSlot(slot: Slot)
    | DisabledWithPlugin(slot: Slot)
    | RequiredSlot(slot: Slot)
    | EmptyPluginId
    | InactiveAnchor(pluginId: Id, anchor: Slot)
    | SandboxConflict

  datatype Result<+T> = Success(value: T) | Failure(error: Error)

  const TERMINAL_PLUGIN := "@generic-ai/plugin-tools-terminal"
  const SANDBOX_TERMINAL_PLUGIN := "@generic-ai/plugin-tools-terminal-sandbox"

  // The descriptions are abbreviated.
  const DEFAULT_SLOTS: seq<SlotBinding> := [
    SlotBinding(Config, "@generic-ai/plugin-config-yaml", true, "config"),
    SlotBinding(Workspace, "@generic-ai/plugin-workspace-fs", true, "workspace"),
    SlotBinding(Storage, "@generic-ai/plugin-storage-sqlite", true, "storage"),
    SlotBinding(Queue, "@generic-ai/plugin-queue-memory", true, "queue"),
    SlotBinding(Logging, "@generic-ai/plugin-logging-otel", true, "logs"),
    SlotBinding(TerminalTools, TERMINAL_PLUGIN, true, "terminal"),
    SlotBinding(FileTools, "@generic-ai/plugin-tools-files", true, "files"),
    SlotBinding(RepoMap, "@generic-ai/plugin-repo-map", true, "repository map"),
    SlotBinding(Lsp, "@generic-ai/plugin-lsp", true, "language servers"),
    SlotBinding(Mcp, "@generic-ai/plugin-mcp", true, "MCP"),
    SlotBinding(Skills, "@generic-ai/plugin-agent-skills", true, "skills"),
    SlotBinding(Delegation, "@generic-ai/plugin-delegation", true, "delegation"),
    SlotBinding(Messaging, "@generic-ai/plugin-messaging", true, "messages"),
    SlotBinding(Memory, "@generic-ai/plugin-memory-files", true, "memory"),
    SlotBinding(Output, "@generic-ai/plugin-output-default", true, "output"),
    SlotBinding(Transport, "@generic-ai/plugin-hono", false, "HTTP")
  ]

  function DependencySlots(slot: Slot): seq<Slot> {
    match slot
    case Config => []
    case Workspace => [Config]
    case Storage => [Config]
    case Queue => [Config]
    case Logging => [Config]
    case TerminalTools => [Workspace]
    case FileTools => [Workspace]
    case RepoMap => [Workspace]
    case Lsp => [Workspace]
    case Mcp => [Config]
    case Skills => [Workspace]
    case Delegation => [Queue]
    case Messaging => [Storage]
    case Memory => [Workspace]
    case Output => [Config]
    case Transport => [Output]
  }

  // ----- What the code relies on in the slot table -----

  // A dependency slot that is in the table comes before the dependent one.
  ghost predicate DependenciesPrecede(table: seq<SlotBinding>) {
    forall i, j | 0 <= i < |table| && 0 <= j < |table| :: table[j].slot in DependencySlots(table[i].slot) ==> j < i
  }

  function Rank(slot: Slot): nat {
    match slot
    case Config => 0
    case Workspace => 1
    case Storage => 2
    case Queue => 3
    case Logging => 4
    case TerminalTools => 5
    case FileTools => 6
    case RepoMap => 7
    case Lsp => 8
    case Mcp => 9
    case Skills => 10
    case Delegation => 11
    case Messaging => 12
    case Memory => 13
    case Output => 14
    case Transport => 15
  }

  function SlotsOf(table: seq<SlotBinding>): seq<Slot> {
    seq(|table|, i requires 0 <= i < |table| => table[i].slot)
  }

  const SLOT_ORDER := [
    Config, Workspace, Storage, Queue, Logging, TerminalTools, FileTools, RepoMap,
    Lsp, Mcp, Skills, Delegation, Messaging, Memory, Output, Transport]

  lemma DefaultSlotList()
    ensures |DEFAULT_SLOTS| == 16 && SlotsOf(DEFAULT_SLOTS) == SLOT_ORDER
  {
  }

  lemma RanksInOrder()
    ensures forall i | 0 <= i < |SLOT_ORDER| :: Rank(SLOT_ORDER[i]) == i
  {
  }

  lemma {:induction false} DefaultTableRanks()
    ensures |DEFAULT_SLOTS| == 16
    ensures forall i :: 0 <= i < 16 ==> Rank(DEFAULT_SLOTS[i].slot) == i
  {
    DefaultSlotList();
    RanksInOrder();
    hide Rank, SLOT_ORDER, DEFAULT_SLOTS;
    forall i | 0 <= i < 16
      ensures Rank(DEFAULT_SLOTS[i].slot) == i
    {
      assert SlotsOf(DEFAULT_SLOTS)[i] == DEFAULT_SLOTS[i].slot;
    }
  }

  lemma DependenciesRankLower(slot: Slot, dependency: Slot)
    requires dependency in DependencySlots(slot)
    ensures Rank(dependency) < Rank(slot)
  {
  }

  lemma {:induction false} DefaultTableIsOrdered()
    ensures DependenciesPrecede(DEFAULT_SLOTS)
  {
    DefaultTableRanks();
    forall i, j | 0 <= i < |DEFAULT_SLOTS| && 0 <= j < |DEFAULT_SLOTS|
                  && DEFAULT_SLOTS[j].slot in DependencySlots(DEFAULT_SLOTS[i].slot)
      ensures j < i
    {
      DependenciesRankLower(DEFAULT_SLOTS[i].slot, DEFAULT_SLOTS[j].slot);
    }
  }

  // ----- Slot overrides -----

  function Defaults(table: seq<SlotBinding>): map<Slot, Resolved> {
    if table == [] then map[]
    else
      var last := table[|table| - 1];
      Defaults(table[..|table| - 1])[last.slot := Resolved(last, Default)]
  }

  function Overridden(current: Resolved, o: SlotOverride): Resolved {
    Resolved(current.binding.(
      pluginId := if o.pluginId.Some? then o.pluginId.value else current.binding.pluginId,
      description := if o.description.Some? then o.description.value else current.binding.description),
      Override)
  }

  predicate Disables(o: SlotOverride) {
    o.enabled == Some(false)
  }

  // Why the i-th override is refused, given the slot table's defaults.
  function OverrideError(defaults: map<Slot, Resolved>, overrides: seq<SlotOverride>, i: nat): Option<Error>
    requires i < |overrides|
  {
    var o := overrides[i];
    if exists j :: 0 <= j < i && overrides[j].slot == o.slot then Some(DuplicateOverride(o.slot))
    else if o.slot !in defaults then Some(UnknownSlot(o.slot))
    else if Disables(o) then
      if o.pluginId.Some? then Some(DisabledWithPlugin(o.slot))
      else if defaults[o.slot].binding.required then Some(RequiredSlot(o.slot))
      else None
    else if Trim(Overridden(defaults[o.slot], o).binding.pluginId) == "" then Some(EmptyPluginId)
    else None
  }

  ghost predicate OverridesAccepted(defaults: map<Slot, Resolved>, overrides: seq<SlotOverride>) {
    forall i :: 0 <= i < |overrides| ==> OverrideError(defaults, overrides, i).None?
  }

  // What a slot resolves to: its only override decides, or else the default.
  ghost predicate SlotOutcome(defaults: map<Slot, Resolved>, overrides: seq<SlotOverride>,
                              resolved: map<Slot, Resolved>, slot: Slot)
  {
    && (forall i :: 0 <= i < |overrides| && overrides[i].slot == slot && slot in defaults ==>
          if Disables(overrides[i]) then slot !in resolved
          else slot in resolved && resolved[slot] == Overridden(defaults[slot], overrides[i]))
    && ((forall i :: 0 <= i < |overrides| ==> overrides[i].slot != slot) ==>
          (slot in resolved <==> slot in defaults)
          && (slot in resolved ==> resolved[slot] == defaults[slot]))
  }

  method ResolveSlotBindings(table: seq<SlotBinding>, overrides: seq<SlotOverride>)
    returns (r: Result<map<Slot, Resolved>>)
    ensures r.Success? <==> OverridesAccepted(Defaults(table), overrides)
    ensures r.Success? ==> r.value.Keys <= Defaults(table).Keys
    ensures r.Success? ==> forall slot :: SlotOutcome(Defaults(table), overrides, r.value, slot)
    // The first refused override decides the error.
    ensures r.Failure? ==> r.error != SandboxConflict
    ensures r.Failure? ==> exists i :: 0 <= i < |overrides|
                                       && OverrideError(Defaults(table), overrides, i) == Some(r.error)
                                       && OverridesAccepted(Defaults(table), overrides[..i])
  {
    var resolved: map<Slot, Resolved> := map[];
    for i := 0 to |table|
      invariant resolved == Defaults(table[..i])
    {
      assert table[..i + 1][..i] == table[..i];
      resolved := resolved[table[i].slot := Resolved(table[i], Default)];
    }
    assert table[..|table|] == table;

    ghost var defaults := Defaults(table);
    var seenOverrideSlots: set<Slot> := {};
    for i := 0 to |overrides|
      invariant OverridesAccepted(defaults, overrides[..i])
      invariant seenOverrideSlots == set j | 0 <= j < i :: overrides[j].slot
      invariant resolved.Keys <= defaults.Keys
      invariant forall slot :: SlotOutcome(defaults, overrides[..i], resolved, slot)
    {
      var o := overrides[i];
      SameErrors(defaults, overrides, i);
      if o.slot in seenOverrideSlots {
        return Failure(DuplicateOverride(o.slot));
      }
      seenOverrideSlots := seenOverrideSlots + {o.slot};
      assert forall j :: 0 <= j < i ==> overrides[..i][j].slot != o.slot;
      assert SlotOutcome(defaults, overrides[..i], resolved, o.slot);

      if o.slot !in resolved {
        return Failure(UnknownSlot(o.slot));
      }
      var current := resolved[o.slot];

      ghost var before := resolved;
      if o.enabled == Some(false) {
        if o.pluginId.Some? {
          return Failure(DisabledWithPlugin(o.slot));
        }
        if current.binding.required {
          return Failure(RequiredSlot(o.slot));
        }
        resolved := resolved - {o.slot};
      } else {
        var next := Overridden(current, o);
        if Trim(next.binding.pluginId) == "" {
          return Failure(EmptyPluginId);
        }
        resolved := resolved[o.slot := next];
      }
      OutcomeExtends(defaults, overrides[..i], o, before, resolved, overrides[..i + 1]);
    }
    assert overrides[..|overrides|] == overrides;
    return Success(resolved);
  }

  lemma {:induction false} SameErrors(defaults: map<Slot, Resolved>, overrides: seq<SlotOverride>, i: nat)
    requires i < |overrides|
    ensures OverridesAccepted(defaults, overrides[..i + 1]) <==>
            OverridesAccepted(defaults, overrides[..i]) && OverrideError(defaults, overrides, i).None?
    ensures OverridesAccepted(defaults, overrides) ==> OverrideError(defaults, overrides, i).None?
  {
    var shorter, longer := overrides[..i], overrides[..i + 1];
    forall j | 0 <= j <= i
      ensures OverrideError(defaults, longer, j) == OverrideError(defaults, overrides, j)
      ensures j < i ==> OverrideError(defaults, shorter, j) == OverrideError(defaults, overrides, j)
    {
      assert forall k :: 0 <= k <= j ==> longer[k] == overrides[k];
      assert forall k :: 0 <= k <= j && k < i ==> shorter[k] == overrides[k];
    }
  }

  lemma {:induction false} OutcomeExtends(defaults: map<Slot, Resolved>, shorter: seq<SlotOverride>, o: SlotOverride,
                       before: map<Slot, Resolved>, after: map<Slot, Resolved>, longer: seq<SlotOverride>)
    requires longer == shorter + [o] && o.slot in defaults
    requires forall j :: 0 <= j < |shorter| ==> shorter[j].slot != o.slot
    requires forall slot :: SlotOutcome(defaults, shorter, before, slot)
    requires after == if Disables(o) then before - {o.slot} else before[o.slot := Overridden(defaults[o.slot], o)]
    ensures forall slot :: SlotOutcome(defaults, longer, after, slot)
  {
    forall slot
      ensures SlotOutcome(defaults, longer, after, slot)
    {
      assert SlotOutcome(defaults, shorter, before, slot);
      assert forall j :: 0 <= j < |shorter| ==> longer[j] == shorter[j];
      assert longer[|shorter|] == o;
    }
  }

  // Resolution never moves a binding to another slot.
  lemma {:induction false} ResolvedKeepsSlots(
    table: seq<SlotBinding>, overrides: seq<SlotOverride>, resolved: map<Slot, Resolved>
  )
    requires resolved.Keys <= Defaults(table).Keys
    requires forall slot :: SlotOutcome(Defaults(table), overrides, resolved, slot)
    ensures forall slot :: slot in resolved ==> resolved[slot].binding.slot == slot && InTable(table, slot)
  {
    DefaultsKeepSlots(table);
    forall slot | slot in resolved
      ensures resolved[slot].binding.slot == slot
    {
      assert SlotOutcome(Defaults(table), overrides, resolved, slot);
    }
  }

  ghost predicate InTable(table: seq<SlotBinding>, slot: Slot) {
    exists i :: 0 <= i < |table| && table[i].slot == slot
  }

  lemma {:induction false} DefaultsKeepSlots(table: seq<SlotBinding>)
    ensures forall slot :: slot in Defaults(table) <==> InTable(table, slot)
    ensures forall slot :: slot in Defaults(table) ==> Defaults(table)[slot].binding.slot == slot
  {
    if table != [] {
      var init, last := table[..|table| - 1], table[|table| - 1];
      DefaultsKeepSlots(init);
      assert table == init + [last];
      forall slot
        ensures InTable(table, slot) <==> InTable(init, slot) || slot == last.slot
      {
        if InTable(init, slot) {
          var i :| 0 <= i < |init| && init[i].slot == slot;
          assert table[i].slot == slot;
        }
        if slot == last.slot {
          assert table[|init|].slot == slot;
        }
      }
    }
  }

  // ----- Addons -----

  function AddonError(resolved: map<Slot, Resolved>, a: AddonPlugin): Option<Error> {
    if Trim(a.pluginId) == "" then Some(EmptyPluginId)
    else if a.anchorSlot !in resolved then Some(InactiveAnchor(a.pluginId, a.anchorSlot))
    else None
  }

  function ToEntry(a: AddonPlugin): PresetPlugin {
    AddonEntry(a.pluginId, a.required == Some(true), a.anchorSlot, a.insert, a.description)
  }

  // The addons of one anchor and side, in the order they were given.
  function AddonsAt(addons: seq<AddonPlugin>, slot: Slot, insert: Insert): (r: seq<PresetPlugin>)
    ensures forall x :: x in r ==> x.AddonEntry? && x.anchorSlot == slot && x.insert == insert
  {
    if addons == [] then []
    else
      var rest := AddonsAt(addons[..|addons| - 1], slot, insert);
      var last := addons[|addons| - 1];
      if last.anchorSlot == slot && last.insert == insert then rest + [ToEntry(last)] else rest
  }

  // An addon as the caller described it; it is required only if the caller says so.
  ghost predicate Describes(x: PresetPlugin, a: AddonPlugin) {
    && x.AddonEntry? && x.pluginId == a.pluginId && x.anchorSlot == a.anchorSlot && x.insert == a.insert
    && x.addonDescription == a.description && (x.required <==> a.required == Some(true))
  }

  /** The addons at a place are those the caller put there, in the order given and as
      described. */
  lemma {:induction false} AddonsAreAsDescribed(addons: seq<AddonPlugin>, slot: Slot, insert: Insert)
    returns (chosen: seq<nat>)
    ensures var entries := AddonsAt(addons, slot, insert);
            && |chosen| == |entries| && (forall i, j | 0 <= i < j < |chosen| :: chosen[i] < chosen[j])
            && (forall i | 0 <= i < |chosen| :: chosen[i] < |addons| && Describes(entries[i], addons[chosen[i]]))
            && (forall k | 0 <= k < |addons| ::
                  addons[k].anchorSlot == slot && addons[k].insert == insert ==> k in chosen)
  {
    if addons == [] {
      chosen := [];
    } else {
      var n := |addons| - 1;
      chosen := AddonsAreAsDescribed(addons[..n], slot, insert);
      if addons[n].anchorSlot == slot && addons[n].insert == insert {
        chosen := chosen + [n];
        assert n in chosen;
      }
    }
  }

  function Bucket(m: map<Slot, seq<PresetPlugin>>, slot: Slot): seq<PresetPlugin> {
    if slot in m then m[slot] else []
  }

  method ResolveAddonsBySlot(addons: seq<AddonPlugin>, resolved: map<Slot, Resolved>)
    returns (r: Result<(map<Slot, seq<PresetPlugin>>, map<Slot, seq<PresetPlugin>>)>)
    ensures r.Success? <==> forall a :: a in addons ==> AddonError(resolved, a).None?
    ensures r.Success? ==> forall slot :: Bucket(r.value.0, slot) == AddonsAt(addons, slot, Before)
    ensures r.Success? ==> forall slot :: Bucket(r.value.1, slot) == AddonsAt(addons, slot, After)
    ensures r.Failure? ==> r.error != SandboxConflict
    ensures r.Failure? ==> exists i :: 0 <= i < |addons| && AddonError(resolved, addons[i]) == Some(r.error)
                                       && forall a :: a in addons[..i] ==> AddonError(resolved, a).None?
  {
    var before: map<Slot, seq<PresetPlugin>> := map[];
    var after: map<Slot, seq<PresetPlugin>> := map[];
    for i := 0 to |addons|
      invariant forall a :: a in addons[..i] ==> AddonError(resolved, a).None?
      invariant forall slot :: Bucket(before, slot) == AddonsAt(addons[..i], slot, Before)
      invariant forall slot :: Bucket(after, slot) == AddonsAt(addons[..i], slot, After)
    {
      var addon := addons[i];
      assert addon in addons && addons[..i + 1] == addons[..i] + [addon];
      if Trim(addon.pluginId) == "" {
        return Failure(EmptyPluginId);
      }
      if addon.anchorSlot !in resolved {
        return Failure(InactiveAnchor(addon.pluginId, addon.anchorSlot));
      }
      if addon.insert == Before {
        before := before[addon.anchorSlot := Bucket(before, addon.anchorSlot) + [ToEntry(addon)]];
      } else {
        after := after[addon.anchorSlot := Bucket(after, addon.anchorSlot) + [ToEntry(addon)]];
      }
    }
    assert addons[..|addons|] == addons;
    return Success((before, after));
  }

  // ----- Layout -----

  function ToPlugin(r: Resolved): PresetPlugin {
    SlotPlugin(r.binding.pluginId, r.binding.required, r.source, r.binding.slot, r.binding.description)
  }

  function Block(resolved: map<Slot, Resolved>, addons: seq<AddonPlugin>, slot: Slot): seq<PresetPlugin> {
    if slot in resolved
    then AddonsAt(addons, slot, Before) + [ToPlugin(resolved[slot])] + AddonsAt(addons, slot, After)
    else []
  }

  function Layout(table: seq<SlotBinding>, resolved: map<Slot, Resolved>, addons: seq<AddonPlugin>): seq<PresetPlugin> {
    if table == [] then []
    else Layout(table[..|table| - 1], resolved, addons) + Block(resolved, addons, table[|table| - 1].slot)
  }

  datatype Preset = Preset(plugins: seq<PresetPlugin>, includesHono: bool, sandboxMode: SandboxMode, terminalPluginId: Id)

  function WithSandboxSlotOverrides(overrides: seq<SlotOverride>, mode: Option<SandboxMode>,
                                    source: Option<SandboxSource>): Result<seq<SlotOverride>>
  {
    if mode.None? || mode == Some(NoSandbox) then Success(overrides)
    else if exists i :: 0 <= i < |overrides| && overrides[i].slot == TerminalTools then
      if source != Some(DefaultSource) then Failure(SandboxConflict) else Success(overrides)
    else
      Success(overrides + [SlotOverride(TerminalTools, Some(SANDBOX_TERMINAL_PLUGIN), None,
                                        Some("Docker-backed sandbox terminal tooling."))])
  }

  predicate OverridesTerminal(overrides: seq<SlotOverride>) {
    exists i :: 0 <= i < |overrides| && overrides[i].slot == TerminalTools
  }

  // A sandbox that was asked for and a terminal plugin that was chosen exclude each other.
  predicate SandboxConflicts(overrides: seq<SlotOverride>, mode: Option<SandboxMode>, source: Option<SandboxSource>) {
    mode == Some(Docker) && OverridesTerminal(overrides) && source != Some(DefaultSource)
  }

  // The terminal plugin of the sandbox, put in its slot.
  predicate PutsSandboxTerminal(o: SlotOverride) {
    o.slot == TerminalTools && o.pluginId == Some(SANDBOX_TERMINAL_PLUGIN) && o.enabled.None?
  }

  lemma {:induction false} SandboxCases(overrides: seq<SlotOverride>, mode: Option<SandboxMode>, source: Option<SandboxSource>)
    ensures var r := WithSandboxSlotOverrides(overrides, mode, source);
            if SandboxConflicts(overrides, mode, source) then r == Failure(SandboxConflict)
            else if mode == Some(Docker) && !OverridesTerminal(overrides) then
              && r.Success? && |r.value| == |overrides| + 1 && r.value[..|overrides|] == overrides
              && PutsSandboxTerminal(r.value[|overrides|])
            else r == Success(overrides)
  {
    match mode
    case None =>
    case Some(NoSandbox) =>
    case Some(Docker) =>
      if OverridesTerminal(overrides) {
        var i :| 0 <= i < |overrides| && overrides[i].slot == TerminalTools;
      }
  }

  // The pieces an accepted request goes through.
  ghost predicate Accepts(table: seq<SlotBinding>, overrides: seq<SlotOverride>, addons: seq<AddonPlugin>,
                          mode: Option<SandboxMode>, source: Option<SandboxSource>, resolved: map<Slot, Resolved>)
  {
    var effective := WithSandboxSlotOverrides(overrides, mode, source);
    && effective.Success?
    && OverridesAccepted(Defaults(table), effective.value)
    && resolved.Keys <= Defaults(table).Keys
    && (forall slot :: SlotOutcome(Defaults(table), effective.value, resolved, slot))
    && (forall a :: a in addons ==> AddonError(resolved, a).None?)
  }

  method CreateResolvedStarterPreset(table: seq<SlotBinding>, overrides: seq<SlotOverride>, addons: seq<AddonPlugin>,
                                     mode: Option<SandboxMode>, source: Option<SandboxSource>)
    returns (r: Result<Preset>, ghost resolved: map<Slot, Resolved>)
    ensures r.Success? ==> Accepts(table, overrides, addons, mode, source, resolved)
    ensures r.Failure? ==> forall other :: !Accepts(table, overrides, addons, mode, source, other)
    ensures r == Failure(SandboxConflict) <==> SandboxConflicts(overrides, mode, source)
    ensures r.Success? ==> r.value.plugins == Layout(table, resolved, addons)
    ensures r.Success? ==> r.value.terminalPluginId ==
                           if TerminalTools in resolved then resolved[TerminalTools].binding.pluginId else TERMINAL_PLUGIN
    ensures r.Success? ==> (r.value.sandboxMode == Docker <==> r.value.terminalPluginId == SANDBOX_TERMINAL_PLUGIN)
    ensures r.Success? ==> (r.value.includesHono <==>
                            exists p :: p in r.value.plugins && p.pluginId == "@generic-ai/plugin-hono")
  {
    hide WithSandboxSlotOverrides, SandboxConflicts, OverrideError, AddonError;
    resolved := map[];
    SandboxCases(overrides, mode, source);
    var effective := WithSandboxSlotOverrides(overrides, mode, source);
    if effective.Failure? {
      return Failure(effective.error), resolved;
    }
    var slots := ResolveSlotBindings(table, effective.value);
    if slots.Failure? {
      return Failure(slots.error), resolved;
    }
    var slotMap := slots.value;
    resolved := slotMap;
    var byslot := ResolveAddonsBySlot(addons, slotMap);
    if byslot.Failure? {
      forall other | Accepts(table, overrides, addons, mode, source, other)
        ensures other == slotMap
      {
        OutcomeDetermines(Defaults(table), effective.value, slotMap, other);
      }
      return Failure(byslot.error), resolved;
    }

    var plugins := LayOut(table, slotMap, byslot.value.0, byslot.value.1, addons);
    var terminal := if TerminalTools in slotMap then slotMap[TerminalTools].binding.pluginId else TERMINAL_PLUGIN;
    var hono := exists p | p in plugins :: p.pluginId == "@generic-ai/plugin-hono";
    return Success(Preset(plugins, hono, if terminal == SANDBOX_TERMINAL_PLUGIN then Docker else NoSandbox, terminal)),
           resolved;
  }

  lemma LayoutStarts(table: seq<SlotBinding>, resolved: map<Slot, Resolved>, addons: seq<AddonPlugin>)
    ensures Layout(table[..0], resolved, addons) == []
  {
  }

  lemma {:induction false} LayoutGrows(table: seq<SlotBinding>, resolved: map<Slot, Resolved>, addons: seq<AddonPlugin>, i: nat)
    requires i < |table|
    ensures Layout(table[..i + 1], resolved, addons) ==
            Layout(table[..i], resolved, addons) + Block(resolved, addons, table[i].slot)
  {
    hide Block;
    assert table[..i + 1][..i] == table[..i];
  }

  /** What a sandbox does to an accepted request: without a terminal plugin of the caller's
      own the Docker sandbox brings its terminal plugin and leaves every other slot to the
      overrides; in all other cases the overrides alone decide, and a conflict is refused. */
  lemma {:induction false} SandboxTerminal(table: seq<SlotBinding>, overrides: seq<SlotOverride>, addons: seq<AddonPlugin>,
                                           mode: Option<SandboxMode>, source: Option<SandboxSource>,
                                           resolved: map<Slot, Resolved>)
    requires Accepts(table, overrides, addons, mode, source, resolved)
    ensures !SandboxConflicts(overrides, mode, source)
    ensures mode == Some(Docker) && !OverridesTerminal(overrides) ==>
              TerminalTools in resolved && resolved[TerminalTools].binding.pluginId == SANDBOX_TERMINAL_PLUGIN
    ensures forall slot | slot != TerminalTools || mode != Some(Docker) || OverridesTerminal(overrides) ::
              SlotOutcome(Defaults(table), overrides, resolved, slot)
  {
    hide Defaults, AddonError, WithSandboxSlotOverrides, SandboxConflicts, OverrideError, OverridesTerminal, SlotOutcome;
    SandboxCases(overrides, mode, source);
    var effective := WithSandboxSlotOverrides(overrides, mode, source).value;
    if mode == Some(Docker) && !OverridesTerminal(overrides) {
      assert OverrideError(Defaults(table), effective, |overrides|).None?;
      LastDecides(Defaults(table), effective, resolved);
      forall slot | slot != TerminalTools
        ensures SlotOutcome(Defaults(table), overrides, resolved, slot)
      {
        OthersStay(Defaults(table), effective, resolved, slot);
      }
    }
  }

  lemma {:induction false} LastDecides(defaults: map<Slot, Resolved>, overrides: seq<SlotOverride>, resolved: map<Slot, Resolved>)
    requires overrides != [] && PutsSandboxTerminal(overrides[|overrides| - 1])
    requires OverrideError(defaults, overrides, |overrides| - 1).None?
    requires SlotOutcome(defaults, overrides, resolved, TerminalTools)
    ensures TerminalTools in resolved && resolved[TerminalTools].binding.pluginId == SANDBOX_TERMINAL_PLUGIN
  {
  }

  lemma {:induction false} OthersStay(defaults: map<Slot, Resolved>, overrides: seq<SlotOverride>, resolved: map<Slot, Resolved>,
                                      slot: Slot)
    requires overrides != [] && overrides[|overrides| - 1].slot != slot && SlotOutcome(defaults, overrides, resolved, slot)
    ensures SlotOutcome(defaults, overrides[..|overrides| - 1], resolved, slot)
  {
    var front := overrides[..|overrides| - 1];
    assert forall i :: 0 <= i < |front| ==> front[i] == overrides[i];
  }

  // Each slot that is filled, between the addons placed before and after it.
  method LayOut(table: seq<SlotBinding>, slotMap: map<Slot, Resolved>, beforeSlot: map<Slot, seq<PresetPlugin>>,
                afterSlot: map<Slot, seq<PresetPlugin>>, ghost addons: seq<AddonPlugin>)
    returns (plugins: seq<PresetPlugin>)
    requires forall slot :: Bucket(beforeSlot, slot) == AddonsAt(addons, slot, Before)
    requires forall slot :: Bucket(afterSlot, slot) == AddonsAt(addons, slot, After)
    ensures plugins == Layout(table, slotMap, addons)
  {
    hide AddonsAt, Layout, Bucket, ToPlugin;
    plugins := [];
    LayoutStarts(table, slotMap, addons);
    for i := 0 to |table|
      invariant plugins == Layout(table[..i], slotMap, addons)
    {
      LayoutGrows(table, slotMap, addons, i);
      var slot := table[i].slot;
      if slot !in slotMap {
        assert plugins + [] == plugins;
        continue;
      }
      var before, after := Bucket(beforeSlot, slot), Bucket(afterSlot, slot);
      ghost var prefix := plugins;
      plugins := plugins + before;
      plugins := plugins + [ToPlugin(slotMap[slot])];
      plugins := plugins + after;
      assert plugins == prefix + (before + [ToPlugin(slotMap[slot])] + after);
    }
    assert table[..|table|] == table;
  }

  // Slot outcomes leave no freedom in the resolved map.
  lemma {:induction false} OutcomeDetermines(defaults: map<Slot, Resolved>, overrides: seq<SlotOverride>,
                          a: map<Slot, Resolved>, b: map<Slot, Resolved>)
    requires a.Keys <= defaults.Keys && b.Keys <= defaults.Keys
    requires forall slot :: SlotOutcome(defaults, overrides, a, slot)
    requires forall slot :: SlotOutcome(defaults, overrides, b, slot)
    ensures a == b
  {
    forall slot | slot in defaults
      ensures slot in a <==> slot in b
      ensures slot in a ==> a[slot] == b[slot]
    {
      assert SlotOutcome(defaults, overrides, a, slot) && SlotOutcome(defaults, overrides, b, slot);
      if exists i :: 0 <= i < |overrides| && overrides[i].slot == slot {
        var i :| 0 <= i < |overrides| && overrides[i].slot == slot;
      }
    }
  }

  // ----- Bootstrap plugin specs -----

  function PluginIdBySlot(plugins: seq<PresetPlugin>): map<Slot, Id> {
    if plugins == [] then map[]
    else
      var rest := PluginIdBySlot(plugins[..|plugins| - 1]);
      var last := plugins[|plugins| - 1];
      if last.SlotPlugin? then rest[last.slot := last.pluginId] else rest
  }

  function PresentIds(ids: map<Slot, Id>, slots: seq<Slot>): (r: seq<Id>)
    ensures forall d :: d in r ==> exists s :: s in slots && s in ids && ids[s] == d
  {
    if slots == [] then []
    else (if slots[0] in ids then [ids[slots[0]]] else []) + PresentIds(ids, slots[1..])
  }

  function SpecDependencies(ids: map<Slot, Id>, plugin: PresetPlugin): seq<Id> {
    match plugin
    case SlotPlugin(_, _, _, slot, _) => PresentIds(ids, DependencySlots(slot))
    case AddonEntry(_, _, anchor, After, _) => PresentIds(ids, [anchor])
    case AddonEntry(_, _, anchor, Before, _) => PresentIds(ids, DependencySlots(anchor))
  }

  function SpecOf(ids: map<Slot, Id>, plugin: PresetPlugin): DependencyOrder.Plugin {
    DependencyOrder.Plugin(plugin.pluginId, SpecDependencies(ids, plugin))
  }

  function SpecsOf(ids: map<Slot, Id>, plugins: seq<PresetPlugin>): (r: seq<DependencyOrder.Plugin>)
    ensures |r| == |plugins|
    ensures forall i :: 0 <= i < |r| ==> r[i] == SpecOf(ids, plugins[i])
  {
    seq(|plugins|, i requires 0 <= i < |plugins| => SpecOf(ids, plugins[i]))
  }

  method ResolveBootstrapPluginSpecs(plugins: seq<PresetPlugin>) returns (specs: seq<DependencyOrder.Plugin>)
    ensures specs == SpecsOf(PluginIdBySlot(plugins), plugins)
  {
    var pluginIdBySlot: map<Slot, Id> := map[];
    for i := 0 to |plugins|
      invariant pluginIdBySlot == PluginIdBySlot(plugins[..i])
    {
      assert plugins[..i + 1][..i] == plugins[..i];
      if plugins[i].SlotPlugin? {
        pluginIdBySlot := pluginIdBySlot[plugins[i].slot := plugins[i].pluginId];
      }
    }
    assert plugins[..|plugins|] == plugins;
    specs := SpecsOf(pluginIdBySlot, plugins);
  }

  // ----- Dependencies come earlier -----

  lemma {:induction false} IdBySlotOverAppend(a: seq<PresetPlugin>, b: seq<PresetPlugin>)
    ensures PluginIdBySlot(a + b) == PluginIdBySlot(a) + PluginIdBySlot(b)
  {
    if b == [] {
      assert a + b == a;
    } else {
      var init := b[..|b| - 1];
      IdBySlotOverAppend(a, init);
      assert (a + b)[..|a + b| - 1] == a + init;
    }
  }

  lemma {:induction false} AddonsHaveNoSlot(plugins: seq<PresetPlugin>)
    requires forall x :: x in plugins ==> x.AddonEntry?
    ensures PluginIdBySlot(plugins) == map[]
  {
    if plugins != [] {
      assert plugins[|plugins| - 1] in plugins;
      AddonsHaveNoSlot(plugins[..|plugins| - 1]);
    }
  }

  ghost predicate KeepsSlots(resolved: map<Slot, Resolved>) {
    forall slot :: slot in resolved ==> resolved[slot].binding.slot == slot
  }

  lemma {:induction false} BlockIds(resolved: map<Slot, Resolved>, addons: seq<AddonPlugin>, slot: Slot)
    requires KeepsSlots(resolved)
    ensures PluginIdBySlot(Block(resolved, addons, slot)) ==
            if slot in resolved then map[slot := resolved[slot].binding.pluginId] else map[]
  {
    if slot in resolved {
      var before, after := AddonsAt(addons, slot, Before), AddonsAt(addons, slot, After);
      var middle := [ToPlugin(resolved[slot])];
      AddonsHaveNoSlot(before);
      AddonsHaveNoSlot(after);
      IdBySlotOverAppend(before + middle, after);
      IdBySlotOverAppend(before, middle);
      assert middle[..|middle| - 1] == [];
    }
  }

  // The slot map of a laid out prefix: the resolved ids of its slots.
  lemma {:induction false} LayoutIds(table: seq<SlotBinding>, resolved: map<Slot, Resolved>, addons: seq<AddonPlugin>)
    requires KeepsSlots(resolved)
    ensures forall slot :: slot in PluginIdBySlot(Layout(table, resolved, addons))
                           <==> slot in resolved && InTable(table, slot)
    ensures forall slot :: slot in PluginIdBySlot(Layout(table, resolved, addons)) ==>
                           PluginIdBySlot(Layout(table, resolved, addons))[slot] == resolved[slot].binding.pluginId
  {
    hide Block, KeepsSlots;
    if table != [] {
      var init, last := table[..|table| - 1], table[|table| - 1];
      LayoutIds(init, resolved, addons);
      BlockIds(resolved, addons, last.slot);
      IdBySlotOverAppend(Layout(init, resolved, addons), Block(resolved, addons, last.slot));
      assert table == init + [last];
      forall slot
        ensures InTable(table, slot) <==> InTable(init, slot) || slot == last.slot
      {
        if InTable(init, slot) {
          var i :| 0 <= i < |init| && init[i].slot == slot;
          assert table[i].slot == slot;
        }
        if slot == last.slot {
          assert table[|init|].slot == slot;
        }
      }
    }
  }

  // A slot that the slot map knows has its plugin somewhere in the layout.
  lemma {:induction false} SlotIdOccurs(plugins: seq<PresetPlugin>, slot: Slot)
    requires slot in PluginIdBySlot(plugins)
    ensures exists k :: 0 <= k < |plugins| && plugins[k].pluginId == PluginIdBySlot(plugins)[slot]
  {
    var init, last := plugins[..|plugins| - 1], plugins[|plugins| - 1];
    if last.SlotPlugin? && last.slot == slot {
      assert plugins[|plugins| - 1].pluginId == PluginIdBySlot(plugins)[slot];
    } else {
      SlotIdOccurs(init, slot);
      var k :| 0 <= k < |init| && init[k].pluginId == PluginIdBySlot(init)[slot];
      assert plugins[k] == init[k];
    }
  }

  ghost predicate Occurs(plugins: seq<PresetPlugin>, n: nat, d: Id) {
    exists j :: 0 <= j < n && j < |plugins| && plugins[j].pluginId == d
  }

  // Every dependency of an entry is the id of an earlier entry.
  ghost predicate DependsBackwards(ids: map<Slot, Id>, plugins: seq<PresetPlugin>) {
    forall k, d | 0 <= k < |plugins| && d in SpecDependencies(ids, plugins[k]) :: Occurs(plugins, k, d)
  }

  lemma {:induction false} SlotDependencyOccurs(table: seq<SlotBinding>, resolved: map<Slot, Resolved>, addons: seq<AddonPlugin>,
                             n: nat, ids: map<Slot, Id>, d: Id)
    requires DependenciesPrecede(table) && KeepsSlots(resolved) && n < |table|
    requires forall slot :: slot in resolved ==> InTable(table, slot)
    requires ids == PluginIdBySlot(Layout(table, resolved, addons))
    requires d in PresentIds(ids, DependencySlots(table[n].slot))
    ensures var earlier := Layout(table[..n], resolved, addons); Occurs(earlier, |earlier|, d)
  {
    LayoutIds(table, resolved, addons);
    var s :| s in DependencySlots(table[n].slot) && s in ids && ids[s] == d;
    var i :| 0 <= i < |table| && table[i].slot == s;
    assert i < n;
    assert table[..n][i].slot == s;
    LayoutIds(table[..n], resolved, addons);
    SlotIdOccurs(Layout(table[..n], resolved, addons), s);
  }

  // What the entries of a block depend on: an addon placed after the slot plugin
  // on that plugin, all others on the slots before.
  lemma {:induction false} BlockDependencies(resolved: map<Slot, Resolved>, addons: seq<AddonPlugin>, slot: Slot,
                                             ids: map<Slot, Id>, k: nat)
    requires KeepsSlots(resolved) && k < |Block(resolved, addons, slot)|
    ensures var block, own := Block(resolved, addons, slot), |AddonsAt(addons, slot, Before)|;
            && slot in resolved && own < |block| && block[own] == ToPlugin(resolved[slot])
            && SpecDependencies(ids, block[k]) == PresentIds(ids, if k > own then [slot] else DependencySlots(slot))
  {
    hide PresentIds, DependencySlots, AddonsAt;
    var before, after := AddonsAt(addons, slot, Before), AddonsAt(addons, slot, After);
    var block := Block(resolved, addons, slot);
    assert block == before + [ToPlugin(resolved[slot])] + after;
    if k > |before| {
      assert block[k] == after[k - |before| - 1];
      assert block[k] in after;
    } else if k < |before| {
      assert block[k] == before[k] && block[k] in before;
    }
  }

  // So they lie in earlier blocks, or earlier in the block.
  lemma {:induction false} BlockDependsBackwards(table: seq<SlotBinding>, resolved: map<Slot, Resolved>, addons: seq<AddonPlugin>,
                              n: nat, ids: map<Slot, Id>, k: nat, d: Id)
    requires DependenciesPrecede(table) && KeepsSlots(resolved) && n < |table|
    requires forall slot :: slot in resolved ==> InTable(table, slot)
    requires ids == PluginIdBySlot(Layout(table, resolved, addons))
    requires k < |Block(resolved, addons, table[n].slot)|
    requires d in SpecDependencies(ids, Block(resolved, addons, table[n].slot)[k])
    ensures var earlier := Layout(table[..n], resolved, addons);
            Occurs(earlier, |earlier|, d) || Occurs(Block(resolved, addons, table[n].slot), k, d)
  {
    hide PluginIdBySlot, KeepsSlots, DependenciesPrecede, DependencySlots, Block, Layout, AddonsAt, SpecDependencies, InTable;
    var slot := table[n].slot;
    BlockDependencies(resolved, addons, slot, ids, k);
    if k > |AddonsAt(addons, slot, Before)| {
      LayoutIds(table, resolved, addons);
      assert ids[slot] == Block(resolved, addons, slot)[|AddonsAt(addons, slot, Before)|].pluginId;
    } else {
      hide Occurs;
      SlotDependencyOccurs(table, resolved, addons, n, ids, d);
    }
  }

  lemma {:induction false} AppendDependsBackwards(ids: map<Slot, Id>, a: seq<PresetPlugin>, b: seq<PresetPlugin>)
    requires DependsBackwards(ids, a)
    requires forall k, d | 0 <= k < |b| && d in SpecDependencies(ids, b[k]) :: Occurs(a, |a|, d) || Occurs(b, k, d)
    ensures DependsBackwards(ids, a + b)
  {
    var all := a + b;
    forall k, d | 0 <= k < |all| && d in SpecDependencies(ids, all[k])
      ensures Occurs(all, k, d)
    {
      if k < |a| {
        assert Occurs(a, k, d);
        var j :| 0 <= j < k && j < |a| && a[j].pluginId == d;
        assert all[j] == a[j];
      } else if Occurs(a, |a|, d) {
        var j :| 0 <= j < |a| && a[j].pluginId == d;
        assert all[j] == a[j];
      } else {
        assert Occurs(b, k - |a|, d);
        var j :| 0 <= j < k - |a| && j < |b| && b[j].pluginId == d;
        assert all[|a| + j] == b[j];
      }
    }
  }

  lemma {:induction false} LayoutDependsBackwards(table: seq<SlotBinding>, resolved: map<Slot, Resolved>,
                                                  addons: seq<AddonPlugin>, n: nat, ids: map<Slot, Id>)
    requires DependenciesPrecede(table) && KeepsSlots(resolved) && n <= |table|
    requires forall slot :: slot in resolved ==> InTable(table, slot)
    requires ids == PluginIdBySlot(Layout(table, resolved, addons))
    ensures DependsBackwards(ids, Layout(table[..n], resolved, addons))
  {
    hide SpecDependencies, Block, Occurs, PluginIdBySlot, KeepsSlots, DependenciesPrecede, InTable;
    if n > 0 {
      LayoutDependsBackwards(table, resolved, addons, n - 1, ids);
      assert table[..n][..n - 1] == table[..n - 1];
      var block := Block(resolved, addons, table[n - 1].slot);
      forall k, d | 0 <= k < |block| && d in SpecDependencies(ids, block[k])
        ensures var earlier := Layout(table[..n - 1], resolved, addons);
                Occurs(earlier, |earlier|, d) || Occurs(block, k, d)
      {
        BlockDependsBackwards(table, resolved, addons, n - 1, ids, k, d);
      }
      AppendDependsBackwards(ids, Layout(table[..n - 1], resolved, addons), block);
    }
  }

  // Every accepted preset is emitted in dependency order.
  lemma {:induction false} SpecsInDependencyOrder(table: seq<SlotBinding>, overrides: seq<SlotOverride>, addons: seq<AddonPlugin>,
                               mode: Option<SandboxMode>, source: Option<SandboxSource>, resolved: map<Slot, Resolved>)
    requires DependenciesPrecede(table)
    requires Accepts(table, overrides, addons, mode, source, resolved)
    ensures var plugins := Layout(table, resolved, addons);
            DependencyOrder.InDependencyOrder(SpecsOf(PluginIdBySlot(plugins), plugins))
  {
    var effective := WithSandboxSlotOverrides(overrides, mode, source).value;
    ResolvedKeepsSlots(table, effective, resolved);
    var plugins := Layout(table, resolved, addons);
    var ids := PluginIdBySlot(plugins);
    var specs := SpecsOf(ids, plugins);
    LayoutDependsBackwards(table, resolved, addons, |table|, ids);
    assert table[..|table|] == table;
    forall k, d | 0 <= k < |specs| && d in specs[k].dependencies
      ensures d in DependencyOrder.Ids(specs[..k])
    {
      assert Occurs(plugins, k, d);
      var j :| 0 <= j < k && plugins[j].pluginId == d;
      assert specs[..k][j] == SpecOf(ids, plugins[j]);
    }
  }

  // The preset handed to the plugin host: the resolver keeps the emitted
  // order, and refuses it only when two plugins share an id.
  method StartupOrder(overrides: seq<SlotOverride>, addons: seq<AddonPlugin>,
                      mode: Option<SandboxMode>, source: Option<SandboxSource>)
    returns (preset: Result<Preset>, specs: seq<DependencyOrder.Plugin>, order: DependencyOrder.Outcome)
    ensures preset.Success? ==> |specs| == |preset.value.plugins|
                                && forall i :: 0 <= i < |specs| ==> specs[i].id == preset.value.plugins[i].pluginId
    ensures preset.Success? ==> DependencyOrder.InDependencyOrder(specs)
    ensures preset.Success? && DependencyOrder.UniqueIds(specs) ==> order == DependencyOrder.Ordered(specs)
    ensures preset.Success? && !DependencyOrder.UniqueIds(specs) ==> order.Cyclic?
  {
    specs, order := [], DependencyOrder.Ordered([]);
    ghost var resolved;
    preset, resolved := CreateResolvedStarterPreset(DEFAULT_SLOTS, overrides, addons, mode, source);
    if preset.Failure? {
      return;
    }
    specs := ResolveBootstrapPluginSpecs(preset.value.plugins);
    DefaultTableIsOrdered();
    SpecsInDependencyOrder(DEFAULT_SLOTS, overrides, addons, mode, source, resolved);
    ghost var indices;
    order, indices := DependencyOrder.ResolvePluginOrder(specs);
    OrderedListIsAccepted(specs);
    if order.Ordered? {
      DependencyOrder.DependencyOrderIsKept(specs, indices);
    }
  }

  lemma {:induction false} OrderedListIsAccepted(specs: seq<DependencyOrder.Plugin>)
    requires DependencyOrder.InDependencyOrder(specs)
    ensures DependencyOrder.Registered(specs)
    ensures DependencyOrder.UniqueIds(specs) ==> DependencyOrder.Acyclic(specs)
  {
    forall i, d | 0 <= i < |specs| && d in specs[i].dependencies
      ensures d in DependencyOrder.Ids(specs)
    {
      var m :| 0 <= m < |specs[..i]| && specs[..i][m].id == d;
      assert specs[m].id == d;
    }
    if DependencyOrder.UniqueIds(specs) {
      DependencyOrder.RegistrationOrderIsValid(specs);
      DependencyOrder.ValidOrderHasNoCycle(specs, DependencyOrder.RegistrationOrder(|specs|));
    }
  }

  /** Every slot plugin of a preset is the binding its slot was resolved to. */
  lemma {:induction false} SlotPluginsAreAsResolved(table: seq<SlotBinding>, resolved: map<Slot, Resolved>,
                                                    addons: seq<AddonPlugin>, p: PresetPlugin)
    requires KeepsSlots(resolved) && p in Layout(table, resolved, addons) && p.SlotPlugin?
    ensures && p.slot in resolved && InTable(table, p.slot)
            && p.pluginId == resolved[p.slot].binding.pluginId && (p.required <==> resolved[p.slot].binding.required)
            && p.source == resolved[p.slot].source && p.description == resolved[p.slot].binding.description
  {
    hide AddonsAt;
    var front, last := table[..|table| - 1], table[|table| - 1];
    if p in Layout(front, resolved, addons) {
      SlotPluginsAreAsResolved(front, resolved, addons, p);
      var i :| 0 <= i < |front| && front[i].slot == p.slot;
      assert table[i].slot == p.slot;
    } else {
      assert p in Block(resolved, addons, last.slot);
      assert table[|table| - 1].slot == last.slot;
    }
  }
}
