/** Resolving the configuration layers and the selected profile. */
module ConfigResolve {
  import opened Text
  import opened Lists
  import opened ConfigTypes
  import opened ConfigFields
  import opened ConfigMerge

  // ---------------------------------------------------------------------------------------------
  // The program
  // ---------------------------------------------------------------------------------------------

  function FindProfile(profiles: seq<Profile>, name: string): Option<Profile> {
    var i := IndexOfProfile(profiles, name);
    if i < |profiles| then Some(profiles[i]) else None
  }

  /** What applying a profile that is defined makes of a configuration. */
  function Applied(config: Config, p: Profile): Config {
    config.(activeProfile := Some(p.name), settings := MergedSettings(config.settings, p.settings))
  }

  /** A configuration that the layers are merged into one after the other. */
  class ResolvedConfig {
    var activeProfile: Option<string>
    var profiles: seq<Profile>
    var toolRouting: WebSearchRouting
    var settings: Settings

    function Value(): Config
      reads this
    {
      Config(activeProfile, profiles, toolRouting, settings)
    }

    constructor (builtin: Config)
      ensures Value() == builtin
    {
      activeProfile, profiles := builtin.activeProfile, builtin.profiles;
      toolRouting, settings := builtin.toolRouting, builtin.settings;
    }

    method Merge(overlay: Config)
      modifies this
      ensures Value() == MergedConfig(old(Value()), overlay)
    {
      activeProfile := ReplaceIfSome(activeProfile, overlay.activeProfile);
      profiles := MergeProfileConfigs(profiles, overlay.profiles);
      toolRouting := MergedWebSearchRouting(toolRouting, overlay.toolRouting);
      var capacity := MergeRunnerCapacity(settings.runnerCapacity, overlay.settings.runnerCapacity);
      settings := MergedSettings(settings, overlay.settings).(runnerCapacity := capacity);
    }

    method ApplyProfile(name: string) returns (defined: bool)
      modifies this
      ensures defined <==> FindProfile(old(profiles), name).Some?
      ensures Value() == if defined then Applied(old(Value()), FindProfile(old(profiles), name).value) else old(Value())
    {
      match FindProfile(profiles, name) {
        case None =>
          defined := false;
        case Some(p) =>
          activeProfile := Some(p.name);
          var capacity := MergeRunnerCapacity(settings.runnerCapacity, p.settings.runnerCapacity);
          settings := MergedSettings(settings, p.settings).(runnerCapacity := capacity);
          defined := true;
      }
    }
  }

  /** The lane policies of an overlay, inserted one by one. */
  method InsertPolicies(base: map<string, string>, overlay: map<string, string>) returns (policies: map<string, string>)
    ensures policies == base + overlay
  {
    policies := base;
    var todo := overlay.Keys;
    while todo != {}
      invariant todo <= overlay.Keys
      invariant IsInserted(base, overlay, todo, policies)
      decreases |todo|
    {
      var lane :| lane in todo;
      policies := policies[lane := overlay[lane]];
      todo := todo - {lane};
    }
    AllInserted(base, overlay, policies);
  }

  method MergeRunnerCapacity(base: RunnerCapacity, overlay: RunnerCapacity) returns (merged: RunnerCapacity)
    ensures merged == MergedRunnerCapacity(base, overlay)
  {
    var policies := InsertPolicies(base.lanePolicies, overlay.lanePolicies);
    merged := RunnerCapacity(ReplaceIfSome(base.defaultPolicy, overlay.defaultPolicy), policies);
  }

  /** The policies are those of the base, overridden by those of the overlay that are not to do. */
  ghost predicate IsInserted(base: map<string, string>, overlay: map<string, string>, todo: set<string>,
                             policies: map<string, string>)
  {
    && (forall k :: k in policies <==> k in base || (k in overlay && k !in todo))
    && (forall k :: k in policies ==> policies[k] == if k in overlay && k !in todo then overlay[k] else base[k])
  }

  lemma AllInserted(base: map<string, string>, overlay: map<string, string>, policies: map<string, string>)
    requires IsInserted(base, overlay, {}, policies)
    ensures policies == base + overlay
  {
    assert policies.Keys == (base + overlay).Keys;
  }

  /** A name that is more than white space. */
  function NonBlank(name: Option<string>): (given: Option<string>)
    ensures given.Some? <==> name.Some? && Trim(name.value) != ""
    ensures given.Some? ==> given == name
  {
    if name.Some? && Trim(name.value) != "" then name else None
  }

  /** The profile to apply: the command line's, else the environment's, each unless blank, else
      the one that the merged configuration names. */
  function SelectedProfile(commandLine: Option<string>, environment: Option<string>, active: Option<string>)
    : Option<string>
  {
    var named := NonBlank(ReplaceIfSome(environment, NonBlank(commandLine)));
    ReplaceIfSome(active, named)
  }

  function WithLayer(config: Config, layer: Option<Config>): Config {
    if layer.Some? then MergedConfig(config, layer.value) else config
  }

  function Layered(builtin: Config, project: Option<Config>, user: Option<Config>): Config {
    WithLayer(WithLayer(builtin, project), user)
  }

  /** The resolved configuration, or none when the selected profile is not defined. */
  function Resolved(builtin: Config, project: Option<Config>, user: Option<Config>,
                    commandLine: Option<string>, environment: Option<string>): Option<Config> {
    var merged := Layered(builtin, project, user);
    match SelectedProfile(commandLine, environment, merged.activeProfile)
    case None => Some(merged)
    case Some(name) =>
      match FindProfile(merged.profiles, name)
      case None => None
      case Some(p) => Some(Applied(merged, p))
  }

  method LoadResolvedConfig(builtin: Config, project: Option<Config>, user: Option<Config>,
                            commandLine: Option<string>, environment: Option<string>)
    returns (resolved: Option<Config>)
    ensures resolved == Resolved(builtin, project, user, commandLine, environment)
  {
    var config := new ResolvedConfig(builtin);
    if project.Some? {
      config.Merge(project.value);
    }
    if user.Some? {
      config.Merge(user.value);
    }
    var selected := SelectedProfile(commandLine, environment, config.activeProfile);
    if selected.Some? {
      var defined := config.ApplyProfile(selected.value);
      if !defined {
        return None;
      }
    }
    return Some(config.Value());
  }

  // ---------------------------------------------------------------------------------------------
  // Precedence
  // ---------------------------------------------------------------------------------------------

  /** A layer's own profile of the name: its profiles of that name merged into one. */
  function LayerProfile(layer: Option<Config>, name: string): Option<Profile> {
    if layer.None? then None else FindProfile(Upsert([], layer.value.profiles), name)
  }

  function MergedIfBoth(base: Option<Profile>, overlay: Option<Profile>): Option<Profile> {
    if base.Some? && overlay.Some? then Some(MergedProfile(base.value, overlay.value))
    else ReplaceIfSome(base, overlay)
  }

  lemma FindAfterUpsertOne(profiles: seq<Profile>, p: Profile, name: string)
    ensures FindProfile(UpsertOne(profiles, p), name) ==
      if p.name == name then MergedIfBoth(FindProfile(profiles, name), Some(p)) else FindProfile(profiles, name)
  {
    var i, k := IndexOfProfile(profiles, p.name), IndexOfProfile(profiles, name);
    if p.name == name || k < |profiles| {
      IndexUnique(UpsertOne(profiles, p), name, k);
    } else {
      IndexUnique(UpsertOne(profiles, p), name, |UpsertOne(profiles, p)|);
    }
  }

  /** A merged profile is the base layer's merged with the overlay's own. */
  lemma {:induction false} FindAfterUpsert(base: seq<Profile>, overlay: seq<Profile>, name: string)
    ensures FindProfile(Upsert(base, overlay), name) ==
      MergedIfBoth(FindProfile(base, name), FindProfile(Upsert([], overlay), name))
  {
    if overlay == [] {
      assert Upsert([], overlay) == [];
    } else {
      var init, p := overlay[..|overlay| - 1], overlay[|overlay| - 1];
      FindAfterUpsert(base, init, name);
      FindAfterUpsertOne(Upsert(base, init), p, name);
      FindAfterUpsertOne(Upsert([], init), p, name);
      var a, b := FindProfile(base, name), FindProfile(Upsert([], init), name);
      if a.Some? && b.Some? {
        ProfileBand(a.value, b.value, p);
      }
    }
  }

  /** The profile that resolution finds is the merge of the layers' own ones. */
  lemma ProfileOfLayers(builtin: Config, project: Option<Config>, user: Option<Config>, name: string)
    ensures FindProfile(Layered(builtin, project, user).profiles, name) ==
      MergedIfBoth(MergedIfBoth(FindProfile(builtin.profiles, name), LayerProfile(project, name)),
                   LayerProfile(user, name))
  {
    if project.Some? {
      FindAfterUpsert(builtin.profiles, project.value.profiles, name);
    }
    if user.Some? {
      FindAfterUpsert(WithLayer(builtin, project).profiles, user.value.profiles, name);
    }
  }

  function ReadProfile(p: Option<Profile>, field: Field): Option<string> {
    if p.None? then None else Read(p.value.settings, field)
  }

  function ReadLayer(layer: Option<Config>, field: Field): Option<string> {
    if layer.None? then None else Read(layer.value.settings, field)
  }

  lemma ReadMergedProfile(base: Option<Profile>, overlay: Option<Profile>, field: Field)
    ensures ReadProfile(MergedIfBoth(base, overlay), field) ==
      ReplaceIfSome(ReadProfile(base, field), ReadProfile(overlay, field))
  {
    if base.Some? && overlay.Some? {
      FieldLayered(base.value.settings, overlay.value.settings, field);
    }
  }

  lemma ReadWithLayer(config: Config, layer: Option<Config>, field: Field)
    ensures Read(WithLayer(config, layer).settings, field) ==
      ReplaceIfSome(Read(config.settings, field), ReadLayer(layer, field))
  {
    if layer.Some? {
      FieldLayered(config.settings, layer.value.settings, field);
    }
  }

  function ActiveOf(layer: Option<Config>): Option<string> {
    if layer.None? then None else layer.value.activeProfile
  }

  /** A name that is more than white space, and nothing instead of any other. */
  ghost predicate IsGiven(name: Option<string>, given: Option<string>) {
    if name.Some? && Trim(name.value) != "" then given == name else given == None
  }

  /** The applied profile is the first present of five: the command line's and the environment's
      name, each unless blank, and the active profiles of user, project and built-in. */
  lemma SelectionPrecedence(builtin: Config, project: Option<Config>, user: Option<Config>,
                            commandLine: Option<string>, environment: Option<string>,
                            fromCommandLine: Option<string>, fromEnvironment: Option<string>)
    requires IsGiven(commandLine, fromCommandLine) && IsGiven(environment, fromEnvironment)
    ensures SelectedProfile(commandLine, environment, Layered(builtin, project, user).activeProfile) ==
      FirstPresent([fromCommandLine, fromEnvironment, ActiveOf(user), ActiveOf(project), builtin.activeProfile])
  {
    var a, b, c, d, e := fromCommandLine, fromEnvironment, ActiveOf(user), ActiveOf(project), builtin.activeProfile;
    FirstOfThree(c, d, e);
    FirstPrepend(a, [b, c, d, e]);
    FirstPrepend(b, [c, d, e]);
    assert [a] + [b, c, d, e] == [a, b, c, d, e] && [b] + [c, d, e] == [b, c, d, e];
  }

  lemma FirstPrepend(first: Option<string>, rest: seq<Option<string>>)
    ensures FirstPresent([first] + rest) == if first.Some? then first else FirstPresent(rest)
  {
    assert ([first] + rest)[1..] == rest;
  }

  /** Resolving takes the settings of that profile, and fails exactly when no layer defines it. Every
      optional setting is the first present value among the user's profile, the project's profile,
      the built-in profile, the user's, the project's and the built-in top level; without a
      selected profile, among the last three. */
  lemma Precedence(builtin: Config, project: Option<Config>, user: Option<Config>,
                   commandLine: Option<string>, environment: Option<string>,
                   fromCommandLine: Option<string>, fromEnvironment: Option<string>, field: Field)
    requires IsGiven(commandLine, fromCommandLine) && IsGiven(environment, fromEnvironment)
    ensures var selected :=
        FirstPresent([fromCommandLine, fromEnvironment, ActiveOf(user), ActiveOf(project), builtin.activeProfile]);
      var resolved := Resolved(builtin, project, user, commandLine, environment);
      var topLevel := [ReadLayer(user, field), ReadLayer(project, field), Read(builtin.settings, field)];
      if selected.None? then
        && resolved.Some? && resolved.value.activeProfile == None
        && Read(resolved.value.settings, field) == FirstPresent(topLevel)
      else
        var userProfile := LayerProfile(user, selected.value);
        var projectProfile := LayerProfile(project, selected.value);
        var builtinProfile := FindProfile(builtin.profiles, selected.value);
        && (resolved.None? <==> userProfile.None? && projectProfile.None? && builtinProfile.None?)
        && (resolved.Some? ==>
              && resolved.value.activeProfile == selected
              && Read(resolved.value.settings, field) == FirstPresent(
                   [ReadProfile(userProfile, field),
                    ReadProfile(projectProfile, field),
                    ReadProfile(builtinProfile, field)] + topLevel))
  {
    SelectionPrecedence(builtin, project, user, commandLine, environment, fromCommandLine, fromEnvironment);
    FieldPrecedence(builtin, project, user, commandLine, environment, field);
  }

  lemma FieldPrecedence(builtin: Config, project: Option<Config>, user: Option<Config>,
                        commandLine: Option<string>, environment: Option<string>, field: Field)
    ensures var selected := SelectedProfile(commandLine, environment, Layered(builtin, project, user).activeProfile);
      var resolved := Resolved(builtin, project, user, commandLine, environment);
      var topLevel := [ReadLayer(user, field), ReadLayer(project, field), Read(builtin.settings, field)];
      if selected.None? then
        resolved.Some? && Read(resolved.value.settings, field) == FirstPresent(topLevel)
      else
        var userProfile := LayerProfile(user, selected.value);
        var projectProfile := LayerProfile(project, selected.value);
        var builtinProfile := FindProfile(builtin.profiles, selected.value);
        && (resolved.None? <==> userProfile.None? && projectProfile.None? && builtinProfile.None?)
        && (resolved.Some? ==>
              && resolved.value.activeProfile == selected
              && Read(resolved.value.settings, field) == FirstPresent(
                   [ReadProfile(userProfile, field),
                    ReadProfile(projectProfile, field),
                    ReadProfile(builtinProfile, field)] + topLevel))
  {
    var merged := Layered(builtin, project, user);
    ReadWithLayer(builtin, project, field);
    ReadWithLayer(WithLayer(builtin, project), user, field);
    var u, p, b := ReadLayer(user, field), ReadLayer(project, field), Read(builtin.settings, field);
    FirstOfThree(u, p, b);
    var selected := SelectedProfile(commandLine, environment, merged.activeProfile);
    if selected.Some? {
      var name := selected.value;
      ProfileOfLayers(builtin, project, user, name);
      var pu, pp, pb := LayerProfile(user, name), LayerProfile(project, name), FindProfile(builtin.profiles, name);
      ReadMergedProfile(pb, pp, field);
      ReadMergedProfile(MergedIfBoth(pb, pp), pu, field);
      FirstOfSix(ReadProfile(pu, field), ReadProfile(pp, field), ReadProfile(pb, field), u, p, b);
      var found := FindProfile(merged.profiles, name);
      if found.Some? {
        FieldLayered(merged.settings, found.value.settings, field);
      }
    }
  }

  // ---------------------------------------------------------------------------------------------
  // Lists and tool routing
  // ---------------------------------------------------------------------------------------------

  function ListOf(layer: Option<Settings>, field: ListField): seq<string> {
    if layer.None? then [] else ReadList(layer.value, field)
  }

  function SettingsOf(layer: Option<Config>): Option<Settings> {
    if layer.None? then None else Some(layer.value.settings)
  }

  function ProfileSettings(p: Option<Profile>): Option<Settings> {
    if p.None? then None else Some(p.value.settings)
  }

  lemma ListWithLayer(config: Config, layer: Option<Config>, field: ListField)
    ensures ReadList(WithLayer(config, layer).settings, field) ==
      AppendUnique(ReadList(config.settings, field), ListOf(SettingsOf(layer), field))
  {
    if layer.Some? {
      ListLayered(config.settings, layer.value.settings, field);
    }
  }

  /** A list in the resolved settings is the built-in one, then what project and user append, then
      what the selected profile appends; nothing is dropped and nothing appended twice. */
  lemma ListPrecedence(builtin: Config, project: Option<Config>, user: Option<Config>,
                       commandLine: Option<string>, environment: Option<string>, field: ListField)
    ensures var merged := Layered(builtin, project, user);
      var resolved := Resolved(builtin, project, user, commandLine, environment);
      var selected := SelectedProfile(commandLine, environment, merged.activeProfile);
      var profile := if selected.None? then None else FindProfile(merged.profiles, selected.value);
      resolved.Some? ==>
        ReadList(resolved.value.settings, field) ==
        AppendUnique(
          AppendUnique(
            AppendUnique(ReadList(builtin.settings, field), ListOf(SettingsOf(project), field)),
            ListOf(SettingsOf(user), field)),
          ListOf(ProfileSettings(profile), field))
  {
    var merged := Layered(builtin, project, user);
    ListWithLayer(builtin, project, field);
    ListWithLayer(WithLayer(builtin, project), user, field);
    var selected := SelectedProfile(commandLine, environment, merged.activeProfile);
    if selected.Some? && FindProfile(merged.profiles, selected.value).Some? {
      ListLayered(merged.settings, FindProfile(merged.profiles, selected.value).value.settings, field);
    }
  }

  function ToolOf(layer: Option<Config>, field: ToolField): Option<string> {
    if layer.None? then None else ReadTool(layer.value.toolRouting, field)
  }

  function ToolListOf(layer: Option<Config>, list: ToolListField): seq<string> {
    if layer.None? then [] else ReadToolList(layer.value.toolRouting, list)
  }

  lemma ToolWithLayer(config: Config, layer: Option<Config>, field: ToolField, list: ToolListField)
    ensures ReadTool(WithLayer(config, layer).toolRouting, field) ==
      ReplaceIfSome(ReadTool(config.toolRouting, field), ToolOf(layer, field))
    ensures ReadToolList(WithLayer(config, layer).toolRouting, list) ==
      AppendUnique(ReadToolList(config.toolRouting, list), ToolListOf(layer, list))
  {
    if layer.Some? {
      ToolFieldLayered(config.toolRouting, layer.value.toolRouting, field, list);
    }
  }

  /** Tool routing comes from the layers alone, whatever the selected profile says about it. */
  lemma ToolPrecedence(builtin: Config, project: Option<Config>, user: Option<Config>,
                       commandLine: Option<string>, environment: Option<string>,
                       field: ToolField, list: ToolListField)
    ensures var resolved := Resolved(builtin, project, user, commandLine, environment);
      resolved.Some? ==>
        && ReadTool(resolved.value.toolRouting, field) ==
             FirstPresent([ToolOf(user, field), ToolOf(project, field), ReadTool(builtin.toolRouting, field)])
        && ReadToolList(resolved.value.toolRouting, list) ==
             AppendUnique(AppendUnique(ReadToolList(builtin.toolRouting, list), ToolListOf(project, list)),
                          ToolListOf(user, list))
  {
    ToolWithLayer(builtin, project, field, list);
    ToolWithLayer(WithLayer(builtin, project), user, field, list);
    FirstOfThree(ToolOf(user, field), ToolOf(project, field), ReadTool(builtin.toolRouting, field));
  }

  lemma FirstOfThree(a: Option<string>, b: Option<string>, c: Option<string>)
    ensures FirstPresent([a, b, c]) == ReplaceIfSome(ReplaceIfSome(c, b), a)
  {
    assert [a, b, c][1..] == [b, c] && [b, c][1..] == [c] && [c][1..] == [];
    assert FirstPresent([c]) == c;
    assert FirstPresent([b, c]) == ReplaceIfSome(c, b);
  }

  lemma FirstOfSix(a: Option<string>, b: Option<string>, c: Option<string>,
                   d: Option<string>, e: Option<string>, f: Option<string>)
    ensures FirstPresent([a, b, c] + [d, e, f]) ==
      ReplaceIfSome(FirstPresent([d, e, f]), ReplaceIfSome(ReplaceIfSome(c, b), a))
  {
    var rest := [d, e, f];
    assert ([a, b, c] + rest)[1..] == [b, c] + rest;
    assert ([b, c] + rest)[1..] == [c] + rest;
    assert ([c] + rest)[1..] == rest;
    assert FirstPresent([c] + rest) == ReplaceIfSome(FirstPresent(rest), c);
    assert FirstPresent([b, c] + rest) == ReplaceIfSome(FirstPresent([c] + rest), b);
  }

  // ---------------------------------------------------------------------------------------------
  // Applying a profile
  // ---------------------------------------------------------------------------------------------

  /** Applying a profile a second time changes nothing. */
  lemma ApplyTwice(config: Config, p: Profile)
    ensures Applied(Applied(config, p), p) == Applied(config, p)
    ensures Applied(config, p).toolRouting == config.toolRouting && Applied(config, p).profiles == config.profiles
  {
    SettingsBand(config.settings, p.settings, p.settings);
    SettingsBand(p.settings, p.settings, p.settings);
  }
}
