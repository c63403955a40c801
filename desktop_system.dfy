/** The desktop as an event-sourced system (desktop/src/desktop_system.rs): a project is
    turned into a transaction of project commands, and applying the commands in order
    builds the hierarchy of groups and launchers, the layout specs of the groups and the
    startup profile.

    The hierarchy that holds the desktop targets is a parameter: its `insert` and `remove`
    are given as functions (`HierarchyOps`), because that hierarchy's insertion operations
    are not part of this model. */
module DesktopSystems {
  import opened Wrappers
  import C = ProjectConfiguration
  import P = Projects
  import E = EventSourcing
  import LayoutSpecs

  type GroupId = P.GroupId
  type LaunchProfileId = P.LaunchProfileId

  /** The targets of the desktop hierarchy that projects add. */
  datatype DesktopTarget = Group(group: GroupId) | Launcher(launcher: LaunchProfileId)

  /** The properties a group command carries: what a group has besides its id and
      contents. */
  datatype GroupProperties = GroupProperties(name: string, tag: C.ScopedTag, layout: C.LayoutDirection)

  /** `ProjectCommand`. */
  datatype ProjectCommand =
    | InsertLaunchGroup(parent: Option<E.OrderedInsertion<GroupId>>, id: GroupId, properties: GroupProperties)
    | RemoveLaunchGroup(group: GroupId)
    | InsertLauncher(into: E.OrderedInsertion<GroupId>, launcher: LaunchProfileId, profile: C.LaunchProfile)
    | RemoveLauncher(removed: LaunchProfileId)
    | SetStartupProfile(startup: Option<LaunchProfileId>)

  /** `DesktopCommand`. */
  datatype DesktopCommand = Project(command: ProjectCommand)

  /** `Thickness<2>` built from a leading and a trailing padding. */
  datatype Thickness = Thickness(leading: nat, trailing: nat)

  /** `LayoutSpec`. A container is laid out along the axis of its group's layout
      direction. */
  datatype LayoutSpec =
    | Container(direction: C.LayoutDirection, padding: Thickness, spacing: nat)
    | Leaf(width: nat, height: nat)

  /** The spec of a group: a container with spacing 10 and padding 10 on both sides. */
  function GroupSpec(layout: C.LayoutDirection): LayoutSpec {
    Container(layout, Thickness(10, 10), 10)
  }

  // Commands of a project

  function PropertiesOf(g: P.LaunchGroup): GroupProperties {
    GroupProperties(g.name, g.tag, g.layout)
  }

  /** `parent.map(Into::into)`: a parent group id becomes an append to it. */
  function AppendTo(parent: Option<GroupId>): Option<E.OrderedInsertion<GroupId>> {
    match parent
    case None => None
    case Some(p) => Some(E.Append(p))
  }

  function LauncherCommand(group: GroupId, l: P.Launcher): ProjectCommand {
    InsertLauncher(E.Append(group), l.id, l.profile)
  }

  /** The commands `launch_group_commands` pushes for a group. */
  function GroupCommands(parent: Option<GroupId>, g: P.LaunchGroup): seq<ProjectCommand>
    decreases g, 2
  {
    [InsertLaunchGroup(AppendTo(parent), g.id, PropertiesOf(g))] + ContentCommands(g)
  }

  /** The commands for a group's child groups or launchers. */
  function ContentCommands(g: P.LaunchGroup): seq<ProjectCommand>
    decreases g, 1
  {
    match g.contents
    case Groups(rs) => GroupCommandsOf(g.id, rs)
    case Slots(ls) => LauncherCommandsOf(g.id, ls)
  }

  function GroupCommandsOf(parent: GroupId, rs: seq<P.LaunchGroup>): seq<ProjectCommand>
    decreases rs, 0
  {
    if rs == [] then [] else GroupCommandsOf(parent, rs[..|rs| - 1]) + GroupCommands(Some(parent), rs[|rs| - 1])
  }

  function LauncherCommandsOf(group: GroupId, ls: seq<P.Launcher>): (r: seq<ProjectCommand>)
    ensures |r| == |ls|
  {
    seq(|ls|, k requires 0 <= k < |ls| => LauncherCommand(group, ls[k]))
  }

  /** `project_to_transaction`: the startup profile first, then the root group's
      commands. */
  function ProjectCommands(project: P.Project): seq<ProjectCommand> {
    [SetStartupProfile(project.start)] + GroupCommands(None, project.root)
  }

  /** `launcher_commands`. */
  method LauncherCommands(group: GroupId, launcher: P.Launcher, commands: seq<ProjectCommand>)
    returns (out: seq<ProjectCommand>)
    ensures out == commands + [InsertLauncher(E.Append(group), launcher.id, launcher.profile)]
  {
    out := commands + [InsertLauncher(E.Append(group), launcher.id, launcher.profile)];
  }

  /** `launch_group_commands`: the group's own insertion, then the commands of its child
      groups or of its launchers, in order, appended to `commands`. */
  method LaunchGroupCommands(parent: Option<GroupId>, group: P.LaunchGroup, commands: seq<ProjectCommand>)
    returns (out: seq<ProjectCommand>)
    ensures out == commands + GroupCommands(parent, group)
    decreases group
  {
    var insertion := InsertLaunchGroup(AppendTo(parent), group.id, PropertiesOf(group));
    out := commands + [insertion];
    ghost var head := out;
    match group.contents {
      case Groups(rs) =>
        for i := 0 to |rs|
          invariant out == head + GroupCommandsOf(group.id, rs[..i])
        {
          assert rs[..i + 1][..i] == rs[..i];
          out := LaunchGroupCommands(Some(group.id), rs[i], out);
        }
        assert rs[..|rs|] == rs;
        assert ContentCommands(group) == GroupCommandsOf(group.id, rs);
      case Slots(ls) =>
        for i := 0 to |ls|
          invariant out == head + LauncherCommandsOf(group.id, ls[..i])
        {
          LauncherCommandsStep(group.id, ls, i);
          out := LauncherCommands(group.id, ls[i], out);
        }
        assert ls[..|ls|] == ls;
        assert ContentCommands(group) == LauncherCommandsOf(group.id, ls);
    }
  }

  lemma LauncherCommandsStep(group: GroupId, ls: seq<P.Launcher>, i: nat)
    requires i < |ls|
    ensures LauncherCommandsOf(group, ls[..i + 1]) == LauncherCommandsOf(group, ls[..i]) + [LauncherCommand(group, ls[i])]
  {
    assert LauncherCommandsOf(group, ls[..i + 1]) == LauncherCommandsOf(group, ls[..i]) + [LauncherCommand(group, ls[i])];
  }

  /** `project_to_transaction`. */
  method ProjectToTransaction(project: P.Project) returns (t: E.Transaction<ProjectCommand>)
    ensures t.commands == ProjectCommands(project)
  {
    var commands := [SetStartupProfile(project.start)];
    commands := LaunchGroupCommands(None, project.root, commands);
    t := E.Transaction(commands);
  }

  // What the commands of a project say

  /** The group a command puts something into. */
  function ParentOf(c: ProjectCommand): Option<GroupId> {
    match c
    case InsertLaunchGroup(Some(o), _, _) => Some(E.Parent(o))
    case InsertLauncher(o, _, _) => Some(E.Parent(o))
    case _ => None
  }

  predicate Inserts(c: ProjectCommand, group: GroupId) {
    c.InsertLaunchGroup? && c.id == group
  }

  /** The commands of nested groups and launchers below `outer`: each inserts a group or a
      launcher by appending it to a parent, and that parent is `outer` or a group inserted
      by an earlier command. */
  predicate NestedBelow(cs: seq<ProjectCommand>, outer: GroupId) {
    forall i :: 0 <= i < |cs| ==>
      (cs[i].InsertLaunchGroup? || cs[i].InsertLauncher?) && ParentOf(cs[i]).Some? &&
      (ParentOf(cs[i]) == Some(outer) || exists j :: 0 <= j < i && Inserts(cs[j], ParentOf(cs[i]).value))
  }

  lemma NestedBelowAppend(a: seq<ProjectCommand>, b: seq<ProjectCommand>, outer: GroupId)
    requires NestedBelow(a, outer) && NestedBelow(b, outer)
    ensures NestedBelow(a + b, outer)
  {
    var cs := a + b;
    forall i | 0 <= i < |a| && ParentOf(cs[i]) != Some(outer)
      ensures exists j :: 0 <= j < i && Inserts(cs[j], ParentOf(cs[i]).value)
    {
      assert cs[i] == a[i];
      var j :| 0 <= j < i && Inserts(a[j], ParentOf(a[i]).value);
      assert cs[j] == a[j];
    }
    forall i | |a| <= i < |cs| && ParentOf(cs[i]) != Some(outer)
      ensures exists j :: 0 <= j < i && Inserts(cs[j], ParentOf(cs[i]).value)
    {
      assert cs[i] == b[i - |a|];
      var j :| 0 <= j < i - |a| && Inserts(b[j], ParentOf(b[i - |a|]).value);
      assert cs[j + |a|] == b[j];
    }
  }

  lemma {:induction false} GroupCommandsNested(outer: GroupId, g: P.LaunchGroup)
    ensures NestedBelow(GroupCommands(Some(outer), g), outer)
    decreases g, 1
  {
    var cs := GroupCommands(Some(outer), g);
    var rest := cs[1..];
    assert rest == ContentCommands(g);
    match g.contents {
      case Groups(rs) =>
        GroupCommandsOfNested(g.id, rs);
        assert rest == GroupCommandsOf(g.id, rs);
      case Slots(ls) =>
        assert rest == LauncherCommandsOf(g.id, ls);
    }
    assert NestedBelow(rest, g.id);
    assert Inserts(cs[0], g.id);
    forall i | 1 <= i < |cs| && ParentOf(cs[i]) != Some(outer)
      ensures exists j :: 0 <= j < i && Inserts(cs[j], ParentOf(cs[i]).value)
    {
      assert cs[i] == rest[i - 1];
      if ParentOf(rest[i - 1]) != Some(g.id) {
        var j :| 0 <= j < i - 1 && Inserts(rest[j], ParentOf(rest[i - 1]).value);
        assert cs[j + 1] == rest[j];
      }
    }
  }

  lemma {:induction false} GroupCommandsOfNested(outer: GroupId, rs: seq<P.LaunchGroup>)
    ensures NestedBelow(GroupCommandsOf(outer, rs), outer)
    decreases rs, 0
  {
    if rs != [] {
      var n := |rs| - 1;
      GroupCommandsOfNested(outer, rs[..n]);
      GroupCommandsNested(outer, rs[n]);
      NestedBelowAppend(GroupCommandsOf(outer, rs[..n]), GroupCommands(Some(outer), rs[n]), outer);
    }
  }

  /** The transaction of a project: the startup profile is set first, then the root group
      is inserted without a parent, and every later command inserts a group or a launcher
      into a group that an earlier command inserted. */
  lemma ProjectCommandsOrder(project: P.Project)
    ensures var cs := ProjectCommands(project);
      |cs| >= 2 && cs[0] == SetStartupProfile(project.start) &&
      cs[1] == InsertLaunchGroup(None, project.root.id, PropertiesOf(project.root)) &&
      forall i :: 2 <= i < |cs| ==>
        (cs[i].InsertLaunchGroup? || cs[i].InsertLauncher?) && ParentOf(cs[i]).Some? &&
        exists j :: 1 <= j < i && Inserts(cs[j], ParentOf(cs[i]).value)
  {
    var root := project.root;
    var cs := ProjectCommands(project);
    var rest := cs[2..];
    assert rest == ContentCommands(root);
    match root.contents {
      case Groups(rs) =>
        GroupCommandsOfNested(root.id, rs);
        assert rest == GroupCommandsOf(root.id, rs);
      case Slots(ls) =>
        assert rest == LauncherCommandsOf(root.id, ls);
    }
    assert Inserts(cs[1], root.id);
    forall i | 2 <= i < |cs|
      ensures exists j :: 1 <= j < i && Inserts(cs[j], ParentOf(cs[i]).value)
    {
      assert cs[i] == rest[i - 2];
      if ParentOf(rest[i - 2]) != Some(root.id) {
        var j :| 0 <= j < i - 2 && Inserts(rest[j], ParentOf(rest[i - 2]).value);
        assert cs[j + 2] == rest[j];
      }
    }
  }

  /** The ids of the groups the commands insert, in command order. */
  function InsertedGroups(cs: seq<ProjectCommand>): seq<GroupId> {
    if cs == [] then []
    else (if cs[0].InsertLaunchGroup? then [cs[0].id] else []) + InsertedGroups(cs[1..])
  }

  /** The launchers the commands insert, in command order. */
  function InsertedLaunchers(cs: seq<ProjectCommand>): seq<P.Launcher> {
    if cs == [] then []
    else (if cs[0].InsertLauncher? then [P.Launcher(cs[0].launcher, cs[0].profile)] else []) + InsertedLaunchers(cs[1..])
  }

  lemma {:induction false} InsertedAppend(a: seq<ProjectCommand>, b: seq<ProjectCommand>)
    ensures InsertedGroups(a + b) == InsertedGroups(a) + InsertedGroups(b)
    ensures InsertedLaunchers(a + b) == InsertedLaunchers(a) + InsertedLaunchers(b)
  {
    InsertedGroupsAppend(a, b);
    InsertedLaunchersAppend(a, b);
  }

  lemma {:induction false} InsertedGroupsAppend(a: seq<ProjectCommand>, b: seq<ProjectCommand>)
    ensures InsertedGroups(a + b) == InsertedGroups(a) + InsertedGroups(b)
  {
    if a == [] {
      assert a + b == b;
    } else {
      assert (a + b)[0] == a[0] && (a + b)[1..] == a[1..] + b;
      InsertedGroupsAppend(a[1..], b);
    }
  }

  lemma {:induction false} InsertedLaunchersAppend(a: seq<ProjectCommand>, b: seq<ProjectCommand>)
    ensures InsertedLaunchers(a + b) == InsertedLaunchers(a) + InsertedLaunchers(b)
  {
    if a == [] {
      assert a + b == b;
    } else {
      assert (a + b)[0] == a[0] && (a + b)[1..] == a[1..] + b;
      InsertedLaunchersAppend(a[1..], b);
    }
  }

  lemma {:induction false} LauncherCommandsInserted(group: GroupId, ls: seq<P.Launcher>)
    ensures InsertedGroups(LauncherCommandsOf(group, ls)) == []
    ensures InsertedLaunchers(LauncherCommandsOf(group, ls)) == ls
  {
    if ls != [] {
      assert LauncherCommandsOf(group, ls)[1..] == LauncherCommandsOf(group, ls[1..]);
      LauncherCommandsInserted(group, ls[1..]);
    }
  }

  /** A group's commands insert its groups in pre-order and its launchers in traversal
      order, with their ids and profiles. */
  lemma {:induction false} GroupCommandsInserted(parent: Option<GroupId>, g: P.LaunchGroup)
    ensures InsertedGroups(GroupCommands(parent, g)) == P.GroupIds(g)
    ensures InsertedLaunchers(GroupCommands(parent, g)) == P.Launchers(g)
    decreases g, 1
  {
    var cs := GroupCommands(parent, g);
    var rest := cs[1..];
    assert rest == ContentCommands(g);
    assert cs == [cs[0]] + rest;
    InsertedAppend([cs[0]], rest);
    match g.contents {
      case Groups(rs) =>
        assert rest == GroupCommandsOf(g.id, rs);
        GroupCommandsOfInserted(g.id, rs);
      case Slots(ls) =>
        assert rest == LauncherCommandsOf(g.id, ls);
        LauncherCommandsInserted(g.id, ls);
    }
  }

  lemma {:induction false} GroupCommandsOfInserted(parent: GroupId, rs: seq<P.LaunchGroup>)
    ensures InsertedGroups(GroupCommandsOf(parent, rs)) == P.GroupIdsOf(rs)
    ensures InsertedLaunchers(GroupCommandsOf(parent, rs)) == P.LaunchersOf(rs)
    decreases rs, 0
  {
    if rs != [] {
      var n := |rs| - 1;
      GroupCommandsOfInserted(parent, rs[..n]);
      GroupCommandsInserted(Some(parent), rs[n]);
      InsertedAppend(GroupCommandsOf(parent, rs[..n]), GroupCommands(Some(parent), rs[n]));
    }
  }

  /** The transaction of a project inserts exactly the project's groups in pre-order and
      its launchers in traversal order. */
  lemma ProjectCommandsInserted(project: P.Project)
    ensures InsertedGroups(ProjectCommands(project)) == P.GroupIds(project.root)
    ensures InsertedLaunchers(ProjectCommands(project)) == P.Launchers(project.root)
  {
    GroupCommandsInserted(None, project.root);
    InsertedAppend([SetStartupProfile(project.start)], GroupCommands(None, project.root));
  }

  // Applying commands

  /** A hierarchy after an insertion or a removal, and whether that succeeded. */
  datatype Step<H, Err> = Step(hierarchy: H, result: Result<(), Err>)

  /** The hierarchy's `insert` (a target and where to put it: nowhere for a root) and
      `remove`. */
  datatype HierarchyOps<!H, Err> = HierarchyOps(
    insert: (H, DesktopTarget, Option<E.OrderedInsertion<DesktopTarget>>) -> Step<H, Err>,
    remove: (H, DesktopTarget) -> Step<H, Err>)

  /** Why a command failed. */
  datatype Failure<Err> = HierarchyFailed(cause: Err) | SpecsFailed(error: LayoutSpecs.MapError)

  /** What the system holds besides its presenter. */
  datatype State<H> = State(hierarchy: H, specs: map<DesktopTarget, LayoutSpec>, startup: Option<LaunchProfileId>)

  /** A state after commands, and how the last one ended. */
  datatype Applied<H, Err> = Applied(state: State<H>, result: Result<(), Failure<Err>>)

  /** `insert_mapped`: the id and its parent insertion mapped to targets. */
  function InsertMapped<H, Err>(ops: HierarchyOps<H, Err>, h: H, id: GroupId, parent: Option<E.OrderedInsertion<GroupId>>): Step<H, Err> {
    var target := match parent
      case None => None
      case Some(o) => Some(E.MapInsertion(o, (g: GroupId) => Group(g)));
    ops.insert(h, Group(id), target)
  }

  /** The state after a hierarchy step; the step's failure is the command's. */
  function Stepped<H, Err>(s: State<H>, step: Step<H, Err>): Applied<H, Err> {
    var t := s.(hierarchy := step.hierarchy);
    match step.result
    case Ok(_) => Applied(t, Ok(()))
    case Err(e) => Applied(t, Err(HierarchyFailed(e)))
  }

  /** `apply_project_command`. */
  function AfterCommand<H, Err>(ops: HierarchyOps<H, Err>, s: State<H>, c: ProjectCommand): Applied<H, Err> {
    match c
    case InsertLaunchGroup(parent, id, properties) =>
      var a := Stepped(s, InsertMapped(ops, s.hierarchy, id, parent));
      if a.result.Err? then a
      else Applied(a.state.(specs := a.state.specs[Group(id) := GroupSpec(properties.layout)]), Ok(()))
    case RemoveLaunchGroup(id) =>
      if Group(id) !in s.specs then Applied(s, Err(SpecsFailed(LayoutSpecs.NotFound)))
      else
        var t := s.(specs := s.specs - {Group(id)});
        Stepped(t, ops.remove(t.hierarchy, Group(id)))
    case InsertLauncher(into, id, _) =>
      Stepped(s, ops.insert(s.hierarchy, Launcher(id), Some(E.MapInsertion(into, (g: GroupId) => Group(g)))))
    case RemoveLauncher(id) =>
      Stepped(s, ops.remove(s.hierarchy, Launcher(id)))
    case SetStartupProfile(p) =>
      Applied(s.(startup := p), Ok(()))
  }

  /** `transact`: the commands in order, up to and including the first that fails. */
  function AfterTransact<H, Err>(ops: HierarchyOps<H, Err>, s: State<H>, cs: seq<ProjectCommand>): Applied<H, Err>
    decreases |cs|
  {
    if cs == [] then Applied(s, Ok(()))
    else
      var a := AfterCommand(ops, s, cs[0]);
      if a.result.Err? then a else AfterTransact(ops, a.state, cs[1..])
  }

  /** Setting the startup profile cannot fail and changes nothing else. */
  lemma SetStartupProfileOnly<H, Err>(ops: HierarchyOps<H, Err>, s: State<H>, p: Option<LaunchProfileId>)
    ensures var a := AfterCommand(ops, s, SetStartupProfile(p));
      a.result.Ok? && a.state.startup == p && a.state.hierarchy == s.hierarchy && a.state.specs == s.specs
  {
  }

  /** Removing a group removes its layout spec before its hierarchy entry: a missing spec
      fails with the hierarchy untouched, and a failing hierarchy removal leaves the spec
      removed. The startup profile is kept either way. */
  lemma RemoveLaunchGroupOrder<H, Err>(ops: HierarchyOps<H, Err>, s: State<H>, id: GroupId)
    ensures var a := AfterCommand(ops, s, RemoveLaunchGroup(id));
      a.state.startup == s.startup &&
      (Group(id) !in s.specs ==> a == Applied(s, Err(SpecsFailed(LayoutSpecs.NotFound)))) &&
      (Group(id) in s.specs ==>
        var step := ops.remove(s.hierarchy, Group(id));
        a.state.specs == s.specs - {Group(id)} && a.state.hierarchy == step.hierarchy &&
        (a.result.Ok? <==> step.result.Ok?))
  {
  }

  /** Inserting a group gives it a container spec along its layout direction once the
      hierarchy accepted it, and leaves the specs alone otherwise. */
  lemma InsertLaunchGroupSpec<H, Err>(ops: HierarchyOps<H, Err>, s: State<H>, parent: Option<E.OrderedInsertion<GroupId>>, id: GroupId, properties: GroupProperties)
    ensures var a := AfterCommand(ops, s, InsertLaunchGroup(parent, id, properties));
      var step := InsertMapped(ops, s.hierarchy, id, parent);
      a.state.hierarchy == step.hierarchy && a.state.startup == s.startup &&
      (a.result.Ok? <==> step.result.Ok?) &&
      (a.result.Ok? ==> a.state.specs == s.specs[Group(id) := Container(properties.layout, Thickness(10, 10), 10)]) &&
      (a.result.Err? ==> a.state.specs == s.specs)
  {
  }

  /** Commands after a concatenation: the second part runs only when the first succeeded. */
  lemma {:induction false} AfterTransactAppend<H, Err>(ops: HierarchyOps<H, Err>, s: State<H>, a: seq<ProjectCommand>, b: seq<ProjectCommand>)
    ensures var r := AfterTransact(ops, s, a);
      AfterTransact(ops, s, a + b) == if r.result.Err? then r else AfterTransact(ops, r.state, b)
    decreases |a|
  {
    if a == [] {
      assert a + b == b;
    } else {
      assert (a + b)[0] == a[0] && (a + b)[1..] == a[1..] + b;
      var x := AfterCommand(ops, s, a[0]);
      if x.result.Ok? {
        AfterTransactAppend(ops, x.state, a[1..], b);
      }
    }
  }

  /** `transact` stops at the first error: when the commands before the `k`-th succeed and
      the `k`-th fails, the transaction ends as that command left the state. */
  lemma FirstErrorStops<H, Err>(ops: HierarchyOps<H, Err>, s: State<H>, cs: seq<ProjectCommand>, k: nat)
    requires k < |cs|
    requires AfterTransact(ops, s, cs[..k]).result.Ok?
    requires AfterCommand(ops, AfterTransact(ops, s, cs[..k]).state, cs[k]).result.Err?
    ensures AfterTransact(ops, s, cs) == AfterCommand(ops, AfterTransact(ops, s, cs[..k]).state, cs[k])
  {
    assert cs == cs[..k] + cs[k..];
    AfterTransactAppend(ops, s, cs[..k], cs[k..]);
    assert cs[k..][0] == cs[k];
  }

  /** The startup profile a run of commands leaves: the one the last SetStartupProfile
      names, or `current` when there is none. */
  function LastStartup(cs: seq<ProjectCommand>, current: Option<LaunchProfileId>): Option<LaunchProfileId> {
    if cs == [] then current
    else LastStartup(cs[1..], if cs[0].SetStartupProfile? then cs[0].startup else current)
  }

  /** Only SetStartupProfile changes the startup profile. */
  lemma {:induction false} StartupAfter<H, Err>(ops: HierarchyOps<H, Err>, s: State<H>, cs: seq<ProjectCommand>)
    requires AfterTransact(ops, s, cs).result.Ok?
    ensures AfterTransact(ops, s, cs).state.startup == LastStartup(cs, s.startup)
    decreases |cs|
  {
    if cs != [] {
      StartupAfter(ops, AfterCommand(ops, s, cs[0]).state, cs[1..]);
    }
  }

  /** The groups that have a layout spec after commands that remove none and all succeed:
      those that had one and those the commands insert. */
  lemma {:induction false} SpecsAfter<H, Err>(ops: HierarchyOps<H, Err>, s: State<H>, cs: seq<ProjectCommand>)
    requires forall i :: 0 <= i < |cs| ==> !cs[i].RemoveLaunchGroup?
    requires AfterTransact(ops, s, cs).result.Ok?
    ensures AfterTransact(ops, s, cs).state.specs.Keys == s.specs.Keys + set id | id in InsertedGroups(cs) :: Group(id)
    decreases |cs|
  {
    if cs != [] {
      var a := AfterCommand(ops, s, cs[0]);
      assert forall i :: 0 <= i < |cs[1..]| ==> cs[1..][i] == cs[i + 1];
      SpecsAfter(ops, a.state, cs[1..]);
      var own := if cs[0].InsertLaunchGroup? then [cs[0].id] else [];
      assert InsertedGroups(cs) == own + InsertedGroups(cs[1..]);
      assert a.state.specs.Keys == s.specs.Keys + set id | id in own :: Group(id);
    }
  }

  /** The commands of a group only insert groups and launchers. */
  lemma GroupCommandsInsertOnly(g: P.LaunchGroup)
    ensures var cs := ProjectCommands(P.Project(None, g))[1..];
      forall i :: 0 <= i < |cs| ==> cs[i].InsertLaunchGroup? || cs[i].InsertLauncher?
  {
    ProjectCommandsOrder(P.Project(None, g));
  }

  lemma {:induction false} LastStartupInsertsOnly(cs: seq<ProjectCommand>, current: Option<LaunchProfileId>)
    requires forall i :: 0 <= i < |cs| ==> cs[i].InsertLaunchGroup? || cs[i].InsertLauncher?
    ensures LastStartup(cs, current) == current
  {
    if cs != [] {
      assert forall i :: 0 <= i < |cs[1..]| ==> cs[1..][i] == cs[i + 1];
      LastStartupInsertsOnly(cs[1..], current);
    }
  }

  /** The system a project builds when its transaction succeeds: the startup profile is the
      project's start, and exactly the project's groups have layout specs. */
  lemma ProjectSystem<H, Err>(ops: HierarchyOps<H, Err>, empty: H, project: P.Project)
    requires AfterTransact(ops, State(empty, map[], None), ProjectCommands(project)).result.Ok?
    ensures var a := AfterTransact(ops, State(empty, map[], None), ProjectCommands(project));
      a.state.startup == project.start &&
      a.state.specs.Keys == set id | id in P.GroupIds(project.root) :: Group(id)
  {
    var cs := ProjectCommands(project);
    GroupCommandsInsertOnly(project.root);
    assert cs[1..] == ProjectCommands(P.Project(None, project.root))[1..];
    StartupAfter(ops, State(empty, map[], None), cs);
    LastStartupInsertsOnly(cs[1..], project.start);
    SpecsAfter(ops, State(empty, map[], None), cs);
    ProjectCommandsInserted(project);
  }

  /** `DesktopSystem`, without its presenter. */
  class DesktopSystem<H, Err> {
    const ops: HierarchyOps<H, Err>
    var hierarchy: H
    const layoutSpecs: LayoutSpecs.Map<DesktopTarget, LayoutSpec>
    var startupProfile: Option<LaunchProfileId>

    /** The system's state. */
    function Current(): State<H>
      reads this, layoutSpecs
    {
      State(hierarchy, layoutSpecs.entries, startupProfile)
    }

    /** An empty system: an empty hierarchy and spec map, and no startup profile. */
    constructor(ops: HierarchyOps<H, Err>, empty: H)
      ensures this.ops == ops && Current() == State(empty, map[], None) && fresh(layoutSpecs)
    {
      this.ops := ops;
      hierarchy := empty;
      layoutSpecs := new LayoutSpecs.Map();
      startupProfile := None;
    }

    /** `apply_project_command`. */
    method ApplyProjectCommand(command: ProjectCommand) returns (r: Result<(), Failure<Err>>)
      modifies this, layoutSpecs
      ensures Applied(Current(), r) == AfterCommand(ops, old(Current()), command)
    {
      match command {
        case InsertLaunchGroup(parent, id, properties) =>
          var step := InsertMapped(ops, hierarchy, id, parent);
          hierarchy := step.hierarchy;
          if step.result.Err? {
            return Err(HierarchyFailed(step.result.error));
          }
          layoutSpecs.InsertOrUpdate(Group(id), Container(properties.layout, Thickness(10, 10), 10));
        case RemoveLaunchGroup(id) =>
          var removed := layoutSpecs.Remove(Group(id));
          if removed.Err? {
            return Err(SpecsFailed(removed.error));
          }
          var step := ops.remove(hierarchy, Group(id));
          hierarchy := step.hierarchy;
          if step.result.Err? {
            return Err(HierarchyFailed(step.result.error));
          }
        case InsertLauncher(into, id, _) =>
          var step := ops.insert(hierarchy, Launcher(id), Some(E.MapInsertion(into, (g: GroupId) => Group(g))));
          hierarchy := step.hierarchy;
          if step.result.Err? {
            return Err(HierarchyFailed(step.result.error));
          }
        case RemoveLauncher(id) =>
          var step := ops.remove(hierarchy, Launcher(id));
          hierarchy := step.hierarchy;
          if step.result.Err? {
            return Err(HierarchyFailed(step.result.error));
          }
        case SetStartupProfile(p) =>
          startupProfile := p;
      }
      r := Ok(());
    }

    /** `transact`: applies the commands in order and returns the first error. */
    method Transact(t: E.Transaction<DesktopCommand>) returns (r: Result<(), Failure<Err>>)
      modifies this, layoutSpecs
      ensures Applied(Current(), r) == AfterTransact(ops, old(Current()), CommandsOf(t.commands))
    {
      ghost var cs := CommandsOf(t.commands);
      for i := 0 to |t.commands|
        invariant AfterTransact(ops, old(Current()), cs) == AfterTransact(ops, Current(), cs[i..])
      {
        assert cs[i..][0] == t.commands[i].command && cs[i..][1..] == cs[i + 1..];
        r := ApplyProjectCommand(t.commands[i].command);
        if r.Err? {
          return;
        }
      }
      assert cs[|t.commands|..] == [];
      r := Ok(());
    }
  }

  /** The project commands inside desktop commands. */
  function CommandsOf(ds: seq<DesktopCommand>): (r: seq<ProjectCommand>)
    ensures |r| == |ds|
  {
    seq(|ds|, k requires 0 <= k < |ds| => ds[k].command)
  }

  /** `DesktopSystem::new`: an empty system that applies the project's transaction; it
      fails with the transaction's first error. */
  method New<H, Err>(ops: HierarchyOps<H, Err>, empty: H, project: P.Project)
    returns (r: Result<DesktopSystem<H, Err>, Failure<Err>>)
    ensures var a := AfterTransact(ops, State(empty, map[], None), ProjectCommands(project));
      (r.Ok? <==> a.result.Ok?) && (r.Err? ==> r == Err(a.result.error)) &&
      (r.Ok? ==> fresh(r.value) && r.value.ops == ops && r.value.Current() == a.state)
  {
    var transaction := ProjectToTransaction(project);
    var desktop := E.MapTransaction(transaction, (c: ProjectCommand) => Project(c));
    assert CommandsOf(desktop.commands) == transaction.commands;
    var system := new DesktopSystem(ops, empty);
    var result := system.Transact(desktop);
    if result.Err? {
      return Err(result.error);
    }
    r := Ok(system);
  }
}
