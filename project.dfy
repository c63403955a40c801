/** A project (desktop/src/projects/project.rs): the configured group tree with ids
    assigned. Groups are numbered in pre-order and launchers in traversal order, each from
    its own counter; a startup profile is looked up by name, depth first. */
module Projects {
  import opened Wrappers
  import C = ProjectConfiguration

  /** `GroupId(u32)` and `LaunchProfileId(u32)`. */
  type GroupId = nat
  type LaunchProfileId = nat

  /** `Launcher`: a launch profile with its id. */
  datatype Launcher = Launcher(id: LaunchProfileId, profile: C.LaunchProfile)

  /** `LaunchGroupContents`. */
  datatype LaunchGroupContents =
    | Groups(groups: seq<LaunchGroup>)
    | Slots(slots: seq<Launcher>)

  /** `LaunchGroup`. */
  datatype LaunchGroup = LaunchGroup(id: GroupId, name: string, tag: C.ScopedTag, layout: C.LayoutDirection, contents: LaunchGroupContents)

  /** `Project`: the id of the startup profile, if any, and the root group. */
  datatype Project = Project(start: Option<LaunchProfileId>, root: LaunchGroup)

  /** The error of `find_profile_by_name`. */
  datatype FindError = ProfileNotFound(name: string)

  /** The error of `from_configuration`: the startup profile's lookup failed. */
  datatype ProjectError = StartupProfileNotFound(name: string, cause: FindError)

  // The configured tree

  /** The number of groups of a configured tree, the group itself included. */
  function CountGroups(g: C.LaunchGroup): nat
    decreases g, 1
  {
    1 + match g.content
      case Groups(gs) => CountGroupsOf(gs)
      case LaunchProfiles(_) => 0
  }

  function CountGroupsOf(gs: seq<C.LaunchGroup>): nat
    decreases gs, 0
  {
    if gs == [] then 0 else CountGroupsOf(gs[..|gs| - 1]) + CountGroups(gs[|gs| - 1])
  }

  /** The profiles of a configured tree, depth first. */
  function ProfilesIn(g: C.LaunchGroup): seq<C.LaunchProfile>
    decreases g, 1
  {
    match g.content
    case Groups(gs) => ProfilesInAll(gs)
    case LaunchProfiles(apps) => apps
  }

  function ProfilesInAll(gs: seq<C.LaunchGroup>): seq<C.LaunchProfile>
    decreases gs, 0
  {
    if gs == [] then [] else ProfilesInAll(gs[..|gs| - 1]) + ProfilesIn(gs[|gs| - 1])
  }

  // Conversion

  /** A converted value and the counters after it. */
  datatype Converted<T> = Converted(value: T, nextGroupId: GroupId, nextProfileId: LaunchProfileId)

  /** The profiles numbered consecutively from `profileId`. */
  function SlotsFrom(apps: seq<C.LaunchProfile>, profileId: LaunchProfileId): (r: seq<Launcher>)
    ensures |r| == |apps|
  {
    seq(|apps|, k requires 0 <= k < |apps| => Launcher(profileId + k, apps[k]))
  }

  /** `convert_group`: the group takes the group counter, then its children are converted in
      order, or its profiles take the profile counter one after the other. */
  function ConvertedGroup(g: C.LaunchGroup, groupId: GroupId, profileId: LaunchProfileId): Converted<LaunchGroup>
    decreases g, 1
  {
    match g.content
    case Groups(gs) =>
      var c := ConvertedGroups(gs, groupId + 1, profileId);
      Converted(LaunchGroup(groupId, g.name, g.tag, g.direction, Groups(c.value)), c.nextGroupId, c.nextProfileId)
    case LaunchProfiles(apps) =>
      Converted(LaunchGroup(groupId, g.name, g.tag, g.direction, Slots(SlotsFrom(apps, profileId))), groupId + 1, profileId + |apps|)
  }

  /** The loop over the child groups, which threads both counters. */
  function ConvertedGroups(gs: seq<C.LaunchGroup>, groupId: GroupId, profileId: LaunchProfileId): Converted<seq<LaunchGroup>>
    decreases gs, 0
  {
    if gs == [] then Converted([], groupId, profileId)
    else
      var init := ConvertedGroups(gs[..|gs| - 1], groupId, profileId);
      var c := ConvertedGroup(gs[|gs| - 1], init.nextGroupId, init.nextProfileId);
      Converted(init.value + [c.value], c.nextGroupId, c.nextProfileId)
  }

  // The numbered tree

  /** The group ids in pre-order. */
  function GroupIds(r: LaunchGroup): seq<GroupId>
    decreases r, 1
  {
    [r.id] + match r.contents
      case Groups(rs) => GroupIdsOf(rs)
      case Slots(_) => []
  }

  function GroupIdsOf(rs: seq<LaunchGroup>): seq<GroupId>
    decreases rs, 0
  {
    if rs == [] then [] else GroupIdsOf(rs[..|rs| - 1]) + GroupIds(rs[|rs| - 1])
  }

  /** The launchers, depth first. */
  function Launchers(r: LaunchGroup): seq<Launcher>
    decreases r, 1
  {
    match r.contents
    case Groups(rs) => LaunchersOf(rs)
    case Slots(ls) => ls
  }

  function LaunchersOf(rs: seq<LaunchGroup>): seq<Launcher>
    decreases rs, 0
  {
    if rs == [] then [] else LaunchersOf(rs[..|rs| - 1]) + Launchers(rs[|rs| - 1])
  }

  /** The configured tree a numbered tree comes from: the ids are dropped. */
  function ConfigurationOf(r: LaunchGroup): C.LaunchGroup
    decreases r, 1
  {
    var content := match r.contents
      case Groups(rs) => C.Groups(ConfigurationsOf(rs))
      case Slots(ls) => C.LaunchProfiles(ProfilesOf(ls));
    C.LaunchGroup(r.name, r.tag, r.layout, content)
  }

  function ConfigurationsOf(rs: seq<LaunchGroup>): seq<C.LaunchGroup>
    decreases rs, 0
  {
    if rs == [] then [] else ConfigurationsOf(rs[..|rs| - 1]) + [ConfigurationOf(rs[|rs| - 1])]
  }

  function ProfilesOf(ls: seq<Launcher>): (r: seq<C.LaunchProfile>)
    ensures |r| == |ls|
  {
    seq(|ls|, k requires 0 <= k < |ls| => ls[k].profile)
  }

  /** The integers from `a` up to, not including, `b`. */
  function Range(a: nat, b: nat): (r: seq<nat>)
    requires a <= b
    ensures |r| == b - a
  {
    seq(b - a, k requires 0 <= k < b - a => a + k)
  }

  lemma RangeAppend(a: nat, b: nat, c: nat)
    requires a <= b <= c
    ensures Range(a, b) + Range(b, c) == Range(a, c)
  {
  }

  lemma SlotsFromAppend(x: seq<C.LaunchProfile>, y: seq<C.LaunchProfile>, profileId: LaunchProfileId)
    ensures SlotsFrom(x + y, profileId) == SlotsFrom(x, profileId) + SlotsFrom(y, profileId + |x|)
  {
    var l, r := SlotsFrom(x + y, profileId), SlotsFrom(x, profileId) + SlotsFrom(y, profileId + |x|);
    forall k | 0 <= k < |l|
      ensures l[k] == r[k]
    {
      if k < |x| {
        assert (x + y)[k] == x[k];
      } else {
        assert (x + y)[k] == y[k - |x|];
      }
    }
  }

  /** Groups are numbered in pre-order from the group counter, which ends up advanced by
      the number of groups; the group itself takes the counter's value. */
  lemma {:induction false} ConvertedGroupIds(g: C.LaunchGroup, groupId: GroupId, profileId: LaunchProfileId)
    ensures var c := ConvertedGroup(g, groupId, profileId);
      c.value.id == groupId && c.nextGroupId == groupId + CountGroups(g) &&
      GroupIds(c.value) == Range(groupId, c.nextGroupId)
    decreases g, 1
  {
    match g.content
    case Groups(gs) =>
      ConvertedGroupsIds(gs, groupId + 1, profileId);
      var c := ConvertedGroups(gs, groupId + 1, profileId);
      assert [groupId] + Range(groupId + 1, c.nextGroupId) == Range(groupId, c.nextGroupId);
    case LaunchProfiles(_) =>
  }

  lemma {:induction false} ConvertedGroupsIds(gs: seq<C.LaunchGroup>, groupId: GroupId, profileId: LaunchProfileId)
    ensures var c := ConvertedGroups(gs, groupId, profileId);
      |c.value| == |gs| && c.nextGroupId == groupId + CountGroupsOf(gs) &&
      GroupIdsOf(c.value) == Range(groupId, c.nextGroupId)
    decreases gs, 0
  {
    if gs != [] {
      var n := |gs| - 1;
      ConvertedGroupsIds(gs[..n], groupId, profileId);
      var init := ConvertedGroups(gs[..n], groupId, profileId);
      ConvertedGroupIds(gs[n], init.nextGroupId, init.nextProfileId);
      var c := ConvertedGroup(gs[n], init.nextGroupId, init.nextProfileId);
      var all := init.value + [c.value];
      assert all[..n] == init.value && all[n] == c.value;
      RangeAppend(groupId, init.nextGroupId, c.nextGroupId);
    }
  }

  /** The launchers, in traversal order, are the tree's profiles numbered consecutively from
      the profile counter, which ends up advanced by the number of profiles. */
  lemma {:induction false} ConvertedLaunchers(g: C.LaunchGroup, groupId: GroupId, profileId: LaunchProfileId)
    ensures var c := ConvertedGroup(g, groupId, profileId);
      c.nextProfileId == profileId + |ProfilesIn(g)| &&
      Launchers(c.value) == SlotsFrom(ProfilesIn(g), profileId)
    decreases g, 1
  {
    match g.content
    case Groups(gs) =>
      ConvertedGroupsLaunchers(gs, groupId + 1, profileId);
    case LaunchProfiles(_) =>
  }

  lemma {:induction false} ConvertedGroupsLaunchers(gs: seq<C.LaunchGroup>, groupId: GroupId, profileId: LaunchProfileId)
    ensures var c := ConvertedGroups(gs, groupId, profileId);
      |c.value| == |gs| && c.nextProfileId == profileId + |ProfilesInAll(gs)| &&
      LaunchersOf(c.value) == SlotsFrom(ProfilesInAll(gs), profileId)
    decreases gs, 0
  {
    if gs != [] {
      var n := |gs| - 1;
      ConvertedGroupsLaunchers(gs[..n], groupId, profileId);
      var init := ConvertedGroups(gs[..n], groupId, profileId);
      ConvertedLaunchers(gs[n], init.nextGroupId, init.nextProfileId);
      var c := ConvertedGroup(gs[n], init.nextGroupId, init.nextProfileId);
      var all := init.value + [c.value];
      assert ConvertedGroups(gs, groupId, profileId) == Converted(all, c.nextGroupId, c.nextProfileId);
      assert all[..n] == init.value && all[n] == c.value;
      assert LaunchersOf(all) == LaunchersOf(init.value) + Launchers(c.value);
      assert ProfilesInAll(gs) == ProfilesInAll(gs[..n]) + ProfilesIn(gs[n]);
      SlotsFromAppend(ProfilesInAll(gs[..n]), ProfilesIn(gs[n]), profileId);
    }
  }

  /** Dropping the ids gives back the configured tree: names, tags, layouts, the order of
      the groups and the order of the profiles are kept. */
  lemma {:induction false} ConvertedShape(g: C.LaunchGroup, groupId: GroupId, profileId: LaunchProfileId)
    ensures ConfigurationOf(ConvertedGroup(g, groupId, profileId).value) == g
    decreases g, 1
  {
    match g.content
    case Groups(gs) =>
      ConvertedGroupsShape(gs, groupId + 1, profileId);
    case LaunchProfiles(apps) =>
      assert ProfilesOf(SlotsFrom(apps, profileId)) == apps;
  }

  lemma {:induction false} ConvertedGroupsShape(gs: seq<C.LaunchGroup>, groupId: GroupId, profileId: LaunchProfileId)
    ensures ConfigurationsOf(ConvertedGroups(gs, groupId, profileId).value) == gs
    decreases gs, 0
  {
    if gs != [] {
      var n := |gs| - 1;
      ConvertedGroupsShape(gs[..n], groupId, profileId);
      var init := ConvertedGroups(gs[..n], groupId, profileId);
      ConvertedShape(gs[n], init.nextGroupId, init.nextProfileId);
      var c := ConvertedGroup(gs[n], init.nextGroupId, init.nextProfileId);
      var all := init.value + [c.value];
      assert all == ConvertedGroups(gs, groupId, profileId).value;
      assert all[..|all| - 1] == init.value && all[|all| - 1] == c.value;
      assert ConfigurationsOf(all) == ConfigurationsOf(init.value) + [ConfigurationOf(c.value)];
      assert gs == gs[..n] + [gs[n]];
    }
  }

  /** `convert_group`. */
  method ConvertGroup(group: C.LaunchGroup, groupId: GroupId, profileId: LaunchProfileId)
    returns (converted: LaunchGroup, nextGroupId: GroupId, nextProfileId: LaunchProfileId)
    ensures Converted(converted, nextGroupId, nextProfileId) == ConvertedGroup(group, groupId, profileId)
    decreases group
  {
    var id := groupId;
    nextGroupId, nextProfileId := groupId + 1, profileId;
    var contents;
    match group.content {
      case Groups(groups) =>
        var convertedGroups := [];
        for i := 0 to |groups|
          invariant Converted(convertedGroups, nextGroupId, nextProfileId) == ConvertedGroups(groups[..i], groupId + 1, profileId)
        {
          assert groups[..i + 1][..i] == groups[..i];
          var child;
          child, nextGroupId, nextProfileId := ConvertGroup(groups[i], nextGroupId, nextProfileId);
          convertedGroups := convertedGroups + [child];
        }
        assert groups[..|groups|] == groups;
        contents := Groups(convertedGroups);
      case LaunchProfiles(apps) =>
        var slots := [];
        for i := 0 to |apps|
          invariant slots == SlotsFrom(apps[..i], profileId) && nextProfileId == profileId + i
        {
          slots := slots + [Launcher(nextProfileId, apps[i])];
          nextProfileId := nextProfileId + 1;
        }
        assert apps[..|apps|] == apps;
        contents := Slots(slots);
    }
    converted := LaunchGroup(id, group.name, group.tag, group.direction, contents);
  }

  // Finding a profile

  /** The id of the first launcher with that name. */
  function FirstNamed(ls: seq<Launcher>, name: string): (r: Result<LaunchProfileId, FindError>)
    ensures r.Err? <==> forall k :: 0 <= k < |ls| ==> ls[k].profile.name != name
    ensures r.Err? ==> r.error == ProfileNotFound(name)
    ensures r.Ok? ==> exists k :: (0 <= k < |ls| && ls[k].profile.name == name && ls[k].id == r.value &&
      forall j :: 0 <= j < k ==> ls[j].profile.name != name)
    decreases |ls|
  {
    if ls == [] then Err(ProfileNotFound(name))
    else if ls[0].profile.name == name then
      Ok(ls[0].id)
    else
      var r := FirstNamed(ls[1..], name);
      assert forall k :: 1 <= k < |ls| ==> ls[k] == ls[1..][k - 1];
      r
  }

  /** `find_profile_by_name`: the launchers of a group in turn, or the child groups in turn
      until one finds the name. */
  function FindProfile(r: LaunchGroup, name: string): Result<LaunchProfileId, FindError>
    decreases r, 1
  {
    match r.contents
    case Slots(ls) => FirstNamed(ls, name)
    case Groups(rs) => FindInGroups(rs, name)
  }

  function FindInGroups(rs: seq<LaunchGroup>, name: string): Result<LaunchProfileId, FindError>
    decreases rs, 0
  {
    if rs == [] then Err(ProfileNotFound(name))
    else match FindProfile(rs[0], name)
      case Ok(id) => Ok(id)
      case Err(_) => FindInGroups(rs[1..], name)
  }

  lemma {:induction false} FirstNamedAppend(a: seq<Launcher>, b: seq<Launcher>, name: string)
    ensures FirstNamed(a + b, name) == if FirstNamed(a, name).Ok? then FirstNamed(a, name) else FirstNamed(b, name)
    decreases |a|
  {
    if a == [] {
      assert a + b == b;
    } else {
      assert (a + b)[0] == a[0] && (a + b)[1..] == a[1..] + b;
      if a[0].profile.name != name {
        FirstNamedAppend(a[1..], b, name);
      }
    }
  }

  lemma {:induction false} LaunchersOfCons(rs: seq<LaunchGroup>)
    requires rs != []
    ensures LaunchersOf(rs) == Launchers(rs[0]) + LaunchersOf(rs[1..])
    decreases |rs|
  {
    var n := |rs| - 1;
    if n > 0 {
      LaunchersOfCons(rs[..n]);
      assert rs[..n][0] == rs[0] && rs[..n][1..] == rs[1..][..n - 1];
      assert rs[1..][n - 1] == rs[n];
    } else {
      assert rs[..n] == [] && rs[1..] == [];
    }
  }

  /** The lookup finds the first launcher with the name in depth-first order, and fails
      exactly when there is none. */
  lemma {:induction false} FindProfileFirst(r: LaunchGroup, name: string)
    ensures FindProfile(r, name) == FirstNamed(Launchers(r), name)
    decreases r, 1
  {
    match r.contents
    case Slots(_) =>
    case Groups(rs) =>
      FindInGroupsFirst(rs, name);
  }

  lemma {:induction false} FindInGroupsFirst(rs: seq<LaunchGroup>, name: string)
    ensures FindInGroups(rs, name) == FirstNamed(LaunchersOf(rs), name)
    decreases rs, 0
  {
    if rs != [] {
      LaunchersOfCons(rs);
      FindProfileFirst(rs[0], name);
      FindInGroupsFirst(rs[1..], name);
      FirstNamedAppend(Launchers(rs[0]), LaunchersOf(rs[1..]), name);
    }
  }

  /** `find_profile_by_name`: the two loops with their early returns. */
  method FindProfileByName(group: LaunchGroup, name: string) returns (r: Result<LaunchProfileId, FindError>)
    ensures r == FindProfile(group, name)
    decreases group
  {
    match group.contents {
      case Slots(slots) =>
        for i := 0 to |slots|
          invariant FirstNamed(slots[i..], name) == FirstNamed(slots, name)
        {
          if slots[i].profile.name == name {
            return Ok(slots[i].id);
          }
          assert slots[i..][1..] == slots[i + 1..];
        }
        return Err(ProfileNotFound(name));
      case Groups(groups) =>
        for i := 0 to |groups|
          invariant FindInGroups(groups[i..], name) == FindInGroups(groups, name)
        {
          var found := FindProfileByName(groups[i], name);
          if found.Ok? {
            return found;
          }
          assert groups[i..][1..] == groups[i + 1..];
        }
        return Err(ProfileNotFound(name));
    }
  }

  // The project

  /** `Project::from_configuration`: both counters start at 1; a startup profile that is
      named must be found. */
  function ProjectOf(config: C.Configuration): Result<Project, ProjectError> {
    var root := ConvertedGroup(config.root, 1, 1).value;
    match config.startup
    case None => Ok(Project(None, root))
    case Some(name) =>
      match FindProfile(root, name)
      case Ok(id) => Ok(Project(Some(id), root))
      case Err(e) => Err(StartupProfileNotFound(name, e))
  }

  /** The first profile with that name, depth first, numbered from `profileId`. */
  lemma FirstNamedSlots(apps: seq<C.LaunchProfile>, profileId: LaunchProfileId, name: string)
    ensures var r := FirstNamed(SlotsFrom(apps, profileId), name);
      (r.Ok? <==> exists k :: 0 <= k < |apps| && apps[k].name == name) &&
      (r.Ok? ==> exists k :: (0 <= k < |apps| && apps[k].name == name && r.value == profileId + k &&
        forall j :: 0 <= j < k ==> apps[j].name != name))
  {
    var ls := SlotsFrom(apps, profileId);
    assert forall k :: 0 <= k < |apps| ==> ls[k].profile == apps[k] && ls[k].id == profileId + k;
  }

  /** A project numbers its groups in pre-order from 1 and its launchers from 1 in traversal
      order, keeps the configured tree, starts nothing without a startup name, starts the
      first profile with that name otherwise, and fails exactly when no profile has it. */
  lemma ProjectOfProperties(config: C.Configuration)
    ensures var r := ProjectOf(config);
      var ps := ProfilesIn(config.root);
      (r.Err? <==> config.startup.Some? && forall k :: 0 <= k < |ps| ==> ps[k].name != config.startup.value) &&
      (r.Err? ==> r.error == StartupProfileNotFound(config.startup.value, ProfileNotFound(config.startup.value))) &&
      (r.Ok? ==>
        GroupIds(r.value.root) == Range(1, 1 + CountGroups(config.root)) &&
        Launchers(r.value.root) == SlotsFrom(ps, 1) &&
        ConfigurationOf(r.value.root) == config.root &&
        (config.startup.None? ==> r.value.start.None?) &&
        (config.startup.Some? ==> exists k :: (0 <= k < |ps| && ps[k].name == config.startup.value &&
          r.value.start == Some(1 + k) && forall j :: 0 <= j < k ==> ps[j].name != config.startup.value)))
  {
    var root := ConvertedGroup(config.root, 1, 1).value;
    ConvertedGroupIds(config.root, 1, 1);
    ConvertedLaunchers(config.root, 1, 1);
    ConvertedShape(config.root, 1, 1);
    if config.startup.Some? {
      FindProfileFirst(root, config.startup.value);
      FirstNamedSlots(ProfilesIn(config.root), 1, config.startup.value);
    }
  }

  /** `Project::from_configuration`. */
  method FromConfiguration(config: C.Configuration) returns (r: Result<Project, ProjectError>)
    ensures r == ProjectOf(config)
  {
    var root, _, _ := ConvertGroup(config.root, 1, 1);
    var start := None;
    if config.startup.Some? {
      var found := FindProfileByName(root, config.startup.value);
      if found.Err? {
        return Err(StartupProfileNotFound(config.startup.value, found.error));
      }
      start := Some(found.value);
    }
    r := Ok(Project(start, root));
  }
}
