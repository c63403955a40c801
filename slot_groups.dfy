/** The slot group tree of desktop/src/projects/slot_group.rs: the same numbering as a
    project's launch groups, with `SlotDef`s (a slot id and an application) in place of
    launchers. Its conversion is specified through the field-by-field correspondence with
    the trees of module Projects, which carry the numbering properties. */
module SlotGroups {
  import C = ProjectConfiguration
  import P = Projects

  /** `GroupId(u32)` and `SlotId(u32)`. */
  type GroupId = nat
  type SlotId = nat

  /** `SlotDef`. */
  datatype SlotDef = SlotDef(id: SlotId, application: C.LaunchProfile)

  /** `SlotGroupContents`. */
  datatype SlotGroupContents =
    | Groups(groups: seq<SlotGroup>)
    | Slots(slots: seq<SlotDef>)

  /** `SlotGroup`. */
  datatype SlotGroup = SlotGroup(id: GroupId, name: string, tag: C.ScopedTag, layout: C.LayoutDirection, contents: SlotGroupContents)

  // The correspondence with launch groups

  /** The slot group of a numbered launch group: launchers become slot definitions. */
  function SlotGroupOf(r: P.LaunchGroup): SlotGroup
    decreases r, 1
  {
    var contents := match r.contents
      case Groups(rs) => Groups(SlotGroupsOf(rs))
      case Slots(ls) => Slots(SlotDefsOf(ls));
    SlotGroup(r.id, r.name, r.tag, r.layout, contents)
  }

  function SlotGroupsOf(rs: seq<P.LaunchGroup>): (r: seq<SlotGroup>)
    ensures |r| == |rs|
    decreases rs, 0
  {
    seq(|rs|, k requires 0 <= k < |rs| => SlotGroupOf(rs[k]))
  }

  function SlotDefsOf(ls: seq<P.Launcher>): (r: seq<SlotDef>)
    ensures |r| == |ls|
  {
    seq(|ls|, k requires 0 <= k < |ls| => SlotDef(ls[k].id, ls[k].profile))
  }

  /** The launch group a slot group corresponds to. */
  function LaunchGroupOf(s: SlotGroup): P.LaunchGroup
    decreases s, 1
  {
    var contents := match s.contents
      case Groups(ss) => P.Groups(LaunchGroupsOf(ss))
      case Slots(ds) => P.Slots(LaunchersOf(ds));
    P.LaunchGroup(s.id, s.name, s.tag, s.layout, contents)
  }

  function LaunchGroupsOf(ss: seq<SlotGroup>): (r: seq<P.LaunchGroup>)
    ensures |r| == |ss|
    decreases ss, 0
  {
    seq(|ss|, k requires 0 <= k < |ss| => LaunchGroupOf(ss[k]))
  }

  function LaunchersOf(ds: seq<SlotDef>): (r: seq<P.Launcher>)
    ensures |r| == |ds|
  {
    seq(|ds|, k requires 0 <= k < |ds| => P.Launcher(ds[k].id, ds[k].application))
  }

  /** The correspondence loses nothing: a launch group is recovered from its slot group. */
  lemma {:induction false} LaunchGroupOfSlotGroup(r: P.LaunchGroup)
    ensures LaunchGroupOf(SlotGroupOf(r)) == r
    decreases r, 1
  {
    match r.contents
    case Groups(rs) =>
      LaunchGroupsOfSlotGroups(rs);
    case Slots(ls) =>
      assert LaunchersOf(SlotDefsOf(ls)) == ls;
  }

  lemma {:induction false} LaunchGroupsOfSlotGroups(rs: seq<P.LaunchGroup>)
    ensures LaunchGroupsOf(SlotGroupsOf(rs)) == rs
    decreases rs, 0
  {
    forall k | 0 <= k < |rs|
      ensures LaunchGroupOf(SlotGroupsOf(rs)[k]) == rs[k]
    {
      LaunchGroupOfSlotGroup(rs[k]);
    }
  }

  /** Nor the other way: a slot group is recovered from its launch group. */
  lemma {:induction false} SlotGroupOfLaunchGroup(s: SlotGroup)
    ensures SlotGroupOf(LaunchGroupOf(s)) == s
    decreases s, 1
  {
    match s.contents
    case Groups(ss) =>
      SlotGroupsOfLaunchGroups(ss);
    case Slots(ds) =>
      assert SlotDefsOf(LaunchersOf(ds)) == ds;
  }

  lemma {:induction false} SlotGroupsOfLaunchGroups(ss: seq<SlotGroup>)
    ensures SlotGroupsOf(LaunchGroupsOf(ss)) == ss
    decreases ss, 0
  {
    forall k | 0 <= k < |ss|
      ensures SlotGroupOf(LaunchGroupsOf(ss)[k]) == ss[k]
    {
      SlotGroupOfLaunchGroup(ss[k]);
    }
  }

  // Conversion

  /** `convert_group` of slot_group.rs: the group takes the group counter, then its children
      are converted in order, or its applications take the slot counter one after the other;
      the result is the slot group of the launch group Projects numbers the same way. */
  method ConvertGroup(group: C.LaunchGroup, groupId: GroupId, slotId: SlotId)
    returns (converted: SlotGroup, nextGroupId: GroupId, nextSlotId: SlotId)
    ensures var c := P.ConvertedGroup(group, groupId, slotId);
      converted == SlotGroupOf(c.value) && nextGroupId == c.nextGroupId && nextSlotId == c.nextProfileId
    decreases group
  {
    var id := groupId;
    nextGroupId, nextSlotId := groupId + 1, slotId;
    var contents;
    match group.content {
      case Groups(groups) =>
        var convertedGroups := [];
        for i := 0 to |groups|
          invariant var c := P.ConvertedGroups(groups[..i], groupId + 1, slotId);
            convertedGroups == SlotGroupsOf(c.value) && nextGroupId == c.nextGroupId && nextSlotId == c.nextProfileId
        {
          assert groups[..i + 1][..i] == groups[..i];
          ghost var init := P.ConvertedGroups(groups[..i], groupId + 1, slotId);
          var child;
          child, nextGroupId, nextSlotId := ConvertGroup(groups[i], nextGroupId, nextSlotId);
          ghost var c := P.ConvertedGroup(groups[i], init.nextGroupId, init.nextProfileId);
          assert SlotGroupsOf(init.value + [c.value]) == SlotGroupsOf(init.value) + [SlotGroupOf(c.value)];
          convertedGroups := convertedGroups + [child];
        }
        assert groups[..|groups|] == groups;
        contents := Groups(convertedGroups);
      case LaunchProfiles(apps) =>
        var slots := [];
        for i := 0 to |apps|
          invariant |slots| == i && nextSlotId == slotId + i
          invariant forall k :: 0 <= k < i ==> slots[k] == SlotDef(slotId + k, apps[k])
        {
          slots := slots + [SlotDef(nextSlotId, apps[i])];
          nextSlotId := nextSlotId + 1;
        }
        assert slots == SlotDefsOf(P.SlotsFrom(apps, slotId));
        contents := Slots(slots);
    }
    converted := SlotGroup(id, group.name, group.tag, group.direction, contents);
  }

  /** `SlotGroup::from_configuration`: both counters start at 1, so the root is group 1, the
      groups are numbered 1, 2, ... in pre-order, the slots 1, 2, ... in traversal order,
      and dropping the ids gives back the configured tree. */
  method FromConfiguration(group: C.LaunchGroup) returns (r: SlotGroup)
    ensures r == SlotGroupOf(P.ConvertedGroup(group, 1, 1).value)
    ensures r.id == 1 && P.GroupIds(LaunchGroupOf(r)) == P.Range(1, 1 + P.CountGroups(group))
    ensures P.Launchers(LaunchGroupOf(r)) == P.SlotsFrom(P.ProfilesIn(group), 1)
    ensures P.ConfigurationOf(LaunchGroupOf(r)) == group
  {
    var root, _, _ := ConvertGroup(group, 1, 1);
    r := root;
    LaunchGroupOfSlotGroup(P.ConvertedGroup(group, 1, 1).value);
    P.ConvertedGroupIds(group, 1, 1);
    P.ConvertedLaunchers(group, 1, 1);
    P.ConvertedShape(group, 1, 1);
  }
}
