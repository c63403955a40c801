/** The id-assigned group tree of desktop/src/projects/launch_group.rs. Its `LaunchGroup`,
    `LaunchGroupContents` and `Launcher` have the shape of those of project.rs (the launcher
    id is called `LauncherId` there) and its `convert_group` is the same counter-threading
    conversion, so both are the ones of module Projects. */
module LaunchGroups {
  import C = ProjectConfiguration
  import P = Projects

  /** `LaunchGroup::from_configuration`: both counters start at 1, so the root is group 1,
      the groups are numbered 1, 2, ... in pre-order, the launchers 1, 2, ... in traversal
      order, and dropping the ids gives back the configured tree. */
  method FromConfiguration(group: C.LaunchGroup) returns (r: P.LaunchGroup)
    ensures r == P.ConvertedGroup(group, 1, 1).value
    ensures r.id == 1 && P.GroupIds(r) == P.Range(1, 1 + P.CountGroups(group))
    ensures P.Launchers(r) == P.SlotsFrom(P.ProfilesIn(group), 1)
    ensures P.ConfigurationOf(r) == group
  {
    var root, _, _ := P.ConvertGroup(group, 1, 1);
    r := root;
    P.ConvertedGroupIds(group, 1, 1);
    P.ConvertedLaunchers(group, 1, 1);
    P.ConvertedShape(group, 1, 1);
  }
}
