/** The launch configuration of a project (desktop/src/projects/configuration/types.rs): a
    tree of groups, each either nesting further groups or holding launch profiles. */
module ProjectConfiguration {
  import opened Wrappers

  /** `ScopedTag`: a tag value within a scope, such as datacenter = ffm. */
  datatype ScopedTag = ScopedTag(scope: string, tag: string)

  /** `Parameter`: a named parameter of a launch profile. */
  datatype Parameter = Parameter(name: string, value: string)

  /** `LaunchProfile`. */
  datatype LaunchProfile = LaunchProfile(name: string, params: seq<Parameter>, tags: seq<ScopedTag>)

  datatype LayoutDirection = Horizontal | Vertical

  /** `GroupContents`: a group holds either groups or launch profiles, never both. */
  datatype GroupContents =
    | Groups(groups: seq<LaunchGroup>)
    | LaunchProfiles(profiles: seq<LaunchProfile>)

  /** `LaunchGroup`. */
  datatype LaunchGroup = LaunchGroup(name: string, tag: ScopedTag, direction: LayoutDirection, content: GroupContents)

  /** `ProjectConfiguration` (desktop/src/projects/configuration/mod.rs): the name of the
      startup profile, if any, and the root group. */
  datatype Configuration = Configuration(startup: Option<string>, root: LaunchGroup)
}
