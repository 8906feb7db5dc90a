/** `user_group_permission(user_group)`: the allow/deny rule of the generated permission class. */
module Permissions {
  import opened Exceptions
  import opened Choices

  /** `request.user`: anonymous, or an authenticated user with the names of its groups. */
  datatype RequestUser = AnonymousUser | AuthenticatedUser(groups: set<GroupName>)

  /** `request.user.groups.filter(name__in=names).exists()` */
  function InAnyGroup(names: seq<GroupName>, groups: set<GroupName>): (r: bool)
    ensures r <==> exists i :: 0 <= i < |names| && names[i] in groups
  {
    if |names| == 0 then false
    else names[0] in groups || InAnyGroup(names[1..], groups)
  }

  /** `has_permission(request, view)` of the class built for `userGroup` (None or a list of group names). */
  function HasPermission(userGroup: Option<seq<GroupName>>, user: RequestUser): (allowed: bool)
    ensures user.AnonymousUser? ==> !allowed
    ensures user.AuthenticatedUser? && (userGroup.None? || userGroup.value == []) ==> allowed
    ensures user.AuthenticatedUser? && userGroup.Some? && userGroup.value != [] ==>
              (allowed <==> exists i :: 0 <= i < |userGroup.value| && userGroup.value[i] in user.groups)
  {
    match user
    case AnonymousUser => false
    case AuthenticatedUser(groups) =>
      userGroup.None? || |userGroup.value| == 0 || InAnyGroup(userGroup.value, groups)
  }

  /** An empty list of groups lets everyone in, exactly as no list at all. */
  lemma EmptyListIsNone(user: RequestUser)
    ensures HasPermission(Some([]), user) == HasPermission(None, user)
  {
  }

  /** Belonging to more groups never takes a permission away. */
  lemma MoreGroupsNeverDeny(userGroup: Option<seq<GroupName>>, g1: set<GroupName>, g2: set<GroupName>)
    requires g1 <= g2
    requires HasPermission(userGroup, AuthenticatedUser(g1))
    ensures HasPermission(userGroup, AuthenticatedUser(g2))
  {
  }

  /** Adding a name to a non-empty list never takes a permission away. */
  lemma LongerListNeverDenies(names: seq<GroupName>, extra: GroupName, user: RequestUser)
    requires names != []
    requires HasPermission(Some(names), user)
    ensures HasPermission(Some(names + [extra]), user)
  {
    var i :| 0 <= i < |names| && names[i] in user.groups;
    assert (names + [extra])[i] == names[i];
  }

  /** Naming a group is a restriction: whoever the first list admits, the empty list admits too. */
  lemma NamedGroupsRestrict(names: seq<GroupName>, user: RequestUser)
    requires HasPermission(Some(names), user)
    ensures HasPermission(Some([]), user)
  {
  }
}
