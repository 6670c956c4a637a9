/** The Django field lookups the list endpoints filter on. */
module Lookups {
  /** The lookups the listings filter on, named after their Django spelling. */
  datatype Field =
    | GoalId
    | GoalsSchoolId
    | GoalsStudentId
    | GroupSchoolId
    | GroupSubjectId
    | GroupUserGroupsUserId
    | GroupId
    | GroupsIsEnabled
    | GroupsSchoolId
    | GroupsUserGroupsUserId
    | Id
    | IsEnabled
    | ObserverId
    | OwnedBySchoolId
    | RoleName
    | SchoolId
    | Status
    | Statuts
    | StudentId
    | SubjectId
    | Type
    | UserGroupsGroupSchoolId
    | UserGroupsGroupId
    | UserGroupsRoleName
    | UserGroupsUserId
    | UserId
    | UserSchoolsRoleName
    | UserSchoolsSchoolId

  /** The Django lookup each field stands for. */
  function Lookup(f: Field): string {
    match f
    case GoalId => "goal_id"
    case GoalsSchoolId => "goals__school_id"
    case GoalsStudentId => "goals__student_id"
    case GroupSchoolId => "group__school_id"
    case GroupSubjectId => "group__subject_id"
    case GroupUserGroupsUserId => "group__user_groups__user_id"
    case GroupId => "group_id"
    case GroupsIsEnabled => "groups__is_enabled"
    case GroupsSchoolId => "groups__school_id"
    case GroupsUserGroupsUserId => "groups__user_groups__user_id"
    case Id => "id"
    case IsEnabled => "is_enabled"
    case ObserverId => "observer_id"
    case OwnedBySchoolId => "owned_by_school_id"
    case RoleName => "role__name"
    case SchoolId => "school_id"
    case Status => "status"
    case Statuts => "statuts"
    case StudentId => "student_id"
    case SubjectId => "subject_id"
    case Type => "type"
    case UserGroupsGroupSchoolId => "user_groups__group__school_id"
    case UserGroupsGroupId => "user_groups__group_id"
    case UserGroupsRoleName => "user_groups__role__name"
    case UserGroupsUserId => "user_groups__user_id"
    case UserId => "user_id"
    case UserSchoolsRoleName => "user_schools__role__name"
    case UserSchoolsSchoolId => "user_schools__school_id"
  }
}
