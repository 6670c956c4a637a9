/**
  The parameter rules of the list endpoints (get_queryset of the view
  sets in backend/mastery/api/views.py). Each method builds, step by step
  as the source reassigns its queryset, the list of filters the endpoint
  applies after the access policy's scope, or stops with the error the
  source raises. The scope itself is modelled in the policy modules.
 */
module Listings {
  import opened Text
  import opened RequestParams
  import opened Lookups

  /** One queryset filter; Either is a Q(...) | Q(...) disjunction, Both a Q with two conditions. */
  datatype Filter =
    | Deleted(deleted: DeletedSelection)
    | Valid(validity: ValiditySelection)
    | Eq(field: Field, value: Param)
    | In(field: Field, values: seq<string>)
    | Either(left: Filter, right: Filter)
    | Both(first: Filter, second: Filter)

  /**
    What a listing request comes to: the filters and whether .distinct()
    is applied, a missing-parameter or wrong-parameter validation error
    (HTTP 400), or a server error where the source calls a string method
    on the boolean that "true" parses to.
   */
  datatype Listing =
    | Query(filters: set<Filter>, distinct: bool)
    | MissingParameter
    | WrongParameter
    | ServerError

  predicate Has(r: Listing, f: Filter) {
    r.Query? && f in r.filters
  }

  /** `if cond: qs = qs.filter(f)`: the filters afterwards are the old ones, then f when cond holds. */
  function AddIf(fs: set<Filter>, cond: bool, f: Filter): set<Filter> {
    if cond then fs + {f} else fs
  }

  function SchoolOfUser(school: Param): Filter {
    Either(Eq(UserGroupsGroupSchoolId, school), Eq(UserSchoolsSchoolId, school))
  }

  function RolesOfUser(names: seq<string>): Filter {
    Either(In(UserGroupsRoleName, names), In(UserSchoolsRoleName, names))
  }

  /** UserViewSet.get_queryset. */
  method ListUsers(rq: ReadQuery, isList: bool) returns (r: Listing)
    ensures !isList ==> r == Query({Deleted(rq.deleted)}, true)
    ensures isList ==> (r == MissingParameter <==> !Truthy(Arg(rq, School)))
    ensures isList ==> (r == ServerError <==>
      Truthy(Arg(rq, School)) && (Arg(rq, Roles) == Flag(true) || Arg(rq, Groups) == Flag(true)))
    ensures r != WrongParameter
    ensures r.Query? ==> r.distinct && Deleted(rq.deleted) in r.filters
    ensures isList && r.Query? ==> Has(r, SchoolOfUser(Arg(rq, School)))
    ensures isList && r.Query? ==>
      (Has(r, RolesOfUser(Items(rq, Roles))) <==> Items(rq, Roles) != [])
    ensures isList && r.Query? ==>
      (Has(r, In(UserGroupsGroupId, Items(rq, Groups))) <==> Items(rq, Groups) != [])
    ensures r.Query? ==> (r.filters <=
      {Deleted(rq.deleted), SchoolOfUser(Arg(rq, School)), RolesOfUser(Items(rq, Roles)), In(UserGroupsGroupId, Items(rq, Groups))})
  {
    var filters := {Deleted(rq.deleted)};
    if !isList {
      return Query(filters, true);
    }
    var school := Arg(rq, School);
    var roles := Arg(rq, Roles);
    var groups := Arg(rq, Groups);
    if !Truthy(school) {
      return MissingParameter;
    }
    filters := filters + {SchoolOfUser(school)};
    if roles == Flag(true) {
      return ServerError;
    }
    var names := Items(rq, Roles);
    filters := AddIf(filters, names != [], RolesOfUser(names));
    if groups == Flag(true) {
      return ServerError;
    }
    var ids := Items(rq, Groups);
    filters := AddIf(filters, ids != [], In(UserGroupsGroupId, ids));
    return Query(filters, true);
  }

  /** UserSchoolViewSet.get_queryset. */
  method ListUserSchools(rq: ReadQuery, isList: bool) returns (r: Listing)
    ensures !isList ==> r == Query({Deleted(rq.deleted)}, true)
    ensures isList ==> (r == MissingParameter <==> !Truthy(Arg(rq, School)))
    ensures r == MissingParameter || r.Query?
    ensures r.Query? ==> r.distinct && Deleted(rq.deleted) in r.filters
    ensures isList && r.Query? ==> Has(r, Eq(SchoolId, Arg(rq, School)))
    ensures isList && r.Query? ==> (Has(r, Eq(UserId, Arg(rq, User))) <==> Truthy(Arg(rq, User)))
    ensures isList && r.Query? ==> (Has(r, Eq(RoleName, Arg(rq, Role))) <==> Truthy(Arg(rq, Role)))
    ensures r.Query? ==> (r.filters <=
      {Deleted(rq.deleted), Eq(SchoolId, Arg(rq, School)), Eq(UserId, Arg(rq, User)), Eq(RoleName, Arg(rq, Role))})
  {
    var filters := {Deleted(rq.deleted)};
    if isList {
      var school := Arg(rq, School);
      var user := Arg(rq, User);
      var role := Arg(rq, Role);
      if !Truthy(school) {
        return MissingParameter;
      }
      filters := filters + {Eq(SchoolId, school)};
      filters := AddIf(filters, Truthy(user), Eq(UserId, user));
      filters := AddIf(filters, Truthy(role), Eq(RoleName, role));
    }
    return Query(filters, true);
  }

  /** UserGroupViewSet.get_queryset. */
  method ListUserGroups(rq: ReadQuery, isList: bool) returns (r: Listing)
    ensures !isList ==> r == Query({Deleted(rq.deleted)}, true)
    ensures isList ==> (r == MissingParameter <==> !Truthy(Arg(rq, School)))
    ensures r == MissingParameter || r.Query?
    ensures r.Query? ==> r.distinct && Deleted(rq.deleted) in r.filters
    ensures isList && r.Query? ==> Has(r, Eq(GroupSchoolId, Arg(rq, School)))
    ensures isList && r.Query? ==> (Has(r, Eq(UserId, Arg(rq, User))) <==> Truthy(Arg(rq, User)))
    ensures isList && r.Query? ==> (Has(r, Eq(GroupId, Arg(rq, Group))) <==> Truthy(Arg(rq, Group)))
    ensures isList && r.Query? ==> (Has(r, Eq(RoleName, Arg(rq, Role))) <==> Truthy(Arg(rq, Role)))
    ensures r.Query? ==> (r.filters <=
      {Deleted(rq.deleted), Eq(GroupSchoolId, Arg(rq, School)), Eq(UserId, Arg(rq, User)),
       Eq(GroupId, Arg(rq, Group)), Eq(RoleName, Arg(rq, Role))})
  {
    var filters := {Deleted(rq.deleted)};
    if isList {
      var school := Arg(rq, School);
      var group := Arg(rq, Group);
      var user := Arg(rq, User);
      var role := Arg(rq, Role);
      if !Truthy(school) {
        return MissingParameter;
      }
      filters := filters + {Eq(GroupSchoolId, school)};
      filters := AddIf(filters, Truthy(user), Eq(UserId, user));
      filters := AddIf(filters, Truthy(group), Eq(GroupId, group));
      filters := AddIf(filters, Truthy(role), Eq(RoleName, role));
    }
    return Query(filters, true);
  }

  /** The type a type parameter selects: the parameter in lower case. */
  function TypeOf(p: Param): Param {
    if p.Word? then Word(Lower(p.s)) else p
  }

  /** GroupViewSet.get_queryset. The list result is not made distinct. */
  method ListGroups(rq: ReadQuery, isList: bool) returns (r: Listing)
    ensures !isList ==> r == Query({Deleted(rq.deleted), Valid(rq.validity)}, true)
    ensures isList ==> (r == MissingParameter <==> !Truthy(Arg(rq, School)))
    ensures isList ==> (r == ServerError <==>
      Truthy(Arg(rq, School)) &&
      (Arg(rq, Kind) == Flag(true) || Arg(rq, Roles) == Flag(true) || Arg(rq, Ids) == Flag(true)))
    ensures r != WrongParameter
    ensures r.Query? ==>
      Deleted(rq.deleted) in r.filters && Valid(rq.validity) in r.filters
    ensures isList && r.Query? ==> !r.distinct && Has(r, Eq(SchoolId, Arg(rq, School)))
    ensures isList && r.Query? ==> (Has(r, Eq(Type, TypeOf(Arg(rq, Kind)))) <==> Truthy(Arg(rq, Kind)))
    ensures isList && r.Query? ==> (Has(r, Eq(UserGroupsUserId, Arg(rq, User))) <==> Truthy(Arg(rq, User)))
    ensures isList && r.Query? ==> (Has(r, Eq(SubjectId, Arg(rq, Subject))) <==> Truthy(Arg(rq, Subject)))
    ensures isList && r.Query? ==>
      (Has(r, In(UserGroupsRoleName, Items(rq, Roles))) <==> Items(rq, Roles) != [])
    ensures isList && r.Query? ==> (Has(r, In(Id, Items(rq, Ids))) <==> Items(rq, Ids) != [])
    ensures isList && r.Query? ==> (Has(r, Eq(IsEnabled, Flag(true))) <==> rq.enabled == EnabledOnly)
    ensures isList && r.Query? ==> (Has(r, Eq(IsEnabled, Flag(false))) <==> rq.enabled == DisabledOnly)
    ensures r.Query? ==> (r.filters <=
      {Deleted(rq.deleted), Valid(rq.validity), Eq(SchoolId, Arg(rq, School)),
       Eq(Type, TypeOf(Arg(rq, Kind))), Eq(UserGroupsUserId, Arg(rq, User)), Eq(SubjectId, Arg(rq, Subject)),
       In(UserGroupsRoleName, Items(rq, Roles)), In(Id, Items(rq, Ids)), Eq(IsEnabled, Flag(true)), Eq(IsEnabled, Flag(false))})
  {
    var filters := {Deleted(rq.deleted), Valid(rq.validity)};
    if !isList {
      return Query(filters, true);
    }
    var school := Arg(rq, School);
    var kind := Arg(rq, Kind);
    var roles := Arg(rq, Roles);
    var ids := Arg(rq, Ids);
    if !Truthy(school) {
      return MissingParameter;
    }
    filters := filters + {Eq(SchoolId, school)};
    if kind == Flag(true) {
      return ServerError;
    }
    var scalar := GroupScalarFilters(kind, Arg(rq, User), Arg(rq, Subject));
    filters := filters + scalar;
    // A roles or ids parameter of "true" fails at .split whichever fails first.
    if roles == Flag(true) || ids == Flag(true) {
      return ServerError;
    }
    var more := GroupListFilters(Items(rq, Roles), Items(rq, Ids), rq.enabled);
    return Query(filters + more, false);
  }

  /** The type, user and subject filters of the group listing. */
  method GroupScalarFilters(kind: Param, user: Param, subject: Param) returns (fs: set<Filter>)
    requires kind != Flag(true)
    ensures fs <= {Eq(Type, TypeOf(kind)), Eq(UserGroupsUserId, user), Eq(SubjectId, subject)}
    ensures Eq(Type, TypeOf(kind)) in fs <==> Truthy(kind)
    ensures Eq(UserGroupsUserId, user) in fs <==> Truthy(user)
    ensures Eq(SubjectId, subject) in fs <==> Truthy(subject)
  {
    fs := AddIf({}, Truthy(kind), Eq(Type, TypeOf(kind)));
    fs := AddIf(fs, Truthy(user), Eq(UserGroupsUserId, user));
    fs := AddIf(fs, Truthy(subject), Eq(SubjectId, subject));
  }

  /** The roles, ids and enabled filters of the group listing. */
  method GroupListFilters(names: seq<string>, ids: seq<string>, enabled: EnabledSelection) returns (fs: set<Filter>)
    ensures fs <= {In(UserGroupsRoleName, names), In(Id, ids), Eq(IsEnabled, Flag(true)), Eq(IsEnabled, Flag(false))}
    ensures In(UserGroupsRoleName, names) in fs <==> names != []
    ensures In(Id, ids) in fs <==> ids != []
    ensures Eq(IsEnabled, Flag(true)) in fs <==> enabled == EnabledOnly
    ensures Eq(IsEnabled, Flag(false)) in fs <==> enabled == DisabledOnly
  {
    fs := AddIf({}, names != [], In(UserGroupsRoleName, names));
    fs := AddIf(fs, ids != [], In(Id, ids));
    fs := AddIf(fs, enabled == EnabledOnly, Eq(IsEnabled, Flag(true)));
    fs := AddIf(fs, enabled == DisabledOnly, Eq(IsEnabled, Flag(false)));
  }

  function SchoolOfSubject(school: Param): Filter {
    Either(Either(Eq(GroupsSchoolId, school), Eq(OwnedBySchoolId, school)), Eq(GoalsSchoolId, school))
  }

  /** Subjects taught to one of the students in an enabled group, or with a personal goal for one of them. */
  function StudentsOfSubject(ids: seq<string>): Filter {
    Either(Both(In(GroupsUserGroupsUserId, ids), Eq(GroupsIsEnabled, Flag(true))), In(GoalsStudentId, ids))
  }

  /** SubjectViewSet.get_queryset. Only the list result is made distinct. */
  method ListSubjects(rq: ReadQuery, isList: bool) returns (r: Listing)
    ensures !isList ==> r == Query({Deleted(rq.deleted)}, false)
    ensures isList ==> (r == MissingParameter <==> !Truthy(Arg(rq, School)))
    ensures isList ==> (r == ServerError <==> Truthy(Arg(rq, School)) && Arg(rq, Students) == Flag(true))
    ensures r != WrongParameter
    ensures r.Query? ==> Deleted(rq.deleted) in r.filters
    ensures isList && r.Query? ==> r.distinct && Has(r, SchoolOfSubject(Arg(rq, School)))
    ensures isList && r.Query? ==>
      (Has(r, StudentsOfSubject(Items(rq, Students))) <==> Items(rq, Students) != [])
    ensures isList && r.Query? ==>
      (Has(r, Eq(OwnedBySchoolId, Arg(rq, School))) <==> Truthy(Arg(rq, IsOwnedBySchool)))
    ensures isList && r.Query? ==>
      (Has(r, Eq(OwnedBySchoolId, Missing)) <==> Present(rq, IsOwnedBySchool) && !Truthy(Arg(rq, IsOwnedBySchool)))
    ensures r.Query? ==> (r.filters <=
      {Deleted(rq.deleted), SchoolOfSubject(Arg(rq, School)), StudentsOfSubject(Items(rq, Students)),
       Eq(OwnedBySchoolId, Arg(rq, School)), Eq(OwnedBySchoolId, Missing)})
  {
    var filters := {Deleted(rq.deleted)};
    if !isList {
      return Query(filters, false);
    }
    var school := Arg(rq, School);
    var students := Arg(rq, Students);
    var owned, ownedSet := Arg(rq, IsOwnedBySchool), Present(rq, IsOwnedBySchool);
    if !Truthy(school) {
      return MissingParameter;
    }
    filters := filters + {SchoolOfSubject(school)};
    if students == Flag(true) {
      return ServerError;
    }
    var ids := Items(rq, Students);
    filters := AddIf(filters, ids != [], StudentsOfSubject(ids));
    filters := AddIf(filters, ownedSet && Truthy(owned), Eq(OwnedBySchoolId, school));
    filters := AddIf(filters, ownedSet && !Truthy(owned), Eq(OwnedBySchoolId, Missing));
    return Query(filters, true);
  }

  function StudentOfGoal(student: Param): Filter {
    Either(Eq(StudentId, student), Eq(GroupUserGroupsUserId, student))
  }

  function SubjectOfGoal(subject: Param): Filter {
    Either(Eq(SubjectId, subject), Eq(GroupSubjectId, subject))
  }

  /** GoalViewSet.get_queryset: at least one of group, student and subject; never group with subject. */
  method ListGoals(rq: ReadQuery, isList: bool) returns (r: Listing)
    ensures !isList ==> r == Query({Deleted(rq.deleted)}, false)
    ensures isList ==> (r == MissingParameter <==>
      !Truthy(Arg(rq, Group)) && !Truthy(Arg(rq, Student)) && !Truthy(Arg(rq, Subject)))
    ensures isList ==> (r == WrongParameter <==> Truthy(Arg(rq, Group)) && Truthy(Arg(rq, Subject)))
    ensures r != ServerError
    ensures r.Query? ==> !r.distinct && Deleted(rq.deleted) in r.filters
    ensures isList && r.Query? ==> (Has(r, Eq(GroupId, Arg(rq, Group))) <==> Truthy(Arg(rq, Group)))
    ensures isList && r.Query? ==> (Has(r, StudentOfGoal(Arg(rq, Student))) <==> Truthy(Arg(rq, Student)))
    ensures isList && r.Query? ==> (Has(r, SubjectOfGoal(Arg(rq, Subject))) <==> Truthy(Arg(rq, Subject)))
    ensures isList && r.Query? ==> !(Has(r, Eq(GroupId, Arg(rq, Group))) && Has(r, SubjectOfGoal(Arg(rq, Subject))))
    ensures r.Query? ==> (r.filters <=
      {Deleted(rq.deleted), Eq(GroupId, Arg(rq, Group)), StudentOfGoal(Arg(rq, Student)), SubjectOfGoal(Arg(rq, Subject))})
  {
    var filters := {Deleted(rq.deleted)};
    if isList {
      var group := Arg(rq, Group);
      var student := Arg(rq, Student);
      var subject := Arg(rq, Subject);
      if !Truthy(student) && !Truthy(subject) && !Truthy(group) {
        return MissingParameter;
      }
      if Truthy(group) && Truthy(subject) {
        return WrongParameter;
      }
      filters := AddIf(filters, Truthy(group), Eq(GroupId, group));
      filters := AddIf(filters, Truthy(student), StudentOfGoal(student));
      filters := AddIf(filters, Truthy(subject), SubjectOfGoal(subject));
    }
    return Query(filters, false);
  }

  /** MasterySchemaViewSet.get_queryset: an optional school filter and nothing else. */
  method ListMasterySchemas(rq: ReadQuery, isList: bool) returns (r: Listing)
    ensures r.Query? && !r.distinct
    ensures r.filters == {} <==> !isList || !Truthy(Arg(rq, School))
    ensures r.filters != {} ==> r.filters == {Eq(SchoolId, Arg(rq, School))}
  {
    var filters: set<Filter> := {};
    if isList {
      var school := Arg(rq, School);
      filters := AddIf(filters, Truthy(school), Eq(SchoolId, school));
    }
    return Query(filters, false);
  }

  /** ObservationViewSet.get_queryset: at least one of student, observer and goal. */
  method ListObservations(rq: ReadQuery, isList: bool) returns (r: Listing)
    ensures !isList ==> r == Query({Deleted(rq.deleted)}, false)
    ensures isList ==> (r == MissingParameter <==>
      !Truthy(Arg(rq, Student)) && !Truthy(Arg(rq, Observer)) && !Truthy(Arg(rq, Goal)))
    ensures r == MissingParameter || r.Query?
    ensures r.Query? ==> !r.distinct && Deleted(rq.deleted) in r.filters
    ensures isList && r.Query? ==> (Has(r, Eq(StudentId, Arg(rq, Student))) <==> Truthy(Arg(rq, Student)))
    ensures isList && r.Query? ==> (Has(r, Eq(ObserverId, Arg(rq, Observer))) <==> Truthy(Arg(rq, Observer)))
    ensures isList && r.Query? ==> (Has(r, Eq(GoalId, Arg(rq, Goal))) <==> Truthy(Arg(rq, Goal)))
    ensures r.Query? ==> (r.filters <=
      {Deleted(rq.deleted), Eq(StudentId, Arg(rq, Student)), Eq(ObserverId, Arg(rq, Observer)), Eq(GoalId, Arg(rq, Goal))})
  {
    var filters := {Deleted(rq.deleted)};
    if isList {
      var student := Arg(rq, Student);
      var observer := Arg(rq, Observer);
      var goal := Arg(rq, Goal);
      if !Truthy(student) && !Truthy(observer) && !Truthy(goal) {
        return MissingParameter;
      }
      filters := AddIf(filters, Truthy(student), Eq(StudentId, student));
      filters := AddIf(filters, Truthy(observer), Eq(ObserverId, observer));
      filters := AddIf(filters, Truthy(goal), Eq(GoalId, goal));
    }
    return Query(filters, false);
  }
}
