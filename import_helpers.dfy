/**
  The helpers of the Feide import (backend/mastery/data_import/helpers.py):
  the user item made from one member of a Feide group, and the counts
  shown for the per-school files the fetch steps write.

  A JSON object is modelled by the keys the helpers read; a key that may be
  absent is an Option, and a Python exception (KeyError, IndexError) is an
  `Err` carrying the text `str(error)` would give.
 */
module ImportHelpers {
  import opened Text

  /** The "membership" object of a Feide member: only its "affiliation" is read. */
  datatype MembershipInfo = MembershipInfo(affiliation: Option<string>)

  /** One entry of the Feide members API: "userid_sec", "name" and "membership". */
  datatype FeideMember = FeideMember(useridSec: Option<seq<string>>, name: Option<string>, membership: Option<MembershipInfo>)

  datatype UserItem = UserItem(feideId: string, name: string, email: string, affiliation: Option<string>)

  const IndexOutOfRange := "list index out of range"

  /** The quoted key a KeyError reports. */
  function KeyError(key: string): string {
    "'" + key + "'"
  }

  /** The part of an email-like Feide id that create_user_item rewrites. */
  const FeideInfix := "@feide."

  /** The email derived from a Feide id: every "@feide." becomes "@". */
  function EmailOf(feideId: string): (email: string)
  {
    Replace(feideId, FeideInfix, "@")
  }

  /**
    create_user_item: feide_id is the second ":"-separated field of the
    first "userid_sec" entry, the email is derived from it, and the
    affiliation is None when the membership has none.
   */
  function CreateUserItem(member: FeideMember): (r: Result<UserItem, string>)
    ensures r.Ok? ==> (member.useridSec.Some? && |member.useridSec.value| > 0 &&
      |Split(member.useridSec.value[0], ':')| >= 2 &&
      r.value.feideId == Split(member.useridSec.value[0], ':')[1] && ':' !in r.value.feideId &&
      member.name == Some(r.value.name) && member.membership == Some(MembershipInfo(r.value.affiliation)))
    ensures r.Ok? ==> r.value.email == EmailOf(r.value.feideId)
    ensures r.Err? <==> (member.useridSec.None? || member.useridSec.value == [] ||
      ':' !in member.useridSec.value[0] || member.name.None? || member.membership.None?)
  {
    match member.useridSec
    case None => Err(KeyError("userid_sec"))
    case Some(ids) =>
      if ids == [] then Err(IndexOutOfRange)
      else
        if ':' !in ids[0] then
          SplitNoSep(ids[0], ':');
          Err(IndexOutOfRange)
        else
          SplitHasSep(ids[0], ':');
          var feideId := Split(ids[0], ':')[1];
          match member.name
          case None => Err(KeyError("name"))
          case Some(name) =>
            match member.membership
            case None => Err(KeyError("membership"))
            case Some(info) => Ok(UserItem(feideId, name, EmailOf(feideId), info.affiliation))
  }

  /** Splitting a string that holds the separator gives at least two fields. */
  lemma {:induction false} SplitHasSep(s: string, sep: char)
    requires sep in s
    ensures |Split(s, sep)| >= 2
    decreases |s|
  {
    if s[0] != sep {
      SplitHasSep(s[1..], sep);
    }
  }

  /** A Feide id without "@feide." is its own email. */
  lemma EmailOfPlainId(feideId: string)
    requires !Contains(feideId, FeideInfix)
    ensures EmailOf(feideId) == feideId
  {
    ReplaceAbsent(feideId, FeideInfix, "@");
  }

  /** The email drops the "feide." of a Feide realm: "ola@feide.osloskolen.no" gives "ola@osloskolen.no". */
  lemma {:induction false} EmailDropsFeideRealm(user: string, realm: string)
    requires !Contains(user + "@", FeideInfix) && '@' !in user
    requires !Contains(realm, FeideInfix)
    ensures EmailOf(user + FeideInfix + realm) == user + "@" + realm
    decreases |user|
  {
    if user == [] {
      assert (user + FeideInfix + realm)[..|FeideInfix|] == FeideInfix;
      assert (user + FeideInfix + realm)[|FeideInfix|..] == realm;
      ReplaceAbsent(realm, FeideInfix, "@");
    } else {
      var s := user + FeideInfix + realm;
      assert s[0] == user[0] && user[0] != '@';
      assert s[..|FeideInfix|] != FeideInfix;
      assert s[1..] == user[1..] + FeideInfix + realm;
      assert !Contains(user[1..] + "@", FeideInfix) by {
        if Contains(user[1..] + "@", FeideInfix) {
          var i :| 0 <= i <= |user[1..] + "@"| - |FeideInfix| && OccursAt(user[1..] + "@", FeideInfix, i);
          assert (user + "@")[i + 1..i + 1 + |FeideInfix|] == (user[1..] + "@")[i..i + |FeideInfix|];
          assert OccursAt(user + "@", FeideInfix, i + 1);
        }
      }
      EmailDropsFeideRealm(user[1..], realm);
    }
  }

  // ---------------------------------------------------------------- counts of fetched data

  /**
    count_fetched_groups, given the groups file as the lengths of its
    lists by key (None when the file is missing or unreadable): None for a
    missing or empty file, else the basis groups plus the teaching groups.
   */
  function CountFetchedGroups(groupsFile: Option<map<string, nat>>): (r: Option<nat>)
    ensures r.None? <==> groupsFile.None? || groupsFile.value == map[]
    ensures r.Some? && "basis" !in groupsFile.value && "teaching" !in groupsFile.value ==> r.value == 0
    ensures r.Some? && "basis" in groupsFile.value ==> r.value >= groupsFile.value["basis"]
    ensures r.Some? && "teaching" in groupsFile.value ==> r.value >= groupsFile.value["teaching"]
    ensures r.Some? ==> r.value == (if "basis" in groupsFile.value then groupsFile.value["basis"] else 0)
                                 + (if "teaching" in groupsFile.value then groupsFile.value["teaching"] else 0)
  {
    match groupsFile
    case None => None
    case Some(lists) =>
      if lists == map[] then None
      else
        var basis := if "basis" in lists then lists["basis"] else 0;
        var teaching := if "teaching" in lists then lists["teaching"] else 0;
        Some(basis + teaching)
  }

  /** A JSON value in a member list: an object, with its "feide_id" if it has that key, or anything else. */
  datatype MemberEntry = MemberObject(feideId: Option<Option<string>>) | OtherValue

  /** A value of the memberships file: an object with optional "teachers" and "students" lists, or anything else. */
  datatype GroupEntry = GroupObject(teachers: seq<MemberEntry>, students: seq<MemberEntry>) | NotAnObject

  /** The Feide ids counted from one member list: objects that have the key; a JSON null id is None. */
  function IdsOf(members: seq<MemberEntry>): seq<Option<string>>
  {
    if members == [] then []
    else
      var rest := IdsOf(members[1..]);
      match members[0]
      case MemberObject(Some(id)) => [id] + rest
      case _ => rest
  }

  /** The ids counted from the whole file: teachers then students of every group object. */
  function FileIds(groups: seq<GroupEntry>): seq<Option<string>>
  {
    if groups == [] then []
    else
      match groups[0]
      case GroupObject(teachers, students) => IdsOf(teachers) + IdsOf(students) + FileIds(groups[1..])
      case NotAnObject => FileIds(groups[1..])
  }

  function Elements<T>(s: seq<T>): set<T> {
    set x | x in s
  }

  /** Distinct elements never outnumber elements. */
  lemma {:induction false} ElementsBound<T>(s: seq<T>)
    ensures |Elements(s)| <= |s|
  {
    if s != [] {
      ElementsBound(s[1..]);
      assert Elements(s) == Elements(s[1..]) + {s[0]};
    }
  }

  /**
    count_fetched_memberships_and_users, given the memberships file as its
    values in order: (None, None) when the file is missing, (0, 0) when it
    is empty, else the number of distinct Feide ids and of counted
    members, where only teachers and students that are objects with a
    "feide_id" count.
   */
  method CountFetchedMembershipsAndUsers(membershipsFile: Option<seq<GroupEntry>>) returns (users: Option<nat>, total: Option<nat>)
    ensures membershipsFile.None? ==> users.None? && total.None?
    ensures membershipsFile.Some? ==> (users.Some? && total.Some? &&
      total.value == |FileIds(membershipsFile.value)| &&
      users.value == |Elements(FileIds(membershipsFile.value))| &&
      users.value <= total.value)
  {
    if membershipsFile.None? {
      return None, None;
    }
    var groups := membershipsFile.value;
    if groups == [] {
      return Some(0), Some(0);
    }
    var unique: set<Option<string>> := {};
    var count := 0;
    for i := 0 to |groups|
      invariant unique == Elements(FileIds(groups[..i])) && count == |FileIds(groups[..i])|
    {
      FileIdsAppend(groups[..i], groups[i]);
      assert groups[..i + 1] == groups[..i] + [groups[i]];
      match groups[i]
      case NotAnObject =>
      case GroupObject(teachers, students) =>
        unique, count := CountMembers(teachers, unique, count);
        unique, count := CountMembers(students, unique, count);
    }
    assert groups[..|groups|] == groups;
    ElementsBound(FileIds(groups));
    users, total := Some(|unique|), Some(count);
  }

  /** The inner loop over one member list: objects with a "feide_id" add their id and one to the count. */
  method CountMembers(members: seq<MemberEntry>, unique0: set<Option<string>>, count0: nat)
    returns (unique: set<Option<string>>, count: nat)
    ensures unique == unique0 + Elements(IdsOf(members)) && count == count0 + |IdsOf(members)|
  {
    unique, count := unique0, count0;
    for k := 0 to |members|
      invariant unique == unique0 + Elements(IdsOf(members[..k])) && count == count0 + |IdsOf(members[..k])|
    {
      assert members[..k + 1] == members[..k] + [members[k]];
      IdsOfAppend(members[..k], members[k]);
      match members[k]
      case MemberObject(Some(id)) =>
        unique := unique + {id};
        count := count + 1;
      case _ =>
    }
    assert members[..|members|] == members;
  }

  lemma {:induction false} IdsOfAppend(members: seq<MemberEntry>, m: MemberEntry)
    ensures IdsOf(members + [m]) == IdsOf(members) + IdsOf([m])
  {
    if members != [] {
      assert (members + [m])[1..] == members[1..] + [m];
      IdsOfAppend(members[1..], m);
    }
  }

  lemma {:induction false} FileIdsAppend(groups: seq<GroupEntry>, g: GroupEntry)
    ensures FileIds(groups + [g]) == FileIds(groups) + FileIds([g])
  {
    if groups != [] {
      assert (groups + [g])[1..] == groups[1..] + [g];
      FileIdsAppend(groups[1..], g);
    }
  }
}
