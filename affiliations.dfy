/**
  check_affiliations (backend/mastery/api/auth.py): the schools at which a
  user logging in through Feide is a student, a teacher (faculty) or staff,
  read from the user's Feide affiliation strings
  "<kind>@<org number>.feide.osloskolen.no". The schools are those of
  School.objects.all(), in the order the database returns them.
 */
module Affiliations {
  import opened Text

  datatype SchoolRow = SchoolRow(id: nat, orgNumber: string)

  datatype Found = Found(students: seq<SchoolRow>, teachers: seq<SchoolRow>, staff: seq<SchoolRow>)

  function AffiliationOf(kind: string, orgNumber: string): string {
    kind + "@" + orgNumber + ".feide.osloskolen.no"
  }

  /** The three affiliation strings check_affiliations spells out. */
  lemma Spelled(orgNumber: string)
    ensures AffiliationOf("student", orgNumber) == "student@" + orgNumber + ".feide.osloskolen.no"
    ensures AffiliationOf("faculty", orgNumber) == "faculty@" + orgNumber + ".feide.osloskolen.no"
    ensures AffiliationOf("staff", orgNumber) == "staff@" + orgNumber + ".feide.osloskolen.no"
  {
    assert "student" + "@" == "student@";
    assert "faculty" + "@" == "faculty@";
    assert "staff" + "@" == "staff@";
  }

  predicate Affiliated(school: SchoolRow, affiliations: seq<string>, kind: string) {
    AffiliationOf(kind, school.orgNumber) in affiliations
  }

  /** The schools, in their order, with an affiliation of that kind listed. */
  function SchoolsWith(schools: seq<SchoolRow>, affiliations: seq<string>, kind: string): (r: seq<SchoolRow>)
    ensures |r| <= |schools|
    decreases |schools|
  {
    if schools == [] then []
    else
      var last := schools[|schools| - 1];
      SchoolsWith(schools[..|schools| - 1], affiliations, kind) + (if Affiliated(last, affiliations, kind) then [last] else [])
  }

  /** A missing or empty user id or affiliation list finds nothing; otherwise each kind is looked up on its own. */
  function CheckAffiliations(feideUserId: Option<string>, affiliations: Option<seq<string>>, schools: seq<SchoolRow>): (r: Found)
    ensures feideUserId.None? || feideUserId == Some("") || affiliations.None? || affiliations == Some([]) ==>
      r == Found([], [], [])
  {
    if feideUserId.None? || feideUserId == Some("") || affiliations.None? || affiliations == Some([]) then Found([], [], [])
    else
      var affs := affiliations.value;
      Found(SchoolsWith(schools, affs, "student"), SchoolsWith(schools, affs, "faculty"), SchoolsWith(schools, affs, "staff"))
  }

  /** check_affiliations, as its loop over the schools. */
  method CheckAffiliationsLoop(feideUserId: Option<string>, affiliations: Option<seq<string>>, schools: seq<SchoolRow>)
    returns (students: seq<SchoolRow>, teachers: seq<SchoolRow>, staff: seq<SchoolRow>)
    ensures Found(students, teachers, staff) == CheckAffiliations(feideUserId, affiliations, schools)
  {
    if feideUserId.None? || feideUserId == Some("") || affiliations.None? || affiliations == Some([]) {
      return [], [], [];
    }
    var affs := affiliations.value;
    students, teachers, staff := [], [], [];
    for i := 0 to |schools|
      invariant students == SchoolsWith(schools[..i], affs, "student")
      invariant teachers == SchoolsWith(schools[..i], affs, "faculty")
      invariant staff == SchoolsWith(schools[..i], affs, "staff")
    {
      assert schools[..i + 1][..i] == schools[..i];
      var orgNumber := schools[i].orgNumber;
      Spelled(orgNumber);
      if "student@" + orgNumber + ".feide.osloskolen.no" in affs {
        students := students + [schools[i]];
      }
      if "faculty@" + orgNumber + ".feide.osloskolen.no" in affs {
        teachers := teachers + [schools[i]];
      }
      if "staff@" + orgNumber + ".feide.osloskolen.no" in affs {
        staff := staff + [schools[i]];
      }
    }
    assert schools[..|schools|] == schools;
  }

  // ---------------------------------------------------------------- properties

  /** A school is found for a kind exactly when it is one of the schools and its affiliation of that kind is listed. */
  lemma {:induction false} SchoolsWithIff(schools: seq<SchoolRow>, affiliations: seq<string>, kind: string, s: SchoolRow)
    ensures s in SchoolsWith(schools, affiliations, kind) <==> s in schools && Affiliated(s, affiliations, kind)
    decreases |schools|
  {
    if schools != [] {
      var init := schools[..|schools| - 1];
      SchoolsWithIff(init, affiliations, kind, s);
      assert schools == init + [schools[|schools| - 1]];
    }
  }

  /** The found schools keep the order of the school list: the lookup splits over a concatenation. */
  lemma {:induction false} SchoolsWithKeepsOrder(a: seq<SchoolRow>, b: seq<SchoolRow>, affiliations: seq<string>, kind: string)
    ensures SchoolsWith(a + b, affiliations, kind) == SchoolsWith(a, affiliations, kind) + SchoolsWith(b, affiliations, kind)
    decreases |b|
  {
    if b == [] {
      assert a + b == a;
    } else {
      var init := b[..|b| - 1];
      SchoolsWithKeepsOrder(a, init, affiliations, kind);
      assert (a + b)[..|a + b| - 1] == a + init;
    }
  }

  /** With a user id and affiliations, each list holds exactly the schools affiliated by its kind. */
  lemma CheckAffiliationsIff(feideUserId: string, affiliations: seq<string>, schools: seq<SchoolRow>, s: SchoolRow)
    requires feideUserId != "" && affiliations != []
    ensures var r := CheckAffiliations(Some(feideUserId), Some(affiliations), schools);
      (s in r.students <==> s in schools && "student@" + s.orgNumber + ".feide.osloskolen.no" in affiliations)
      && (s in r.teachers <==> s in schools && "faculty@" + s.orgNumber + ".feide.osloskolen.no" in affiliations)
      && (s in r.staff <==> s in schools && "staff@" + s.orgNumber + ".feide.osloskolen.no" in affiliations)
  {
    Spelled(s.orgNumber);
    SchoolsWithIff(schools, affiliations, "student", s);
    SchoolsWithIff(schools, affiliations, "faculty", s);
    SchoolsWithIff(schools, affiliations, "staff", s);
  }

  /** One school can be in all three lists. */
  lemma SchoolInEveryList(school: SchoolRow, feideUserId: string)
    requires feideUserId != ""
    ensures var affs := [AffiliationOf("student", school.orgNumber), AffiliationOf("faculty", school.orgNumber),
                         AffiliationOf("staff", school.orgNumber)];
      CheckAffiliations(Some(feideUserId), Some(affs), [school]) == Found([school], [school], [school])
  {
    var affs := [AffiliationOf("student", school.orgNumber), AffiliationOf("faculty", school.orgNumber),
                 AffiliationOf("staff", school.orgNumber)];
    assert [school][..0] == [];
    assert affs[0] in affs && affs[1] in affs && affs[2] in affs;
  }
}
