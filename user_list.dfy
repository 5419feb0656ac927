/** The user list: filter the users by a search term and a department,
    order the rest by last login, newest first, and look up each card's
    department. Timestamps are milliseconds since the epoch. */
module UserList {
  import opened SeqUtil
  import opened JsString

  datatype User = User(id: string, name: string, email: string, department: string, lastLogin: int)

  datatype Department = Department(id: string, name: string)

  /** The department selector's value that lets every department through. */
  const AllDepartments: string := "all"

  /** Thirty days in milliseconds: the window in which a user counts as active. */
  const ActiveWindowMs: int := 30 * 24 * 60 * 60 * 1000

  predicate MatchesSearch(u: User, term: string)
  {
    Includes(Lower(u.name), Lower(term)) || Includes(Lower(u.email), Lower(term))
  }

  predicate MatchesDepartment(u: User, department: string)
  {
    department == AllDepartments || u.department == department
  }

  predicate Keep(u: User, term: string, department: string)
  {
    MatchesSearch(u, term) && MatchesDepartment(u, department)
  }

  /** `a` may stay before `b`: the comparator `b.lastLogin - a.lastLogin`
      is at most zero. */
  function NewestFirst(): (User, User) -> bool
  {
    (a: User, b: User) => b.lastLogin - a.lastLogin <= 0
  }

  /** `sortedUsers`. */
  function VisibleUsers(users: seq<User>, term: string, department: string): seq<User>
  {
    Sort(Filter(users, (u: User) => Keep(u, term, department)), NewestFirst())
  }

  /** Exactly the users that match the search and the department are shown,
      each as often as in the input. */
  lemma VisibleSpec(users: seq<User>, term: string, department: string)
    ensures var r := VisibleUsers(users, term, department);
      && (forall u :: u in r <==> u in users && Keep(u, term, department))
      && (forall u | u in users && Keep(u, term, department) :: multiset(r)[u] == multiset(users)[u])
      && |r| <= |users|
  {
    var kept := Filter(users, (u: User) => Keep(u, term, department));
    var r := VisibleUsers(users, term, department);
    assert multiset(r) == multiset(kept);
    forall u ensures u in r <==> u in users && Keep(u, term, department) {
      assert u in r <==> u in multiset(r);
      assert u in kept <==> u in multiset(kept);
      if u in users && Keep(u, term, department) {
        assert multiset(kept)[u] == multiset(users)[u];
        assert u in multiset(users);
      }
    }
  }

  /** The list is ordered by last login, newest first. */
  lemma {:induction false} NewestFirstOrder(users: seq<User>, term: string, department: string)
    ensures var r := VisibleUsers(users, term, department);
      forall i, j | 0 <= i < j < |r| :: r[i].lastLogin >= r[j].lastLogin
  {
    var le := NewestFirst();
    var kept := Filter(users, (u: User) => Keep(u, term, department));
    SortSorted(kept, le);
    SortedPairwise(Sort(kept, le), le);
  }

  /** An empty search with every department shows every user. */
  lemma {:induction false} EmptySearchShowsAll(users: seq<User>)
    ensures multiset(VisibleUsers(users, "", AllDepartments)) == multiset(users)
  {
    forall u | u in users ensures Keep(u, "", AllDepartments) {
      IncludesEmpty(Lower(u.name));
    }
    FilterAll(users, (u: User) => Keep(u, "", AllDepartments));
  }

  /** `new Map(departments.map(d => [d.id, d]))`: entries are inserted in
      order, so a later department with the same id replaces an earlier one. */
  function DepartmentMap(departments: seq<Department>): map<string, Department>
  {
    if departments == [] then map[]
    else
      var last := departments[|departments| - 1];
      DepartmentMap(departments[..|departments| - 1])[last.id := last]
  }

  /** An id is in the map iff some department has it, and it maps to the
      last department with that id. */
  lemma {:induction false} DepartmentMapSpec(departments: seq<Department>, id: string)
    ensures id in DepartmentMap(departments) <==> exists i | 0 <= i < |departments| :: departments[i].id == id
    ensures id in DepartmentMap(departments) ==>
      exists i | 0 <= i < |departments| ::
        && DepartmentMap(departments)[id] == departments[i]
        && departments[i].id == id
        && forall j | i < j < |departments| :: departments[j].id != id
  {
    if departments != [] {
      var n := |departments| - 1;
      var init := departments[..n];
      var last := departments[n];
      assert DepartmentMap(departments) == DepartmentMap(init)[last.id := last];
      if last.id == id {
        assert DepartmentMap(departments)[id] == departments[n];
      } else {
        DepartmentMapSpec(init, id);
        if id in DepartmentMap(init) {
          var i :| 0 <= i < n && DepartmentMap(init)[id] == init[i] && init[i].id == id &&
            forall j | i < j < n :: init[j].id != id;
          assert departments[i] == init[i];
          assert forall j | i < j < n :: departments[j] == init[j];
        } else {
          forall i | 0 <= i < |departments| ensures departments[i].id != id {
            if i < n {
              assert departments[i] == init[i];
            }
          }
        }
      }
    }
  }

  /** `departmentMap.get(user.department)`. */
  function CardDepartment(departments: seq<Department>, u: User): Option<Department>
  {
    var m := DepartmentMap(departments);
    if u.department in m then Some(m[u.department]) else None
  }

  /** A card names the last department whose id is the user's department,
      and none when no department has that id. */
  lemma CardDepartmentSpec(departments: seq<Department>, u: User)
    ensures CardDepartment(departments, u).None? <==>
      forall i | 0 <= i < |departments| :: departments[i].id != u.department
    ensures CardDepartment(departments, u).Some? ==>
      exists i | 0 <= i < |departments| ::
        && CardDepartment(departments, u) == Some(departments[i])
        && departments[i].id == u.department
        && forall j | i < j < |departments| :: departments[j].id != u.department
  {
    DepartmentMapSpec(departments, u.department);
  }

  /** Logged in less than thirty days before `now`. */
  predicate IsActive(now: int, lastLogin: int)
  {
    now - lastLogin < ActiveWindowMs
  }

  /** The window is 2 592 000 000 ms, and a login exactly that long ago is
      no longer active. */
  lemma ActiveWindow(now: int)
    ensures ActiveWindowMs == 2592000000
    ensures IsActive(now, now - 2591999999) && !IsActive(now, now - 2592000000)
  {
  }

  /** Activity only expires as time passes. */
  lemma ActivityExpires(now: int, later: int, lastLogin: int)
    requires now <= later
    ensures IsActive(later, lastLogin) ==> IsActive(now, lastLogin)
  {
  }

  /** A department no user belongs to shows an empty list. */
  lemma EmptyDepartment(users: seq<User>, term: string, department: string)
    requires department != AllDepartments
    requires forall u | u in users :: u.department != department
    ensures VisibleUsers(users, term, department) == []
  {
    FilterEmptyIff(users, (u: User) => Keep(u, term, department));
  }

  /** The demonstration data of the user-list page: users name their
      department, while the departments are keyed by number. */
  const SampleUsers: seq<User> := [
    User("1", "Shishir Thapa", "shishirthapa@example.com", "Engineering", 1717200000000),
    User("2", "Ram Prasad", "ramprasad@example.com", "Marketing", 1717286400000)]

  const SampleDepartments: seq<Department> := [
    Department("1", "Engineering"), Department("2", "Marketing"), Department("3", "Finance")]

  /** With that data no card finds its department, and choosing any
      department in the selector (whose values are the department ids)
      hides every user. */
  lemma SampleDepartmentsNeverMatch(department: Department)
    requires department in SampleDepartments
    ensures forall u | u in SampleUsers :: CardDepartment(SampleDepartments, u).None?
    ensures VisibleUsers(SampleUsers, "", department.id) == []
  {
    assert forall d | d in SampleDepartments :: |d.id| == 1;
    assert forall u | u in SampleUsers :: |u.department| > 1;
    forall u | u in SampleUsers ensures CardDepartment(SampleDepartments, u).None? {
      CardDepartmentSpec(SampleDepartments, u);
    }
    EmptyDepartment(SampleUsers, "", department.id);
  }
}
