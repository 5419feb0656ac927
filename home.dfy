/** The home page's user table: sort a copy of the users by the column the
    table reports, then cut out the current page of five. */
module Home {
  import opened SeqUtil
  import opened JsString
  import opened DataTable

  datatype User = User(id: int, name: string, email: string)

  const PageSize: int := 5

  /** The value `user[key]` reads: the two text fields, the numeric id, or
      nothing for any other key. */
  datatype FieldValue = Text(s: string) | Number(n: int) | Missing

  function Field(u: User, key: string): FieldValue
  {
    if key == "name" then Text(u.name)
    else if key == "email" then Text(u.email)
    else if key == "id" then Number(u.id)
    else Missing
  }

  /** The comparator: text by the string comparison, numbers by
      difference, reversed for descending; anything else ties. */
  function Cmp(a: User, b: User, key: string, dir: SortDir): int
  {
    match (Field(a, key), Field(b, key))
    case (Text(x), Text(y)) => if dir == Asc then Compare(x, y) else Compare(y, x)
    case (Number(x), Number(y)) => if dir == Asc then x - y else y - x
    case _ => 0
  }

  /** `a` may stay before `b`. */
  function UserLe(key: string, dir: SortDir): (User, User) -> bool
  {
    (a: User, b: User) => Cmp(a, b, key, dir) <= 0
  }

  /** `sortedUsers`: the users unchanged while no key or no direction is
      set, otherwise a sorted copy. */
  function SortedUsers(users: seq<User>, sortKey: Option<string>, sortDir: Option<SortDir>): seq<User>
  {
    if sortKey.None? || sortKey.value == "" || sortDir.None? then users
    else Sort(users, UserLe(sortKey.value, sortDir.value))
  }

  /** The comparator orders any two users one way or the other, and
      consistently. */
  lemma UserLeOrder(key: string, dir: SortDir)
    ensures Total(UserLe(key, dir))
    ensures Transitive(UserLe(key, dir))
  {
    var le := UserLe(key, dir);
    forall a: User, b: User ensures le(a, b) || le(b, a) {
      if key == "name" {
        CompareAntisymmetric(a.name, b.name);
      } else if key == "email" {
        CompareAntisymmetric(a.email, b.email);
      }
    }
    forall a: User, b: User, c: User | le(a, b) && le(b, c) ensures le(a, c) {
      if key == "name" {
        if dir == Asc { CompareTransitive(a.name, b.name, c.name); }
        else { CompareTransitive(c.name, b.name, a.name); }
      } else if key == "email" {
        if dir == Asc { CompareTransitive(a.email, b.email, c.email); }
        else { CompareTransitive(c.email, b.email, a.email); }
      }
    }
  }

  /** With no key, an empty key or no direction the list is left as it is. */
  lemma UnsortedKeepsOrder(users: seq<User>, sortKey: Option<string>, sortDir: Option<SortDir>)
    requires sortKey.None? || sortKey == Some("") || sortDir.None?
    ensures SortedUsers(users, sortKey, sortDir) == users
  {
  }

  /** The sorted list holds the same users, each as often. */
  lemma SortedIsPermutation(users: seq<User>, sortKey: Option<string>, sortDir: Option<SortDir>)
    ensures multiset(SortedUsers(users, sortKey, sortDir)) == multiset(users)
    ensures |SortedUsers(users, sortKey, sortDir)| == |users|
  {
  }

  /** Every earlier user compares at most equal to every later one. */
  lemma {:induction false} SortedOrder(users: seq<User>, key: string, dir: SortDir)
    requires key != ""
    ensures var r := SortedUsers(users, Some(key), Some(dir));
      forall i, j | 0 <= i < j < |r| :: Cmp(r[i], r[j], key, dir) <= 0
  {
    var le := UserLe(key, dir);
    UserLeOrder(key, dir);
    SortSorted(users, le);
    SortedPairwise(Sort(users, le), le);
  }

  /** Users that the comparator ties, such as two users with the same id
      when sorting by id, keep their input order (the sort is stable). */
  lemma SortedUsersStable(users: seq<User>, key: string, dir: SortDir, u: User)
    ensures var le := UserLe(key, dir);
      Filter(SortedUsers(users, Some(key), Some(dir)), TiedWith(le, u)) == Filter(users, TiedWith(le, u))
  {
    if key != "" {
      UserLeOrder(key, dir);
      SortStable(users, UserLe(key, dir), u);
    }
  }

  /** Sorting by id: ascending ids for `asc`, descending for `desc`. */
  lemma SortedById(users: seq<User>, dir: SortDir)
    ensures var r := SortedUsers(users, Some("id"), Some(dir));
      forall i, j | 0 <= i < j < |r| :: if dir == Asc then r[i].id <= r[j].id else r[i].id >= r[j].id
  {
    SortedOrder(users, "id", dir);
  }

  /** Sorting by name: ordered by the string comparison, reversed for `desc`. */
  lemma SortedByName(users: seq<User>, dir: SortDir)
    ensures var r := SortedUsers(users, Some("name"), Some(dir));
      forall i, j | 0 <= i < j < |r| ::
        if dir == Asc then Compare(r[i].name, r[j].name) <= 0 else Compare(r[j].name, r[i].name) <= 0
  {
    SortedOrder(users, "name", dir);
  }

  /** Sorting by email: ordered by the string comparison, reversed for `desc`. */
  lemma SortedByEmail(users: seq<User>, dir: SortDir)
    ensures var r := SortedUsers(users, Some("email"), Some(dir));
      forall i, j | 0 <= i < j < |r| ::
        if dir == Asc then Compare(r[i].email, r[j].email) <= 0 else Compare(r[j].email, r[i].email) <= 0
  {
    SortedOrder(users, "email", dir);
  }

  /** A key the users do not have makes every pair tie, and the stable sort
      keeps the original order. */
  lemma UnknownKeyKeepsOrder(users: seq<User>, key: string, dir: SortDir)
    requires key != "name" && key != "email" && key != "id"
    ensures SortedUsers(users, Some(key), Some(dir)) == users
  {
    if key != "" {
      SortAllEqual(users, UserLe(key, dir));
    }
  }

  /** `paginatedUsers`: the `page`-th block of five. */
  function PaginatedUsers(sorted: seq<User>, page: int): seq<User>
  {
    Slice(sorted, (page - 1) * PageSize, (page - 1) * PageSize + PageSize)
  }

  /** A page holds at most five users; from page 1 on it is the block that
      starts after the earlier pages. */
  lemma PageSpec(sorted: seq<User>, page: int)
    ensures |PaginatedUsers(sorted, page)| <= PageSize
    ensures page >= 1 ==>
      var start := (page - 1) * PageSize;
      PaginatedUsers(sorted, page) ==
        if start >= |sorted| then [] else sorted[start..if start + PageSize < |sorted| then start + PageSize else |sorted|]
  {
    SliceLength(sorted, (page - 1) * PageSize, (page - 1) * PageSize + PageSize);
    if page >= 1 {
      SliceInRange(sorted, (page - 1) * PageSize, (page - 1) * PageSize + PageSize);
    }
  }

  /** The pagination record handed to the table: the total is all users,
      not just the page shown. */
  function HomePagination(users: seq<User>, page: int): (p: Pagination)
    ensures p.total == |users| && p.page == page && p.pageSize == PageSize
  {
    Pagination(page, PageSize, |users|)
  }

  /** The footer's "Showing x to y" counts exactly the users on the page. */
  lemma ShowingMatchesPage(users: seq<User>, sortKey: Option<string>, sortDir: Option<SortDir>, page: int)
    requires page >= 1 && (page - 1) * PageSize < |users|
    ensures var p := HomePagination(users, page);
      ShowingEnd(p) - ShowingStart(p) + 1 == |PaginatedUsers(SortedUsers(users, sortKey, sortDir), page)|
  {
    var sorted := SortedUsers(users, sortKey, sortDir);
    SortedIsPermutation(users, sortKey, sortDir);
    PageSpec(sorted, page);
    ShowingOnPage(HomePagination(users, page));
  }

  /** The page's state cells. */
  class HomePage {
    var users: seq<User>
    var sortKey: Option<string>
    var sortDir: Option<SortDir>
    var page: int

    constructor (users: seq<User>)
      ensures this.users == users && sortKey == None && sortDir == None && page == 1
    {
      this.users, sortKey, sortDir, page := users, None, None, 1;
    }

    /** The rows the table receives. */
    function Rows(): seq<User>
      reads this
    {
      PaginatedUsers(SortedUsers(users, sortKey, sortDir), page)
    }

    /** `handleSort`: records key and direction and goes back to page 1, so
        the table shows the first five users of the new order. */
    method HandleSort(key: string, dir: Option<SortDir>)
      modifies this`sortKey, this`sortDir, this`page
      ensures sortKey == Some(key) && sortDir == dir && page == 1
      ensures Rows() == Slice(SortedUsers(users, Some(key), dir), 0, PageSize)
    {
      sortKey := Some(key);
      sortDir := dir;
      page := 1;
    }

    /** `onPageChange`. */
    method SetPage(p: int)
      modifies this`page
      ensures page == p
    {
      page := p;
    }
  }
}
