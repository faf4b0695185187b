/**
 * The users service: a fixed list of three users, of which `get_users`
 * returns the Python slice `[:limit]`.
 */
module Users {

  datatype User = User(id: nat, username: string, email: string)

  const Stub: seq<User> := [
    User(1, "alice", "alice@example.com"),
    User(2, "bob", "bob@example.com"),
    User(3, "charlie", "charlie@example.com")
  ]

  const DefaultLimit: int := 10

  /**
   * Python's `xs[:stop]`: a negative stop counts from the end, and a stop
   * beyond either end is clamped to it.
   */
  function SliceTo<T>(xs: seq<T>, stop: int): (r: seq<T>)
    ensures r <= xs
    ensures stop >= 0 ==> |r| == (if stop < |xs| then stop else |xs|)
    ensures stop < 0 ==> |r| == (if |xs| + stop > 0 then |xs| + stop else 0)
  {
    var end := if stop < 0 then |xs| + stop else stop;
    if end <= 0 then [] else if end >= |xs| then xs else xs[..end]
  }

  /** `get_users`. */
  function GetUsers(limit: int): (r: seq<User>)
    ensures r <= Stub
  {
    SliceTo(Stub, limit)
  }

  /** A non-negative limit returns the first `min(limit, 3)` users. */
  lemma {:induction false} PrefixOfLimit(limit: int)
    requires limit >= 0
    ensures GetUsers(limit) == Stub[..if limit < 3 then limit else 3]
  {
  }

  /** The default limit returns every user, and a limit of zero none. */
  lemma DefaultAndZero()
    ensures GetUsers(DefaultLimit) == Stub
    ensures GetUsers(0) == []
  {
  }

  /** A negative limit drops that many users from the end. */
  lemma {:induction false} NegativeDropsFromEnd(limit: int)
    requires limit < 0
    ensures GetUsers(limit) == Stub[..if 3 + limit > 0 then 3 + limit else 0]
  {
  }

  /**
   * Raising a non-negative limit never removes a user. Across zero this
   * fails: a limit of -1 returns two users and a limit of 0 none.
   */
  lemma {:induction false} Monotone(a: int, b: int)
    requires 0 <= a <= b
    ensures GetUsers(a) <= GetUsers(b)
  {
    var x, y := GetUsers(a), GetUsers(b);
    assert |Stub| == 3;
    assert |x| <= |y|;
    assert x == Stub[..|x|] && y == Stub[..|y|];
    assert x == y[..|x|];
  }
}
