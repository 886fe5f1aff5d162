/** Records of the matchmaking store: users, match rows, and the values they hold. */
module Types {

  datatype Option<+T> = None | Some(value: T)

  /** Telegram user ids (`BIGINT` primary key of `users`). */
  type UserId = int

  /** The lifecycle states stored in `users.state`. */
  datatype State = New | Onboarding | Idle | Searching | Chatting | Blocked

  /** The two values the onboarding buttons can store for gender and preference. */
  datatype Gender = Male | Female

  /** One row of the `users` table, keyed by its id in the store's map.
      Timestamps are whole seconds; a SQL NULL is `None`. */
  datatype User = User(
    username: string,
    age: Option<int>,
    gender: Option<Gender>,
    preference: Option<Gender>,
    city: Option<string>,
    latitude: Option<real>,
    longitude: Option<real>,
    state: State,
    premiumFlag: bool,
    premiumPlan: Option<string>,
    premiumExpiresAt: Option<int>,
    isBlocked: bool,
    freeMatchesUsed: int,
    searchStartTime: Option<int>)

  /** The row `create_user` inserts: column defaults, state NEW. */
  function NewUser(username: string): (u: User)
    ensures u.state == New && u.searchStartTime.None? && u.freeMatchesUsed == 0
    ensures !u.premiumFlag && !u.isBlocked
  {
    User(username, None, None, None, None, None, None, New,
         false, None, None, false, 0, None)
  }

  /** One row of the `matches` table; `id` is the SERIAL key. */
  datatype MatchRow = MatchRow(
    id: nat,
    user1: UserId,
    user2: UserId,
    createdAt: int,
    endedAt: Option<int>,
    endedBy: Option<UserId>)

  /** A match is open while it has no end timestamp. */
  predicate Open(m: MatchRow) {
    m.endedAt.None?
  }

  predicate Involves(m: MatchRow, uid: UserId) {
    m.user1 == uid || m.user2 == uid
  }

  /** The row pairs `a` and `b`, in either column order. */
  predicate Joins(m: MatchRow, a: UserId, b: UserId) {
    (m.user1 == a && m.user2 == b) || (m.user1 == b && m.user2 == a)
  }
}
