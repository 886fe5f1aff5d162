/** The store operations of db.py on an in-memory database: a users map, the
    sequence of match rows, the set of blocked pairs and the list of reports.
    Match ids are unique and increasing and rows are never deleted; the model
    numbers them consecutively, so the row with id `k` sits at position `k - 1`.
    Foreign keys are enforced: an insert that names a
    missing user fails and changes nothing. */
module Store {
  import opened Types
  import opened Premium

  /** Every match row carries its position plus one as id and references existing users. */
  predicate RowsWellFormed(users: map<UserId, User>, matches: seq<MatchRow>) {
    forall i :: 0 <= i < |matches| ==>
      matches[i].id == i + 1 && matches[i].user1 in users && matches[i].user2 in users
  }

  /** `get_match(user_id)`: the id of an open match of `uid`; the query has no
      ORDER BY, and the lowest such id is taken. */
  function OpenMatchOf(matches: seq<MatchRow>, uid: UserId): (r: Option<nat>)
    ensures r.Some? ==>
      1 <= r.value <= |matches| && Open(matches[r.value - 1]) && Involves(matches[r.value - 1], uid)
    ensures r.None? <==>
      forall i :: 0 <= i < |matches| ==> !(Open(matches[i]) && Involves(matches[i], uid))
  {
    OpenMatchFrom(matches, uid, 0)
  }

  function OpenMatchFrom(matches: seq<MatchRow>, uid: UserId, k: nat): (r: Option<nat>)
    requires k <= |matches|
    decreases |matches| - k
    ensures r.Some? ==>
      k < r.value <= |matches| && Open(matches[r.value - 1]) && Involves(matches[r.value - 1], uid)
    ensures r.None? <==>
      forall i :: k <= i < |matches| ==> !(Open(matches[i]) && Involves(matches[i], uid))
  {
    if k == |matches| then None
    else if Open(matches[k]) && Involves(matches[k], uid) then Some(k + 1)
    else OpenMatchFrom(matches, uid, k + 1)
  }

  /** `get_other_user_in_match(match_id, user_id)`: `user2` when `uid` is `user1`,
      else `user1`; None when no row has that id. */
  function OtherUserInMatch(matches: seq<MatchRow>, mid: nat, uid: UserId): (r: Option<UserId>)
    ensures r.Some? <==> 1 <= mid <= |matches|
    ensures r.Some? && Involves(matches[mid - 1], uid) ==> Joins(matches[mid - 1], uid, r.value)
    ensures r.Some? && !Involves(matches[mid - 1], uid) ==> r.value == matches[mid - 1].user1
  {
    if 1 <= mid <= |matches| then
      Some(if matches[mid - 1].user1 == uid then matches[mid - 1].user2 else matches[mid - 1].user1)
    else None
  }

  /** The `users` table after `create_user`: `ON CONFLICT DO NOTHING` keeps an existing row. */
  function WithUser(users: map<UserId, User>, uid: UserId, username: string): (r: map<UserId, User>)
    ensures uid in r && r.Keys == users.Keys + {uid}
    ensures forall v :: v in users ==> r[v] == users[v]
  {
    if uid in users then users else users[uid := NewUser(username)]
  }

  /** `create_user` is idempotent: a second call, under any name, adds nothing. */
  lemma CreateUserIdempotent(users: map<UserId, User>, uid: UserId, name1: string, name2: string)
    ensures WithUser(WithUser(users, uid, name1), uid, name2) == WithUser(users, uid, name1)
  {
  }

  /** The `blocked_pairs` table after `block_user`: the foreign keys must hold, and
      `UNIQUE(blocker_id, blocked_id)` makes it a set. */
  function WithBlock(users: map<UserId, User>, blocked: set<(UserId, UserId)>,
                     blocker: UserId, target: UserId): (r: set<(UserId, UserId)>)
    ensures blocked <= r && r - blocked <= {(blocker, target)}
    ensures (blocker, target) in r <==> (blocker, target) in blocked || (blocker in users && target in users)
  {
    if blocker in users && target in users then blocked + {(blocker, target)} else blocked
  }

  /** `block_user` is idempotent. */
  lemma BlockUserIdempotent(users: map<UserId, User>, blocked: set<(UserId, UserId)>,
                            blocker: UserId, target: UserId)
    ensures WithBlock(users, WithBlock(users, blocked, blocker, target), blocker, target)
         == WithBlock(users, blocked, blocker, target)
  {
  }

  /** The `users` table after `update_user_profile`: the profile written and the
      state IDLE; `search_start_time` and everything else kept. */
  function Profiled(users: map<UserId, User>, uid: UserId, age: Option<int>, gender: Option<Gender>,
                    preference: Option<Gender>, city: Option<string>,
                    latitude: Option<real>, longitude: Option<real>): (r: map<UserId, User>)
    ensures r.Keys == users.Keys
    ensures forall v :: v in users && v != uid ==> r[v] == users[v]
    ensures uid in users ==>
      r[uid].state == Idle && r[uid].searchStartTime == users[uid].searchStartTime
      && r[uid].age == age && r[uid].gender == gender && r[uid].preference == preference
      && r[uid].city == city && r[uid].latitude == latitude && r[uid].longitude == longitude
      && r[uid].premiumFlag == users[uid].premiumFlag && r[uid].premiumPlan == users[uid].premiumPlan
      && r[uid].premiumExpiresAt == users[uid].premiumExpiresAt
      && r[uid].freeMatchesUsed == users[uid].freeMatchesUsed
      && r[uid].isBlocked == users[uid].isBlocked && r[uid].username == users[uid].username
  {
    if uid in users then
      users[uid := users[uid].(age := age, gender := gender, preference := preference, city := city,
                               latitude := latitude, longitude := longitude, state := Idle)]
    else users
  }

  /** The `users` table after `set_user_state(uid, s)` at time `now`: only the
      state changes, and `search_start_time` is stamped only on entering SEARCHING. */
  function Restated(users: map<UserId, User>, uid: UserId, s: State, now: int): (r: map<UserId, User>)
    ensures r.Keys == users.Keys
    ensures forall v :: v in users && v != uid ==> r[v] == users[v]
    ensures uid in users ==> r[uid].state == s
    ensures uid in users && s == Searching ==> r[uid].searchStartTime == Some(now)
    ensures uid in users && s != Searching ==> r[uid].searchStartTime == users[uid].searchStartTime
    ensures uid in users ==> r[uid] == users[uid].(state := s, searchStartTime := r[uid].searchStartTime)
  {
    if uid !in users then users
    else if s == Searching then users[uid := users[uid].(state := s, searchStartTime := Some(now))]
    else users[uid := users[uid].(state := s)]
  }

  /** The `users` table after `clear_search_start_time(uid)`. */
  function Cleared(users: map<UserId, User>, uid: UserId): (r: map<UserId, User>)
    ensures r.Keys == users.Keys
    ensures forall v :: v in users && v != uid ==> r[v] == users[v]
    ensures uid in users ==> r[uid].searchStartTime.None?
    ensures uid in users ==> r[uid] == users[uid].(searchStartTime := None)
  {
    if uid in users then users[uid := users[uid].(searchStartTime := None)] else users
  }

  /** The `users` table after `increment_free_matches(uid)`. */
  function Incremented(users: map<UserId, User>, uid: UserId): (r: map<UserId, User>)
    ensures r.Keys == users.Keys
    ensures forall v :: v in users && v != uid ==> r[v] == users[v]
    ensures uid in users ==> r[uid].freeMatchesUsed == users[uid].freeMatchesUsed + 1
    ensures uid in users ==> r[uid] == users[uid].(freeMatchesUsed := r[uid].freeMatchesUsed)
  {
    if uid in users then users[uid := users[uid].(freeMatchesUsed := users[uid].freeMatchesUsed + 1)]
    else users
  }

  /** The row `end_match` leaves behind. */
  function Closed(m: MatchRow, now: int, ender: UserId): MatchRow {
    m.(endedAt := Some(now), endedBy := Some(ender))
  }

  // ---------------------------------------------------------------------------
  // The lifecycle invariant

  /** `search_start_time` is set exactly while the user is SEARCHING. */
  predicate SearchTimeIffSearching(users: map<UserId, User>) {
    forall id :: id in users ==> (users[id].searchStartTime.Some? <==> users[id].state == Searching)
  }

  predicate ChattingUser(users: map<UserId, User>, id: UserId) {
    id in users && users[id].state == Chatting
  }

  /** Both participants of an open match are CHATTING. */
  predicate OpenMeansChatting(users: map<UserId, User>, matches: seq<MatchRow>) {
    forall i :: 0 <= i < |matches| && Open(matches[i]) ==>
      ChattingUser(users, matches[i].user1) && ChattingUser(users, matches[i].user2)
  }

  predicate Overlap(m: MatchRow, n: MatchRow) {
    Involves(n, m.user1) || Involves(n, m.user2)
  }

  /** No two open matches share a participant. */
  predicate OneOpenMatch(matches: seq<MatchRow>) {
    forall i, j :: 0 <= i < j < |matches| && Open(matches[i]) && Open(matches[j]) ==>
      !Overlap(matches[i], matches[j])
  }

  predicate Lifecycle(users: map<UserId, User>, matches: seq<MatchRow>) {
    SearchTimeIffSearching(users) && OpenMeansChatting(users, matches) && OneOpenMatch(matches)
  }

  /** A record that keeps the search-time rule. */
  predicate Coherent(v: User) {
    v.searchStartTime.Some? <==> v.state == Searching
  }

  /** Under the invariant a user has at most one open match, so `get_match` is
      unambiguous. */
  lemma {:induction false} OpenMatchUnique(matches: seq<MatchRow>, uid: UserId, i: int, j: int)
    requires OneOpenMatch(matches)
    requires 0 <= i < |matches| && Open(matches[i]) && Involves(matches[i], uid)
    requires 0 <= j < |matches| && Open(matches[j]) && Involves(matches[j], uid)
    ensures i == j
  {
    if i < j {
      assert Overlap(matches[i], matches[j]);
    } else if j < i {
      assert Overlap(matches[j], matches[i]);
    }
  }

  /** Rewriting one user keeps the invariant when the new record is coherent and
      stays CHATTING while the user is in an open match. */
  lemma ReplaceUserKeepsLifecycle(users: map<UserId, User>, matches: seq<MatchRow>,
                                  uid: UserId, v: User)
    requires Lifecycle(users, matches)
    requires Coherent(v)
    requires OpenMatchOf(matches, uid).Some? ==> v.state == Chatting
    ensures Lifecycle(users[uid := v], matches)
  {
    var users' := users[uid := v];
    forall i | 0 <= i < |matches| && Open(matches[i])
      ensures ChattingUser(users', matches[i].user1) && ChattingUser(users', matches[i].user2)
    {
      if Involves(matches[i], uid) {
        assert OpenMatchOf(matches, uid).Some?;
      }
    }
  }

  /** A user in an open match is CHATTING. */
  lemma InOpenMatchIsChatting(users: map<UserId, User>, matches: seq<MatchRow>, uid: UserId)
    requires OpenMeansChatting(users, matches)
    requires OpenMatchOf(matches, uid).Some?
    ensures ChattingUser(users, uid)
  {
    var k := OpenMatchOf(matches, uid).value - 1;
    assert ChattingUser(users, matches[k].user1) && ChattingUser(users, matches[k].user2);
  }

  /** Rewriting a user's other fields, state and search time kept, keeps the invariant. */
  lemma SameStatusKeepsLifecycle(users: map<UserId, User>, matches: seq<MatchRow>,
                                 uid: UserId, v: User)
    requires Lifecycle(users, matches) && uid in users
    requires v.state == users[uid].state && v.searchStartTime == users[uid].searchStartTime
    ensures Lifecycle(users[uid := v], matches)
  {
    if OpenMatchOf(matches, uid).Some? {
      InOpenMatchIsChatting(users, matches, uid);
    }
    ReplaceUserKeepsLifecycle(users, matches, uid, v);
  }

  /** A user absent from the table takes part in no match row. */
  lemma AbsentUserUnmatched(users: map<UserId, User>, matches: seq<MatchRow>, uid: UserId)
    requires RowsWellFormed(users, matches) && uid !in users
    ensures OpenMatchOf(matches, uid).None?
  {
  }

  /** Ending the open match of `uid` and rewriting `uid` with a coherent record keeps
      the invariant, and leaves `uid` with no open match. */
  lemma {:induction false} CloseKeepsLifecycle(users: map<UserId, User>, matches: seq<MatchRow>,
                                               uid: UserId, v: User, now: int, ender: UserId)
    requires Lifecycle(users, matches)
    requires OpenMatchOf(matches, uid).Some?
    requires Coherent(v)
    ensures var k := OpenMatchOf(matches, uid).value - 1;
      var matches' := matches[k := Closed(matches[k], now, ender)];
      Lifecycle(users[uid := v], matches') && OpenMatchOf(matches', uid).None?
  {
    var k := OpenMatchOf(matches, uid).value - 1;
    var matches' := matches[k := Closed(matches[k], now, ender)];
    var users' := users[uid := v];
    forall i | 0 <= i < |matches'| && Open(matches'[i]) && Involves(matches'[i], uid)
      ensures false
    {
      OpenMatchUnique(matches, uid, i, k);
    }
    forall i | 0 <= i < |matches'| && Open(matches'[i])
      ensures ChattingUser(users', matches'[i].user1) && ChattingUser(users', matches'[i].user2)
    {
      assert matches'[i] == matches[i];
    }
    forall i, j | 0 <= i < j < |matches'| && Open(matches'[i]) && Open(matches'[j])
      ensures !Overlap(matches'[i], matches'[j])
    {
      assert matches'[i] == matches[i] && matches'[j] == matches[j];
    }
  }

  /** Opening a match between two SEARCHING users, who then become CHATTING with no
      search time, keeps the invariant. */
  lemma {:induction false} OpenKeepsLifecycle(users: map<UserId, User>, matches: seq<MatchRow>,
                                              a: UserId, b: UserId, va: User, vb: User, row: MatchRow)
    requires Lifecycle(users, matches)
    requires a != b && a in users && b in users
    requires users[a].state == Searching && users[b].state == Searching
    requires va.state == Chatting && va.searchStartTime.None?
    requires vb.state == Chatting && vb.searchStartTime.None?
    requires Joins(row, a, b)
    ensures Lifecycle(users[a := va][b := vb], matches + [row])
  {
    var users' := users[a := va][b := vb];
    var matches' := matches + [row];
    forall i | 0 <= i < |matches| && Open(matches[i]) ensures !Involves(matches[i], a) && !Involves(matches[i], b) {
    }
    forall i | 0 <= i < |matches'| && Open(matches'[i])
      ensures ChattingUser(users', matches'[i].user1) && ChattingUser(users', matches'[i].user2)
    {
      if i < |matches| {
        assert matches'[i] == matches[i];
      }
    }
    forall i, j | 0 <= i < j < |matches'| && Open(matches'[i]) && Open(matches'[j])
      ensures !Overlap(matches'[i], matches'[j])
    {
      assert matches'[i] == matches[i];
      if j < |matches| {
        assert matches'[j] == matches[j];
      }
    }
  }

  // ---------------------------------------------------------------------------
  // The database

  class Database {
    var users: map<UserId, User>
    var matches: seq<MatchRow>
    var blocked: set<(UserId, UserId)>
    var reports: seq<(UserId, UserId)>

    ghost predicate Valid()
      reads this
    {
      RowsWellFormed(users, matches)
    }

    /** The schema created empty. */
    constructor ()
      ensures Valid()
      ensures users == map[] && matches == [] && blocked == {} && reports == []
    {
      users, matches, blocked, reports := map[], [], {}, [];
    }

    method CreateUser(uid: UserId, username: string)
      requires Valid()
      modifies this
      ensures Valid()
      ensures users == WithUser(old(users), uid, username)
      ensures matches == old(matches) && blocked == old(blocked) && reports == old(reports)
    {
      users := WithUser(users, uid, username);
    }

    /** Writes the profile and sets the state to IDLE; `search_start_time` is untouched. */
    method UpdateUserProfile(uid: UserId, age: Option<int>, gender: Option<Gender>,
                             preference: Option<Gender>, city: Option<string>,
                             latitude: Option<real>, longitude: Option<real>)
      requires Valid()
      modifies this
      ensures Valid()
      ensures users == Profiled(old(users), uid, age, gender, preference, city, latitude, longitude)
      ensures matches == old(matches) && blocked == old(blocked) && reports == old(reports)
    {
      users := Profiled(users, uid, age, gender, preference, city, latitude, longitude);
    }

    /** Sets the state; stamps `search_start_time = now` only when entering SEARCHING. */
    method SetUserState(uid: UserId, s: State, now: int)
      requires Valid()
      modifies this
      ensures Valid()
      ensures users == Restated(old(users), uid, s, now)
      ensures matches == old(matches) && blocked == old(blocked) && reports == old(reports)
    {
      users := Restated(users, uid, s, now);
    }

    /** Nulls `search_start_time` and nothing else. */
    method ClearSearchStartTime(uid: UserId)
      requires Valid()
      modifies this
      ensures Valid()
      ensures users == Cleared(old(users), uid)
      ensures matches == old(matches) && blocked == old(blocked) && reports == old(reports)
    {
      users := Cleared(users, uid);
    }

    /** Inserts a fresh open row on every call (no uniqueness constraint, so
        `ON CONFLICT DO NOTHING` never fires); fails only on a foreign key. */
    method CreateMatch(a: UserId, b: UserId, now: int) returns (mid: Option<nat>)
      requires Valid()
      modifies this
      ensures Valid()
      ensures a in users && b in users ==>
        mid == Some(|old(matches)| + 1) && |matches| == |old(matches)| + 1
        && matches == old(matches) + [MatchRow(|old(matches)| + 1, a, b, now, None, None)]
      ensures !(a in users && b in users) ==> mid.None? && matches == old(matches)
      ensures users == old(users) && blocked == old(blocked) && reports == old(reports)
    {
      if a in users && b in users {
        matches := matches + [MatchRow(|matches| + 1, a, b, now, None, None)];
        mid := Some(|matches|);
      } else {
        mid := None;
      }
    }

    /** Stamps the end time and the ender on the row with that id, ended or not. */
    method EndMatch(mid: nat, ender: UserId, now: int)
      requires Valid()
      modifies this
      ensures Valid()
      ensures matches == if 1 <= mid <= |old(matches)| then
        old(matches)[mid - 1 := Closed(old(matches)[mid - 1], now, ender)] else old(matches)
      ensures users == old(users) && blocked == old(blocked) && reports == old(reports)
    {
      if 1 <= mid <= |matches| {
        matches := matches[mid - 1 := Closed(matches[mid - 1], now, ender)];
      }
    }

    method IncrementFreeMatches(uid: UserId)
      requires Valid()
      modifies this
      ensures Valid()
      ensures users == Incremented(old(users), uid)
      ensures matches == old(matches) && blocked == old(blocked) && reports == old(reports)
    {
      users := Incremented(users, uid);
    }

    /** Grants a plan until `now + days`; the transaction log is not modelled. */
    method SetPremium(uid: UserId, planName: string, days: int, now: int)
      requires Valid()
      modifies this
      ensures Valid()
      ensures users == if uid in old(users) then
        old(users)[uid := Granted(old(users)[uid], planName, days, now)] else old(users)
      ensures matches == old(matches) && blocked == old(blocked) && reports == old(reports)
    {
      if uid in users {
        users := users[uid := Granted(users[uid], planName, days, now)];
      }
    }

    method DowngradePremium(uid: UserId)
      requires Valid()
      modifies this
      ensures Valid()
      ensures users == if uid in old(users) then
        old(users)[uid := Downgraded(old(users)[uid])] else old(users)
      ensures matches == old(matches) && blocked == old(blocked) && reports == old(reports)
    {
      if uid in users {
        users := users[uid := Downgraded(users[uid])];
      }
    }

    method BlockUser(blocker: UserId, target: UserId)
      requires Valid()
      modifies this
      ensures Valid()
      ensures blocked == WithBlock(users, old(blocked), blocker, target)
      ensures users == old(users) && matches == old(matches) && reports == old(reports)
    {
      blocked := WithBlock(users, blocked, blocker, target);
    }

    /** Appends a report; reports have no uniqueness constraint. */
    method ReportUser(reporter: UserId, reported: UserId)
      requires Valid()
      modifies this
      ensures Valid()
      ensures reports == if reporter in users && reported in users then
        old(reports) + [(reporter, reported)] else old(reports)
      ensures users == old(users) && matches == old(matches) && blocked == old(blocked)
    {
      if reporter in users && reported in users {
        reports := reports + [(reporter, reported)];
      }
    }
  }
}
