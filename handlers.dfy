/** The command handlers of main.py that drive the user lifecycle: `/start`,
    `/end`, `/report`, the city step of onboarding, `check_premium_expiration`
    and `handle_successful_payment`. Each is a method on the store, proved equal
    to a function of the old store; the lifecycle and frame properties are
    proved about those functions. */
module Handlers {
  import opened Types
  import opened Premium
  import opened Store
  import opened Onboarding
  import opened Payments

  /** The four tables of the store as one value. */
  datatype Snapshot = Snapshot(users: map<UserId, User>, matches: seq<MatchRow>,
                               blocked: set<(UserId, UserId)>, reports: seq<(UserId, UserId)>)

  /** The store after a handler, and the user the handler messages about the
      other side of the chat, if any. */
  datatype Outcome = Outcome(after: Snapshot, notified: Option<UserId>)

  function Snap(db: Database): Snapshot
    reads db
  {
    Snapshot(db.users, db.matches, db.blocked, db.reports)
  }

  /** The match row `k` (a position) after `end_match(k + 1, ender)` at `now`. */
  function EndAt(matches: seq<MatchRow>, k: int, now: int, ender: UserId): seq<MatchRow>
    requires 0 <= k < |matches|
  {
    matches[k := Closed(matches[k], now, ender)]
  }

  // ---------------------------------------------------------------------------
  // check_premium_expiration

  /** Downgrades a user whose flagged premium has expired; answers whether the
      flag still stands. */
  method CheckPremiumExpiration(db: Database, uid: UserId, now: int) returns (active: bool)
    requires db.Valid()
    modifies db
    ensures db.Valid()
    ensures active == (uid in old(db.users) && PremiumStillFlagged(old(db.users)[uid], now))
    ensures db.users == if uid in old(db.users) then
      old(db.users)[uid := Reconciled(old(db.users)[uid], now)] else old(db.users)
    ensures db.matches == old(db.matches) && db.blocked == old(db.blocked) && db.reports == old(db.reports)
  {
    if uid !in db.users {
      return false;
    }
    var u := db.users[uid];
    if !u.premiumFlag {
      assert Reconciled(u, now) == u;
      assert db.users == db.users[uid := u];
      return false;
    }
    if u.premiumExpiresAt.Some? && u.premiumExpiresAt.value < now {
      db.DowngradePremium(uid);
      return false;
    }
    assert db.users == db.users[uid := u];
    return true;
  }

  // ---------------------------------------------------------------------------
  // /start

  /** The state branch of `start` for a registered user past the quota gate:
      back to ONBOARDING, ending an open chat first; BLOCKED and ONBOARDING
      users are left as they are. */
  function RestartSpec(s: Snapshot, uid: UserId, now: int): Outcome
    requires uid in s.users
  {
    match s.users[uid].state
    case Blocked => Outcome(s, None)
    case Onboarding => Outcome(s, None)
    case New => Outcome(s.(users := Restated(s.users, uid, Onboarding, now)), None)
    case Idle => Outcome(s.(users := Restated(s.users, uid, Onboarding, now)), None)
    case Searching =>
      Outcome(s.(users := Cleared(Restated(s.users, uid, Onboarding, now), uid)), None)
    case Chatting =>
      match OpenMatchOf(s.matches, uid)
      case None => Outcome(s.(users := Restated(s.users, uid, Onboarding, now)), None)
      case Some(mid) =>
        var matches := EndAt(s.matches, mid - 1, now, uid);
        var users := Cleared(Restated(Restated(s.users, uid, Idle, now), uid, Onboarding, now), uid);
        Outcome(s.(users := users, matches := matches), OtherUserInMatch(matches, mid, uid))
  }

  /** `start`: register the user, reconcile premium, stop at the quota gate,
      then act on the state. */
  function StartSpec(s: Snapshot, uid: UserId, username: string, now: int): Outcome {
    var users1 := WithUser(s.users, uid, username);
    var users2 := users1[uid := Reconciled(users1[uid], now)];
    var s2 := s.(users := users2);
    if QuotaExhausted(users2[uid], now) then Outcome(s2, None)
    else RestartSpec(s2, uid, now)
  }

  method Restart(db: Database, uid: UserId, now: int) returns (notified: Option<UserId>)
    requires db.Valid() && uid in db.users
    modifies db
    ensures db.Valid()
    ensures Outcome(Snap(db), notified) == RestartSpec(old(Snap(db)), uid, now)
  {
    ghost var s := Snap(db);
    notified := None;
    match db.users[uid].state {
      case Blocked =>
      case Onboarding =>
      case New =>
        db.SetUserState(uid, Onboarding, now);
      case Idle =>
        db.SetUserState(uid, Onboarding, now);
      case Searching =>
        db.SetUserState(uid, Onboarding, now);
        db.ClearSearchStartTime(uid);
      case Chatting =>
        var m := OpenMatchOf(db.matches, uid);
        if m.Some? {
          db.EndMatch(m.value, uid, now);
          assert db.matches == EndAt(s.matches, m.value - 1, now, uid);
          notified := OtherUserInMatch(db.matches, m.value, uid);
          db.SetUserState(uid, Idle, now);
          db.SetUserState(uid, Onboarding, now);
          db.ClearSearchStartTime(uid);
        } else {
          db.SetUserState(uid, Onboarding, now);
        }
    }
  }

  method Start(db: Database, uid: UserId, username: string, now: int) returns (notified: Option<UserId>)
    requires db.Valid()
    modifies db
    ensures db.Valid()
    ensures Outcome(Snap(db), notified) == StartSpec(old(Snap(db)), uid, username, now)
  {
    ghost var s := Snap(db);
    ghost var users1 := WithUser(s.users, uid, username);
    ghost var s2 := s.(users := users1[uid := Reconciled(users1[uid], now)]);
    db.CreateUser(uid, username);
    assert db.users == users1;
    var _ := CheckPremiumExpiration(db, uid, now);
    assert Snap(db) == s2;
    var u := db.users[uid];
    var premium := IsPremiumUser(db.users, uid, now);
    if !premium && u.freeMatchesUsed >= FreeAllowance {
      return None;
    }
    notified := Restart(db, uid, now);
  }

  // ---------------------------------------------------------------------------
  // /end

  /** `end_chat`: SEARCHING goes back to IDLE; CHATTING with an open match ends
      it and goes to IDLE; anything else changes nothing. */
  function EndChatSpec(s: Snapshot, uid: UserId, now: int): Outcome {
    if uid !in s.users then Outcome(s, None)
    else match s.users[uid].state
      case Searching => Outcome(s.(users := Cleared(Restated(s.users, uid, Idle, now), uid)), None)
      case Chatting =>
        (match OpenMatchOf(s.matches, uid)
         case None => Outcome(s, None)
         case Some(mid) =>
           var matches := EndAt(s.matches, mid - 1, now, uid);
           Outcome(s.(users := Cleared(Restated(s.users, uid, Idle, now), uid), matches := matches),
                   OtherUserInMatch(matches, mid, uid)))
      case _ => Outcome(s, None)
  }

  method EndChat(db: Database, uid: UserId, now: int) returns (notified: Option<UserId>)
    requires db.Valid()
    modifies db
    ensures db.Valid()
    ensures Outcome(Snap(db), notified) == EndChatSpec(old(Snap(db)), uid, now)
  {
    notified := None;
    if uid !in db.users {
      return;
    }
    var state := db.users[uid].state;
    if state == Searching {
      db.SetUserState(uid, Idle, now);
      db.ClearSearchStartTime(uid);
    } else if state == Chatting {
      var m := OpenMatchOf(db.matches, uid);
      if m.None? {
        return;
      }
      db.EndMatch(m.value, uid, now);
      db.SetUserState(uid, Idle, now);
      db.ClearSearchStartTime(uid);
      notified := OtherUserInMatch(db.matches, m.value, uid);
    }
  }

  // ---------------------------------------------------------------------------
  // /report

  /** `report`: with an open match, block and report the other participant, end
      the match and go to IDLE; otherwise change nothing. */
  function ReportSpec(s: Snapshot, uid: UserId, now: int): Outcome {
    match OpenMatchOf(s.matches, uid)
    case None => Outcome(s, None)
    case Some(mid) =>
      var other := OtherUserInMatch(s.matches, mid, uid).value;
      var fk := uid in s.users && other in s.users;
      Outcome(Snapshot(Cleared(Restated(s.users, uid, Idle, now), uid),
                       EndAt(s.matches, mid - 1, now, uid),
                       WithBlock(s.users, s.blocked, uid, other),
                       if fk then s.reports + [(uid, other)] else s.reports),
              Some(other))
  }

  method Report(db: Database, uid: UserId, now: int) returns (notified: Option<UserId>)
    requires db.Valid()
    modifies db
    ensures db.Valid()
    ensures Outcome(Snap(db), notified) == ReportSpec(old(Snap(db)), uid, now)
  {
    var m := OpenMatchOf(db.matches, uid);
    if m.None? {
      return None;
    }
    ghost var s := Snap(db);
    var other := OtherUserInMatch(db.matches, m.value, uid).value;
    db.BlockUser(uid, other);
    db.ReportUser(uid, other);
    db.EndMatch(m.value, uid, now);
    assert db.matches == EndAt(s.matches, m.value - 1, now, uid);
    db.SetUserState(uid, Idle, now);
    db.ClearSearchStartTime(uid);
    notified := Some(other);
    assert Snap(db) == ReportSpec(s, uid, now).after;
  }

  // ---------------------------------------------------------------------------
  // The city step of onboarding

  /** `city_handler` with the age, gender and preference collected by the earlier
      steps: an unknown city writes nothing; otherwise the profile is written
      and the user starts SEARCHING. */
  function CityHandlerSpec(s: Snapshot, cities: seq<CityInfo>, uid: UserId, text: string,
                           age: Option<int>, gender: Option<Gender>, preference: Option<Gender>, now: int): Snapshot
  {
    match ChooseCity(cities, text)
    case Unknown => s
    case Skip =>
      s.(users := Restated(Profiled(s.users, uid, age, gender, preference, None, None, None),
                           uid, Searching, now))
    case Known(c) =>
      s.(users := Restated(Profiled(s.users, uid, age, gender, preference,
                                    Some(c.name), Some(c.lat), Some(c.lon)),
                           uid, Searching, now))
  }

  method CityHandler(db: Database, uid: UserId, text: string, age: Option<int>,
                     gender: Option<Gender>, preference: Option<Gender>, now: int)
    requires db.Valid()
    modifies db
    ensures db.Valid()
    ensures Snap(db) == CityHandlerSpec(old(Snap(db)), Cities, uid, text, age, gender, preference, now)
  {
    var key := Text.Lower(Text.Strip(text));
    var city: Option<string> := None;
    var latitude: Option<real> := None;
    var longitude: Option<real> := None;
    if key != "skip" {
      var found := LookupCity(Cities, key);
      if found.None? {
        return;
      }
      city, latitude, longitude := Some(found.value.name), Some(found.value.lat), Some(found.value.lon);
    }
    db.UpdateUserProfile(uid, age, gender, preference, city, latitude, longitude);
    db.SetUserState(uid, Searching, now);
  }

  // ---------------------------------------------------------------------------
  // handle_successful_payment

  /** The `users` table after a successful payment with `payload`, parsed by the
      corrected parse. */
  function PaymentEffect(users: map<UserId, User>, uid: UserId, payload: string, now: int)
    : map<UserId, User>
  {
    match PaymentPlan(payload)
    case None => users
    case Some(k) =>
      if uid in users then users[uid := Granted(users[uid], Plans[k].name, Plans[k].days, now)]
      else users
  }

  /** The same with the parse as written. */
  function PaymentEffectAsWritten(users: map<UserId, User>, uid: UserId, payload: string, now: int)
    : map<UserId, User>
  {
    match PaymentPlanAsWritten(payload)
    case None => users
    case Some(k) =>
      if uid in users then users[uid := Granted(users[uid], Plans[k].name, Plans[k].days, now)]
      else users
  }

  method HandleSuccessfulPayment(db: Database, uid: UserId, payload: string, now: int)
    requires db.Valid()
    modifies db
    ensures db.Valid()
    ensures db.users == PaymentEffect(old(db.users), uid, payload, now)
    ensures db.matches == old(db.matches) && db.blocked == old(db.blocked) && db.reports == old(db.reports)
  {
    var plan := PaymentPlan(payload);
    if plan.None? {
      return;
    }
    var p := Plans[plan.value];
    db.SetPremium(uid, p.name, p.days, now);
  }

  // ---------------------------------------------------------------------------
  // What /start promises

  /** The quota gate of `/start` comes before every state branch, BLOCKED
      included: an exhausted non-premium user keeps state, search time and chat;
      only a flagged premium that has expired is cleared. */
  lemma StartQuotaGate(s: Snapshot, uid: UserId, username: string, now: int)
    requires uid in s.users && QuotaExhausted(s.users[uid], now)
    ensures var r := StartSpec(s, uid, username, now);
      r.notified.None? && r.after.matches == s.matches
      && r.after.blocked == s.blocked && r.after.reports == s.reports
      && r.after.users == s.users[uid := Reconciled(s.users[uid], now)]
      && r.after.users[uid].state == s.users[uid].state
      && r.after.users[uid].searchStartTime == s.users[uid].searchStartTime
  {
    ReconcileKeepsPremium(s.users[uid], now);
  }

  /** `/start` past the quota gate, by the state the user was in (an unknown user
      counts as NEW). */
  lemma StartTransitions(s: Snapshot, uid: UserId, username: string, now: int)
    requires uid !in s.users || !QuotaExhausted(s.users[uid], now)
    ensures var r := StartSpec(s, uid, username, now);
      var before := if uid in s.users then s.users[uid].state else New;
      uid in r.after.users
      && (before == Blocked || before == Onboarding ==>
            r.after.users[uid].state == before && r.after.matches == s.matches)
      && (before == New || before == Idle ==>
            r.after.users[uid].state == Onboarding && r.after.matches == s.matches)
      && (before == Searching ==>
            r.after.users[uid].state == Onboarding && r.after.users[uid].searchStartTime.None?
            && r.after.matches == s.matches)
      && (before == Chatting && OpenMatchOf(s.matches, uid).None? ==>
            r.after.users[uid].state == Onboarding && r.after.matches == s.matches)
      && (before == Chatting && OpenMatchOf(s.matches, uid).Some? ==>
            var k := OpenMatchOf(s.matches, uid).value - 1;
            r.after.users[uid].state == Onboarding && r.after.users[uid].searchStartTime.None?
            && r.after.matches == s.matches[k := Closed(s.matches[k], now, uid)]
            && r.notified.Some? && Joins(s.matches[k], uid, r.notified.value))
      && (before != Chatting ==> r.notified.None?)
  {
    if uid in s.users {
      ReconcileKeepsPremium(s.users[uid], now);
    }
  }

  /** `/start` changes no other user and no row but the caller's open match. */
  lemma StartSparesOthers(s: Snapshot, uid: UserId, username: string, now: int)
    ensures var r := StartSpec(s, uid, username, now);
      r.after.users.Keys == s.users.Keys + {uid}
      && (forall v :: v in s.users && v != uid ==> r.after.users[v] == s.users[v])
      && r.after.blocked == s.blocked && r.after.reports == s.reports
      && |r.after.matches| == |s.matches|
      && (forall i :: 0 <= i < |s.matches| && !(Open(s.matches[i]) && Involves(s.matches[i], uid))
            ==> r.after.matches[i] == s.matches[i])
  {
    var users1 := WithUser(s.users, uid, username);
    var s2 := s.(users := users1[uid := Reconciled(users1[uid], now)]);
    if !QuotaExhausted(s2.users[uid], now) {
      var r := RestartSpec(s2, uid, now);
      if s2.users[uid].state == Chatting && OpenMatchOf(s.matches, uid).Some? {
        var k := OpenMatchOf(s.matches, uid).value - 1;
        assert r.after.matches == EndAt(s.matches, k, now, uid);
        assert Open(s.matches[k]) && Involves(s.matches[k], uid);
      } else {
        assert r.after.matches == s.matches;
      }
    }
  }

  /** The new or reconciled record of `/start`'s first two steps keeps the invariant. */
  lemma {:induction false} StartPrefixKeepsLifecycle(s: Snapshot, uid: UserId, username: string, now: int)
    requires RowsWellFormed(s.users, s.matches) && Lifecycle(s.users, s.matches)
    ensures var users1 := WithUser(s.users, uid, username);
      var users2 := users1[uid := Reconciled(users1[uid], now)];
      RowsWellFormed(users2, s.matches) && Lifecycle(users2, s.matches)
  {
    var users1 := WithUser(s.users, uid, username);
    if uid !in s.users {
      AbsentUserUnmatched(s.users, s.matches, uid);
      ReplaceUserKeepsLifecycle(s.users, s.matches, uid, NewUser(username));
      assert users1 == s.users[uid := NewUser(username)];
    }
    ReconcileKeepsPremium(users1[uid], now);
    SameStatusKeepsLifecycle(users1, s.matches, uid, Reconciled(users1[uid], now));
  }

  /** A table that differs from `users` at most at `uid` is `users` with that one
      record written. */
  lemma OneRecordChanged(users: map<UserId, User>, users': map<UserId, User>, uid: UserId)
    requires uid in users && users'.Keys == users.Keys
    requires forall v :: v in users && v != uid ==> users'[v] == users[v]
    ensures users' == users[uid := users'[uid]]
  {
    var m := users[uid := users'[uid]];
    assert m.Keys == users'.Keys;
    forall v | v in m
      ensures m[v] == users'[v]
    {
    }
  }

  /** Rewriting one user's record, coherently and CHATTING while in an open match,
      keeps the foreign keys and the invariant. */
  lemma {:induction false} RewriteKeepsLifecycle(users: map<UserId, User>, matches: seq<MatchRow>,
                                                 uid: UserId, users': map<UserId, User>)
    requires RowsWellFormed(users, matches) && Lifecycle(users, matches)
    requires uid in users && users'.Keys == users.Keys
    requires forall v :: v in users && v != uid ==> users'[v] == users[v]
    requires Coherent(users'[uid])
    requires OpenMatchOf(matches, uid).Some? ==> users'[uid].state == Chatting
    ensures RowsWellFormed(users', matches) && Lifecycle(users', matches)
  {
    OneRecordChanged(users, users', uid);
    ReplaceUserKeepsLifecycle(users, matches, uid, users'[uid]);
  }

  /** Ending one user's open match and rewriting that user coherently keeps the
      foreign keys, the row ids and the invariant. */
  lemma {:induction false} EndRewriteKeepsLifecycle(users: map<UserId, User>, matches: seq<MatchRow>,
                                                    uid: UserId, users': map<UserId, User>,
                                                    now: int, ender: UserId)
    requires RowsWellFormed(users, matches) && Lifecycle(users, matches)
    requires uid in users && users'.Keys == users.Keys
    requires forall v :: v in users && v != uid ==> users'[v] == users[v]
    requires Coherent(users'[uid])
    requires OpenMatchOf(matches, uid).Some?
    ensures var k := OpenMatchOf(matches, uid).value - 1;
      RowsWellFormed(users', EndAt(matches, k, now, ender))
      && Lifecycle(users', EndAt(matches, k, now, ender))
  {
    OneRecordChanged(users, users', uid);
    CloseKeepsLifecycle(users, matches, uid, users'[uid], now, ender);
    var k := OpenMatchOf(matches, uid).value - 1;
    var matches' := EndAt(matches, k, now, ender);
    forall i | 0 <= i < |matches'|
      ensures matches'[i].id == i + 1 && matches'[i].user1 in users' && matches'[i].user2 in users'
    {
      assert i != k ==> matches'[i] == matches[i];
    }
  }

  /** The state branch of `/start` keeps the foreign keys, the row ids and the
      lifecycle invariant. */
  lemma {:induction false} RestartKeepsLifecycle(s: Snapshot, uid: UserId, now: int)
    requires uid in s.users
    requires RowsWellFormed(s.users, s.matches) && Lifecycle(s.users, s.matches)
    ensures var r := RestartSpec(s, uid, now);
      RowsWellFormed(r.after.users, r.after.matches) && Lifecycle(r.after.users, r.after.matches)
  {
    var u := s.users[uid];
    var r := RestartSpec(s, uid, now);
    if u.state != Blocked && u.state != Onboarding {
      if u.state != Chatting && OpenMatchOf(s.matches, uid).Some? {
        InOpenMatchIsChatting(s.users, s.matches, uid);
      }
      if u.state == Chatting && OpenMatchOf(s.matches, uid).Some? {
        EndRewriteKeepsLifecycle(s.users, s.matches, uid, r.after.users, now, uid);
      } else {
        RewriteKeepsLifecycle(s.users, s.matches, uid, r.after.users);
      }
    }
  }

  /** `/start` keeps the foreign keys, the row ids and the lifecycle invariant. */
  lemma {:induction false} StartKeepsLifecycle(s: Snapshot, uid: UserId, username: string, now: int)
    requires RowsWellFormed(s.users, s.matches) && Lifecycle(s.users, s.matches)
    ensures var r := StartSpec(s, uid, username, now);
      RowsWellFormed(r.after.users, r.after.matches) && Lifecycle(r.after.users, r.after.matches)
  {
    StartPrefixKeepsLifecycle(s, uid, username, now);
    var users1 := WithUser(s.users, uid, username);
    var s2 := s.(users := users1[uid := Reconciled(users1[uid], now)]);
    if !QuotaExhausted(s2.users[uid], now) {
      RestartKeepsLifecycle(s2, uid, now);
    }
  }

  // ---------------------------------------------------------------------------
  // What /end promises

  lemma EndChatTransitions(s: Snapshot, uid: UserId, now: int)
    ensures var r := EndChatSpec(s, uid, now);
      (uid in s.users && s.users[uid].state == Searching ==>
         r.after.users[uid].state == Idle && r.after.users[uid].searchStartTime.None?
         && r.after.matches == s.matches && r.notified.None?)
      && (uid in s.users && s.users[uid].state == Chatting && OpenMatchOf(s.matches, uid).Some? ==>
         var k := OpenMatchOf(s.matches, uid).value - 1;
         r.after.users[uid].state == Idle && r.after.users[uid].searchStartTime.None?
         && r.after.matches == s.matches[k := Closed(s.matches[k], now, uid)]
         && r.notified.Some? && Joins(s.matches[k], uid, r.notified.value))
      && (!(uid in s.users && s.users[uid].state == Searching)
          && !(uid in s.users && s.users[uid].state == Chatting && OpenMatchOf(s.matches, uid).Some?)
          ==> r == Outcome(s, None))
  {
  }

  /** `/end` never changes another user, the partner included. */
  lemma EndChatSparesOthers(s: Snapshot, uid: UserId, now: int)
    ensures var r := EndChatSpec(s, uid, now);
      r.after.users.Keys == s.users.Keys
      && (forall v :: v in s.users && v != uid ==> r.after.users[v] == s.users[v])
      && r.after.blocked == s.blocked && r.after.reports == s.reports
      && |r.after.matches| == |s.matches|
  {
  }

  /** `/end` keeps the foreign keys, the row ids and the lifecycle invariant. */
  lemma {:induction false} EndChatKeepsLifecycle(s: Snapshot, uid: UserId, now: int)
    requires RowsWellFormed(s.users, s.matches) && Lifecycle(s.users, s.matches)
    ensures var r := EndChatSpec(s, uid, now);
      RowsWellFormed(r.after.users, r.after.matches) && Lifecycle(r.after.users, r.after.matches)
  {
    if uid in s.users {
      var users' := Cleared(Restated(s.users, uid, Idle, now), uid);
      if s.users[uid].state == Searching {
        if OpenMatchOf(s.matches, uid).Some? {
          InOpenMatchIsChatting(s.users, s.matches, uid);
        }
        RewriteKeepsLifecycle(s.users, s.matches, uid, users');
      } else if s.users[uid].state == Chatting && OpenMatchOf(s.matches, uid).Some? {
        EndRewriteKeepsLifecycle(s.users, s.matches, uid, users', now, uid);
      }
    }
  }

  // ---------------------------------------------------------------------------
  // What /report promises

  /** With an open match, `/report` adds exactly the pair (reporter, other) to the
      blocked pairs and one report, ends the match in the reporter's name and sets
      the reporter IDLE; the reported user is not touched. Without one it does
      nothing. */
  lemma ReportEffect(s: Snapshot, uid: UserId, now: int)
    requires RowsWellFormed(s.users, s.matches)
    ensures var r := ReportSpec(s, uid, now);
      (OpenMatchOf(s.matches, uid).None? ==> r == Outcome(s, None))
      && (OpenMatchOf(s.matches, uid).Some? ==>
           var k := OpenMatchOf(s.matches, uid).value - 1;
           r.notified.Some? && Joins(s.matches[k], uid, r.notified.value)
           && r.after.blocked == s.blocked + {(uid, r.notified.value)}
           && r.after.reports == s.reports + [(uid, r.notified.value)]
           && r.after.matches == s.matches[k := Closed(s.matches[k], now, uid)]
           && uid in r.after.users
           && r.after.users[uid].state == Idle && r.after.users[uid].searchStartTime.None?
           && r.after.users.Keys == s.users.Keys
           && (forall v :: v in s.users && v != uid ==> r.after.users[v] == s.users[v]))
  {
  }

  /** `/report` keeps the foreign keys, the row ids and the lifecycle invariant. */
  lemma {:induction false} ReportKeepsLifecycle(s: Snapshot, uid: UserId, now: int)
    requires RowsWellFormed(s.users, s.matches) && Lifecycle(s.users, s.matches)
    ensures var r := ReportSpec(s, uid, now);
      RowsWellFormed(r.after.users, r.after.matches) && Lifecycle(r.after.users, r.after.matches)
  {
    if OpenMatchOf(s.matches, uid).Some? {
      var k := OpenMatchOf(s.matches, uid).value - 1;
      assert uid == s.matches[k].user1 || uid == s.matches[k].user2;
      EndRewriteKeepsLifecycle(s.users, s.matches, uid, Cleared(Restated(s.users, uid, Idle, now), uid),
                               now, uid);
    }
  }

  // ---------------------------------------------------------------------------
  // What the city step promises

  lemma CityHandlerEffect(s: Snapshot, cities: seq<CityInfo>, uid: UserId, text: string,
                          age: Option<int>, gender: Option<Gender>, preference: Option<Gender>, now: int)
    ensures var r := CityHandlerSpec(s, cities, uid, text, age, gender, preference, now);
      var choice := ChooseCity(cities, text);
      (choice == Unknown ==> r == s)
      && r.matches == s.matches && r.blocked == s.blocked && r.reports == s.reports
      && r.users.Keys == s.users.Keys
      && (forall v :: v in s.users && v != uid ==> r.users[v] == s.users[v])
      && (choice != Unknown && uid in s.users ==>
           r.users[uid].state == Searching && r.users[uid].searchStartTime == Some(now)
           && r.users[uid].age == age && r.users[uid].gender == gender
           && r.users[uid].preference == preference
           && (choice == Skip ==>
                 r.users[uid].city.None? && r.users[uid].latitude.None? && r.users[uid].longitude.None?)
           && (choice.Known? ==>
                 r.users[uid].city == Some(choice.city.name)
                 && r.users[uid].latitude == Some(choice.city.lat)
                 && r.users[uid].longitude == Some(choice.city.lon)))
  {
  }

  /** Writing the profile and starting the search keeps the invariant for a user
      outside any open match. */
  lemma {:induction false} ProfileKeepsLifecycle(users: map<UserId, User>, matches: seq<MatchRow>,
                                                 uid: UserId, age: Option<int>, gender: Option<Gender>,
                                                 preference: Option<Gender>, city: Option<string>,
                                                 latitude: Option<real>, longitude: Option<real>, now: int)
    requires RowsWellFormed(users, matches) && Lifecycle(users, matches)
    requires OpenMatchOf(matches, uid).None?
    ensures var users' := Restated(Profiled(users, uid, age, gender, preference, city, latitude, longitude),
                                   uid, Searching, now);
      RowsWellFormed(users', matches) && Lifecycle(users', matches)
  {
    var users' := Restated(Profiled(users, uid, age, gender, preference, city, latitude, longitude),
                           uid, Searching, now);
    if uid in users {
      RewriteKeepsLifecycle(users, matches, uid, users');
    } else {
      assert users' == users;
    }
  }

  /** The city step keeps the invariant for a user outside any open match (the
      conversation that leads to it starts from `/start`, which leaves none). */
  lemma {:induction false} CityHandlerKeepsLifecycle(s: Snapshot, cities: seq<CityInfo>, uid: UserId,
                                                     text: string,
                                                     age: Option<int>, gender: Option<Gender>,
                                                     preference: Option<Gender>, now: int)
    requires RowsWellFormed(s.users, s.matches) && Lifecycle(s.users, s.matches)
    requires OpenMatchOf(s.matches, uid).None?
    ensures var r := CityHandlerSpec(s, cities, uid, text, age, gender, preference, now);
      RowsWellFormed(r.users, r.matches) && Lifecycle(r.users, r.matches)
  {
    match ChooseCity(cities, text)
    case Unknown =>
    case Skip =>
      ProfileKeepsLifecycle(s.users, s.matches, uid, age, gender, preference, None, None, None, now);
    case Known(c) =>
      ProfileKeepsLifecycle(s.users, s.matches, uid, age, gender, preference,
                            Some(c.name), Some(c.lat), Some(c.lon), now);
  }

  // ---------------------------------------------------------------------------
  // What a payment promises

  /** Paying an invoice the bot built grants its plan to the payer, premium until
      the plan's days have passed, and changes no one else. */
  lemma PaidInvoiceGrantsPremium(users: map<UserId, User>, uid: UserId, planId: string,
                                 buyer: UserId, now: int, t: int)
    requires planId in Plans && uid in users
    ensures var after := PaymentEffect(users, uid, InvoicePayload(planId, buyer).value, now);
      uid in after && after[uid].premiumPlan == Some(Plans[planId].name)
      && (IsPremium(after[uid], t) <==> t < now + Plans[planId].days * SecondsPerDay)
      && after[uid].state == users[uid].state
      && (forall v :: v in users && v != uid ==> after[v] == users[v])
  {
    PaymentPlanRoundTrip(planId, buyer);
    GrantedPremiumUntilExpiry(users[uid], Plans[planId].name, Plans[planId].days, now, t);
  }

  /** With the parse as written, a successful payment changes nothing: the stars
      are taken and no premium is granted. */
  lemma PaymentAsWrittenGrantsNothing(users: map<UserId, User>, uid: UserId, payload: string, now: int)
    ensures PaymentEffectAsWritten(users, uid, payload, now) == users
  {
    AsWrittenAcceptsNothing(payload);
  }

  // ---------------------------------------------------------------------------
  // Premium bookkeeping keeps the lifecycle

  /** `check_premium_expiration` on its own keeps the lifecycle invariant: a
      downgrade rewrites premium columns only. */
  lemma ReconcileKeepsLifecycle(users: map<UserId, User>, matches: seq<MatchRow>, uid: UserId, now: int)
    requires RowsWellFormed(users, matches) && Lifecycle(users, matches)
    ensures var after := if uid in users then users[uid := Reconciled(users[uid], now)] else users;
      RowsWellFormed(after, matches) && Lifecycle(after, matches)
  {
    if uid in users {
      ReconcileKeepsPremium(users[uid], now);
      SameStatusKeepsLifecycle(users, matches, uid, Reconciled(users[uid], now));
    }
  }

  /** `handle_successful_payment` keeps the lifecycle invariant: a grant rewrites
      premium columns only. */
  lemma PaymentKeepsLifecycle(users: map<UserId, User>, matches: seq<MatchRow>, uid: UserId,
                              payload: string, now: int)
    requires RowsWellFormed(users, matches) && Lifecycle(users, matches)
    ensures RowsWellFormed(PaymentEffect(users, uid, payload, now), matches)
         && Lifecycle(PaymentEffect(users, uid, payload, now), matches)
  {
    match PaymentPlan(payload)
    case None =>
    case Some(k) =>
      if uid in users {
        var g := Granted(users[uid], Plans[k].name, Plans[k].days, now);
        SameStatusKeepsLifecycle(users, matches, uid, g);
      }
  }
}
