/** The periodic tick of main.py, `periodic_match_check`: one sweep over the
    snapshot of SEARCHING users. Below 100 users every user in the snapshot is
    offered to `find_match` and each pair found is committed; from 100 users on,
    the pairs come from a batch matcher and are committed as given. The store
    defines no batch matcher, so as written that branch raises before any write;
    `TickAsWritten` records that, and the tick on the store takes the pairs as
    an input instead. */
module Scheduler {
  import opened Types
  import opened Seqs
  import opened Premium
  import opened Matching
  import opened Store

  /** Below this many searching users the tick matches user by user. */
  const IndividualLimit: int := 100

  /** The two tables the tick writes; `blocked_pairs` and `reports` only are read. */
  datatype Tables = Tables(users: map<UserId, User>, matches: seq<MatchRow>)

  // ---------------------------------------------------------------------------
  // The snapshot

  predicate SearchingUser(users: map<UserId, User>, id: UserId) {
    id in users && users[id].state == Searching && !users[id].isBlocked
  }

  /** `ORDER BY search_start_time ASC`, which sorts NULL last. */
  predicate StartsNoLater(u: User, v: User) {
    match (u.searchStartTime, v.searchStartTime)
    case (_, None) => true
    case (None, Some(_)) => false
    case (Some(x), Some(y)) => x <= y
  }

  /** `get_searching_users()`: every SEARCHING, unflagged user once, earliest
      search first; users with equal start times come in any order. */
  ghost predicate SearchingSnapshot(users: map<UserId, User>, snapshot: seq<UserId>) {
    (forall id :: id in snapshot <==> SearchingUser(users, id))
    && (forall i, j :: 0 <= i < j < |snapshot| ==>
          snapshot[i] != snapshot[j] && snapshot[i] in users && snapshot[j] in users
          && StartsNoLater(users[snapshot[i]], users[snapshot[j]]))
  }

  // ---------------------------------------------------------------------------
  // Committing a pair

  /** The quota increments of the tick: each user not premium at `now`, read
      before any write, gets one more free match used. */
  function Charged(users: map<UserId, User>, a: UserId, b: UserId, now: int): (r: map<UserId, User>)
    ensures r.Keys == users.Keys
  {
    var first := if IsPremiumUser(users, a, now) then users else Incremented(users, a);
    if IsPremiumUser(users, b, now) then first else Incremented(first, b)
  }

  /** Both users set to CHATTING, then both search times cleared. */
  function Seated(users: map<UserId, User>, a: UserId, b: UserId, now: int): (r: map<UserId, User>)
    ensures r.Keys == users.Keys
  {
    Cleared(Cleared(Restated(Restated(users, a, Chatting, now), b, Chatting, now), a), b)
  }

  /** One user's record after its pair is committed by the individual path. */
  function Commit(u: User, now: int): (r: User)
    ensures r.state == Chatting && r.searchStartTime.None?
    ensures IsPremium(u, now) ==> r.freeMatchesUsed == u.freeMatchesUsed
    ensures !IsPremium(u, now) ==> r.freeMatchesUsed == u.freeMatchesUsed + 1
    ensures r == u.(state := r.state, searchStartTime := r.searchStartTime,
                    freeMatchesUsed := r.freeMatchesUsed)
  {
    u.(state := Chatting, searchStartTime := None,
       freeMatchesUsed := u.freeMatchesUsed + (if IsPremium(u, now) then 0 else 1))
  }

  /** The increments written for two distinct existing users. */
  lemma ChargedAt(users: map<UserId, User>, a: UserId, b: UserId, now: int)
    requires a != b && a in users && b in users
    ensures Charged(users, a, b, now)
         == users[a := users[a].(freeMatchesUsed := Commit(users[a], now).freeMatchesUsed)]
                 [b := users[b].(freeMatchesUsed := Commit(users[b], now).freeMatchesUsed)]
  {
  }

  /** The state and search-time writes for two distinct existing users. */
  lemma SeatedAt(users: map<UserId, User>, a: UserId, b: UserId, now: int)
    requires a != b && a in users && b in users
    ensures Seated(users, a, b, now)
         == users[a := users[a].(state := Chatting, searchStartTime := None)]
                 [b := users[b].(state := Chatting, searchStartTime := None)]
  {
  }

  /** For two distinct existing users, the write sequence of a commit leaves each
      of them with exactly the `Commit` record and touches no one else. */
  lemma {:induction false} SettleIsCommit(users: map<UserId, User>, a: UserId, b: UserId, now: int)
    requires a != b && a in users && b in users
    ensures Seated(Charged(users, a, b, now), a, b, now)
         == users[a := Commit(users[a], now)][b := Commit(users[b], now)]
  {
    var ca := users[a].(freeMatchesUsed := Commit(users[a], now).freeMatchesUsed);
    var cb := users[b].(freeMatchesUsed := Commit(users[b], now).freeMatchesUsed);
    var c := users[a := ca][b := cb];
    ChargedAt(users, a, b, now);
    SeatedAt(c, a, b, now);
    var x := ca.(state := Chatting, searchStartTime := None);
    var y := cb.(state := Chatting, searchStartTime := None);
    assert c[a] == ca && c[b] == cb;
    assert x == Commit(users[a], now) && y == Commit(users[b], now);
    MapOverwrite(users, a, b, ca, cb, x, y);
  }

  /** Writing two distinct keys again overrides the first writes. */
  lemma MapOverwrite(users: map<UserId, User>, a: UserId, b: UserId, ca: User, cb: User, x: User, y: User)
    requires a != b
    ensures users[a := ca][b := cb][a := x][b := y] == users[a := x][b := y]
  {
  }

  /** The row `create_match` appends. */
  function NewRow(matches: seq<MatchRow>, a: UserId, b: UserId, now: int): MatchRow {
    MatchRow(|matches| + 1, a, b, now, None, None)
  }

  /** One iteration of the individual path for user `uid`. */
  function IndividualStep(t: Tables, blocked: set<(UserId, UserId)>, uid: UserId, now: int,
                          dist: Distance, scan: seq<UserId>): (r: Tables)
  {
    var p := FindMatchSpec(t.users, t.matches, blocked, uid, now, dist, scan);
    if p.None? || uid !in t.users || p.value !in t.users then t
    else Tables(Seated(Charged(t.users, uid, p.value, now), uid, p.value, now),
                t.matches + [NewRow(t.matches, uid, p.value, now)])
  }

  /** The effect of committing the pair (`a`, `b`) between two distinct users. */
  function Paired(t: Tables, a: UserId, b: UserId, now: int): (r: Tables)
    requires a in t.users && b in t.users
  {
    Tables(t.users[a := Commit(t.users[a], now)][b := Commit(t.users[b], now)],
           t.matches + [NewRow(t.matches, a, b, now)])
  }

  /** What one iteration commits: nothing, or one new row pairing an eligible
      user with a compatible candidate it never met, both then CHATTING with no
      search time and charged one free match unless premium. */
  lemma StepCommits(t: Tables, blocked: set<(UserId, UserId)>, uid: UserId, now: int,
                    dist: Distance, scan: seq<UserId>) returns (p: Option<UserId>)
    ensures p.None? ==> IndividualStep(t, blocked, uid, now, dist, scan) == t
    ensures p.Some? ==>
      Eligible(t.users, uid, now)
      && IsCandidate(t.users, t.matches, blocked, uid, p.value)
      && Compatible(t.users[uid], t.users[p.value])
      && IndividualStep(t, blocked, uid, now, dist, scan) == Paired(t, uid, p.value, now)
  {
    p := FindMatchSpec(t.users, t.matches, blocked, uid, now, dist, scan);
    FindMatchSound(t.users, t.matches, blocked, uid, now, dist, scan);
    if p.Some? {
      SettleIsCommit(t.users, uid, p.value, now);
    }
  }

  /** The individual path over the whole snapshot, user by user, each call seeing
      the writes of the ones before. `scans[k]` is the row order of the candidate
      query issued for `snapshot[k]`. */
  function IndividualPassSpec(t: Tables, blocked: set<(UserId, UserId)>, snapshot: seq<UserId>,
                              scans: seq<seq<UserId>>, now: int, dist: Distance): Tables
    requires |scans| == |snapshot|
    decreases |snapshot|
  {
    if snapshot == [] then t
    else IndividualPassSpec(IndividualStep(t, blocked, snapshot[0], now, dist, scans[0]),
                            blocked, snapshot[1..], scans[1..], now, dist)
  }

  // ---------------------------------------------------------------------------
  // What one individual pass promises

  /** `id` takes part in one of `rows`. */
  predicate InRows(rows: seq<MatchRow>, id: UserId) {
    exists i | 0 <= i < |rows| :: Involves(rows[i], id)
  }

  /** No user appears in two of `rows`. */
  predicate Disjoint(rows: seq<MatchRow>) {
    forall i, j :: 0 <= i < j < |rows| ==> !Overlap(rows[i], rows[j])
  }

  /** `t` is `orig` with the rows `added` appended, pairwise disjoint, each
      participant holding its `Commit` record and every other user untouched. */
  predicate PassFrame(orig: Tables, t: Tables, now: int) {
    |orig.matches| <= |t.matches| && t.matches[..|orig.matches|] == orig.matches
    && Disjoint(t.matches[|orig.matches|..])
    && t.users.Keys == orig.users.Keys
    && forall id :: id in orig.users ==>
         t.users[id] == if InRows(t.matches[|orig.matches|..], id)
                        then Commit(orig.users[id], now) else orig.users[id]
  }

  /** Neither user of a new pair is in an earlier new row: both are SEARCHING,
      while everyone in the added rows holds a CHATTING `Commit` record. */
  lemma {:induction false} PairedKeepsDisjoint(orig: Tables, t: Tables, a: UserId, b: UserId, now: int)
    requires PassFrame(orig, t, now)
    requires a in t.users && b in t.users
    requires t.users[a].state == Searching && t.users[b].state == Searching
    ensures !InRows(t.matches[|orig.matches|..], a) && !InRows(t.matches[|orig.matches|..], b)
    ensures Disjoint(t.matches[|orig.matches|..] + [NewRow(t.matches, a, b, now)])
  {
    var added := t.matches[|orig.matches|..];
    var row := NewRow(t.matches, a, b, now);
    assert a in orig.users && b in orig.users;
    assert !InRows(added, a) && !InRows(added, b);
    var rows := added + [row];
    forall i, j | 0 <= i < j < |rows| ensures !Overlap(rows[i], rows[j]) {
      assert rows[i] == added[i];
      if j == |added| {
        assert !Involves(added[i], a) && !Involves(added[i], b);
      } else {
        assert rows[j] == added[j];
      }
    }
  }

  /** Committing a new pair of SEARCHING users keeps the pass frame. */
  lemma {:induction false} PairedKeepsFrame(orig: Tables, t: Tables, a: UserId, b: UserId, now: int)
    requires PassFrame(orig, t, now)
    requires a != b && a in t.users && b in t.users
    requires t.users[a].state == Searching && t.users[b].state == Searching
    ensures PassFrame(orig, Paired(t, a, b, now), now)
  {
    var r := Paired(t, a, b, now);
    var n := |orig.matches|;
    var added := t.matches[n..];
    var row := NewRow(t.matches, a, b, now);
    PairedKeepsDisjoint(orig, t, a, b, now);
    assert r.matches[n..] == added + [row];
    assert r.matches[..n] == orig.matches;
    forall id | id in orig.users
      ensures r.users[id] == if InRows(added + [row], id)
                             then Commit(orig.users[id], now) else orig.users[id]
    {
      if id == a || id == b {
        assert Involves((added + [row])[|added|], id);
      } else {
        if InRows(added + [row], id) {
          var i :| 0 <= i < |added + [row]| && Involves((added + [row])[i], id);
          assert (added + [row])[i] == added[i];
        }
        if InRows(added, id) {
          var i :| 0 <= i < |added| && Involves(added[i], id);
          assert (added + [row])[i] == added[i];
        }
      }
    }
  }

  lemma {:induction false} StepKeepsFrame(orig: Tables, t: Tables, blocked: set<(UserId, UserId)>,
                                          uid: UserId, now: int, dist: Distance, scan: seq<UserId>)
    requires PassFrame(orig, t, now)
    ensures PassFrame(orig, IndividualStep(t, blocked, uid, now, dist, scan), now)
  {
    var p := StepCommits(t, blocked, uid, now, dist, scan);
    if p.Some? {
      PairedKeepsFrame(orig, t, uid, p.value, now);
    }
  }

  lemma {:induction false} PassKeepsFrame(orig: Tables, t: Tables, blocked: set<(UserId, UserId)>,
                                          snapshot: seq<UserId>, scans: seq<seq<UserId>>,
                                          now: int, dist: Distance)
    requires |scans| == |snapshot|
    requires PassFrame(orig, t, now)
    ensures PassFrame(orig, IndividualPassSpec(t, blocked, snapshot, scans, now, dist), now)
    decreases |snapshot|
  {
    if snapshot != [] {
      StepKeepsFrame(orig, t, blocked, snapshot[0], now, dist, scans[0]);
      PassKeepsFrame(orig, IndividualStep(t, blocked, snapshot[0], now, dist, scans[0]),
                     blocked, snapshot[1..], scans[1..], now, dist);
    }
  }

  /** One individual pass only appends rows; no user is in two of the new rows
      (so no pair is created twice); each participant of a new row ends CHATTING
      with no search time and exactly one more free match used unless premium;
      every other user is untouched. */
  lemma IndividualPassEffect(t: Tables, blocked: set<(UserId, UserId)>, snapshot: seq<UserId>,
                             scans: seq<seq<UserId>>, now: int, dist: Distance)
    requires |scans| == |snapshot|
    ensures var r := IndividualPassSpec(t, blocked, snapshot, scans, now, dist);
      |t.matches| <= |r.matches| && r.matches[..|t.matches|] == t.matches
      && r.users.Keys == t.users.Keys
      && var added := r.matches[|t.matches|..];
      Disjoint(added)
      && (forall id :: id in t.users && InRows(added, id) ==>
            r.users[id].state == Chatting && r.users[id].searchStartTime.None?
            && r.users[id].freeMatchesUsed
               == t.users[id].freeMatchesUsed + (if IsPremium(t.users[id], now) then 0 else 1))
      && (forall id :: id in t.users && !InRows(added, id) ==> r.users[id] == t.users[id])
  {
    assert t.matches[..|t.matches|] == t.matches;
    assert t.matches[|t.matches|..] == [];
    PassKeepsFrame(t, t, blocked, snapshot, scans, now, dist);
  }

  /** One iteration keeps the foreign keys, the row ids and the lifecycle invariant. */
  lemma StepKeepsLifecycle(t: Tables, blocked: set<(UserId, UserId)>, uid: UserId, now: int,
                           dist: Distance, scan: seq<UserId>)
    requires RowsWellFormed(t.users, t.matches) && Lifecycle(t.users, t.matches)
    ensures var r := IndividualStep(t, blocked, uid, now, dist, scan);
      RowsWellFormed(r.users, r.matches) && Lifecycle(r.users, r.matches)
  {
    var p := StepCommits(t, blocked, uid, now, dist, scan);
    if p.Some? {
      var r := Paired(t, uid, p.value, now);
      OpenKeepsLifecycle(t.users, t.matches, uid, p.value, Commit(t.users[uid], now),
                         Commit(t.users[p.value], now), NewRow(t.matches, uid, p.value, now));
      assert r.users.Keys == t.users.Keys;
      forall i | 0 <= i < |r.matches|
        ensures r.matches[i].id == i + 1 && r.matches[i].user1 in r.users && r.matches[i].user2 in r.users
      {
        if i < |t.matches| {
          assert r.matches[i] == t.matches[i];
        }
      }
    }
  }

  /** The individual pass keeps the foreign keys, the row ids and the lifecycle invariant. */
  lemma {:induction false} IndividualPassKeepsLifecycle(t: Tables, blocked: set<(UserId, UserId)>,
                                                        snapshot: seq<UserId>, scans: seq<seq<UserId>>,
                                                        now: int, dist: Distance)
    requires |scans| == |snapshot|
    requires RowsWellFormed(t.users, t.matches) && Lifecycle(t.users, t.matches)
    ensures var r := IndividualPassSpec(t, blocked, snapshot, scans, now, dist);
      RowsWellFormed(r.users, r.matches) && Lifecycle(r.users, r.matches)
    decreases |snapshot|
  {
    if snapshot != [] {
      StepKeepsLifecycle(t, blocked, snapshot[0], now, dist, scans[0]);
      IndividualPassKeepsLifecycle(IndividualStep(t, blocked, snapshot[0], now, dist, scans[0]),
                                   blocked, snapshot[1..], scans[1..], now, dist);
    }
  }

  // ---------------------------------------------------------------------------
  // The batch path

  /** One iteration of the batch commit loop: the increments come first, so they
      stand even when `create_match` inserts nothing. */
  function BatchStep(t: Tables, a: UserId, b: UserId, now: int): (r: Tables)
  {
    var charged := Charged(t.users, a, b, now);
    if a in charged && b in charged then
      Tables(Seated(charged, a, b, now), t.matches + [NewRow(t.matches, a, b, now)])
    else Tables(charged, t.matches)
  }

  function BatchPassSpec(t: Tables, pairs: seq<(UserId, UserId)>, now: int): Tables
    decreases |pairs|
  {
    if pairs == [] then t
    else BatchPassSpec(BatchStep(t, pairs[0].0, pairs[0].1, now), pairs[1..], now)
  }

  /** A non-premium user paired with an unknown id is charged a free match although
      no match row is created. */
  lemma BatchChargesWithoutRow(t: Tables, a: UserId, b: UserId, now: int)
    requires a in t.users && b !in t.users && !IsPremium(t.users[a], now)
    ensures var r := BatchStep(t, a, b, now);
      r.matches == t.matches && r.users[a].freeMatchesUsed == t.users[a].freeMatchesUsed + 1
      && r.users[a].state == t.users[a].state
  {
  }

  /** A batch pair of two distinct existing users is committed exactly as on the
      individual path. */
  lemma BatchCommitsLikeIndividual(t: Tables, a: UserId, b: UserId, now: int)
    requires a != b && a in t.users && b in t.users
    ensures var r := BatchStep(t, a, b, now);
      r.matches == t.matches + [NewRow(t.matches, a, b, now)]
      && r.users == t.users[a := Commit(t.users[a], now)][b := Commit(t.users[b], now)]
  {
    SettleIsCommit(t.users, a, b, now);
  }

  /** Every pair names two distinct users of the table. */
  predicate KnownPairs(users: map<UserId, User>, pairs: seq<(UserId, UserId)>) {
    forall i :: 0 <= i < |pairs| ==> pairs[i].0 != pairs[i].1 && pairs[i].0 in users && pairs[i].1 in users
  }

  /** One batch step over a pair of distinct known users, in terms of states. */
  lemma BatchStepSeats(t: Tables, a: UserId, b: UserId, now: int)
    requires a != b && a in t.users && b in t.users
    ensures var r := BatchStep(t, a, b, now);
      r.users.Keys == t.users.Keys && r.matches == t.matches + [NewRow(t.matches, a, b, now)]
      && r.users[a].state == Chatting && r.users[b].state == Chatting
      && forall id :: id in t.users && t.users[id].state == Chatting ==> r.users[id].state == Chatting
  {
    BatchCommitsLikeIndividual(t, a, b, now);
  }

  /** A batch pass never takes a CHATTING user out of CHATTING. */
  lemma {:induction false} BatchPassKeepsChatting(t: Tables, pairs: seq<(UserId, UserId)>, now: int, id: UserId)
    requires KnownPairs(t.users, pairs)
    requires id in t.users && t.users[id].state == Chatting
    ensures var r := BatchPassSpec(t, pairs, now);
      r.users.Keys == t.users.Keys && r.users[id].state == Chatting
    decreases |pairs|
  {
    if pairs != [] {
      var t1 := BatchStep(t, pairs[0].0, pairs[0].1, now);
      BatchStepSeats(t, pairs[0].0, pairs[0].1, now);
      assert KnownPairs(t1.users, pairs[1..]);
      BatchPassKeepsChatting(t1, pairs[1..], now, id);
    }
  }

  /** One commit of two distinct known users keeps the table's keys and appends
      exactly one open row with the next id. */
  lemma BatchStepRow(t: Tables, a: UserId, b: UserId, now: int)
    requires a != b && a in t.users && b in t.users
    ensures BatchStep(t, a, b, now).users.Keys == t.users.Keys
    ensures BatchStep(t, a, b, now).matches == t.matches + [MatchRow(|t.matches| + 1, a, b, now, None, None)]
  {
    BatchStepSeats(t, a, b, now);
  }

  lemma KnownPairsTail(users: map<UserId, User>, users': map<UserId, User>, pairs: seq<(UserId, UserId)>)
    requires pairs != [] && KnownPairs(users, pairs) && users'.Keys == users.Keys
    ensures KnownPairs(users', pairs[1..])
  {
    forall i | 0 <= i < |pairs| - 1
      ensures pairs[1..][i].0 != pairs[1..][i].1 && pairs[1..][i].0 in users' && pairs[1..][i].1 in users'
    {
      assert pairs[1..][i] == pairs[i + 1];
    }
  }

  /** The rows the batch loop inserts for `pairs` after `n` existing rows: one
      open row per pair, in order, with the next ids. */
  function BatchRows(n: nat, pairs: seq<(UserId, UserId)>, now: int): (rows: seq<MatchRow>)
    ensures |rows| == |pairs|
    decreases |pairs|
  {
    if pairs == [] then []
    else [MatchRow(n + 1, pairs[0].0, pairs[0].1, now, None, None)] + BatchRows(n + 1, pairs[1..], now)
  }

  /** The `i`-th inserted row is open, joins the `i`-th pair and has id `n + i + 1`. */
  lemma {:induction false} BatchRowsAt(n: nat, pairs: seq<(UserId, UserId)>, now: int, i: nat)
    requires i < |pairs|
    ensures BatchRows(n, pairs, now)[i] == MatchRow(n + i + 1, pairs[i].0, pairs[i].1, now, None, None)
    decreases |pairs|
  {
    if i > 0 {
      BatchRowsAt(n + 1, pairs[1..], now, i - 1);
      assert pairs[1..][i - 1] == pairs[i];
    }
  }

  /** The intended batch tick, rows: every pair of distinct known users gets its
      own open row, in order, after the existing ones. */
  lemma {:induction false} BatchPassAppendsRows(t: Tables, pairs: seq<(UserId, UserId)>, now: int)
    requires KnownPairs(t.users, pairs)
    ensures BatchPassSpec(t, pairs, now).matches == t.matches + BatchRows(|t.matches|, pairs, now)
    decreases |pairs|
  {
    if pairs != [] {
      var t1 := BatchStep(t, pairs[0].0, pairs[0].1, now);
      var row := MatchRow(|t.matches| + 1, pairs[0].0, pairs[0].1, now, None, None);
      var rest := BatchRows(|t.matches| + 1, pairs[1..], now);
      assert t1.matches == t.matches + [row] by {
        BatchStepRow(t, pairs[0].0, pairs[0].1, now);
      }
      assert BatchPassSpec(t1, pairs[1..], now).matches == t1.matches + rest by {
        BatchStepRow(t, pairs[0].0, pairs[0].1, now);
        KnownPairsTail(t.users, t1.users, pairs);
        BatchPassAppendsRows(t1, pairs[1..], now);
      }
      assert t1.matches + rest == t.matches + ([row] + rest);
    }
  }

  /** The intended batch tick, users: both users of every pair of distinct known
      users end up CHATTING. */
  lemma {:induction false} BatchPassSeatsPairs(t: Tables, pairs: seq<(UserId, UserId)>, now: int)
    requires KnownPairs(t.users, pairs)
    ensures var r := BatchPassSpec(t, pairs, now);
      r.users.Keys == t.users.Keys
      && forall i :: 0 <= i < |pairs| ==>
        r.users[pairs[i].0].state == Chatting && r.users[pairs[i].1].state == Chatting
    decreases |pairs|
  {
    if pairs != [] {
      var a, b := pairs[0].0, pairs[0].1;
      var t1 := BatchStep(t, a, b, now);
      BatchStepSeats(t, a, b, now);
      assert KnownPairs(t1.users, pairs[1..]);
      BatchPassSeatsPairs(t1, pairs[1..], now);
      BatchPassKeepsChatting(t1, pairs[1..], now, a);
      BatchPassKeepsChatting(t1, pairs[1..], now, b);
      var r := BatchPassSpec(t1, pairs[1..], now);
      forall i | 0 <= i < |pairs|
        ensures r.users[pairs[i].0].state == Chatting && r.users[pairs[i].1].state == Chatting
      {
        if i > 0 {
          assert pairs[1..][i - 1] == pairs[i];
        }
      }
    }
  }

  /** The tick as written: from 100 users on, the call of `batch_find_matches`,
      which the store does not define, raises before any write, and the tick's
      exception handler only logs it. */
  function TickAsWritten(t: Tables, blocked: set<(UserId, UserId)>, snapshot: seq<UserId>,
                         scans: seq<seq<UserId>>, now: int, dist: Distance): Tables
    requires |scans| == |snapshot|
  {
    if snapshot == [] then t
    else if |snapshot| < IndividualLimit then IndividualPassSpec(t, blocked, snapshot, scans, now, dist)
    else t
  }

  /** As written, a tick with 100 or more searching users matches nobody, even
      when `find_match` has a partner for the first of them. */
  lemma AsWrittenLargeTickMatchesNobody(t: Tables, blocked: set<(UserId, UserId)>, snapshot: seq<UserId>,
                                        scans: seq<seq<UserId>>, now: int, dist: Distance)
    requires |scans| == |snapshot| && |snapshot| >= IndividualLimit
    requires FindMatchSpec(t.users, t.matches, blocked, snapshot[0], now, dist, scans[0]).Some?
    ensures var r := TickAsWritten(t, blocked, snapshot, scans, now, dist);
      r.matches == t.matches
      && (forall id :: id in snapshot && id in t.users ==> r.users[id] == t.users[id])
      && IndividualStep(t, blocked, snapshot[0], now, dist, scans[0]).matches != t.matches
  {
    var p := FindMatchSpec(t.users, t.matches, blocked, snapshot[0], now, dist, scans[0]);
    FindMatchSound(t.users, t.matches, blocked, snapshot[0], now, dist, scans[0]);
    assert |IndividualStep(t, blocked, snapshot[0], now, dist, scans[0]).matches| == |t.matches| + 1;
  }

  // ---------------------------------------------------------------------------
  // The tick on the store

  /** The commit sequence of the individual path for a pair found by `find_match`. */
  method CommitPair(db: Database, a: UserId, b: UserId, now: int)
    requires db.Valid()
    modifies db
    ensures db.Valid()
    ensures a in old(db.users) && b in old(db.users) ==>
      db.users == Seated(Charged(old(db.users), a, b, now), a, b, now)
      && db.matches == old(db.matches) + [NewRow(old(db.matches), a, b, now)]
    ensures !(a in old(db.users) && b in old(db.users)) ==>
      db.users == old(db.users) && db.matches == old(db.matches)
    ensures db.blocked == old(db.blocked) && db.reports == old(db.reports)
  {
    var mid := db.CreateMatch(a, b, now);
    if mid.Some? {
      var premiumA := IsPremiumUser(db.users, a, now);
      var premiumB := IsPremiumUser(db.users, b, now);
      if !premiumA {
        db.IncrementFreeMatches(a);
      }
      if !premiumB {
        db.IncrementFreeMatches(b);
      }
      db.SetUserState(a, Chatting, now);
      db.SetUserState(b, Chatting, now);
      db.ClearSearchStartTime(a);
      db.ClearSearchStartTime(b);
    }
  }

  /** One iteration of the individual path on the store. */
  method TryMatch(db: Database, uid: UserId, now: int, dist: Distance, scan: seq<UserId>)
    requires db.Valid() && Enumerates(db.users.Keys, scan)
    modifies db
    ensures db.Valid()
    ensures Tables(db.users, db.matches)
         == IndividualStep(Tables(old(db.users), old(db.matches)), old(db.blocked), uid, now, dist, scan)
    ensures db.blocked == old(db.blocked) && db.reports == old(db.reports)
  {
    var partner := FindMatch(db.users, db.matches, db.blocked, uid, now, dist, scan);
    if partner.Some? {
      CommitPair(db, uid, partner.value, now);
    }
  }

  /** The individual path: `find_match` for each user of the snapshot in turn. */
  method IndividualPass(db: Database, snapshot: seq<UserId>, scans: seq<seq<UserId>>,
                        now: int, dist: Distance)
    requires db.Valid() && |scans| == |snapshot|
    requires forall k :: 0 <= k < |scans| ==> Enumerates(db.users.Keys, scans[k])
    modifies db
    ensures db.Valid()
    ensures Tables(db.users, db.matches)
         == IndividualPassSpec(Tables(old(db.users), old(db.matches)), old(db.blocked),
                               snapshot, scans, now, dist)
    ensures db.blocked == old(db.blocked) && db.reports == old(db.reports)
  {
    var k := 0;
    while k < |snapshot|
      invariant 0 <= k <= |snapshot|
      invariant db.Valid()
      invariant db.users.Keys == old(db.users).Keys
      invariant db.blocked == old(db.blocked) && db.reports == old(db.reports)
      invariant IndividualPassSpec(Tables(db.users, db.matches), db.blocked, snapshot[k..], scans[k..], now, dist)
             == IndividualPassSpec(Tables(old(db.users), old(db.matches)), old(db.blocked),
                                   snapshot, scans, now, dist)
    {
      assert snapshot[k..][1..] == snapshot[k + 1..] && scans[k..][1..] == scans[k + 1..];
      TryMatch(db, snapshot[k], now, dist, scans[k]);
      k := k + 1;
    }
  }

  /** One iteration of the batch commit loop on the store. */
  method CommitBatchPair(db: Database, a: UserId, b: UserId, now: int)
    requires db.Valid()
    modifies db
    ensures db.Valid()
    ensures Tables(db.users, db.matches) == BatchStep(Tables(old(db.users), old(db.matches)), a, b, now)
    ensures db.blocked == old(db.blocked) && db.reports == old(db.reports)
  {
    var premiumA := IsPremiumUser(db.users, a, now);
    var premiumB := IsPremiumUser(db.users, b, now);
    if !premiumA {
      db.IncrementFreeMatches(a);
    }
    if !premiumB {
      db.IncrementFreeMatches(b);
    }
    ghost var charged := Charged(old(db.users), a, b, now);
    assert db.users == charged;
    var mid := db.CreateMatch(a, b, now);
    if mid.Some? {
      assert db.matches == old(db.matches) + [NewRow(old(db.matches), a, b, now)];
      db.SetUserState(a, Chatting, now);
      db.SetUserState(b, Chatting, now);
      db.ClearSearchStartTime(a);
      db.ClearSearchStartTime(b);
      assert db.users == Seated(charged, a, b, now);
    } else {
      assert db.matches == old(db.matches);
    }
  }

  /** The batch commit loop over the pairs the batch matcher returned. */
  method BatchPass(db: Database, pairs: seq<(UserId, UserId)>, now: int)
    requires db.Valid()
    modifies db
    ensures db.Valid()
    ensures Tables(db.users, db.matches) == BatchPassSpec(Tables(old(db.users), old(db.matches)), pairs, now)
    ensures db.blocked == old(db.blocked) && db.reports == old(db.reports)
  {
    var k := 0;
    while k < |pairs|
      invariant 0 <= k <= |pairs|
      invariant db.Valid()
      invariant db.blocked == old(db.blocked) && db.reports == old(db.reports)
      invariant BatchPassSpec(Tables(db.users, db.matches), pairs[k..], now)
             == BatchPassSpec(Tables(old(db.users), old(db.matches)), pairs, now)
    {
      assert pairs[k..][1..] == pairs[k + 1..];
      CommitBatchPair(db, pairs[k].0, pairs[k].1, now);
      k := k + 1;
    }
  }

  /** `periodic_match_check`: nothing for an empty snapshot, the individual path
      below 100 users, the batch commit loop otherwise. */
  method PeriodicMatchCheck(db: Database, snapshot: seq<UserId>, scans: seq<seq<UserId>>,
                            pairs: seq<(UserId, UserId)>, now: int, dist: Distance)
    requires db.Valid() && SearchingSnapshot(db.users, snapshot) && |scans| == |snapshot|
    requires forall k :: 0 <= k < |scans| ==> Enumerates(db.users.Keys, scans[k])
    modifies db
    ensures db.Valid()
    ensures snapshot == [] ==> db.users == old(db.users) && db.matches == old(db.matches)
    ensures 0 < |snapshot| < IndividualLimit ==>
      Tables(db.users, db.matches)
      == IndividualPassSpec(Tables(old(db.users), old(db.matches)), old(db.blocked),
                            snapshot, scans, now, dist)
    ensures |snapshot| >= IndividualLimit ==>
      Tables(db.users, db.matches) == BatchPassSpec(Tables(old(db.users), old(db.matches)), pairs, now)
    ensures db.blocked == old(db.blocked) && db.reports == old(db.reports)
  {
    if |snapshot| == 0 {
      return;
    }
    if |snapshot| < IndividualLimit {
      IndividualPass(db, snapshot, scans, now, dist);
    } else {
      BatchPass(db, pairs, now);
    }
  }
}
