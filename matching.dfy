/** Partner selection, db.py `Database.find_match`: the eligibility gate, the
    candidate filter, the bidirectional preference rule and the four priority
    windows. The store is read as values; the candidate order is the order in
    which the `users` table yields its rows, given as `scan` (the query has no
    ORDER BY). */
module Matching {
  import opened Types
  import opened Seqs
  import opened Premium

  /** Great-circle distance in km between (lat1, lon1) and (lat2, lon2);
      the haversine formula itself is not modelled. */
  type Distance = (real, real, real, real) -> real

  /** Window 1 lasts while the wait is at most this many seconds. */
  const SameCitySeconds: int := 30
  const NearbyKm: real := 50.0
  const RegionalKm: real := 300.0

  /** Python truthiness of a city: NULL and the empty string are false. */
  predicate Truthy(s: Option<string>) {
    s.Some? && s.value != ""
  }

  /** Python truthiness of a coordinate: NULL and 0.0 are false. */
  predicate HasCoord(x: Option<real>) {
    x.Some? && x.value != 0.0
  }

  /** Some row of `matches`, open or ended, pairs `a` with `b`. */
  predicate EverMatched(matches: seq<MatchRow>, a: UserId, b: UserId) {
    exists i | 0 <= i < |matches| :: Joins(matches[i], a, b)
  }

  /** The gate at the top of `find_match`: SEARCHING, within quota or premium, not blocked. */
  predicate Eligible(users: map<UserId, User>, uid: UserId, now: int) {
    uid in users && users[uid].state == Searching
    && !QuotaExhausted(users[uid], now) && !users[uid].isBlocked
  }

  /** The WHERE clause of the candidate query. */
  predicate IsCandidate(users: map<UserId, User>, matches: seq<MatchRow>,
                        blocked: set<(UserId, UserId)>, uid: UserId, c: UserId)
  {
    c in users && c != uid && users[c].state == Searching && !users[c].isBlocked
    && (uid, c) !in blocked && (c, uid) !in blocked
    && !EverMatched(matches, uid, c)
  }

  /** Bidirectional preference: each one's gender is what the other prefers. */
  predicate Compatible(u: User, c: User) {
    u.gender == c.preference && c.gender == u.preference
  }

  function CandidatePred(users: map<UserId, User>, matches: seq<MatchRow>,
                         blocked: set<(UserId, UserId)>, uid: UserId): UserId -> bool
  {
    c => IsCandidate(users, matches, blocked, uid, c)
  }

  /** `scan` lists every row of the `users` table exactly once: the order in
      which a query over that table meets its rows. */
  predicate Enumerates(keys: set<UserId>, scan: seq<UserId>) {
    multiset(scan) == multiset(keys)
  }

  /** The rows the candidate query returns, in table order. */
  function Candidates(users: map<UserId, User>, matches: seq<MatchRow>,
                      blocked: set<(UserId, UserId)>, uid: UserId, scan: seq<UserId>): seq<UserId>
  {
    Filter(scan, CandidatePred(users, matches, blocked, uid))
  }

  function CompatiblePred(users: map<UserId, User>, u: User): UserId -> bool {
    c => c in users && Compatible(u, users[c])
  }

  /** The `compatible` list of `find_match`. */
  function Compatibles(users: map<UserId, User>, matches: seq<MatchRow>,
                       blocked: set<(UserId, UserId)>, uid: UserId, scan: seq<UserId>): seq<UserId>
    requires uid in users
  {
    Filter(Candidates(users, matches, blocked, uid, scan), CompatiblePred(users, users[uid]))
  }

  /** Seconds since the search began; 0 when no start time is recorded. */
  function Waited(u: User, now: int): int {
    if u.searchStartTime.Some? then now - u.searchStartTime.value else 0
  }

  predicate SharesCity(users: map<UserId, User>, u: User, c: UserId) {
    c in users && users[c].city == u.city && users[c].city.Some?
  }

  function SharesCityPred(users: map<UserId, User>, u: User): UserId -> bool {
    c => SharesCity(users, u, c)
  }

  /** A "stay mysterious" candidate: no city given. */
  predicate CityLess(users: map<UserId, User>, c: UserId) {
    c in users && users[c].city.None?
  }

  function CityLessPred(users: map<UserId, User>): UserId -> bool {
    c => CityLess(users, c)
  }

  /** Window 1: same city, else city-less, when the user has a city; else anyone. */
  function WindowOne(users: map<UserId, User>, u: User, compat: seq<UserId>): (r: Option<UserId>)
    ensures r.Some? ==> r.value in compat
  {
    if Truthy(u.city) then
      var same := Filter(compat, SharesCityPred(users, u));
      if same != [] then
        assert same[0] in same;
        Some(same[0])
      else
        var mysterious := Filter(compat, CityLessPred(users));
        if mysterious != [] then
          assert mysterious[0] in mysterious;
          Some(mysterious[0])
        else None
    else if compat != [] then Some(compat[0])
    else None
  }

  /** All four coordinates are present (truthy). */
  predicate Located(users: map<UserId, User>, u: User, c: UserId) {
    c in users && HasCoord(u.latitude) && HasCoord(u.longitude)
    && HasCoord(users[c].latitude) && HasCoord(users[c].longitude)
  }

  function DistanceTo(users: map<UserId, User>, u: User, c: UserId, dist: Distance): real
    requires Located(users, u, c)
  {
    dist(u.latitude.value, u.longitude.value, users[c].latitude.value, users[c].longitude.value)
  }

  predicate InRange(users: map<UserId, User>, u: User, c: UserId, dist: Distance, limit: real) {
    Located(users, u, c) && DistanceTo(users, u, c, dist) <= limit
  }

  /** The `(candidate, distance)` list that the window 2 and window 3 loops build. */
  function Within(users: map<UserId, User>, u: User, s: seq<UserId>, dist: Distance, limit: real)
    : (r: seq<(UserId, real)>)
    ensures forall q :: q in r ==>
      q.0 in s && InRange(users, u, q.0, dist, limit) && q.1 == DistanceTo(users, u, q.0, dist)
    ensures r == [] <==> forall c :: c in s ==> !InRange(users, u, c, dist, limit)
  {
    if s == [] then []
    else
      assert s == s[..|s| - 1] + [s[|s| - 1]];
      var c := s[|s| - 1];
      var rest := Within(users, u, s[..|s| - 1], dist, limit);
      if InRange(users, u, c, dist, limit) then rest + [(c, DistanceTo(users, u, c, dist))]
      else rest
  }

  /** `sorted(ps, key=distance)[0]`: Python's sort is stable, so this is the first
      pair of minimum distance. */
  function Nearest(ps: seq<(UserId, real)>): (r: (UserId, real))
    requires ps != []
    ensures r in ps
    ensures forall q :: q in ps ==> r.1 <= q.1
  {
    if |ps| == 1 then ps[0]
    else
      assert ps == ps[..|ps| - 1] + [ps[|ps| - 1]];
      var best := Nearest(ps[..|ps| - 1]);
      if ps[|ps| - 1].1 < best.1 then ps[|ps| - 1] else best
  }

  /** Windows 1 to 4 over the compatible list, in the source's order. */
  function Windows(users: map<UserId, User>, u: User, compat: seq<UserId>, wait: int,
                   dist: Distance): (r: Option<UserId>)
    ensures r.Some? ==> r.value in compat
    ensures r.Some? <==> compat != []
  {
    var first := if wait <= SameCitySeconds then WindowOne(users, u, compat) else None;
    if first.Some? then first
    else
      var nearby := Within(users, u, compat, dist, NearbyKm);
      if wait > SameCitySeconds && nearby != [] then
        assert Nearest(nearby) in nearby;
        Some(Nearest(nearby).0)
      else
        var regional := Within(users, u, compat, dist, RegionalKm);
        if regional != [] then
          assert Nearest(regional) in regional;
          Some(Nearest(regional).0)
        else if compat != [] then Some(compat[0])
        else None
  }

  /** `find_match(user_id)`: the chosen partner's id, or None. */
  function FindMatchSpec(users: map<UserId, User>, matches: seq<MatchRow>,
                         blocked: set<(UserId, UserId)>, uid: UserId, now: int,
                         dist: Distance, scan: seq<UserId>): Option<UserId>
  {
    if uid !in users then None
    else if users[uid].state != Searching then None
    else if QuotaExhausted(users[uid], now) then None
    else if users[uid].isBlocked then None
    else if Candidates(users, matches, blocked, uid, scan) == [] then None
    else if Compatibles(users, matches, blocked, uid, scan) == [] then None
    else Windows(users, users[uid], Compatibles(users, matches, blocked, uid, scan),
                 Waited(users[uid], now), dist)
  }

  /** The loop shared by windows 2 and 3: collect the located candidates within `limit`. */
  method CollectWithin(users: map<UserId, User>, u: User, compatible: seq<UserId>,
                       dist: Distance, limit: real) returns (found: seq<(UserId, real)>)
    ensures found == Within(users, u, compatible, dist, limit)
  {
    found := [];
    var i := 0;
    while i < |compatible|
      invariant 0 <= i <= |compatible|
      invariant found == Within(users, u, compatible[..i], dist, limit)
    {
      var c := compatible[i];
      assert compatible[..i + 1][..i] == compatible[..i];
      if c in users && HasCoord(users[c].latitude) && HasCoord(users[c].longitude)
         && HasCoord(u.latitude) && HasCoord(u.longitude)
      {
        var distance := dist(u.latitude.value, u.longitude.value,
                             users[c].latitude.value, users[c].longitude.value);
        if distance <= limit {
          found := found + [(c, distance)];
        }
      }
      i := i + 1;
    }
    assert compatible[..|compatible|] == compatible;
  }

  /** The compatibility loop of `find_match`: the candidates whose gender and
      preference fit the user's both ways, in scan order. */
  method CollectCompatible(users: map<UserId, User>, u: User, candidates: seq<UserId>)
    returns (compatible: seq<UserId>)
    requires forall c :: c in candidates ==> c in users
    ensures compatible == Filter(candidates, CompatiblePred(users, u))
  {
    compatible := [];
    var i := 0;
    while i < |candidates|
      invariant 0 <= i <= |candidates|
      invariant compatible == Filter(candidates[..i], CompatiblePred(users, u))
    {
      var c := candidates[i];
      assert candidates[..i + 1] == candidates[..i] + [c];
      FilterSnoc(candidates[..i], c, CompatiblePred(users, u));
      if u.gender == users[c].preference && users[c].gender == u.preference {
        compatible := compatible + [c];
      }
      i := i + 1;
    }
    assert candidates[..|candidates|] == candidates;
  }

  /** The four windows of `find_match` over a non-empty compatible list. */
  method ChooseWindow(users: map<UserId, User>, u: User, compatible: seq<UserId>, wait: int,
                      dist: Distance) returns (r: Option<UserId>)
    requires compatible != []
    ensures r == Windows(users, u, compatible, wait, dist)
  {
    if wait <= SameCitySeconds {
      if Truthy(u.city) {
        var sameCity := Filter(compatible, SharesCityPred(users, u));
        if sameCity != [] {
          return Some(sameCity[0]);
        }
        var mysterious := Filter(compatible, CityLessPred(users));
        if mysterious != [] {
          return Some(mysterious[0]);
        }
      } else {
        return Some(compatible[0]);
      }
    }
    if wait > SameCitySeconds {
      var nearby := CollectWithin(users, u, compatible, dist, NearbyKm);
      if nearby != [] {
        return Some(Nearest(nearby).0);
      }
    }
    var regional := CollectWithin(users, u, compatible, dist, RegionalKm);
    if regional != [] {
      return Some(Nearest(regional).0);
    }
    return Some(compatible[0]);
  }

  /** `find_match` step by step: the gate, the candidate query, the compatibility
      loop and the windows. */
  method FindMatch(users: map<UserId, User>, matches: seq<MatchRow>,
                   blocked: set<(UserId, UserId)>, uid: UserId, now: int,
                   dist: Distance, scan: seq<UserId>) returns (r: Option<UserId>)
    requires Enumerates(users.Keys, scan)
    ensures r == FindMatchSpec(users, matches, blocked, uid, now, dist, scan)
  {
    if uid !in users {
      return None;
    }
    var u := users[uid];
    if u.state != Searching {
      return None;
    }
    var premium := IsPremiumUser(users, uid, now);
    if !premium && u.freeMatchesUsed >= FreeAllowance {
      return None;
    }
    if u.isBlocked {
      return None;
    }
    var candidates := Candidates(users, matches, blocked, uid, scan);
    if candidates == [] {
      return None;
    }
    assert forall c :: c in candidates ==> CandidatePred(users, matches, blocked, uid)(c);
    var compatible := CollectCompatible(users, u, candidates);
    if compatible == [] {
      return None;
    }
    var wait := if u.searchStartTime.Some? then now - u.searchStartTime.value else 0;
    r := ChooseWindow(users, u, compatible, wait, dist);
  }

  // ---------------------------------------------------------------------------
  // What find_match promises

  /** `s[i]` is located within `limit`, no candidate of `s` is closer, and every
      candidate before it is strictly farther: the head of the stable sort. */
  predicate ClosestAt(users: map<UserId, User>, u: User, s: seq<UserId>,
                      dist: Distance, limit: real, i: int)
  {
    0 <= i < |s| && InRange(users, u, s[i], dist, limit) &&
    forall j :: 0 <= j < |s| && InRange(users, u, s[j], dist, limit) ==>
      DistanceTo(users, u, s[i], dist) <= DistanceTo(users, u, s[j], dist)
      && (j < i ==> DistanceTo(users, u, s[i], dist) < DistanceTo(users, u, s[j], dist))
  }

  ghost predicate IsClosestFirst(users: map<UserId, User>, u: User, s: seq<UserId>,
                                 dist: Distance, limit: real, c: UserId)
  {
    exists i :: ClosestAt(users, u, s, dist, limit, i) && s[i] == c
  }

  /** Appending a pair to the list: it becomes the head of the sort only when it
      is strictly nearer than the current head. */
  lemma NearestSnoc(ps: seq<(UserId, real)>, p: (UserId, real))
    ensures Nearest(ps + [p]) == if ps == [] || p.1 < Nearest(ps).1 then p else Nearest(ps)
  {
    if ps != [] {
      assert (ps + [p])[..|ps|] == ps;
    }
  }

  /** A farther (or unlocated) candidate appended behind the closest keeps it closest. */
  lemma ClosestAtBehind(users: map<UserId, User>, u: User, front: seq<UserId>, c: UserId,
                        dist: Distance, limit: real, k: int)
    requires ClosestAt(users, u, front, dist, limit, k)
    requires InRange(users, u, c, dist, limit) ==>
      DistanceTo(users, u, front[k], dist) <= DistanceTo(users, u, c, dist)
    ensures ClosestAt(users, u, front + [c], dist, limit, k)
  {
    var s := front + [c];
    forall j | 0 <= j < |s| && InRange(users, u, s[j], dist, limit)
      ensures DistanceTo(users, u, s[k], dist) <= DistanceTo(users, u, s[j], dist)
      ensures j < k ==> DistanceTo(users, u, s[k], dist) < DistanceTo(users, u, s[j], dist)
    {
      assert s[k] == front[k];
      if j < |front| {
        assert s[j] == front[j];
      }
    }
  }

  /** A candidate strictly nearer than every located one before it is the closest. */
  lemma ClosestAtLast(users: map<UserId, User>, u: User, front: seq<UserId>, c: UserId,
                      dist: Distance, limit: real)
    requires InRange(users, u, c, dist, limit)
    requires forall j :: 0 <= j < |front| && InRange(users, u, front[j], dist, limit) ==>
      DistanceTo(users, u, c, dist) < DistanceTo(users, u, front[j], dist)
    ensures ClosestAt(users, u, front + [c], dist, limit, |front|)
  {
    var s := front + [c];
    forall j | 0 <= j < |s| && InRange(users, u, s[j], dist, limit)
      ensures DistanceTo(users, u, c, dist) <= DistanceTo(users, u, s[j], dist)
      ensures j < |front| ==> DistanceTo(users, u, c, dist) < DistanceTo(users, u, s[j], dist)
    {
      if j < |front| {
        assert s[j] == front[j];
      }
    }
  }

  /** Sorting the collected pairs by distance and taking the head picks the closest
      candidate, the earliest one on ties; `i` is its position. */
  lemma {:induction false} NearestWithin(users: map<UserId, User>, u: User, s: seq<UserId>,
                                         dist: Distance, limit: real) returns (i: int)
    requires Within(users, u, s, dist, limit) != []
    ensures ClosestAt(users, u, s, dist, limit, i)
    ensures s[i] == Nearest(Within(users, u, s, dist, limit)).0
  {
    var n := |s| - 1;
    var front := s[..n];
    var c := s[n];
    var ps := Within(users, u, front, dist, limit);
    assert s == front + [c];
    if ps == [] {
      i := n;
      var d := DistanceTo(users, u, c, dist);
      assert Within(users, u, s, dist, limit) == ps + [(c, d)];
      NearestSnoc(ps, (c, d));
      assert forall j :: 0 <= j < n ==> front[j] in front;
      ClosestAtLast(users, u, front, c, dist, limit);
    } else {
      var k := NearestWithin(users, u, front, dist, limit);
      var b := Nearest(ps);
      assert b.1 == DistanceTo(users, u, front[k], dist);
      if InRange(users, u, c, dist, limit) {
        var d := DistanceTo(users, u, c, dist);
        assert Within(users, u, s, dist, limit) == ps + [(c, d)];
        NearestSnoc(ps, (c, d));
        if d < b.1 {
          i := n;
          ClosestAtLast(users, u, front, c, dist, limit);
        } else {
          i := k;
          ClosestAtBehind(users, u, front, c, dist, limit, k);
        }
      } else {
        i := k;
        assert Within(users, u, s, dist, limit) == ps;
        ClosestAtBehind(users, u, front, c, dist, limit, k);
      }
    }
  }

  /** The compatible list holds exactly the scanned candidates that pass the
      preference rule. */
  lemma CompatiblesMembers(users: map<UserId, User>, matches: seq<MatchRow>,
                           blocked: set<(UserId, UserId)>, uid: UserId, scan: seq<UserId>)
    requires uid in users
    ensures forall c :: c in Compatibles(users, matches, blocked, uid, scan) <==>
      c in scan && IsCandidate(users, matches, blocked, uid, c) && Compatible(users[uid], users[c])
  {
  }

  /** Soundness: a partner is only returned for an eligible user, and it passes the
      candidate filter (not self, SEARCHING, not flagged, not blocked either way,
      never matched before, ended matches included) and the preference rule. */
  lemma FindMatchSound(users: map<UserId, User>, matches: seq<MatchRow>,
                       blocked: set<(UserId, UserId)>, uid: UserId, now: int,
                       dist: Distance, scan: seq<UserId>)
    ensures var r := FindMatchSpec(users, matches, blocked, uid, now, dist, scan);
      r.Some? ==>
        Eligible(users, uid, now)
        && IsCandidate(users, matches, blocked, uid, r.value)
        && Compatible(users[uid], users[r.value])
  {
    var r := FindMatchSpec(users, matches, blocked, uid, now, dist, scan);
    if r.Some? {
      var compat := Compatibles(users, matches, blocked, uid, scan);
      CompatiblesMembers(users, matches, blocked, uid, scan);
    }
  }

  /** Fallback totality: an eligible user with any compatible candidate in the
      table gets a partner. */
  lemma FindMatchComplete(users: map<UserId, User>, matches: seq<MatchRow>,
                          blocked: set<(UserId, UserId)>, uid: UserId, now: int,
                          dist: Distance, scan: seq<UserId>)
    requires Enumerates(users.Keys, scan)
    requires Eligible(users, uid, now)
    requires exists c :: c in users && IsCandidate(users, matches, blocked, uid, c)
                         && Compatible(users[uid], users[c])
    ensures FindMatchSpec(users, matches, blocked, uid, now, dist, scan).Some?
  {
    CompatiblesMembers(users, matches, blocked, uid, scan);
    var c :| c in users && IsCandidate(users, matches, blocked, uid, c)
             && Compatible(users[uid], users[c]);
    assert c in multiset(users.Keys);
    assert c in scan;
    assert c in Compatibles(users, matches, blocked, uid, scan);
    assert c in Candidates(users, matches, blocked, uid, scan);
  }

  /** Window 1 with a city: the first compatible candidate from the same city wins,
      wherever nearer candidates stand. */
  lemma SameCityFirst(users: map<UserId, User>, matches: seq<MatchRow>,
                      blocked: set<(UserId, UserId)>, uid: UserId, now: int,
                      dist: Distance, scan: seq<UserId>)
    requires Eligible(users, uid, now)
    requires Waited(users[uid], now) <= SameCitySeconds && Truthy(users[uid].city)
    requires exists c :: c in Compatibles(users, matches, blocked, uid, scan)
                         && SharesCity(users, users[uid], c)
    ensures var r := FindMatchSpec(users, matches, blocked, uid, now, dist, scan);
      r.Some? && IsFirst(Compatibles(users, matches, blocked, uid, scan),
                         SharesCityPred(users, users[uid]), r.value)
  {
    var compat := Compatibles(users, matches, blocked, uid, scan);
    var p := SharesCityPred(users, users[uid]);
    var c :| c in compat && SharesCity(users, users[uid], c);
    assert c in Filter(compat, p);
    assert c in Candidates(users, matches, blocked, uid, scan);
    FilterHead(compat, p);
  }

  /** Window 1 with a city and no same-city candidate: the first city-less one wins. */
  lemma MysteriousNext(users: map<UserId, User>, matches: seq<MatchRow>,
                       blocked: set<(UserId, UserId)>, uid: UserId, now: int,
                       dist: Distance, scan: seq<UserId>)
    requires Eligible(users, uid, now)
    requires Waited(users[uid], now) <= SameCitySeconds && Truthy(users[uid].city)
    requires forall c :: c in Compatibles(users, matches, blocked, uid, scan)
                         ==> !SharesCity(users, users[uid], c)
    requires exists c :: c in Compatibles(users, matches, blocked, uid, scan) && CityLess(users, c)
    ensures var r := FindMatchSpec(users, matches, blocked, uid, now, dist, scan);
      r.Some? && IsFirst(Compatibles(users, matches, blocked, uid, scan), CityLessPred(users), r.value)
  {
    var compat := Compatibles(users, matches, blocked, uid, scan);
    var c :| c in compat && CityLess(users, c);
    assert c in Filter(compat, CityLessPred(users));
    assert c in Candidates(users, matches, blocked, uid, scan);
    FilterNone(compat, SharesCityPred(users, users[uid]));
    FilterHead(compat, CityLessPred(users));
  }

  /** Window 1 without a city: the first compatible candidate wins. */
  lemma NoCityFirst(users: map<UserId, User>, matches: seq<MatchRow>,
                    blocked: set<(UserId, UserId)>, uid: UserId, now: int,
                    dist: Distance, scan: seq<UserId>)
    requires Eligible(users, uid, now)
    requires Waited(users[uid], now) <= SameCitySeconds && !Truthy(users[uid].city)
    requires Compatibles(users, matches, blocked, uid, scan) != []
    ensures FindMatchSpec(users, matches, blocked, uid, now, dist, scan)
         == Some(Compatibles(users, matches, blocked, uid, scan)[0])
  {
    var c := Compatibles(users, matches, blocked, uid, scan)[0];
    assert c in Candidates(users, matches, blocked, uid, scan);
  }

  /** Window 2: after 30 s, a compatible candidate within 50 km beats everything
      farther, and the closest one (earliest on ties) is chosen. */
  lemma NearbyClosest(users: map<UserId, User>, matches: seq<MatchRow>,
                      blocked: set<(UserId, UserId)>, uid: UserId, now: int,
                      dist: Distance, scan: seq<UserId>)
    requires Eligible(users, uid, now)
    requires Waited(users[uid], now) > SameCitySeconds
    requires exists c :: c in Compatibles(users, matches, blocked, uid, scan)
                         && InRange(users, users[uid], c, dist, NearbyKm)
    ensures var r := FindMatchSpec(users, matches, blocked, uid, now, dist, scan);
      r.Some? && IsClosestFirst(users, users[uid], Compatibles(users, matches, blocked, uid, scan),
                                dist, NearbyKm, r.value)
  {
    var compat := Compatibles(users, matches, blocked, uid, scan);
    var c :| c in compat && InRange(users, users[uid], c, dist, NearbyKm);
    assert c in Candidates(users, matches, blocked, uid, scan);
    var i := NearestWithin(users, users[uid], compat, dist, NearbyKm);
  }

  /** Window 3: reached after 30 s with nothing within 50 km, or within 30 s when
      window 1 found nothing; the closest candidate within 300 km is chosen. */
  lemma RegionalClosest(users: map<UserId, User>, matches: seq<MatchRow>,
                        blocked: set<(UserId, UserId)>, uid: UserId, now: int,
                        dist: Distance, scan: seq<UserId>)
    requires Eligible(users, uid, now)
    requires Waited(users[uid], now) > SameCitySeconds ==>
      forall c :: c in Compatibles(users, matches, blocked, uid, scan)
                  ==> !InRange(users, users[uid], c, dist, NearbyKm)
    requires Waited(users[uid], now) <= SameCitySeconds ==>
      Truthy(users[uid].city) &&
      forall c :: c in Compatibles(users, matches, blocked, uid, scan)
                  ==> !SharesCity(users, users[uid], c) && !CityLess(users, c)
    requires exists c :: c in Compatibles(users, matches, blocked, uid, scan)
                         && InRange(users, users[uid], c, dist, RegionalKm)
    ensures var r := FindMatchSpec(users, matches, blocked, uid, now, dist, scan);
      r.Some? && IsClosestFirst(users, users[uid], Compatibles(users, matches, blocked, uid, scan),
                                dist, RegionalKm, r.value)
  {
    var u := users[uid];
    var compat := Compatibles(users, matches, blocked, uid, scan);
    var c :| c in compat && InRange(users, u, c, dist, RegionalKm);
    assert c in Candidates(users, matches, blocked, uid, scan);
    if Waited(u, now) <= SameCitySeconds {
      FilterNone(compat, SharesCityPred(users, u));
      FilterNone(compat, CityLessPred(users));
    }
    var i := NearestWithin(users, u, compat, dist, RegionalKm);
  }

  /** Window 4: when no earlier window fires, the first compatible candidate is
      chosen, located or not. */
  lemma FallbackFirst(users: map<UserId, User>, matches: seq<MatchRow>,
                      blocked: set<(UserId, UserId)>, uid: UserId, now: int,
                      dist: Distance, scan: seq<UserId>)
    requires Eligible(users, uid, now)
    requires Compatibles(users, matches, blocked, uid, scan) != []
    requires Waited(users[uid], now) > SameCitySeconds ==>
      forall c :: c in Compatibles(users, matches, blocked, uid, scan)
                  ==> !InRange(users, users[uid], c, dist, NearbyKm)
    requires Waited(users[uid], now) <= SameCitySeconds ==>
      Truthy(users[uid].city) &&
      forall c :: c in Compatibles(users, matches, blocked, uid, scan)
                  ==> !SharesCity(users, users[uid], c) && !CityLess(users, c)
    requires forall c :: c in Compatibles(users, matches, blocked, uid, scan)
                         ==> !InRange(users, users[uid], c, dist, RegionalKm)
    ensures FindMatchSpec(users, matches, blocked, uid, now, dist, scan)
         == Some(Compatibles(users, matches, blocked, uid, scan)[0])
  {
    var u := users[uid];
    var compat := Compatibles(users, matches, blocked, uid, scan);
    assert compat[0] in Candidates(users, matches, blocked, uid, scan);
    if Waited(u, now) <= SameCitySeconds {
      FilterNone(compat, SharesCityPred(users, u));
      FilterNone(compat, CityLessPred(users));
    }
  }
}
