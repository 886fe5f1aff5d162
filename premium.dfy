/** Premium status and the free-match allowance (db.py `is_premium`,
    `get_free_matches_remaining`, `set_premium`, `downgrade_premium`). */
module Premium {
  import opened Types

  /** Number of free matches before premium is required. */
  const FreeAllowance: int := 2

  const SecondsPerDay: int := 86400

  /** `is_premium`: the flag is set and the expiry is present and strictly after `now`. */
  predicate IsPremium(u: User, now: int) {
    u.premiumFlag && u.premiumExpiresAt.Some? && u.premiumExpiresAt.value > now
  }

  /** `is_premium(user_id)`: an unknown user is not premium. */
  predicate IsPremiumUser(users: map<UserId, User>, uid: UserId, now: int) {
    uid in users && IsPremium(users[uid], now)
  }

  /** The gate `not is_premium and free_matches_used >= 2` used by `find_match` and `/start`. */
  predicate QuotaExhausted(u: User, now: int) {
    !IsPremium(u, now) && u.freeMatchesUsed >= FreeAllowance
  }

  /** `get_free_matches_remaining`: `max(0, 2 - used)`, and 0 for an unknown user. */
  function FreeMatchesRemaining(users: map<UserId, User>, uid: UserId): (r: int)
    ensures 0 <= r
    ensures r == 0 <==> uid !in users || users[uid].freeMatchesUsed >= FreeAllowance
    ensures uid in users && 0 <= users[uid].freeMatchesUsed ==> r <= FreeAllowance
    ensures uid in users && r > 0 ==> r + users[uid].freeMatchesUsed == FreeAllowance
  {
    if uid !in users then 0
    else if FreeAllowance - users[uid].freeMatchesUsed < 0 then 0
    else FreeAllowance - users[uid].freeMatchesUsed
  }

  /** A non-premium user is shut out exactly when no free match remains. */
  lemma QuotaExhaustedIffNoneRemaining(users: map<UserId, User>, uid: UserId, now: int)
    requires uid in users
    ensures QuotaExhausted(users[uid], now)
        <==> !IsPremiumUser(users, uid, now) && FreeMatchesRemaining(users, uid) == 0
  {
  }

  /** The record after `set_premium(plan_name, duration_days)` at time `now`. */
  function Granted(u: User, planName: string, days: int, now: int): (g: User)
    ensures g.premiumPlan == Some(planName)
    ensures g == u.(premiumFlag := g.premiumFlag, premiumPlan := g.premiumPlan,
                    premiumExpiresAt := g.premiumExpiresAt)
  {
    u.(premiumFlag := true, premiumPlan := Some(planName),
       premiumExpiresAt := Some(now + days * SecondsPerDay))
  }

  /** A grant makes the user premium exactly until `days` whole days have passed. */
  lemma GrantedPremiumUntilExpiry(u: User, planName: string, days: int, now: int, t: int)
    ensures IsPremium(Granted(u, planName, days, now), t) <==> t < now + days * SecondsPerDay
  {
  }

  /** The record after `downgrade_premium`: flag, plan and expiry cleared. */
  function Downgraded(u: User): (d: User)
    ensures !d.premiumFlag && d.premiumPlan.None? && d.premiumExpiresAt.None?
    ensures d == u.(premiumFlag := false, premiumPlan := None, premiumExpiresAt := None)
  {
    u.(premiumFlag := false, premiumPlan := None, premiumExpiresAt := None)
  }

  /** After a downgrade the user is not premium at any time. */
  lemma DowngradedNeverPremium(u: User, t: int)
    ensures !IsPremium(Downgraded(u), t)
  {
  }

  /** `check_premium_expiration` downgrades when the flag is set and the expiry
      is present and strictly before `now`. */
  predicate ExpiredPremium(u: User, now: int) {
    u.premiumFlag && u.premiumExpiresAt.Some? && u.premiumExpiresAt.value < now
  }

  /** The record after `check_premium_expiration`. */
  function Reconciled(u: User, now: int): User {
    if ExpiredPremium(u, now) then Downgraded(u) else u
  }

  /** Reconciliation never changes the answer of `is_premium` at the same instant,
      so the quota gate of `/start` reads the same before and after it. */
  lemma ReconcileKeepsPremium(u: User, now: int)
    ensures IsPremium(Reconciled(u, now), now) == IsPremium(u, now)
    ensures QuotaExhausted(Reconciled(u, now), now) == QuotaExhausted(u, now)
    ensures Reconciled(u, now).state == u.state
    ensures Reconciled(u, now).searchStartTime == u.searchStartTime
  {
  }

  /** The answer of `check_premium_expiration` for an existing user. */
  predicate PremiumStillFlagged(u: User, now: int) {
    u.premiumFlag && !ExpiredPremium(u, now)
  }

  /** `check_premium_expiration` answers true whenever `is_premium` does, and differs
      from it only for a flagged user whose expiry is missing or exactly `now`. */
  lemma FlaggedVersusPremium(u: User, now: int)
    ensures IsPremium(u, now) ==> PremiumStillFlagged(u, now)
    ensures PremiumStillFlagged(u, now) && !IsPremium(u, now)
        <==> u.premiumFlag && (u.premiumExpiresAt.None? || u.premiumExpiresAt.value == now)
  {
  }
}
