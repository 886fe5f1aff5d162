# DateEveryNight matchmaking core in Dafny

DateEveryNight is a Telegram dating bot. A user registers with `/start` and
gives an age, a gender, a preference and a city. The user then waits in the
SEARCHING state. A periodic job pairs searching users into anonymous one-to-one
chats (CHATTING). Non-premium users get two free matches. Telegram Stars plans
lift that limit until an expiry time.

This project models the core of that bot:

- the store (`db.py`) as the class `Store.Database`: a `users` map, a `matches`
  sequence, a `blocked` set and a `reports` sequence, with one method per
  write operation of `db.py`;
- the partner choice of `find_match`: the eligibility gate, the candidate
  filter, the preference rule and the four time and distance windows
  (`Matching`);
- the periodic job `periodic_match_check`: its individual path (one
  `find_match` per searching user, then the commit of the pair) and its batch
  path (`Scheduler`);
- the command handlers `/start`, `/end` and `/report`, the age and city steps of
  onboarding, the premium-expiry reconciliation and the payment handlers
  (`Handlers`, `Onboarding`, `Payments`, `Premium`);
- the Python string operations these rely on (`Text`).

Each handler is a method on the store. It is proved equal to a specification
function on a `Snapshot` of the four tables, and lemmas state what those
functions do. Every handler and the individual path of the periodic job are
proved to keep a lifecycle invariant. The city step is proved to keep it only for
a user without an open match. The invariant:

- `search_start_time` is set exactly while a user is SEARCHING;
- both participants of an open match are CHATTING;
- no user is in two open matches.

Time is a whole-second integer `now`. The great-circle distance is a function
parameter `dist`. The order in which the unordered candidate query returns
rows is a parameter `scan`, which lists every row of the `users` table
exactly once.

## Model

| member | source | states |
|---|---|---|
| Types.NewUser | db.py:12-30 | a newly created row is NEW, has no search start, no premium, is not blocked, and has used 0 free matches |
| Store.OpenMatchOf | db.py:377-391 | `get_match` gives a row that is open and involves the user, and gives None exactly when no such row exists |
| Store.OtherUserInMatch | db.py:406-422 | `get_other_user_in_match` is defined exactly for an existing match id; for a participant it gives the other participant, otherwise `user1` |
| Store.WithUser | db.py:112-123 | after `create_user` the user exists, the key set grows by that id only, and existing rows are untouched (`ON CONFLICT DO NOTHING`) |
| Store.CreateUserIdempotent | db.py:112-123 | a second `create_user`, under any username, changes nothing |
| Store.WithBlock | db.py:488-500 | `block_user` adds at most the pair, and adds it exactly when both users exist (foreign keys) |
| Store.BlockUserIdempotent | db.py:488-500 | blocking the same pair twice is the same as blocking it once |
| Store.Profiled | db.py:137-150 | `update_user_profile` writes the profile fields and IDLE, and keeps the search start, premium, quota, flag, username and every other user |
| Store.Restated | db.py:152-169 | `set_user_state` changes only the state, stamps `search_start_time = now` exactly on entering SEARCHING, and touches no other user |
| Store.Cleared | db.py:190-202 | `clear_search_start_time` nulls that one column of that one user |
| Store.Incremented | db.py:424-435 | `increment_free_matches` adds one to that one counter |
| Store.OpenMatchUnique | db.py:377-391 | under the lifecycle invariant a user has at most one open match, so the row `get_match` picks is the only one |
| Store.ReplaceUserKeepsLifecycle | db.py:152-202 | rewriting one user coherently keeps the lifecycle invariant, provided a user with an open match stays CHATTING |
| Store.InOpenMatchIsChatting | db.py:377-391 | under the invariant a user with an open match is CHATTING |
| Store.SameStatusKeepsLifecycle | db.py:453-486 | a rewrite that keeps state and search start (premium, quota) keeps the invariant |
| Store.AbsentUserUnmatched | db.py:32-39 | with foreign keys in force, an unknown user has no open match |
| Store.CloseKeepsLifecycle | db.py:393-404 | ending a user's open match and rewriting that user with any coherent record (search start set exactly when SEARCHING) keeps the invariant, and leaves the user with no open match |
| Store.OpenKeepsLifecycle | db.py:360-375 | opening a row between two distinct SEARCHING users who become CHATTING with no search start keeps the invariant |
| Store.Database.constructor | db.py:81-91 | the schema starts empty and well formed |
| Store.Database.CreateUser | db.py:112-123 | the users table becomes `WithUser(old)`; the other tables are unchanged; foreign keys and row ids stay well formed |
| Store.Database.UpdateUserProfile | db.py:137-150 | the users table becomes `Profiled(old)`; nothing else changes |
| Store.Database.SetUserState | db.py:152-169 | the users table becomes `Restated(old)`; nothing else changes |
| Store.Database.ClearSearchStartTime | db.py:190-202 | the users table becomes `Cleared(old)`; nothing else changes |
| Store.Database.CreateMatch | db.py:360-375 | with both users present, appends an open row with a fresh id, greater than every earlier one, and returns it; otherwise returns None and changes nothing |
| Store.Database.EndMatch | db.py:393-404 | stamps end time and ender on the row with that id, ended or not; an unknown id changes nothing |
| Store.Database.IncrementFreeMatches | db.py:424-435 | the users table becomes `Incremented(old)`; nothing else changes |
| Store.Database.SetPremium | db.py:453-471 | the user's record becomes `Granted(old, plan, days, now)`; an unknown user changes nothing |
| Store.Database.DowngradePremium | db.py:473-486 | the user's record becomes `Downgraded(old)`; an unknown user changes nothing |
| Store.Database.BlockUser | db.py:488-500 | the blocked set becomes `WithBlock(old)`; nothing else changes |
| Store.Database.ReportUser | db.py:502-514 | appends the report exactly when both users exist; nothing else changes |
| Premium.FreeMatchesRemaining | db.py:437-441 | the remaining count is never negative and never above 2; it is 0 exactly for an unknown user or one who used 2 or more; otherwise remaining plus used is 2 |
| Premium.QuotaExhaustedIffNoneRemaining | db.py:234-237 | the quota gate of `find_match` and `/start` holds exactly when the user is not premium and has no free match left |
| Premium.Granted | db.py:453-462 | `set_premium` records the plan name and changes only the three premium columns |
| Premium.GrantedPremiumUntilExpiry | db.py:443-462 | after `set_premium(days)` at `now`, `is_premium` holds at time t exactly when t is before `now + days * 86400` |
| Premium.Downgraded | db.py:473-486 | `downgrade_premium` clears the flag, the plan and the expiry, and nothing else |
| Premium.DowngradedNeverPremium | db.py:443-451 | a downgraded user is never premium at any time |
| Premium.ReconcileKeepsPremium | main.py:354-373 | reconciling expiry leaves `is_premium`, the quota gate, the state and the search start as they were at the same instant |
| Premium.FlaggedVersusPremium | main.py:354-373 | `check_premium_expiration` answers true whenever `is_premium` does; it also answers true for a non-premium user exactly when the flag is set and the expiry is NULL or equal to `now` |
| Matching.CollectWithin | db.py:304-313 | the distance loop of windows 2 and 3 collects exactly `Within`: each located candidate within the limit, in scan order, with its distance |
| Matching.CollectCompatible | db.py:272-280 | the compatibility loop keeps exactly the candidates accepted by the preference rule, in order |
| Matching.ChooseWindow | db.py:284-339 | the four-window cascade on a non-empty compatible list equals `Windows`, which always picks a member of that list |
| Matching.FindMatch | db.py:204-346 | `find_match` step by step equals `FindMatchSpec`, for a scan that lists each row of the table once |
| Matching.Within | db.py:304-313 | every collected pair is a located candidate within the limit at its own distance; the list is empty exactly when no candidate is in range |
| Matching.Nearest | db.py:315-318 | sorting by distance and taking the head gives a member of the list at the minimum distance |
| Matching.NearestWithin | db.py:315-318 | the chosen candidate is the closest one in range, and the first such in scan order (Python's sort is stable) |
| Matching.CompatiblesMembers | db.py:247-280 | a user is in the compatible list exactly when it is scanned, passes the candidate query and meets the preference rule |
| Matching.FindMatchSound | db.py:224-280 | a partner is returned only to an eligible user (SEARCHING, within quota, not flagged); the partner is another SEARCHING, unflagged user, not blocked either way, never matched before, and preference-compatible |
| Matching.FindMatchComplete | db.py:247-339 | an eligible user gets a partner whenever the table holds at least one user who passes the candidate query and the preference rule |
| Matching.SameCityFirst | db.py:287-292 | within 30 s, a user with a city gets the first compatible candidate from that city when there is one |
| Matching.MysteriousNext | db.py:293-296 | within 30 s, with no same-city candidate, the first city-less candidate is chosen |
| Matching.NoCityFirst | db.py:297-301 | within 30 s, a user without a city gets the first compatible candidate |
| Matching.NearbyClosest | db.py:304-318 | after 30 s, if some candidate is within 50 km, the closest such (earliest on ties) is chosen |
| Matching.RegionalClosest | db.py:321-334 | when windows 1 and 2 find nothing and some candidate is within 300 km, the closest such is chosen |
| Matching.FallbackFirst | db.py:337-339 | when no window fires, the first compatible candidate is chosen |
| Scheduler.Commit | main.py:883-898 | a committed user is CHATTING with no search start; the free counter grows by one exactly when the user is not premium; nothing else changes |
| Scheduler.SettleIsCommit | main.py:883-898 | charging both users and then seating both equals committing each user independently |
| Scheduler.StepCommits | main.py:877-898 | one individual step either leaves the tables as they were, or pairs an eligible user with a sound candidate by `Paired` |
| Scheduler.PairedKeepsDisjoint | main.py:877-912 | a pair of still-SEARCHING users shares no user with the rows this tick already added |
| Scheduler.PassKeepsFrame | main.py:877-912 | through the individual pass, rows are only appended, and each user in a new row is committed exactly once |
| Scheduler.IndividualPassEffect | main.py:877-912 | after the individual pass the old rows are a prefix; the new rows are user-disjoint; each user in them is CHATTING and charged once unless premium; every other user is untouched |
| Scheduler.StepKeepsLifecycle | main.py:877-898 | one individual step keeps the lifecycle invariant |
| Scheduler.IndividualPassKeepsLifecycle | main.py:877-912 | the whole individual pass keeps the lifecycle invariant |
| Scheduler.BatchChargesWithoutRow | main.py:921-931 | in the batch path a non-premium user is charged even when the row insert fails because the partner is unknown |
| Scheduler.BatchCommitsLikeIndividual | main.py:921-937 | for two distinct known users the batch step appends the same row and commits both users as the individual path does |
| Scheduler.BatchStepSeats | main.py:921-937 | a batch step over two distinct known users appends their row, seats both as CHATTING, keeps every CHATTING user CHATTING and keeps the key set |
| Scheduler.BatchPassKeepsChatting | main.py:918-954 | over pairs of distinct known users, the batch loop never takes a user out of CHATTING |
| Scheduler.BatchPassAppendsRows | main.py:918-954 | intended batch tick: over pairs of distinct known users, the old rows stay a prefix and exactly the `BatchRows` follow them, one per pair, in order |
| Scheduler.BatchRowsAt | main.py:921-937 | the `i`-th row the batch loop inserts is open, joins the `i`-th pair, is stamped `now` and has the `i`-th next id |
| Scheduler.BatchPassSeatsPairs | main.py:918-954 | intended batch tick: both users of every pair end up CHATTING |
| Scheduler.AsWrittenLargeTickMatchesNobody | main.py:913-957 | as written, a tick with 100 or more searching users adds no row and leaves every snapshot user unchanged, even when `find_match` would pair the first of them |
| Scheduler.CommitPair | main.py:883-898 | for two known users the tables become charged and seated with the new row appended; otherwise users and rows are unchanged; the invariant on row ids is kept |
| Scheduler.TryMatch | main.py:877-898 | one iteration of the individual loop equals `IndividualStep`, for a scan that lists each row of the table once |
| Scheduler.IndividualPass | main.py:877-912 | the individual loop over the snapshot equals `IndividualPassSpec`; each `find_match` scans the whole table, whose key set the loop keeps |
| Scheduler.CommitBatchPair | main.py:921-937 | one batch iteration equals `BatchStep` |
| Scheduler.BatchPass | main.py:913-954 | the batch loop equals `BatchPassSpec` |
| Scheduler.PeriodicMatchCheck | main.py:865-957 | an empty snapshot changes nothing; fewer than 100 users run the individual pass; 100 or more run the batch commit loop over the given pairs (the intended path, see Findings); blocks and reports are untouched |
| Text.Lower | main.py:640 | `lower()` keeps the length and lowers each ASCII capital |
| Text.LowerIdempotent | main.py:640 | lowering twice is lowering once |
| Text.LeadingSpaces | main.py:630 | counts exactly the leading whitespace run |
| Text.TrailingStart | main.py:630 | marks exactly the start of the trailing whitespace run |
| Text.Strip | main.py:630 | `strip()` is a slice of the input that drops only whitespace and neither starts nor ends with whitespace |
| Text.StripUnchanged | main.py:630 | a string without surrounding whitespace is its own strip |
| Text.Split | main.py:437 | `split('_')` gives at least one field, and no field contains the separator |
| Text.JoinSplit | main.py:437 | joining the fields of a split with the separator gives the string back |
| Text.SplitConcat | main.py:437 | a separator-free prefix followed by the separator splits off as the first field |
| Text.SplitNone | main.py:437 | a separator-free string is a single field |
| Text.LastIndex | main.py:385 | the last occurrence of a character, with none after it; None exactly when it is absent |
| Text.NatToString | main.py:385 | `str(n)` for n >= 0 is digits with no leading zero |
| Text.IntToString | main.py:385 | `str(n)` is digits with an optional leading minus and no surrounding whitespace |
| Text.ParseInt | main.py:573 | `int(text)` succeeds exactly when the stripped text is an optional sign followed by a digit group |
| Text.NatToStringValue | main.py:573 | `str(n)` is a digit group whose value is n |
| Text.ParseIntToString | main.py:573 | `int(str(n)) == n` for every integer |
| Onboarding.AgeHandler | main.py:571-593 | an age is accepted exactly when `int()` parses the text and the value is between 18 and 100, and it is that value |
| Onboarding.AgeHandlerDecimal | main.py:571-593 | the decimal form of n is accepted as age n exactly when 18 <= n <= 100 |
| Onboarding.FirstCityNamed | main.py:648-653 | the first city whose lowered name equals the key; None exactly when no name matches |
| Onboarding.LookupCity | main.py:648-653 | the city loop with `break` finds `FirstCityNamed` |
| Onboarding.ChooseCity | main.py:640-659 | "skip" (any case, surrounding whitespace ignored) means no city; a known city is a listed one with that lowered name; "not found" exactly when the input is not "skip" and matches no name |
| Payments.InvoicePayload | main.py:375-385 | an invoice exists exactly for a listed plan, with payload `premium_{plan}_{user}` |
| Payments.PlanKeysHaveUnderscore | main.py:103-128 | every plan key contains an underscore |
| Payments.PreCheckoutAcceptsInvoices | main.py:411-429 | every payload the bot issues passes the pre-checkout |
| Payments.PaymentPlanAsWritten | main.py:437-446 | the parse as written succeeds exactly when the split has three or more fields, `premium` first and a plan key second |
| Payments.AsWrittenAcceptsNothing | main.py:437-446 | no payload at all passes the parse as written |
| Payments.AsWrittenReadsPlanPrefix | main.py:437-446 | for every issued invoice the second field is `week` or `month`, and the parse as written rejects it |
| Payments.PaymentPlan | main.py:437-446 | the corrected parse returns only a listed plan key, read as the payload's middle part between `premium_` and the last underscore |
| Payments.PaymentPlanRoundTrip | main.py:375-446 | the corrected parse of any issued invoice returns its plan |
| Handlers.CheckPremiumExpiration | main.py:354-373 | answers whether the stored flag survives; an expired premium is downgraded; nothing else changes |
| Handlers.Restart | main.py:517-569 | the state branch of `/start` equals `RestartSpec` and keeps the row invariant |
| Handlers.Start | main.py:478-569 | `/start` equals `StartSpec`: register, reconcile, quota gate, state branch |
| Handlers.StartQuotaGate | main.py:492-515 | a user over quota is only reconciled; state, search start and every table are otherwise unchanged, and nobody is notified |
| Handlers.StartTransitions | main.py:517-569 | BLOCKED and ONBOARDING stay put; NEW, IDLE, SEARCHING and CHATTING go to ONBOARDING; an open chat is ended by the user and the partner is notified |
| Handlers.StartSparesOthers | main.py:478-569 | `/start` touches no other user, no block and no report, and changes only the user's own open match |
| Handlers.StartPrefixKeepsLifecycle | main.py:486-492 | registering and reconciling premium keep the invariant |
| Handlers.RestartKeepsLifecycle | main.py:517-569 | the state branch of `/start` keeps the invariant |
| Handlers.StartKeepsLifecycle | main.py:478-569 | `/start` keeps the invariant |
| Handlers.EndChat | main.py:747-792 | `/end` equals `EndChatSpec` |
| Handlers.EndChatTransitions | main.py:747-792 | SEARCHING goes to IDLE; CHATTING with an open match ends it, goes to IDLE and notifies the partner; anything else changes nothing |
| Handlers.EndChatSparesOthers | main.py:747-792 | `/end` touches no other user, no block, no report and no row count |
| Handlers.EndChatKeepsLifecycle | main.py:747-792 | `/end` keeps the invariant |
| Handlers.Report | main.py:810-833 | `/report` equals `ReportSpec` |
| Handlers.ReportEffect | main.py:810-833 | with an open match the partner is blocked and reported, the match is ended and the reporter goes to IDLE; without one nothing changes |
| Handlers.ReportKeepsLifecycle | main.py:810-833 | `/report` keeps the invariant |
| Handlers.CityHandler | main.py:628-666 | the city step over the bot's city table equals `CityHandlerSpec` |
| Handlers.CityHandlerEffect | main.py:628-666 | an unknown city changes nothing; otherwise the profile (city and coordinates, or none on skip) is written and the user is SEARCHING since `now`; nothing else changes |
| Handlers.ProfileKeepsLifecycle | main.py:661-662 | writing the profile and entering SEARCHING keeps the invariant for a user without an open match |
| Handlers.CityHandlerKeepsLifecycle | main.py:628-666 | the city step keeps the invariant for a user without an open match |
| Handlers.HandleSuccessfulPayment | main.py:431-476 | the users table becomes `PaymentEffect` under the corrected parse; nothing else changes |
| Handlers.PaidInvoiceGrantsPremium | main.py:431-476 | paying an issued invoice grants that plan, premium until `now + days`, and leaves the state and every other user alone |
| Handlers.PaymentAsWrittenGrantsNothing | main.py:437-451 | with the parse as written, no payment changes any user |
| Handlers.ReconcileKeepsLifecycle | main.py:354-373 | `check_premium_expiration` on its own keeps the invariant |
| Handlers.PaymentKeepsLifecycle | main.py:431-476 | `handle_successful_payment` keeps the invariant |

## Left out

- Telegram I/O is left out: messages, keyboards, the message texts, `get_message`, the conversation-handler wiring and the job queue. The handlers return only the user to notify.
- The SQL plumbing is left out: connections, the retry loop, commits, and the exceptions that are logged and swallowed. Every store operation is modelled as succeeding, except where a foreign key rejects it.
- `_haversine_distance` is the parameter `dist`, and floating-point rounding is not modelled.
- `datetime` is left out: times are whole seconds, so `search_duration` is truncated to a whole second.
- The candidate query has no ORDER BY. The order it returns rows in is the parameter `scan`, one per `find_match` call. Any order of the whole table is allowed.
- `get_match` has no ORDER BY. The model takes the lowest id, which is the only one under the lifecycle invariant.
- `batch_find_matches` is not part of this model: `db.py` does not define it. As written, main.py:916 therefore raises `AttributeError` and the tick's handler only logs it, so with 100 or more searching users nobody is ever matched (see Findings). The intended batch path takes its pairs as an input. It has no lifecycle lemma, because arbitrary pairs can break the invariant.
- Scheduler.IndividualPassSpec: treats the individual pass as one atomic step at one instant `now`. In the bot, each committed pair is followed by `await`ed messages (main.py:903, 908, and 943, 948 on the batch path). Other handlers (`/start`, `/end`, `/report`, the city step) can run in between, and the clock moves, which changes the window choice and `is_premium`. None of that interleaving is modelled.
- Scheduler.IndividualPassEffect: its "new rows are user-disjoint" is a property of the atomic pass only. With handlers interleaved, a user seated early in the tick could end the chat, onboard again and be paired again in the same tick. The lifecycle invariant is still kept by every handler and every step between two `await`s.
- Match ids: the model numbers rows consecutively, so the row with id k is at position k - 1. A PostgreSQL SERIAL also uses up a value when an insert fails a foreign key, so real ids can have gaps. Ids are only compared for equality, so behaviour is the same.
- `premium_transactions` and the Stars amount of `set_premium` are not modelled. Neither is the reason text of blocks and reports.
- `save_message`, `handle_message`, `reconnect`, `menu`, `premium`, `premium_plan_callback`, `subscription`, `support` and `error_handler` only send messages or relay chat. They are left out.
- `gender_callback` and `preference_callback` only store the button's value. Those values are the `gender` and `preference` parameters of the city step.
- In `start`, the `if not user` branch after `create_user` is unreachable, so it is not modelled. So is the final else for an unknown state.
- Text.Lower: lowers ASCII letters only, not the full Unicode case mapping of `str.lower`. All city names in `CITIES` are ASCII.
- Text.ParseInt: accepts ASCII digits only, not the other Unicode decimal digits that `int()` also accepts.
- Onboarding.ChooseCity: the source's `if not city` test is modelled as "no city matched". The two agree because no name in `CITIES` is empty.
- Handlers.CityHandlerKeepsLifecycle: requires that the user has no open match. The conversation only reaches the city step from onboarding, which is not modelled.
- Handlers.HandleSuccessfulPayment: uses the corrected parse (see Findings). `Handlers.PaymentAsWrittenGrantsNothing` states the behaviour as written.
- The candidate query reads rows of `users`, so a scanned id without a row is skipped.

## Findings

| source | as written | input that shows it | evidently intended | confidence | as-written member | corrected member |
|---|---|---|---|---|---|---|
| main.py:913-957 | with 100 or more searching users the tick calls `db.batch_find_matches`, which `db.py` does not define; the `AttributeError` is caught at main.py:956 before any write | any tick with 100 searching users, even when `find_match` has a partner for the first of them | a batch matcher returns pairs, and the loop at main.py:919-954 commits each pair: a new open row and both users CHATTING | not executed | Scheduler.AsWrittenLargeTickMatchesNobody | Scheduler.BatchPassSeatsPairs |
| main.py:437-446 | the payload built at main.py:385 as `premium_{plan_id}_{user_id}` is split on every `_`, and field 1 is looked up as the plan key | any invoice, e.g. `premium_week_1_42` splits to `premium`, `week`, `1`, `42`; `week` is not a plan, so the payment is logged as invalid and premium is never granted | read the plan key between `premium_` and the last `_`, so that every issued invoice grants its plan | not executed | Payments.AsWrittenReadsPlanPrefix | Payments.PaymentPlanRoundTrip |
