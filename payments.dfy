/** The premium plans and the invoice payload of main.py: the payload built by
    `send_invoice`, the check of `handle_pre_checkout` and the parse of
    `handle_successful_payment`, both as written and corrected. */
module Payments {
  import opened Types
  import opened Text

  /** One entry of `PREMIUM_PLANS`; the display text is not modelled. */
  datatype Plan = Plan(name: string, stars: int, days: int)

  const Plans: map<string, Plan> := map[
    "week_1" := Plan("1 Week", 100, 7),
    "week_2" := Plan("2 Weeks", 150, 14),
    "month_1" := Plan("1 Month", 250, 30),
    "month_3" := Plan("3 Months", 500, 90)
  ]

  /** Every plan key contains an underscore. */
  lemma PlanKeysHaveUnderscore()
    ensures forall k :: k in Plans ==> '_' in k
  {
    assert "week_1"[4] == '_' && "week_2"[4] == '_';
    assert "month_1"[5] == '_' && "month_3"[5] == '_';
  }

  const Prefix: string := "premium_"

  /** `send_invoice(plan_id)`: no invoice for an unknown plan, otherwise the
      payload `premium_{plan_id}_{user_id}`. */
  function InvoicePayload(planId: string, uid: UserId): (r: Option<string>)
    ensures r.Some? <==> planId in Plans
    ensures r.Some? ==> r.value == Prefix + planId + "_" + IntToString(uid)
  {
    if planId in Plans then Some(Prefix + planId + "_" + IntToString(uid)) else None
  }

  /** `handle_pre_checkout`: approve any non-empty payload holding an underscore. */
  predicate PreCheckoutAccepts(payload: string) {
    payload != [] && '_' in payload
  }

  /** Every invoice the bot sends passes the pre-checkout. */
  lemma PreCheckoutAcceptsInvoices(planId: string, uid: UserId)
    requires planId in Plans
    ensures PreCheckoutAccepts(InvoicePayload(planId, uid).value)
  {
    assert (Prefix + planId + "_" + IntToString(uid))[7] == '_';
  }

  // ---------------------------------------------------------------------------
  // The parse as written

  /** `handle_successful_payment` as written: split on every underscore, demand
      at least three fields, `premium` first and a plan key second. */
  function PaymentPlanAsWritten(payload: string): (r: Option<string>)
    ensures r.Some? ==> r.value in Plans
    ensures r.Some? <==> |Split(payload, '_')| >= 3 && Split(payload, '_')[0] == "premium"
                         && Split(payload, '_')[1] in Plans
  {
    var parts := Split(payload, '_');
    if |parts| < 3 || parts[0] != "premium" then None
    else if parts[1] !in Plans then None
    else Some(parts[1])
  }

  /** No payload at all passes the parse as written: a split field never holds an
      underscore, and every plan key does. */
  lemma AsWrittenAcceptsNothing(payload: string)
    ensures PaymentPlanAsWritten(payload).None?
  {
    PlanKeysHaveUnderscore();
    var parts := Split(payload, '_');
    if |parts| >= 2 {
      assert '_' !in parts[1];
    }
  }

  /** The fields of a payload whose plan key is `head_tail`. */
  lemma SplitInvoice(head: string, tail: string, u: string)
    requires '_' !in head && '_' !in tail && '_' !in u
    ensures Split(Prefix + (head + "_" + tail) + "_" + u, '_') == ["premium", head, tail, u]
  {
    var r3 := tail + "_" + u;
    var r2 := head + "_" + r3;
    assert Prefix == "premium" + "_";
    assert Prefix + (head + "_" + tail) + "_" + u == "premium" + "_" + r2;
    SplitNone(u, '_');
    SplitConcat(tail, '_', u);
    assert Split(r3, '_') == [tail, u];
    SplitConcat(head, '_', r3);
    assert Split(r2, '_') == [head, tail, u];
    SplitConcat("premium", '_', r2);
  }

  /** For an invoice the bot itself built, the second field is the part of the
      plan key before its underscore, `week` or `month`. */
  lemma AsWrittenReadsPlanPrefix(planId: string, uid: UserId)
    requires planId in Plans
    ensures var parts := Split(InvoicePayload(planId, uid).value, '_');
      |parts| >= 4 && parts[0] == "premium" && (parts[1] == "week" || parts[1] == "month")
      && PaymentPlanAsWritten(InvoicePayload(planId, uid).value).None?
  {
    var u := IntToString(uid);
    assert '_' !in u;
    if planId == "week_1" {
      assert planId == "week" + "_" + "1";
      SplitInvoice("week", "1", u);
    } else if planId == "week_2" {
      assert planId == "week" + "_" + "2";
      SplitInvoice("week", "2", u);
    } else if planId == "month_1" {
      assert planId == "month" + "_" + "1";
      SplitInvoice("month", "1", u);
    } else {
      assert planId == "month" + "_" + "3";
      SplitInvoice("month", "3", u);
    }
    AsWrittenAcceptsNothing(InvoicePayload(planId, uid).value);
  }

  // ---------------------------------------------------------------------------
  // The parse corrected

  /** The evidently intended parse: drop the `premium_` prefix and take the plan
      key up to the last underscore, the one before the user id. */
  function PaymentPlan(payload: string): (r: Option<string>)
    ensures r.Some? ==> r.value in Plans
    ensures r.Some? ==> exists tail :: payload == Prefix + r.value + "_" + tail && '_' !in tail
  {
    if |payload| < |Prefix| || payload[..|Prefix|] != Prefix then None
    else
      var rest := payload[|Prefix|..];
      match LastIndex(rest, '_')
      case None => None
      case Some(k) =>
        if rest[..k] in Plans then
          assert payload == Prefix + rest[..k] + "_" + rest[k + 1..];
          Some(rest[..k])
        else None
  }

  /** Parsing an invoice the bot built gives back its plan. */
  lemma PaymentPlanRoundTrip(planId: string, uid: UserId)
    requires planId in Plans
    ensures PaymentPlan(InvoicePayload(planId, uid).value) == Some(planId)
  {
    var u := IntToString(uid);
    var payload := Prefix + planId + "_" + u;
    assert payload[..|Prefix|] == Prefix;
    var rest := payload[|Prefix|..];
    assert rest == planId + "_" + u;
    assert '_' !in u;
    LastIndexConcat(planId, '_', u);
    assert rest[..|planId|] == planId;
  }
}
