/**
 * The plan store (`class Plan`): the deletion guard, the field-wise update
 * and the filtered, price-ordered listing with its usage counts.
 */
module PlanModel {
  import opened Common
  import opened Php
  import opened Schema
  import Query

  /** The keys of an update request; present means `isset` (there and not null). */
  datatype PlanPatch = PlanPatch(
    name: Option<string>,
    description: Option<string>,
    price: Option<int>,
    durationHours: Option<int>,
    dataLimitMb: Option<int>,
    bandwidthUp: Option<int>,
    bandwidthDown: Option<int>,
    validityDays: Option<int>,
    status: Option<string>,
    locationId: Option<nat>)   // accepted by callers, not a column `update` writes

  const NoChange: PlanPatch := PlanPatch(None, None, None, None, None, None, None, None, None, None)

  /** Some key `update` recognises is present. */
  predicate Recognised(d: PlanPatch) {
    d.name.Some? || d.description.Some? || d.price.Some? || d.durationHours.Some? || d.dataLimitMb.Some?
    || d.bandwidthUp.Some? || d.bandwidthDown.Some? || d.validityDays.Some? || d.status.Some?
  }

  function Pick<T>(o: Option<T>, current: T): T {
    if o.Some? then o.value else current
  }

  function PickSome<T>(o: Option<T>, current: Option<T>): Option<T> {
    if o.Some? then o else current
  }

  /** The row after an update: each present recognised key overwrites its column, name and description sanitised. */
  function Patched(p: Plan, d: PlanPatch, sanitize: string -> string): (q: Plan)
    ensures q.locationId == p.locationId
  {
    p.(name := if d.name.Some? then sanitize(d.name.value) else p.name,
       description := if d.description.Some? then sanitize(d.description.value) else p.description,
       price := Pick(d.price, p.price),
       durationHours := Pick(d.durationHours, p.durationHours),
       dataLimitMb := PickSome(d.dataLimitMb, p.dataLimitMb),
       bandwidthUp := PickSome(d.bandwidthUp, p.bandwidthUp),
       bandwidthDown := PickSome(d.bandwidthDown, p.bandwidthDown),
       validityDays := PickSome(d.validityDays, p.validityDays),
       status := Pick(d.status, p.status))
  }

  /** The parameters bound to an UPDATE, applied to the row. */
  function Apply(p: Plan, params: PlanPatch): Plan {
    p.(name := Pick(params.name, p.name),
       description := Pick(params.description, p.description),
       price := Pick(params.price, p.price),
       durationHours := Pick(params.durationHours, p.durationHours),
       dataLimitMb := PickSome(params.dataLimitMb, p.dataLimitMb),
       bandwidthUp := PickSome(params.bandwidthUp, p.bandwidthUp),
       bandwidthDown := PickSome(params.bandwidthDown, p.bandwidthDown),
       validityDays := PickSome(params.validityDays, p.validityDays),
       status := Pick(params.status, p.status))
  }

  /** The values `update` binds: the present recognised keys, name and description sanitised. */
  function Bound(d: PlanPatch, sanitize: string -> string): PlanPatch {
    PlanPatch(if d.name.Some? then Some(sanitize(d.name.value)) else None,
              if d.description.Some? then Some(sanitize(d.description.value)) else None,
              d.price, d.durationHours, d.dataLimitMb, d.bandwidthUp, d.bandwidthDown, d.validityDays, d.status, None)
  }

  /** Applying the bound values to a row is the update. */
  lemma ApplyIsPatched(p: Plan, d: PlanPatch, sanitize: string -> string)
    ensures Apply(p, Bound(d, sanitize)) == Patched(p, d, sanitize)
  {
  }

  /** A column without its key keeps its value; the location can never be changed by an update. */
  lemma PatchedKeepsAbsent(p: Plan, d: PlanPatch, sanitize: string -> string)
    ensures var q := Patched(p, d, sanitize);
      q.locationId == p.locationId
      && (d.name.None? ==> q.name == p.name) && (d.description.None? ==> q.description == p.description)
      && (d.price.None? ==> q.price == p.price) && (d.durationHours.None? ==> q.durationHours == p.durationHours)
      && (d.dataLimitMb.None? ==> q.dataLimitMb == p.dataLimitMb)
      && (d.bandwidthUp.None? ==> q.bandwidthUp == p.bandwidthUp)
      && (d.bandwidthDown.None? ==> q.bandwidthDown == p.bandwidthDown)
      && (d.validityDays.None? ==> q.validityDays == p.validityDays)
      && (d.status.None? ==> q.status == p.status)
      && (!Recognised(d) ==> q == p)
  {
  }

  /**
   * Updating twice with the same keys is updating once: each written column
   * is computed from the request alone, so no sanitiser runs twice on a value.
   */
  lemma PatchedIdempotent(p: Plan, d: PlanPatch, sanitize: string -> string)
    ensures Patched(Patched(p, d, sanitize), d, sanitize) == Patched(p, d, sanitize)
  {
  }

  /** `(SELECT COUNT(*) FROM vouchers WHERE plan_id = :id AND status = 'unused')`. */
  function UnusedVouchers(vouchers: map<nat, VoucherRow>, planId: nat): set<nat> {
    set k | k in vouchers && vouchers[k].planId == planId && vouchers[k].status == Unused
  }

  /** `(SELECT COUNT(*) FROM sessions WHERE plan_id = :id AND status = 'active')`. */
  function ActiveSessions(sessions: map<nat, SessionRow>, planId: nat): set<nat> {
    set k | k in sessions && sessions[k].planId == Some(planId) && sessions[k].status == Active
  }

  /** A plan is in use while an unused voucher or an active session refers to it. */
  predicate InUse(vouchers: map<nat, VoucherRow>, sessions: map<nat, SessionRow>, planId: nat) {
    (exists k :: k in vouchers && vouchers[k].planId == planId && vouchers[k].status == Unused)
    || (exists k :: k in sessions && sessions[k].planId == Some(planId) && sessions[k].status == Active)
  }

  /** The guard's two counts are both zero exactly when the plan is not in use. */
  lemma CountsDetectUse(vouchers: map<nat, VoucherRow>, sessions: map<nat, SessionRow>, planId: nat)
    ensures (|UnusedVouchers(vouchers, planId)| > 0 || |ActiveSessions(sessions, planId)| > 0)
            <==> InUse(vouchers, sessions, planId)
  {
    if exists k :: k in vouchers && vouchers[k].planId == planId && vouchers[k].status == Unused {
      var k :| k in vouchers && vouchers[k].planId == planId && vouchers[k].status == Unused;
      assert k in UnusedVouchers(vouchers, planId);
    }
    if exists k :: k in sessions && sessions[k].planId == Some(planId) && sessions[k].status == Active {
      var k :| k in sessions && sessions[k].planId == Some(planId) && sessions[k].status == Active;
      assert k in ActiveSessions(sessions, planId);
    }
    if |UnusedVouchers(vouchers, planId)| > 0 {
      var k :| k in UnusedVouchers(vouchers, planId);
    }
    if |ActiveSessions(sessions, planId)| > 0 {
      var k :| k in ActiveSessions(sessions, planId);
    }
  }

  /** Used or expired vouchers and ended sessions never keep a plan in use. */
  lemma SpentReferencesDoNotBlock(vouchers: map<nat, VoucherRow>, sessions: map<nat, SessionRow>, planId: nat)
    requires forall k :: k in vouchers ==> vouchers[k].status != Unused
    requires forall k :: k in sessions ==> sessions[k].status != Active
    ensures !InUse(vouchers, sessions, planId)
  {
  }

  /**
   * How `delete` ends. Its "Failed to delete plan" answer is never given:
   * the DELETE either succeeds or raises, and a raise ends the call.
   */
  datatype Deletion = PlanDeleted | DeleteBlocked | DeleteRaised

  function DeletionMessage(r: Deletion): string
    requires !r.DeleteRaised?
  {
    match r
    case PlanDeleted => "Plan deleted successfully"
    case DeleteBlocked => "Cannot delete plan with active vouchers or sessions"
  }

  /** One row of `getAll`: the plan and its two usage counts. */
  datatype PlanListing = PlanListing(id: nat, plan: Plan, availableVouchers: nat, activeSessions: nat)

  /** `if ($location_id)` and `if ($status)`: each filter applies only when truthy. */
  predicate ListSelected(p: Plan, locationId: Option<nat>, status: Option<string>) {
    (locationId.None? || locationId.value == 0 || p.locationId == locationId)
    && (status.None? || !TruthyStr(status.value) || p.status == status.value)
  }

  function ListWhere(locationId: Option<nat>, status: Option<string>): Plan -> bool {
    (p: Plan) => ListSelected(p, locationId, status)
  }

  function ListEntry(vouchers: map<nat, VoucherRow>, sessions: map<nat, SessionRow>): (nat, Plan) -> PlanListing {
    (id: nat, p: Plan) => PlanListing(id, p, |UnusedVouchers(vouchers, id)|, |ActiveSessions(sessions, id)|)
  }

  function ListingId(): PlanListing -> nat {
    (e: PlanListing) => e.id
  }

  /** `ORDER BY p.price ASC`. */
  function CheapestFirst(): (PlanListing, PlanListing) -> bool {
    (a: PlanListing, b: PlanListing) => a.plan.price <= b.plan.price
  }

  /** The plan store over a database connection. */
  class PlanStore {
    const conn: Db

    constructor(db: Db)
      ensures conn == db
    {
      conn := db;
    }

    /**
     * `delete($id)`: refused while the plan is in use; otherwise the row is
     * deleted unless the DELETE raises (`raises`).
     */
    method Delete(id: nat, raises: bool) returns (r: Deletion)
      modifies conn`plans
      ensures r == DeleteBlocked <==> InUse(conn.vouchers, conn.sessions, id)
      ensures r == PlanDeleted <==> !InUse(conn.vouchers, conn.sessions, id) && !raises
      ensures conn.plans == if r == PlanDeleted then old(conn.plans) - {id} else old(conn.plans)
    {
      var unusedVouchers := |UnusedVouchers(conn.vouchers, id)|;
      var activeSessions := |ActiveSessions(conn.sessions, id)|;
      CountsDetectUse(conn.vouchers, conn.sessions, id);
      if unusedVouchers > 0 || activeSessions > 0 {
        return DeleteBlocked;
      }
      if raises {
        return DeleteRaised;
      }
      conn.plans := conn.plans - {id};
      return PlanDeleted;
    }

    /**
     * The SET clause of `update`: one column name per recognised key present,
     * with its bound (sanitised) value.
     */
    static method CollectColumns(data: PlanPatch, sanitize: string -> string) returns (fields: seq<string>, params: PlanPatch)
      ensures |fields| == 0 <==> !Recognised(data)
      ensures params == Bound(data, sanitize)
    {
      fields := [];
      var name, description, price, durationHours := None, None, None, None;
      var dataLimitMb, bandwidthUp, bandwidthDown, validityDays, status := None, None, None, None, None;
      if data.name.Some? {
        fields := fields + ["name"];
        name := Some(sanitize(data.name.value));
      }
      assert name == Bound(data, sanitize).name;
      if data.description.Some? {
        fields := fields + ["description"];
        description := Some(sanitize(data.description.value));
      }
      assert description == Bound(data, sanitize).description;
      if data.price.Some? {
        fields := fields + ["price"];
        price := data.price;
      }
      assert price == Bound(data, sanitize).price;
      if data.durationHours.Some? {
        fields := fields + ["duration_hours"];
        durationHours := data.durationHours;
      }
      assert durationHours == Bound(data, sanitize).durationHours;
      if data.dataLimitMb.Some? {
        fields := fields + ["data_limit_mb"];
        dataLimitMb := data.dataLimitMb;
      }
      assert dataLimitMb == Bound(data, sanitize).dataLimitMb;
      if data.bandwidthUp.Some? {
        fields := fields + ["bandwidth_up"];
        bandwidthUp := data.bandwidthUp;
      }
      assert bandwidthUp == Bound(data, sanitize).bandwidthUp;
      if data.bandwidthDown.Some? {
        fields := fields + ["bandwidth_down"];
        bandwidthDown := data.bandwidthDown;
      }
      assert bandwidthDown == Bound(data, sanitize).bandwidthDown;
      if data.validityDays.Some? {
        fields := fields + ["validity_days"];
        validityDays := data.validityDays;
      }
      assert validityDays == Bound(data, sanitize).validityDays;
      if data.status.Some? {
        fields := fields + ["status"];
        status := data.status;
      }
      assert status == Bound(data, sanitize).status;
      params := PlanPatch(name, description, price, durationHours, dataLimitMb, bandwidthUp, bandwidthDown, validityDays, status, None);
    }

    /**
     * `update($id, $data)`: collect the recognised keys; with none, refuse;
     * otherwise, unless the UPDATE raises (`raises`), write exactly those
     * columns of that row (an unknown id matches no row and still succeeds).
     */
    method Update(id: nat, data: PlanPatch, sanitize: string -> string, raises: bool) returns (r: Exec<bool>)
      modifies conn`plans
      ensures r == if !Recognised(data) then Done(false) else if raises then Raised else Done(true)
      ensures conn.plans == if r == Done(true) && id in old(conn.plans) then old(conn.plans)[id := Patched(old(conn.plans)[id], data, sanitize)]
                            else old(conn.plans)
    {
      var fields, params := CollectColumns(data, sanitize);
      if |fields| == 0 {
        return Done(false);
      }
      if raises {
        return Raised;
      }
      if id in conn.plans {
        ApplyIsPatched(conn.plans[id], data, sanitize);
        conn.plans := conn.plans[id := Apply(conn.plans[id], params)];
      }
      return Done(true);
    }

    /**
     * `getAll($location_id, $status = 'active')`: the plans passing the
     * filters, each once, cheapest first, with their usage counts.
     */
    method GetAll(locationId: Option<nat>, status: Option<string> := Some("active")) returns (r: seq<PlanListing>)
      ensures Query.SortedBy(r, CheapestFirst())
      ensures (set e | e in r :: e.id) == Query.SelectedKeys(conn.plans, ListWhere(locationId, status))
      ensures |r| == |Query.SelectedKeys(conn.plans, ListWhere(locationId, status))|
      ensures forall e :: e in r ==>
        e.id in conn.plans && e.plan == conn.plans[e.id] && ListSelected(e.plan, locationId, status)
        && e.availableVouchers == |UnusedVouchers(conn.vouchers, e.id)|
        && e.activeSessions == |ActiveSessions(conn.sessions, e.id)|
    {
      r := Query.SelectOrdered(conn.plans, ListWhere(locationId, status), ListEntry(conn.vouchers, conn.sessions),
                               ListingId(), CheapestFirst());
      assert (set e | e in r :: e.id) == (set e | e in r :: ListingId()(e));
      forall e | e in r ensures ListSelected(e.plan, locationId, status) {
        assert e.id in Query.SelectedKeys(conn.plans, ListWhere(locationId, status));
      }
    }
  }
}
