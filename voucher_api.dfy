/**
 * The voucher endpoints: `vouchers/generate.php`, `vouchers/redeem.php` and
 * `vouchers/vouchers_validate.php`. Each is a ladder of guards in front of
 * one call into the voucher store, whose answer it maps to a response.
 */
module VoucherApi {
  import opened Common
  import opened Php
  import opened Schema
  import opened Responses
  import Validator
  import opened VoucherModel

  /** The generate request: `plan_id`, `quantity` and the optional `batch_name`. */
  datatype GenerateRequest = GenerateRequest(planId: Option<nat>, quantity: Option<int>, batchName: Option<string>)

  const MinQuantity: int := 1
  const MaxQuantity: int := 1000

  /** The guards of `generate.php`, in order; `None` when the request reaches the store. */
  function GenerateGuard(role: string, req: GenerateRequest): Option<Response<Batch>> {
    if role != "admin" && role != "manager" then Some(Error(403, "Unauthorized access"))
    else if Empty(OfInt(req.planId)) || Empty(OfInt(req.quantity)) then Some(Error(400, "Plan ID and quantity are required"))
    else if req.quantity.value < MinQuantity || req.quantity.value > MaxQuantity then
      Some(Error(400, "Quantity must be between 1 and 1000"))
    else None
  }

  /**
   * Only admins and managers pass; a missing or zero plan id or quantity is
   * "required"; the rest pass exactly when the quantity lies in 1..1000.
   */
  lemma GenerateGuardLadder(role: string, req: GenerateRequest)
    ensures var g := GenerateGuard(role, req);
      (role != "admin" && role != "manager" ==> g == Some(Error(403, "Unauthorized access")))
      && (((role == "admin" || role == "manager") && (req.planId in {None, Some(0)} || req.quantity in {None, Some(0)}))
          ==> g == Some(Error(400, "Plan ID and quantity are required")))
      && (g.None? <==> (role == "admin" || role == "manager") && req.planId.Some? && req.planId.value != 0
                        && req.quantity.Some? && MinQuantity <= req.quantity.value <= MaxQuantity)
  {
  }

  /**
   * `generate.php`. `raisesAt` is the loop iteration, if any, whose INSERT
   * raises: the script then dies with the rows inserted so far kept. Only an
   * unknown plan yields the 500 "Unable to generate vouchers" answer. When
   * the draws hold a fresh code for every voucher asked for, the whole batch
   * is written unless an INSERT raises, and its codes are those blocks'.
   */
  method HandleGenerate(db: Db, role: string, req: GenerateRequest, batchId: string, now: int,
                        draws: seq<Draw>, raisesAt: Option<nat>) returns (resp: Response<Batch>)
    requires db.Valid()
    modifies db`vouchers, db`nextVoucherId
    ensures db.Valid()
    ensures GenerateGuard(role, req).Some? ==>
      resp == GenerateGuard(role, req).value && db.vouchers == old(db.vouchers) && db.nextVoucherId == old(db.nextVoucherId)
    ensures GenerateGuard(role, req).None? && req.planId.value !in db.plans ==>
      resp == Error(500, "Unable to generate vouchers")
      && db.vouchers == old(db.vouchers) && db.nextVoucherId == old(db.nextVoucherId)
    ensures GenerateGuard(role, req).None? && req.planId.value in db.plans ==>
      var planId := req.planId.value;
      var plan := db.plans[planId];
      var expiresAt := now + ExpiryDays * SecondsPerDay;
      (resp.Success? || resp.Aborted?)
      && KeepsRows(old(db.vouchers), db.vouchers)
      && (forall k :: k in db.vouchers && k !in old(db.vouchers) ==>
            db.vouchers[k] == NewVoucher(db.vouchers[k].code, planId, batchId, plan, expiresAt, now))
      && (raisesAt.Some? && raisesAt.value < req.quantity.value ==> resp.Aborted?)
      && (FreshBlocks(old(db.vouchers), draws, req.quantity.value) ==>
            (resp.Success? <==> raisesAt.None? || raisesAt.value >= req.quantity.value)
            && (resp.Success? ==>
                  |resp.data.vouchers| == req.quantity.value
                  && forall j :: 0 <= j < req.quantity.value ==> resp.data.vouchers[j].code == BlockCode(draws, j)))
      && (resp.Success? ==>
            var issued := resp.data.vouchers;
            resp.code == 201 && resp.message == "Vouchers generated successfully"
            && resp.data.batchId == batchId && resp.data.batchName == OrElse(req.batchName, batchId)
            && |issued| == req.quantity.value
            && db.vouchers.Keys == old(db.vouchers).Keys + IdsOf(issued)
            && (forall j :: 0 <= j < |issued| ==> Recorded(db.vouchers, issued[j], planId, batchId, plan, expiresAt, now))
            && (forall a, b :: 0 <= a < b < |issued| ==> issued[a].id < issued[b].id))
  {
    var guard := GenerateGuard(role, req);
    if guard.Some? {
      return guard.value;
    }
    var voucher := new Voucher(db);
    var result, written, leftover := voucher.Generate(req.planId.value, req.quantity.value, req.batchName, batchId, now, draws, raisesAt);
    if !result.NoPlan? {
      BatchedNewRows(old(db.vouchers), old(db.nextVoucherId), db.vouchers, db.nextVoucherId, written,
                     req.planId.value, batchId, db.plans[req.planId.value], now + ExpiryDays * SecondsPerDay, now);
    }
    match result
    case NoPlan => return Error(500, "Unable to generate vouchers");
    case Generated(batch) => return Success(201, "Vouchers generated successfully", batch);
    case InsertRaised => return Aborted;
    case OutOfDraws => return Aborted;
  }

  /**
   * `Validator::voucherCode($data->code)` on a scalar: only a string can
   * match (a number or a boolean turns into digits, which never do).
   */
  predicate CodeFormatOk(code: Json) {
    code.JStr? && Validator.VoucherCode(code.s)
  }

  const CodeRequired: string := "Voucher code is required"
  const BadCodeFormat: string := "Invalid voucher code format"
  const BadMacFormat: string := "Invalid MAC address format"

  /** The redeem request: `code` and the optional `mac_address`. */
  datatype RedeemRequest = RedeemRequest(code: Json, macAddress: Option<string>)

  /**
   * The guards of `redeem.php`, in order: code present, code format, then a
   * truthy MAC's format. An array or object code makes `preg_match` throw.
   */
  function RedeemGuard(req: RedeemRequest): Option<Response<(nat, VoucherRow)>> {
    if Empty(req.code) then Some(Error(400, CodeRequired))
    else if NotScalar(req.code) then Some(Aborted)
    else if !CodeFormatOk(req.code) then Some(Error(400, BadCodeFormat))
    else if req.macAddress.Some? && TruthyStr(req.macAddress.value) && !Validator.MacAddress(req.macAddress.value) then
      Some(Error(400, BadMacFormat))
    else None
  }

  /**
   * A request reaches the store iff its code has the voucher format and any
   * truthy MAC passes the MAC pattern; with the pattern as written, a
   * standard 17-character MAC never does. A non-empty array or any object as
   * the code ends the script with an uncaught error.
   */
  lemma RedeemGuardLadder(req: RedeemRequest)
    ensures RedeemGuard(req).None? <==>
      CodeFormatOk(req.code) && (req.macAddress.None? || !TruthyStr(req.macAddress.value) || Validator.MacAddress(req.macAddress.value))
    ensures RedeemGuard(req) == Some(Aborted) <==> !Empty(req.code) && NotScalar(req.code)
    ensures req.code == JStdClass(map[]) ==> RedeemGuard(req) == Some(Aborted)
    ensures CodeFormatOk(req.code) && req.macAddress.Some? && |req.macAddress.value| == 17 ==>
      RedeemGuard(req) == Some(Error(400, BadMacFormat))
  {
    if CodeFormatOk(req.code) {
      assert !Empty(req.code);
    }
    if CodeFormatOk(req.code) && req.macAddress.Some? && |req.macAddress.value| == 17 {
      Validator.StandardMacRejected(req.macAddress.value);
      assert TruthyStr(req.macAddress.value);
    }
  }

  /** How `redeem.php` answers the store's result. */
  function RedeemReply(r: Redemption): (resp: Response<(nat, VoucherRow)>)
    ensures resp.Success? <==> r.Redeemed?
    ensures resp.Aborted? <==> r.UpdateRaised?
    ensures resp.Error? ==> resp.code == 400 && r.NotRedeemable? && resp.message == r.message
  {
    match r
    case Redeemed(id, v) => Success(200, RedeemedMessage, (id, v))
    case NotRedeemable(message) => Error(400, message)
    case UpdateRaised => Aborted
  }

  /**
   * `redeem.php`; `expiryRaises` and `updateRaises` are whether the store's
   * expiry and redeeming UPDATEs raise.
   */
  method HandleRedeem(db: Db, req: RedeemRequest, now: int, expiryRaises: bool, updateRaises: bool)
    returns (resp: Response<(nat, VoucherRow)>)
    requires db.Valid()
    modifies db`vouchers
    ensures db.Valid()
    ensures RedeemGuard(req).Some? ==> resp == RedeemGuard(req).value && db.vouchers == old(db.vouchers)
    ensures RedeemGuard(req).None? ==>
      var (r, after) := RedeemOutcome(old(db.vouchers), req.code.s, req.macAddress, now, expiryRaises, updateRaises);
      resp == RedeemReply(r) && db.vouchers == after
  {
    var guard := RedeemGuard(req);
    if guard.Some? {
      return guard.value;
    }
    var voucher := new Voucher(db);
    var result := voucher.Redeem(req.code.s, req.macAddress, now, expiryRaises, updateRaises);
    return RedeemReply(result);
  }

  /**
   * Through the endpoint, a redemption succeeds exactly when the store holds
   * a redeemable voucher with that code and the UPDATE does not raise; it
   * ends with an uncaught error exactly when a write on the matching voucher
   * raises; a second redemption of the same code is answered 400 "Voucher
   * already used".
   */
  lemma RedeemThroughEndpoint(vouchers: map<nat, VoucherRow>, req: RedeemRequest, now: int,
                              expiryRaises: bool, updateRaises: bool)
    requires UniqueCodes(vouchers) && RedeemGuard(req).None?
    ensures var (r, after) := RedeemOutcome(vouchers, req.code.s, req.macAddress, now, expiryRaises, updateRaises);
      (RedeemReply(r).Success? <==> !updateRaises && exists id: nat :: Redeemable(vouchers, id, req.code.s, now))
      && (RedeemReply(r).Aborted? <==>
            (updateRaises && exists id: nat :: Redeemable(vouchers, id, req.code.s, now))
            || (expiryRaises && exists id: nat :: Lapsed(vouchers, id, req.code.s, now)))
      && (RedeemReply(r).Success? ==>
            UniqueCodes(after)
            && RedeemReply(RedeemOutcome(after, req.code.s, req.macAddress, now, expiryRaises, updateRaises).0)
               == Error(400, AlreadyUsed))
  {
    RedeemEffect(vouchers, req.code.s, req.macAddress, now, expiryRaises, updateRaises);
    var (r, after) := RedeemOutcome(vouchers, req.code.s, req.macAddress, now, expiryRaises, updateRaises);
    if r.Redeemed? {
      RedeemTwice(vouchers, req.code.s, req.macAddress, req.macAddress, now, now, expiryRaises, updateRaises);
    }
  }

  /**
   * The guards of `vouchers_validate.php`: code present, then its format. An
   * array or object code makes `preg_match` throw.
   */
  function ValidateGuard(code: Json): Option<Response<(nat, VoucherRow)>> {
    if Empty(code) then Some(Error(400, CodeRequired))
    else if NotScalar(code) then Some(Aborted)
    else if !CodeFormatOk(code) then Some(Error(400, BadCodeFormat))
    else None
  }

  /**
   * The validate endpoint passes exactly the well-formed codes, refuses
   * other empty or scalar values with 400, and ends with an uncaught error
   * on a non-empty array or any object.
   */
  lemma ValidateGuardLadder(code: Json)
    ensures ValidateGuard(code).None? <==> CodeFormatOk(code)
    ensures Empty(code) ==> ValidateGuard(code) == Some(Error(400, CodeRequired))
    ensures ValidateGuard(code) == Some(Aborted) <==> !Empty(code) && NotScalar(code)
    ensures !Empty(code) && !NotScalar(code) && !CodeFormatOk(code) ==> ValidateGuard(code) == Some(Error(400, BadCodeFormat))
  {
    if CodeFormatOk(code) {
      assert !Empty(code) by {
        Validator.VoucherCodeAccepts(code.s);
      }
    }
  }

  /** How `vouchers_validate.php` answers the store's result. */
  function ValidateReply(v: Validation): (resp: Response<(nat, VoucherRow)>)
    ensures resp.Success? <==> v.Accepted?
    ensures resp.Aborted? <==> v.ExpiryRaised?
    ensures resp.Error? ==> resp.code == 400 && v.Rejected? && resp.message == v.message
  {
    match v
    case Accepted(id, voucher) => Success(200, "Voucher is valid", (id, voucher))
    case Rejected(message) => Error(400, message)
    case ExpiryRaised => Aborted
  }

  /**
   * `vouchers_validate.php`: a badly formed code never reaches the store;
   * `expiryRaises` is whether the store's lazy expiry UPDATE raises.
   */
  method HandleValidate(db: Db, code: Json, now: int, expiryRaises: bool) returns (resp: Response<(nat, VoucherRow)>)
    requires db.Valid()
    modifies db`vouchers
    ensures db.Valid()
    ensures ValidateGuard(code).Some? ==> resp == ValidateGuard(code).value && db.vouchers == old(db.vouchers)
    ensures ValidateGuard(code).None? ==>
      var (v, after) := ValidateOutcome(old(db.vouchers), code.s, now, expiryRaises);
      resp == ValidateReply(v) && db.vouchers == after
  {
    var guard := ValidateGuard(code);
    if guard.Some? {
      return guard.value;
    }
    var voucher := new Voucher(db);
    var result := voucher.Validate(code.s, now, expiryRaises);
    return ValidateReply(result);
  }

  /**
   * A well-formed code reaches the store; there a validate request can
   * still move a past-expiry `unused` voucher to `expired`, while answering
   * "Voucher has expired", or end with an uncaught error, writing nothing,
   * when that UPDATE raises.
   */
  lemma ValidateEndpointMayExpire(vouchers: map<nat, VoucherRow>, code: string, now: int, id: nat, expiryRaises: bool)
    requires UniqueCodes(vouchers) && Validator.VoucherCode(code)
    requires id in vouchers && vouchers[id].code == code && vouchers[id].status == Unused && vouchers[id].expiresAt < now
    ensures ValidateGuard(JStr(code)).None?
    ensures var (v, after) := ValidateOutcome(vouchers, code, now, expiryRaises);
      (!expiryRaises ==> ValidateReply(v) == Error(400, HasExpired) && after[id].status == VoucherStatus.Expired)
      && (expiryRaises ==> ValidateReply(v) == Aborted && after == vouchers)
  {
    ValidateRejections(vouchers, code, now, expiryRaises);
    assert !Empty(JStr(code)) by {
      Validator.VoucherCodeAccepts(code);
    }
  }
}
