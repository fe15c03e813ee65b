/**
 * The voucher store (`class Voucher`): generation of unique codes and
 * batches, the validation ladder with its lazy expiry, redemption, the bulk
 * expiry sweep and the status counts.
 *
 * `rand()` is a stream of draws given as input; `uniqid()` and `NOW()` are
 * parameters. Whether a write statement raises is an input as well.
 */
module VoucherModel {
  import opened Common
  import opened Php
  import opened Schema
  import Query
  import Validator

  /** The 32 symbols codes are drawn from: no `0`, `1`, `I` or `O`. */
  const Alphabet: string := "ABCDEFGHJKLMNPQRSTUVWXYZ23456789"

  /** `VOUCHER_EXPIRY_DAYS` is never defined, so the fallback of 30 days applies. */
  const ExpiryDays: int := 30

  /** One `rand(0, strlen($characters) - 1)`. */
  type Draw = d: int | 0 <= d < 32

  predicate InAlphabet(c: char) {
    ('A' <= c <= 'Z' && c != 'I' && c != 'O') || ('2' <= c <= '9')
  }

  lemma AlphabetMembers()
    ensures |Alphabet| == 32
    ensures forall k :: 0 <= k < 32 ==> InAlphabet(Alphabet[k])
  {
  }

  /** Where the d-th drawn symbol lands in the code: a dash precedes draws 4 and 8. */
  function Pos(d: nat): nat {
    d + (if d >= 4 then 1 else 0) + (if d >= 8 then 1 else 0)
  }

  /** Which draw a non-dash position holds. */
  function DrawAt(k: nat): int {
    k - (if k > 4 then 1 else 0) - (if k > 9 then 1 else 0)
  }

  /** The code text after the first `i` iterations of the drawing loop. */
  function CodePrefix(ds: seq<Draw>, i: nat): string
    requires i <= |ds|
  {
    if i == 0 then ""
    else CodePrefix(ds, i - 1) + (if i - 1 > 0 && (i - 1) % 4 == 0 then "-" else "") + [Alphabet[ds[i - 1]]]
  }

  /** The candidate built from the next twelve draws. */
  function Render(ds: seq<Draw>): string
    requires 12 <= |ds|
  {
    CodePrefix(ds, 12)
  }

  /** `XXXX-XXXX-XXXX` with every X from the alphabet. */
  predicate WellFormedCode(c: string) {
    |c| == 14 && forall k :: 0 <= k < 14 ==> if k == 4 || k == 9 then c[k] == '-' else InAlphabet(c[k])
  }

  /** `p` is the text after `i` draws: dashes at 4 and 9, the k-th other character from draw `DrawAt(k)`. */
  predicate PrefixShape(ds: seq<Draw>, p: string, i: nat) {
    |p| == (if i == 0 then 0 else Pos(i - 1) + 1)
    && forall k :: 0 <= k < |p| ==>
         if k == 4 || k == 9 then p[k] == '-' else 0 <= DrawAt(k) < i && DrawAt(k) < |ds| && p[k] == Alphabet[ds[DrawAt(k)]]
  }

  /** One more iteration of the drawing loop keeps the shape. */
  lemma PrefixShapeStep(ds: seq<Draw>, q: string, i: nat)
    requires 0 < i <= |ds| && i <= 12 && PrefixShape(ds, q, i - 1)
    ensures PrefixShape(ds, q + (if i - 1 > 0 && (i - 1) % 4 == 0 then "-" else "") + [Alphabet[ds[i - 1]]], i)
  {
    var dash := if i - 1 > 0 && (i - 1) % 4 == 0 then "-" else "";
    var p := q + dash + [Alphabet[ds[i - 1]]];
    assert |q| + |dash| == Pos(i - 1);
    forall k | 0 <= k < |p|
      ensures if k == 4 || k == 9 then p[k] == '-' else 0 <= DrawAt(k) < i && DrawAt(k) < |ds| && p[k] == Alphabet[ds[DrawAt(k)]]
    {
      if k < |q| {
        assert p[k] == q[k];
      } else if k < |q| + |dash| {
        assert p[k] == '-' && (k == 4 || k == 9);
      } else {
        assert k == Pos(i - 1) && DrawAt(k) == i - 1;
      }
    }
  }

  lemma {:induction false} CodePrefixAt(ds: seq<Draw>, i: nat)
    requires i <= |ds| && i <= 12
    ensures PrefixShape(ds, CodePrefix(ds, i), i)
  {
    if i > 0 {
      CodePrefixAt(ds, i - 1);
      PrefixShapeStep(ds, CodePrefix(ds, i - 1), i);
    }
  }

  /** Every candidate is `XXXX-XXXX-XXXX` over the alphabet, and so passes `Validator::voucherCode`. */
  lemma RenderWellFormed(ds: seq<Draw>)
    requires 12 <= |ds|
    ensures WellFormedCode(Render(ds))
    ensures Validator.VoucherCode(Render(ds))
  {
    CodePrefixAt(ds, 12);
    AlphabetMembers();
    WellFormedIsValid(Render(ds));
  }

  /** A well-formed code never contains `0`, `1`, `I` or `O` and is accepted by the backend's pattern. */
  lemma WellFormedIsValid(c: string)
    requires WellFormedCode(c)
    ensures forall k :: 0 <= k < |c| ==> c[k] !in {'0', '1', 'I', 'O'}
    ensures Validator.CodeShape(c)
    ensures Validator.VoucherCode(c)
  {
    Validator.VoucherCodeAccepts(c);
  }

  /**
   * `generateCode()`: the first candidate in the stream that no voucher
   * carries, and the draws left over; `None` when the stream runs out first.
   */
  function FirstFree(vouchers: map<nat, VoucherRow>, draws: seq<Draw>): (r: (Option<string>, seq<Draw>))
    ensures |r.1| <= |draws| && r.1 == draws[|draws| - |r.1|..]
    ensures r.0.Some? ==> WellFormedCode(r.0.value) && !HasCode(vouchers, r.0.value)
    ensures r.0.None? ==> |r.1| < 12
    decreases |draws|
  {
    if |draws| < 12 then (None, draws)
    else
      var c := Render(draws);
      RenderWellFormed(draws);
      if HasCode(vouchers, c) then
        var r := FirstFree(vouchers, draws[12..]);
        assert draws[12..][|draws[12..]| - |r.1|..] == draws[|draws| - |r.1|..];
        r
      else (Some(c), draws[12..])
  }

  /** `SELECT ... WHERE code = :code LIMIT 1`: the one voucher carrying a code. */
  function FindCode(vouchers: map<nat, VoucherRow>, code: string): (r: Option<nat>)
    requires UniqueCodes(vouchers)
    ensures r.Some? <==> HasCode(vouchers, code)
    ensures r.Some? ==> r.value in vouchers && vouchers[r.value].code == code
  {
    if HasCode(vouchers, code) then
      var id :| id in vouchers && vouchers[id].code == code;
      Some(id)
    else None
  }

  /** `updateStatus($id, $status)`: only that voucher's status changes. */
  function SetStatus(vouchers: map<nat, VoucherRow>, id: nat, status: VoucherStatus): (r: map<nat, VoucherRow>)
    ensures r.Keys == vouchers.Keys
    ensures forall k :: k in vouchers && k != id ==> r[k] == vouchers[k]
    ensures id in vouchers ==> r[id] == vouchers[id].(status := status)
  {
    if id in vouchers then vouchers[id := vouchers[id].(status := status)] else vouchers
  }

  /** The outcome of `validate($code)`. */
  datatype Validation =
    | Accepted(id: nat, voucher: VoucherRow)
    | Rejected(message: string)
    | ExpiryRaised                             // the lazy expiry UPDATE raised; the call never returns

  const InvalidCode: string := "Invalid voucher code"
  const AlreadyUsed: string := "Voucher already used"
  const HasExpired: string := "Voucher has expired"

  /**
   * `validate($code)` at time `now`: its answer and the voucher table
   * afterwards. `expiryRaises` is whether the lazy expiry UPDATE raises when
   * it runs.
   */
  function ValidateOutcome(vouchers: map<nat, VoucherRow>, code: string, now: int, expiryRaises: bool)
    : (Validation, map<nat, VoucherRow>)
    requires UniqueCodes(vouchers)
  {
    match FindCode(vouchers, code)
    case None => (Rejected(InvalidCode), vouchers)
    case Some(id) =>
      var v := vouchers[id];
      if v.status == Used then (Rejected(AlreadyUsed), vouchers)
      else if v.status == VoucherStatus.Expired then (Rejected(HasExpired), vouchers)
      else if v.expiresAt < now then
        if expiryRaises then (ExpiryRaised, vouchers)
        else (Rejected(HasExpired), SetStatus(vouchers, id, VoucherStatus.Expired))
      else (Accepted(id, v), vouchers)
  }

  /** The `unused` voucher with this code that has not passed its expiry. */
  predicate Redeemable(vouchers: map<nat, VoucherRow>, id: nat, code: string, now: int) {
    id in vouchers && vouchers[id].code == code && vouchers[id].status == Unused && now <= vouchers[id].expiresAt
  }

  /** The `unused` voucher with this code whose expiry `now` has passed: validating it writes `expired`. */
  predicate Lapsed(vouchers: map<nat, VoucherRow>, id: nat, code: string, now: int) {
    id in vouchers && vouchers[id].code == code && vouchers[id].status == Unused && vouchers[id].expiresAt < now
  }

  /**
   * A code is accepted exactly when an unused voucher carries it and `now`
   * has not passed its expiry (`expires_at == now` is still valid); the
   * call raises exactly when the voucher has lapsed and its expiry UPDATE
   * raises, and then nothing is written.
   */
  lemma ValidateAcceptsIff(vouchers: map<nat, VoucherRow>, code: string, now: int, expiryRaises: bool)
    requires UniqueCodes(vouchers)
    ensures var (r, after) := ValidateOutcome(vouchers, code, now, expiryRaises);
      (r.Accepted? <==> exists id: nat :: Redeemable(vouchers, id, code, now))
      && (r.Accepted? ==> Redeemable(vouchers, r.id, code, now) && r.voucher == vouchers[r.id] && after == vouchers)
      && (r.ExpiryRaised? <==> expiryRaises && exists id: nat :: Lapsed(vouchers, id, code, now))
      && (r.ExpiryRaised? ==> after == vouchers)
  {
    var r := ValidateOutcome(vouchers, code, now, expiryRaises).0;
    if exists id: nat :: Redeemable(vouchers, id, code, now) {
      var id: nat :| Redeemable(vouchers, id, code, now);
      var f := FindCode(vouchers, code);
      assert vouchers[f.value].code == vouchers[id].code;
    }
    if exists id: nat :: Lapsed(vouchers, id, code, now) {
      var id: nat :| Lapsed(vouchers, id, code, now);
      var f := FindCode(vouchers, code);
      assert vouchers[f.value].code == vouchers[id].code;
    }
    if r.Accepted? {
      assert Redeemable(vouchers, r.id, code, now);
    }
    if r.ExpiryRaised? {
      var f := FindCode(vouchers, code);
      assert Lapsed(vouchers, f.value, code, now);
    }
  }

  /**
   * A rejection names the first failing rung, and the only write is the lazy
   * expiry: the matching voucher, and only when it is `unused` and past its
   * expiry, moves to `expired`, unless that UPDATE raises; nothing else in
   * the table changes.
   */
  lemma ValidateRejections(vouchers: map<nat, VoucherRow>, code: string, now: int, expiryRaises: bool)
    requires UniqueCodes(vouchers)
    ensures var (r, after) := ValidateOutcome(vouchers, code, now, expiryRaises);
      (!HasCode(vouchers, code) ==> r == Rejected(InvalidCode) && after == vouchers)
      && (forall id :: id in vouchers && vouchers[id].code == code ==>
            (vouchers[id].status == Used ==> r == Rejected(AlreadyUsed) && after == vouchers)
            && (vouchers[id].status == VoucherStatus.Expired ==> r == Rejected(HasExpired) && after == vouchers)
            && (vouchers[id].status == Unused && vouchers[id].expiresAt < now && expiryRaises ==>
                  r == ExpiryRaised && after == vouchers)
            && (vouchers[id].status == Unused && vouchers[id].expiresAt < now && !expiryRaises ==>
                  r == Rejected(HasExpired) && after == vouchers[id := vouchers[id].(status := VoucherStatus.Expired)]))
  {
  }

  /**
   * Once a validation has returned, validating again at the same time gives
   * the same answer and writes nothing more, so whether a write would raise
   * no longer matters.
   */
  lemma ValidateStable(vouchers: map<nat, VoucherRow>, code: string, now: int, raises1: bool, raises2: bool)
    requires UniqueCodes(vouchers)
    ensures var (r, after) := ValidateOutcome(vouchers, code, now, raises1);
      UniqueCodes(after) && (!r.ExpiryRaised? ==> ValidateOutcome(after, code, now, raises2) == (r, after))
  {
    var (r, after) := ValidateOutcome(vouchers, code, now, raises1);
    assert forall k :: k in after ==> after[k].code == vouchers[k].code;
    if HasCode(vouchers, code) {
      var id := FindCode(vouchers, code).value;
      assert FindCode(after, code) == Some(id);
    } else {
      assert after == vouchers;
    }
  }

  /** What `redeem` returns. */
  datatype Redemption =
    | Redeemed(id: nat, voucher: VoucherRow)   // 'success' => true, the voucher as validated
    | NotRedeemable(message: string)           // `validate`'s answer, which has no 'success' key
    | UpdateRaised                             // an UPDATE raised; the call never returns

  const RedeemedMessage: string := "Voucher redeemed successfully"

  /**
   * `redeem($code, $mac_address)`: validate, then an UPDATE keyed by id alone
   * (it does not re-check the status). `expiryRaises` is whether the lazy
   * expiry UPDATE inside `validate` raises, `updateRaises` whether the
   * redeeming UPDATE does; `execute()` never returns false, so the "Failed
   * to redeem voucher" answer is never given.
   */
  function RedeemOutcome(vouchers: map<nat, VoucherRow>, code: string, mac: Option<string>, now: int,
                         expiryRaises: bool, updateRaises: bool)
    : (Redemption, map<nat, VoucherRow>)
    requires UniqueCodes(vouchers)
  {
    var (validation, after) := ValidateOutcome(vouchers, code, now, expiryRaises);
    match validation
    case Rejected(message) => (NotRedeemable(message), after)
    case ExpiryRaised => (UpdateRaised, after)
    case Accepted(id, v) =>
      if updateRaises then (UpdateRaised, after)
      else (Redeemed(id, v), after[id := v.(status := Used, usedAt := Some(now), usedBy := mac)])
  }

  /**
   * Redemption succeeds only on a redeemable voucher and changes only that
   * voucher: it becomes `used`, stamped with the time and the MAC. A rejected
   * redemption is exactly `validate`'s answer and writes. The call raises
   * when the redeeming UPDATE raises on a redeemable voucher or the expiry
   * UPDATE raises on a lapsed one, and then nothing is written.
   */
  lemma RedeemEffect(vouchers: map<nat, VoucherRow>, code: string, mac: Option<string>, now: int,
                     expiryRaises: bool, updateRaises: bool)
    requires UniqueCodes(vouchers)
    ensures var (r, after) := RedeemOutcome(vouchers, code, mac, now, expiryRaises, updateRaises);
      UniqueCodes(after)
      && (r.Redeemed? ==>
            Redeemable(vouchers, r.id, code, now) && r.voucher == vouchers[r.id]
            && after == vouchers[r.id := vouchers[r.id].(status := Used, usedAt := Some(now), usedBy := mac)])
      && (r.Redeemed? <==> !updateRaises && exists id: nat :: Redeemable(vouchers, id, code, now))
      && (r.UpdateRaised? <==>
            (updateRaises && exists id: nat :: Redeemable(vouchers, id, code, now))
            || (expiryRaises && exists id: nat :: Lapsed(vouchers, id, code, now)))
      && (r.NotRedeemable? ==> (Rejected(r.message), after) == ValidateOutcome(vouchers, code, now, expiryRaises))
      && (r.UpdateRaised? ==> after == vouchers)
  {
    ValidateAcceptsIff(vouchers, code, now, expiryRaises);
    var (validation, after) := ValidateOutcome(vouchers, code, now, expiryRaises);
    if validation.Accepted? {
      var id := validation.id;
      assert after == vouchers && id in vouchers;
      MarkUsedKeepsCodes(vouchers, id, now, mac);
    } else {
      ValidateStable(vouchers, code, now, expiryRaises, expiryRaises);
    }
  }

  /** Marking one voucher used changes no code, so codes stay unique. */
  lemma MarkUsedKeepsCodes(vouchers: map<nat, VoucherRow>, id: nat, now: int, mac: Option<string>)
    requires UniqueCodes(vouchers) && id in vouchers
    ensures UniqueCodes(vouchers[id := vouchers[id].(status := Used, usedAt := Some(now), usedBy := mac)])
  {
    var w := vouchers[id := vouchers[id].(status := Used, usedAt := Some(now), usedBy := mac)];
    assert forall k :: k in w ==> k in vouchers && w[k].code == vouchers[k].code;
  }

  /**
   * Once a code is redeemed, redeeming it again reports "Voucher already
   * used" and writes nothing, so no write of the second call can raise.
   */
  lemma RedeemTwice(vouchers: map<nat, VoucherRow>, code: string, mac1: Option<string>, mac2: Option<string>,
                    now1: int, now2: int, expiryRaises2: bool, raises2: bool)
    requires UniqueCodes(vouchers)
    requires RedeemOutcome(vouchers, code, mac1, now1, false, false).0.Redeemed?
    ensures var after := RedeemOutcome(vouchers, code, mac1, now1, false, false).1;
      UniqueCodes(after)
      && RedeemOutcome(after, code, mac2, now2, expiryRaises2, raises2) == (NotRedeemable(AlreadyUsed), after)
  {
    RedeemEffect(vouchers, code, mac1, now1, false, false);
    var (r, after) := RedeemOutcome(vouchers, code, mac1, now1, false, false);
    assert after[r.id].code == code && after[r.id].status == Used;
    var f := FindCode(after, code);
    assert after[f.value].code == after[r.id].code;
  }

  /** `expireOldVouchers()`: every `unused` voucher whose expiry lies before `now` becomes `expired`. */
  function ExpireSweep(vouchers: map<nat, VoucherRow>, now: int): map<nat, VoucherRow> {
    map id | id in vouchers ::
      if vouchers[id].status == Unused && vouchers[id].expiresAt < now
      then vouchers[id].(status := VoucherStatus.Expired)
      else vouchers[id]
  }

  /** The sweep flips exactly the lapsed unused vouchers, touches nothing else in them, and is idempotent. */
  lemma ExpireSweepEffect(vouchers: map<nat, VoucherRow>, now: int)
    ensures var after := ExpireSweep(vouchers, now);
      after.Keys == vouchers.Keys
      && (forall id :: id in vouchers ==>
            (after[id] != vouchers[id] <==> vouchers[id].status == Unused && vouchers[id].expiresAt < now)
            && after[id] == vouchers[id].(status := after[id].status))
      && ExpireSweep(after, now) == after
      && (UniqueCodes(vouchers) ==> UniqueCodes(after))
  {
    var after := ExpireSweep(vouchers, now);
    forall id | id in vouchers
      ensures after[id] != vouchers[id] <==> vouchers[id].status == Unused && vouchers[id].expiresAt < now
    {
      if vouchers[id].status == Unused && vouchers[id].expiresAt < now {
        assert after[id].status != vouchers[id].status;
      }
    }
  }

  /** After the sweep, validation at the same time never needs its lazy write, so it cannot raise. */
  lemma SweepThenValidate(vouchers: map<nat, VoucherRow>, code: string, now: int, expiryRaises: bool)
    requires UniqueCodes(vouchers)
    ensures UniqueCodes(ExpireSweep(vouchers, now))
    ensures var after := ExpireSweep(vouchers, now);
      ValidateOutcome(after, code, now, expiryRaises).1 == after
      && !ValidateOutcome(after, code, now, expiryRaises).0.ExpiryRaised?
  {
    ExpireSweepEffect(vouchers, now);
    var after := ExpireSweep(vouchers, now);
    if HasCode(after, code) {
      var id := FindCode(after, code).value;
      assert !(after[id].status == Unused && after[id].expiresAt < now);
    }
  }

  /** A voucher's status only ever leaves `unused`: no operation here brings a used or expired voucher back. */
  predicate StatusStep(before: VoucherStatus, after: VoucherStatus) {
    before == after || before == Unused
  }

  lemma StatusOnlyLeavesUnused(vouchers: map<nat, VoucherRow>, code: string, mac: Option<string>, now: int,
                                expiryRaises: bool, updateRaises: bool)
    requires UniqueCodes(vouchers)
    ensures var v := ValidateOutcome(vouchers, code, now, expiryRaises).1;
      v.Keys == vouchers.Keys && forall id :: id in vouchers ==> StatusStep(vouchers[id].status, v[id].status)
    ensures var r := RedeemOutcome(vouchers, code, mac, now, expiryRaises, updateRaises).1;
      r.Keys == vouchers.Keys && forall id :: id in vouchers ==> StatusStep(vouchers[id].status, r[id].status)
    ensures var s := ExpireSweep(vouchers, now);
      forall id :: id in vouchers ==> StatusStep(vouchers[id].status, s[id].status)
  {
    ValidateAcceptsIff(vouchers, code, now, expiryRaises);
  }

  /** One voucher as `generate` reports it. */
  datatype IssuedVoucher = IssuedVoucher(
    id: nat,
    code: string,
    planName: string,
    price: int,
    durationHours: int,
    dataLimitMb: Option<int>,
    expiresAt: int)

  /** What `generate` returns for a known plan. */
  datatype Batch = Batch(batchId: string, batchName: string, vouchers: seq<IssuedVoucher>)

  /**
   * How a call to `generate` ends: `false` for an unknown plan, the batch,
   * an INSERT that raised (the call never returns), or the model's finite
   * stream of random draws running out before a free code was found.
   */
  datatype Generation = NoPlan | Generated(batch: Batch) | InsertRaised | OutOfDraws

  /** The row `generate` inserts: the plan's values as they are at generation time. */
  function NewVoucher(code: string, planId: nat, batchId: string, plan: Plan, expiresAt: int, now: int): VoucherRow {
    VoucherRow(code, planId, batchId, plan.price, plan.durationHours, plan.dataLimitMb, expiresAt, Unused, now, None, None)
  }

  /** The reported voucher is a fresh row holding the plan's values, with a well-formed code. */
  predicate Recorded(vouchers: map<nat, VoucherRow>, e: IssuedVoucher, planId: nat, batchId: string, plan: Plan,
                     expiresAt: int, now: int) {
    WellFormedCode(e.code)
    && e == IssuedVoucher(e.id, e.code, plan.name, plan.price, plan.durationHours, plan.dataLimitMb, expiresAt)
    && e.id in vouchers && vouchers[e.id] == NewVoucher(e.code, planId, batchId, plan, expiresAt, now)
  }

  function IdsOf(issued: seq<IssuedVoucher>): set<nat> {
    set v | v in issued :: v.id
  }

  /** Every row of `before` is still in `vouchers`, unchanged. */
  predicate KeepsRows(before: map<nat, VoucherRow>, vouchers: map<nat, VoucherRow>) {
    forall k :: k in before ==> k in vouchers && vouchers[k] == before[k]
  }

  /** Every issued voucher has an id in `[firstId, nextId)` and is recorded in `vouchers`. */
  predicate AllRecorded(vouchers: map<nat, VoucherRow>, issued: seq<IssuedVoucher>, firstId: nat, nextId: nat,
                        planId: nat, batchId: string, plan: Plan, expiresAt: int, now: int) {
    forall j :: 0 <= j < |issued| ==>
      firstId <= issued[j].id < nextId && Recorded(vouchers, issued[j], planId, batchId, plan, expiresAt, now)
  }

  predicate IdsIncrease(issued: seq<IssuedVoucher>) {
    forall a, b :: 0 <= a < b < |issued| ==> issued[a].id < issued[b].id
  }

  /**
   * What a partly run `generate` loop has done to the table that was
   * `before` with counter `firstId`: the old rows are untouched, and the
   * new ones are exactly the issued vouchers, under increasing fresh ids.
   */
  predicate Batched(before: map<nat, VoucherRow>, firstId: nat, vouchers: map<nat, VoucherRow>, nextId: nat,
                    issued: seq<IssuedVoucher>, planId: nat, batchId: string, plan: Plan, expiresAt: int, now: int) {
    firstId <= nextId
    && KeepsRows(before, vouchers)
    && vouchers.Keys == before.Keys + IdsOf(issued)
    && AllRecorded(vouchers, issued, firstId, nextId, planId, batchId, plan, expiresAt, now)
    && IdsIncrease(issued)
  }

  lemma KeepsRowsStep(before: map<nat, VoucherRow>, vouchers: map<nat, VoucherRow>, id: nat, row: VoucherRow)
    requires KeepsRows(before, vouchers) && id !in vouchers
    ensures KeepsRows(before, vouchers[id := row])
  {
  }

  lemma IdsOfStep(issued: seq<IssuedVoucher>, entry: IssuedVoucher)
    ensures IdsOf(issued + [entry]) == IdsOf(issued) + {entry.id}
  {
    var more := issued + [entry];
    forall v | v in more ensures v in issued || v == entry { }
  }

  /** Adding a row under an id not yet in the table keeps every recorded voucher recorded. */
  lemma RecordedKept(vouchers: map<nat, VoucherRow>, id: nat, row: VoucherRow, e: IssuedVoucher,
                     planId: nat, batchId: string, plan: Plan, expiresAt: int, now: int)
    requires Recorded(vouchers, e, planId, batchId, plan, expiresAt, now) && id !in vouchers
    ensures Recorded(vouchers[id := row], e, planId, batchId, plan, expiresAt, now)
  {
  }

  lemma AllRecordedStep(vouchers: map<nat, VoucherRow>, issued: seq<IssuedVoucher>, firstId: nat, id: nat,
                        planId: nat, batchId: string, plan: Plan, expiresAt: int, now: int, code: string)
    requires AllRecorded(vouchers, issued, firstId, id, planId, batchId, plan, expiresAt, now)
    requires firstId <= id && id !in vouchers && WellFormedCode(code)
    ensures var entry := IssuedVoucher(id, code, plan.name, plan.price, plan.durationHours, plan.dataLimitMb, expiresAt);
      AllRecorded(vouchers[id := NewVoucher(code, planId, batchId, plan, expiresAt, now)], issued + [entry],
                  firstId, id + 1, planId, batchId, plan, expiresAt, now)
  {
    var entry := IssuedVoucher(id, code, plan.name, plan.price, plan.durationHours, plan.dataLimitMb, expiresAt);
    var row := NewVoucher(code, planId, batchId, plan, expiresAt, now);
    var more := issued + [entry];
    forall j | 0 <= j < |more|
      ensures firstId <= more[j].id < id + 1 && Recorded(vouchers[id := row], more[j], planId, batchId, plan, expiresAt, now)
    {
      if j < |issued| {
        assert more[j] == issued[j];
        RecordedKept(vouchers, id, row, issued[j], planId, batchId, plan, expiresAt, now);
      } else {
        assert more[j] == entry;
      }
    }
  }

  lemma IdsIncreaseStep(issued: seq<IssuedVoucher>, entry: IssuedVoucher)
    requires IdsIncrease(issued)
    requires forall j :: 0 <= j < |issued| ==> issued[j].id < entry.id
    ensures IdsIncrease(issued + [entry])
  {
    var more := issued + [entry];
    forall a, b | 0 <= a < b < |more| ensures more[a].id < more[b].id {
      assert more[a] == issued[a];
      if b < |issued| {
        assert more[b] == issued[b];
      }
    }
  }

  /** One successful INSERT under the next id extends the batch by one reported voucher. */
  lemma BatchedStep(before: map<nat, VoucherRow>, firstId: nat, vouchers: map<nat, VoucherRow>, id: nat,
                    issued: seq<IssuedVoucher>, planId: nat, batchId: string, plan: Plan, expiresAt: int, now: int,
                    code: string)
    requires Batched(before, firstId, vouchers, id, issued, planId, batchId, plan, expiresAt, now)
    requires id !in vouchers && WellFormedCode(code)
    ensures var entry := IssuedVoucher(id, code, plan.name, plan.price, plan.durationHours, plan.dataLimitMb, expiresAt);
      Batched(before, firstId, vouchers[id := NewVoucher(code, planId, batchId, plan, expiresAt, now)], id + 1,
              issued + [entry], planId, batchId, plan, expiresAt, now)
  {
    var entry := IssuedVoucher(id, code, plan.name, plan.price, plan.durationHours, plan.dataLimitMb, expiresAt);
    var row := NewVoucher(code, planId, batchId, plan, expiresAt, now);
    KeepsRowsStep(before, vouchers, id, row);
    IdsOfStep(issued, entry);
    AllRecordedStep(vouchers, issued, firstId, id, planId, batchId, plan, expiresAt, now, code);
    IdsIncreaseStep(issued, entry);
  }

  /**
   * After a partly or fully run `generate`, the old rows are untouched and
   * every row that was not there before is a fresh voucher of that plan and
   * batch, whatever its code.
   */
  lemma BatchedNewRows(before: map<nat, VoucherRow>, firstId: nat, vouchers: map<nat, VoucherRow>, nextId: nat,
                       issued: seq<IssuedVoucher>, planId: nat, batchId: string, plan: Plan, expiresAt: int, now: int)
    requires Batched(before, firstId, vouchers, nextId, issued, planId, batchId, plan, expiresAt, now)
    ensures KeepsRows(before, vouchers)
    ensures forall k :: k in vouchers && k !in before ==>
      vouchers[k] == NewVoucher(vouchers[k].code, planId, batchId, plan, expiresAt, now)
  {
    forall k | k in vouchers && k !in before
      ensures vouchers[k] == NewVoucher(vouchers[k].code, planId, batchId, plan, expiresAt, now)
    {
      assert k in IdsOf(issued);
      var j :| 0 <= j < |issued| && issued[j].id == k;
      assert Recorded(vouchers, issued[j], planId, batchId, plan, expiresAt, now);
    }
  }

  /** The code the `j`-th block of twelve draws renders to. */
  function BlockCode(draws: seq<Draw>, j: nat): string
    requires 12 * j + 12 <= |draws|
  {
    Render(draws[12 * j..])
  }

  /**
   * The first `quantity` blocks of twelve draws render to distinct codes
   * that no voucher carries yet: `generateCode()` then never draws again,
   * and a batch of that size takes exactly those codes.
   */
  predicate FreshBlocks(vouchers: map<nat, VoucherRow>, draws: seq<Draw>, quantity: int) {
    12 * quantity <= |draws|
    && (forall j :: 0 <= j < quantity ==> !HasCode(vouchers, BlockCode(draws, j)))
    && (forall a, b :: 0 <= a < b < quantity ==> BlockCode(draws, a) != BlockCode(draws, b))
  }

  /** A code in the table after a partly run batch was there before or was issued by the batch. */
  lemma BatchedCodes(before: map<nat, VoucherRow>, firstId: nat, vouchers: map<nat, VoucherRow>, nextId: nat,
                     issued: seq<IssuedVoucher>, planId: nat, batchId: string, plan: Plan, expiresAt: int, now: int,
                     c: string)
    requires Batched(before, firstId, vouchers, nextId, issued, planId, batchId, plan, expiresAt, now)
    ensures HasCode(vouchers, c) ==> HasCode(before, c) || exists j :: 0 <= j < |issued| && issued[j].code == c
  {
    if k :| k in vouchers && vouchers[k].code == c && k !in before {
      assert k in IdsOf(issued);
      var j :| 0 <= j < |issued| && issued[j].id == k;
      assert Recorded(vouchers, issued[j], planId, batchId, plan, expiresAt, now);
    }
  }

  /**
   * With fresh blocks, the `i`-th call of `generateCode()` in a batch takes
   * the `i`-th block and leaves the stream at the next one.
   */
  lemma FreshDraw(before: map<nat, VoucherRow>, firstId: nat, vouchers: map<nat, VoucherRow>, nextId: nat,
                  issued: seq<IssuedVoucher>, planId: nat, batchId: string, plan: Plan, expiresAt: int, now: int,
                  draws: seq<Draw>, quantity: int, stream: seq<Draw>)
    requires Batched(before, firstId, vouchers, nextId, issued, planId, batchId, plan, expiresAt, now)
    requires FreshBlocks(before, draws, quantity) && |issued| < quantity
    requires OnBlocks(draws, stream, issued)
    ensures 12 * (|issued| + 1) <= |draws|
    ensures FirstFree(vouchers, stream) == (Some(BlockCode(draws, |issued|)), draws[12 * (|issued| + 1)..])
  {
    var i := |issued|;
    var c := BlockCode(draws, i);
    BatchedCodes(before, firstId, vouchers, nextId, issued, planId, batchId, plan, expiresAt, now, c);
    assert !HasCode(vouchers, c);
    assert draws[12 * i..][12..] == draws[12 * (i + 1)..];
  }

  /**
   * A batch drawn from fresh blocks after `|issued|` vouchers: the stream
   * stands at the next block and each voucher so far carries its block's code.
   */
  predicate OnBlocks(draws: seq<Draw>, stream: seq<Draw>, issued: seq<IssuedVoucher>) {
    12 * |issued| <= |draws| && stream == draws[12 * |issued|..]
    && forall j :: 0 <= j < |issued| ==> issued[j].code == BlockCode(draws, j)
  }

  lemma OnBlocksStep(draws: seq<Draw>, stream: seq<Draw>, issued: seq<IssuedVoucher>, entry: IssuedVoucher)
    requires OnBlocks(draws, stream, issued) && 12 * (|issued| + 1) <= |draws|
    requires entry.code == BlockCode(draws, |issued|)
    ensures OnBlocks(draws, draws[12 * (|issued| + 1)..], issued + [entry])
  {
    var more := issued + [entry];
    forall j | 0 <= j < |more| ensures more[j].code == BlockCode(draws, j) {
      if j < |issued| {
        assert more[j] == issued[j];
      }
    }
  }

  /** What is left of a suffix of a suffix is a suffix. */
  lemma SuffixOfSuffix(draws: seq<Draw>, stream: seq<Draw>, rest: seq<Draw>)
    requires |stream| <= |draws| && stream == draws[|draws| - |stream|..]
    requires |rest| <= |stream| && rest == stream[|stream| - |rest|..]
    ensures rest == draws[|draws| - |rest|..]
  {
  }

  /** Counts and revenue over the whole voucher table; a SUM over no rows is NULL. */
  datatype VoucherStats = VoucherStats(
    total: nat,
    unused: Option<int>,
    used: Option<int>,
    expired: Option<int>,
    totalRevenue: Option<int>)

  function StatusIndicator(vouchers: map<nat, VoucherRow>, status: VoucherStatus): nat -> int {
    k => if k in vouchers && vouchers[k].status == status then 1 else 0
  }

  function UsedPrice(vouchers: map<nat, VoucherRow>): nat -> int {
    k => if k in vouchers && vouchers[k].status == Used then vouchers[k].price else 0
  }

  /** `SUM(...)` over the table: NULL when the table is empty. */
  ghost function SumColumn(vouchers: map<nat, VoucherRow>, f: nat -> int): Option<int> {
    if |vouchers| == 0 then None else Some(Query.SumOver(vouchers.Keys, f))
  }

  /** Every voucher is counted under exactly one status. */
  lemma StatsPartition(vouchers: map<nat, VoucherRow>)
    ensures Query.SumOver(vouchers.Keys, StatusIndicator(vouchers, Unused))
          + Query.SumOver(vouchers.Keys, StatusIndicator(vouchers, Used))
          + Query.SumOver(vouchers.Keys, StatusIndicator(vouchers, VoucherStatus.Expired)) == |vouchers|
  {
    var u := StatusIndicator(vouchers, Unused);
    var s := StatusIndicator(vouchers, Used);
    var e := StatusIndicator(vouchers, VoucherStatus.Expired);
    var us: nat -> int := (k: nat) => u(k) + s(k);
    var all: nat -> int := (k: nat) => us(k) + e(k);
    Query.SumOverPlus(vouchers.Keys, u, s, us);
    Query.SumOverPlus(vouchers.Keys, us, e, all);
    Query.SumOverOnes(vouchers.Keys, all);
  }

  /** The voucher store over a database connection. */
  class Voucher {
    const conn: Db

    constructor(db: Db)
      ensures conn == db
    {
      conn := db;
    }

    /** `generateCode()`: draw twelve symbols, and draw again while the candidate is taken. */
    method GenerateCode(draws: seq<Draw>) returns (code: Option<string>, rest: seq<Draw>)
      ensures (code, rest) == FirstFree(conn.vouchers, draws)
      decreases |draws|
    {
      if |draws| < 12 {
        return None, draws;
      }
      var candidate := "";
      var i := 0;
      while i < 12
        invariant 0 <= i <= 12
        invariant candidate == CodePrefix(draws, i)
      {
        if i > 0 && i % 4 == 0 {
          candidate := candidate + "-";
        }
        candidate := candidate + [Alphabet[draws[i]]];
        i := i + 1;
      }
      if HasCode(conn.vouchers, candidate) {
        code, rest := GenerateCode(draws[12..]);
      } else {
        code, rest := Some(candidate), draws[12..];
      }
    }

    /** The INSERT of one generated voucher under the next auto-increment id. */
    method InsertVoucher(row: VoucherRow) returns (id: nat)
      requires conn.Valid()
      requires !HasCode(conn.vouchers, row.code)
      modifies conn`vouchers, conn`nextVoucherId
      ensures conn.Valid()
      ensures id == old(conn.nextVoucherId) && id !in old(conn.vouchers)
      ensures conn.vouchers == old(conn.vouchers)[id := row] && conn.nextVoucherId == id + 1
    {
      id := conn.nextVoucherId;
      conn.vouchers := conn.vouchers[id := row];
      conn.nextVoucherId := id + 1;
      assert UniqueCodes(conn.vouchers) by {
        forall a, b | a in conn.vouchers && b in conn.vouchers && conn.vouchers[a].code == conn.vouchers[b].code
          ensures a == b
        {
          if a != id && b != id {
            assert old(conn.vouchers)[a].code == old(conn.vouchers)[b].code;
          }
        }
      }
    }

    /**
     * One turn of `generate`'s loop: `generateCode()`, then the INSERT of a
     * voucher under the next id, which raises when `insertRaises` holds.
     * `before`, `firstId` and `issued` describe the batch so far; with fresh
     * blocks the turn takes the next block's code.
     */
    method IssueNext(planId: nat, batchId: string, plan: Plan, expiresAt: int, now: int, stream: seq<Draw>,
                     insertRaises: bool, ghost before: map<nat, VoucherRow>, ghost firstId: nat,
                     ghost issued: seq<IssuedVoucher>, ghost draws: seq<Draw>, ghost quantity: int)
      returns (code: Option<string>, rest: seq<Draw>, entry: Option<IssuedVoucher>)
      requires conn.Valid()
      requires Batched(before, firstId, conn.vouchers, conn.nextVoucherId, issued, planId, batchId, plan, expiresAt, now)
      requires |stream| <= |draws| && stream == draws[|draws| - |stream|..]
      requires FreshBlocks(before, draws, quantity) ==> |issued| < quantity && OnBlocks(draws, stream, issued)
      modifies conn`vouchers, conn`nextVoucherId
      ensures conn.Valid()
      ensures |rest| <= |draws| && rest == draws[|draws| - |rest|..]
      ensures code.None? ==> |rest| < 12
      ensures FreshBlocks(before, draws, quantity) ==> code.Some?
      ensures entry.Some? <==> code.Some? && !insertRaises
      ensures entry.None? ==> conn.vouchers == old(conn.vouchers) && conn.nextVoucherId == old(conn.nextVoucherId)
      ensures entry.Some? ==>
        conn.nextVoucherId == old(conn.nextVoucherId) + 1
        && Batched(before, firstId, conn.vouchers, conn.nextVoucherId, issued + [entry.value],
                   planId, batchId, plan, expiresAt, now)
        && (FreshBlocks(before, draws, quantity) ==> OnBlocks(draws, rest, issued + [entry.value]))
    {
      ghost var enough := FreshBlocks(before, draws, quantity);
      if enough {
        FreshDraw(before, firstId, conn.vouchers, conn.nextVoucherId, issued, planId, batchId, plan, expiresAt, now,
                  draws, quantity, stream);
      }
      code, rest := GenerateCode(stream);
      SuffixOfSuffix(draws, stream, rest);
      if code.None? || insertRaises {
        return code, rest, None;
      }
      ghost var table := conn.vouchers;
      var id := InsertVoucher(NewVoucher(code.value, planId, batchId, plan, expiresAt, now));
      var issuedVoucher := IssuedVoucher(id, code.value, plan.name, plan.price, plan.durationHours, plan.dataLimitMb, expiresAt);
      BatchedStep(before, firstId, table, id, issued, planId, batchId, plan, expiresAt, now, code.value);
      if enough {
        OnBlocksStep(draws, stream, issued, issuedVoucher);
      }
      return code, rest, Some(issuedVoucher);
    }

    /**
     * `generate($plan_id, $quantity, $batch_name)`. `batchId` is the
     * `uniqid('batch_')` value and `raisesAt` the loop iteration, if any,
     * whose INSERT raises. There is no transaction, so the rows inserted
     * before a raising INSERT stay; `written` is what the table gained, in
     * loop order, and `leftover` what is left of the draws.
     */
    method Generate(planId: nat, quantity: int, batchName: Option<string>, batchId: string, now: int,
                    draws: seq<Draw>, raisesAt: Option<nat>)
      returns (r: Generation, ghost written: seq<IssuedVoucher>, ghost leftover: seq<Draw>)
      requires conn.Valid()
      modifies conn`vouchers, conn`nextVoucherId
      ensures conn.Valid()
      ensures r.NoPlan? <==> planId !in conn.plans
      ensures r.NoPlan? ==> conn.vouchers == old(conn.vouchers) && conn.nextVoucherId == old(conn.nextVoucherId)
      ensures !r.NoPlan? ==>
        Batched(old(conn.vouchers), old(conn.nextVoucherId), conn.vouchers, conn.nextVoucherId, written,
                planId, batchId, conn.plans[planId], now + ExpiryDays * SecondsPerDay, now)
        && conn.nextVoucherId == old(conn.nextVoucherId) + |written|
        && |written| <= (if quantity < 0 then 0 else quantity)
        && (raisesAt.Some? ==> |written| <= raisesAt.value)
      ensures r.Generated? ==>
        r.batch == Batch(batchId, OrElse(batchName, batchId), written)
        && |written| == (if quantity < 0 then 0 else quantity)
      ensures r.InsertRaised? ==> raisesAt == Some(|written|) && |written| < quantity
      ensures r.OutOfDraws? ==> |written| < quantity
      ensures !r.NoPlan? ==> |leftover| <= |draws| && leftover == draws[|draws| - |leftover|..]
      ensures r.OutOfDraws? ==> |leftover| < 12
      ensures !r.NoPlan? && !r.OutOfDraws? ==> (r.InsertRaised? <==> raisesAt.Some? && raisesAt.value < quantity)
      ensures planId in conn.plans && FreshBlocks(old(conn.vouchers), draws, quantity) ==>
        !r.OutOfDraws? && forall j :: 0 <= j < |written| ==> written[j].code == BlockCode(draws, j)
    {
      written, leftover := [], draws;
      if planId !in conn.plans {
        return NoPlan, written, leftover;
      }
      var plan := conn.plans[planId];
      var expiresAt := now + ExpiryDays * SecondsPerDay;
      ghost var enough := FreshBlocks(old(conn.vouchers), draws, quantity);
      var issued: seq<IssuedVoucher> := [];
      var stream := draws;
      var i := 0;
      while i < quantity
        invariant conn.Valid()
        invariant 0 <= i <= (if quantity < 0 then 0 else quantity) && |issued| == i
        invariant raisesAt.Some? ==> i <= raisesAt.value
        invariant conn.nextVoucherId == old(conn.nextVoucherId) + i
        invariant Batched(old(conn.vouchers), old(conn.nextVoucherId), conn.vouchers, conn.nextVoucherId, issued,
                          planId, batchId, plan, expiresAt, now)
        invariant |stream| <= |draws| && stream == draws[|draws| - |stream|..]
        invariant enough ==> OnBlocks(draws, stream, issued)
        decreases quantity - i
      {
        var code, rest, entry := IssueNext(planId, batchId, plan, expiresAt, now, stream,
                                           raisesAt.Some? && raisesAt.value == i,
                                           old(conn.vouchers), old(conn.nextVoucherId), issued, draws, quantity);
        stream := rest;
        if code.None? {
          return OutOfDraws, issued, stream;
        }
        if entry.None? {
          return InsertRaised, issued, stream;
        }
        issued := issued + [entry.value];
        i := i + 1;
      }
      return Generated(Batch(batchId, OrElse(batchName, batchId), issued)), issued, stream;
    }

    /** `updateStatus($id, $status)`; `raises` is whether the UPDATE raises. */
    method UpdateStatus(id: nat, status: VoucherStatus, raises: bool) returns (r: Exec<bool>)
      requires conn.Valid()
      modifies conn`vouchers
      ensures conn.Valid()
      ensures r == if raises then Raised else Done(true)
      ensures conn.vouchers == if raises then old(conn.vouchers) else SetStatus(old(conn.vouchers), id, status)
    {
      if raises {
        return Raised;
      }
      conn.vouchers := SetStatus(conn.vouchers, id, status);
      assert forall k :: k in conn.vouchers ==> conn.vouchers[k].code == old(conn.vouchers)[k].code;
      return Done(true);
    }

    /**
     * `validate($code)` at time `now`, with its lazy `unused -> expired`
     * write; `expiryRaises` is whether that write raises.
     */
    method Validate(code: string, now: int, expiryRaises: bool) returns (r: Validation)
      requires conn.Valid()
      modifies conn`vouchers
      ensures conn.Valid()
      ensures (r, conn.vouchers) == ValidateOutcome(old(conn.vouchers), code, now, expiryRaises)
    {
      var found := FindCode(conn.vouchers, code);
      if found.None? {
        return Rejected(InvalidCode);
      }
      var v := conn.vouchers[found.value];
      if v.status == Used {
        return Rejected(AlreadyUsed);
      }
      if v.status == VoucherStatus.Expired {
        return Rejected(HasExpired);
      }
      if v.expiresAt < now {
        var written := UpdateStatus(found.value, VoucherStatus.Expired, expiryRaises);
        if written.Raised? {
          return ExpiryRaised;
        }
        return Rejected(HasExpired);
      }
      return Accepted(found.value, v);
    }

    /**
     * `redeem($code, $mac_address)` at time `now`; `expiryRaises` and
     * `updateRaises` are whether the expiry and the redeeming UPDATE raise.
     */
    method Redeem(code: string, mac: Option<string>, now: int, expiryRaises: bool, updateRaises: bool)
      returns (r: Redemption)
      requires conn.Valid()
      modifies conn`vouchers
      ensures conn.Valid()
      ensures (r, conn.vouchers) == RedeemOutcome(old(conn.vouchers), code, mac, now, expiryRaises, updateRaises)
    {
      RedeemEffect(conn.vouchers, code, mac, now, expiryRaises, updateRaises);
      var validation := Validate(code, now, expiryRaises);
      if validation.ExpiryRaised? {
        return UpdateRaised;
      }
      if validation.Rejected? {
        return NotRedeemable(validation.message);
      }
      if updateRaises {
        return UpdateRaised;
      }
      var id := validation.id;
      conn.vouchers := conn.vouchers[id := validation.voucher.(status := Used, usedAt := Some(now), usedBy := mac)];
      return Redeemed(id, validation.voucher);
    }

    /** `expireOldVouchers()` at time `now`; `raises` is whether the UPDATE raises. */
    method ExpireOldVouchers(now: int, raises: bool) returns (r: Exec<bool>)
      requires conn.Valid()
      modifies conn`vouchers
      ensures conn.Valid()
      ensures r == if raises then Raised else Done(true)
      ensures conn.vouchers == if raises then old(conn.vouchers) else ExpireSweep(old(conn.vouchers), now)
    {
      if raises {
        return Raised;
      }
      ExpireSweepEffect(conn.vouchers, now);
      conn.vouchers := ExpireSweep(conn.vouchers, now);
      return Done(true);
    }

    /** `getStats()`: the location argument is accepted and ignored. */
    method GetStats(locationId: Option<nat>) returns (s: VoucherStats)
      ensures s.total == |conn.vouchers|
      ensures s.unused == SumColumn(conn.vouchers, StatusIndicator(conn.vouchers, Unused))
      ensures s.used == SumColumn(conn.vouchers, StatusIndicator(conn.vouchers, Used))
      ensures s.expired == SumColumn(conn.vouchers, StatusIndicator(conn.vouchers, VoucherStatus.Expired))
      ensures s.totalRevenue == SumColumn(conn.vouchers, UsedPrice(conn.vouchers))
    {
      var vs := conn.vouchers;
      if |vs| == 0 {
        return VoucherStats(0, None, None, None, None);
      }
      var unused := Query.SumKeys(vs.Keys, StatusIndicator(vs, Unused));
      var used := Query.SumKeys(vs.Keys, StatusIndicator(vs, Used));
      var expired := Query.SumKeys(vs.Keys, StatusIndicator(vs, VoucherStatus.Expired));
      var revenue := Query.SumKeys(vs.Keys, UsedPrice(vs));
      return VoucherStats(|vs|, Some(unused), Some(used), Some(expired), Some(revenue));
    }
  }
}
