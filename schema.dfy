/**
 * The MySQL tables the models read and write, as maps from primary key to
 * row, together with the tables' auto-increment counters. One `Db` object is
 * the connection every model object is built around.
 */
module Schema {
  import opened Common
  import opened Php

  datatype VoucherStatus = Unused | Used | Expired

  datatype SessionStatus = Active | Terminated | Expired

  /**
   * The outcome of a write statement. The connection is opened with
   * `PDO::ERRMODE_EXCEPTION` (`config/database.php:17`), so a statement that
   * fails raises a `PDOException` instead of returning false: `execute()`
   * either succeeds or raises, and a failed statement leaves its table as it
   * was.
   */
  datatype Exec<+T> = Done(value: T) | Raised

  /** A row of `plans`. Prices are integers in minor units. */
  datatype Plan = Plan(
    name: string,
    description: string,
    price: int,
    durationHours: int,
    dataLimitMb: Option<int>,
    bandwidthUp: Option<int>,
    bandwidthDown: Option<int>,
    validityDays: Option<int>,
    status: string,
    locationId: Option<nat>)

  /** A row of `vouchers`; price, duration and data limit are copies of the plan's at generation time. */
  datatype VoucherRow = VoucherRow(
    code: string,
    planId: nat,
    batchId: string,
    price: int,
    durationHours: int,
    dataLimitMb: Option<int>,
    expiresAt: int,
    status: VoucherStatus,
    createdAt: int,
    usedAt: Option<int>,
    usedBy: Option<string>)

  /** A row of `sessions`; `deviceInfo` is the value that is stored JSON-encoded. */
  datatype SessionRow = SessionRow(
    controllerId: nat,
    macAddress: string,
    ipAddress: string,
    username: Option<string>,
    planId: Option<nat>,
    voucherId: Option<nat>,
    startTime: int,
    endTime: Option<int>,
    durationMinutes: Option<int>,
    dataUsedMb: Option<int>,
    status: SessionStatus,
    deviceInfo: Option<Json>)

  /** A row of `controllers`; `password` holds the stored (base64) text, never the plaintext. */
  datatype ControllerRow = ControllerRow(
    name: string,
    ipAddress: string,
    port: int,
    username: string,
    password: string,
    siteId: string,
    locationId: Option<nat>,
    status: string,
    version: Option<string>)

  /** No two vouchers share a code. */
  predicate UniqueCodes(vouchers: map<nat, VoucherRow>) {
    forall i, j :: i in vouchers && j in vouchers && vouchers[i].code == vouchers[j].code ==> i == j
  }

  /** Some voucher carries this code (`SELECT id FROM vouchers WHERE code = :code` finds a row). */
  predicate HasCode(vouchers: map<nat, VoucherRow>, code: string) {
    exists id :: id in vouchers && vouchers[id].code == code
  }

  /** Every key of a table lies below its auto-increment counter, which starts at 1. */
  predicate KeysBelow<T>(table: map<nat, T>, next: nat) {
    1 <= next && forall id :: id in table ==> 1 <= id < next
  }

  /** The database connection: the tables and their auto-increment counters. */
  class Db {
    var plans: map<nat, Plan>
    var vouchers: map<nat, VoucherRow>
    var sessions: map<nat, SessionRow>
    var controllers: map<nat, ControllerRow>
    var nextVoucherId: nat
    var nextSessionId: nat
    var nextControllerId: nat

    predicate Valid()
      reads this
    {
      KeysBelow(vouchers, nextVoucherId)
      && KeysBelow(sessions, nextSessionId)
      && KeysBelow(controllers, nextControllerId)
      && UniqueCodes(vouchers)
    }

    constructor(plans: map<nat, Plan>)
      ensures Valid()
      ensures this.plans == plans
      ensures vouchers == map[] && sessions == map[] && controllers == map[]
    {
      this.plans := plans;
      vouchers := map[];
      sessions := map[];
      controllers := map[];
      nextVoucherId := 1;
      nextSessionId := 1;
      nextControllerId := 1;
    }
  }
}
