/**
 * The gift-code pool (database/crud.py): one row per pre-generated code,
 * read by `get_free_code` and updated by `mark_code_used`. Row identity is
 * the row's position, standing for the table's primary key.
 */
module Crud {
  import opened Wrappers
  import opened PyJson

  /** The moment `datetime.utcnow()` returns; the caller supplies it. */
  type Timestamp = nat

  /** What `mark_code_used` stores as `used_by_order_id`: the order
      identifier exactly as the webhook read it from the payload. */
  type OrderRef = Json

  /** A row of the pool, with the fields crud.py reads and writes. */
  datatype GiftCode = GiftCode(
    code: string,
    value: int,
    isUsed: bool,
    usedByOrderId: Option<OrderRef>,
    usedAt: Option<Timestamp>)

  /** The selection `value == v AND is_used == False`. */
  predicate IsFree(r: GiftCode, value: int) {
    r.value == value && !r.isUsed
  }

  /** The row after `mark_code_used(db, r, orderId)` at time `now`. */
  function MarkUsed(r: GiftCode, orderId: OrderRef, now: Timestamp): (u: GiftCode)
    ensures u.code == r.code && u.value == r.value
    ensures u.isUsed && u.usedByOrderId == Some(orderId) && u.usedAt == Some(now)
  {
    r.(isUsed := true, usedByOrderId := Some(orderId), usedAt := Some(now))
  }

  /** The `unique=True` constraint on the code column. */
  ghost predicate CodesUnique(rows: seq<GiftCode>) {
    forall i, j :: 0 <= i < j < |rows| ==> rows[i].code != rows[j].code
  }

  /** How many rows `get_free_code(v)` can choose from. */
  function FreeCount(rows: seq<GiftCode>, value: int): nat {
    if rows == [] then 0
    else (if IsFree(rows[0], value) then 1 else 0) + FreeCount(rows[1..], value)
  }

  /** No free row of value v exists exactly when the free count of v is zero. */
  lemma {:induction false} FreeCountZero(rows: seq<GiftCode>, value: int)
    ensures FreeCount(rows, value) == 0 <==> forall i :: 0 <= i < |rows| ==> !IsFree(rows[i], value)
  {
    if rows != [] {
      FreeCountZero(rows[1..], value);
      assert forall i :: 1 <= i < |rows| ==> rows[i] == rows[1..][i - 1];
    }
  }

  /** Replacing one row changes each free count by that row's contribution alone. */
  lemma {:induction false} FreeCountAfterUpdate(rows: seq<GiftCode>, i: nat, r: GiftCode, value: int)
    requires i < |rows|
    ensures FreeCount(rows[i := r], value)
         == FreeCount(rows, value) - (if IsFree(rows[i], value) then 1 else 0) + (if IsFree(r, value) then 1 else 0)
  {
    if i > 0 {
      assert rows[i := r][1..] == rows[1..][i - 1 := r];
      FreeCountAfterUpdate(rows[1..], i - 1, r, value);
    } else {
      assert rows[i := r][1..] == rows[1..];
    }
  }

  /** Marking a free row of value v used lowers the free count of v by
      exactly one and leaves the free count of every other value alone. */
  lemma ClaimLowersFreeCount(rows: seq<GiftCode>, i: nat, orderId: OrderRef, now: Timestamp)
    requires i < |rows| && !rows[i].isUsed
    ensures forall value ::
      FreeCount(rows[i := MarkUsed(rows[i], orderId, now)], value)
        == FreeCount(rows, value) - (if value == rows[i].value then 1 else 0)
  {
    forall value
      ensures FreeCount(rows[i := MarkUsed(rows[i], orderId, now)], value)
        == FreeCount(rows, value) - (if value == rows[i].value then 1 else 0)
    {
      FreeCountAfterUpdate(rows, i, MarkUsed(rows[i], orderId, now), value);
    }
  }

  /** Marking a row used keeps its code, so code uniqueness survives. */
  lemma MarkUsedKeepsCodesUnique(rows: seq<GiftCode>, i: nat, orderId: OrderRef, now: Timestamp)
    requires i < |rows| && CodesUnique(rows)
    ensures CodesUnique(rows[i := MarkUsed(rows[i], orderId, now)])
  {
  }

  /** The `gift_codes` table as seen through one session. */
  class CodeStore {
    var rows: seq<GiftCode>

    ghost predicate Valid()
      reads this
    {
      CodesUnique(rows)
    }

    constructor (initial: seq<GiftCode>)
      requires CodesUnique(initial)
      ensures Valid() && rows == initial
    {
      rows := initial;
    }

    /** `get_free_code(db, value)`: some free row of that value, the table
        choosing which (`limit(1)` without an ORDER BY), or none. */
    method GetFreeCode(value: int) returns (found: Option<nat>)
      ensures found.None? <==> FreeCount(rows, value) == 0
      ensures found.Some? ==> found.value < |rows| && IsFree(rows[found.value], value)
    {
      FreeCountZero(rows, value);
      if exists i :: 0 <= i < |rows| && IsFree(rows[i], value) {
        var i :| 0 <= i < |rows| && IsFree(rows[i], value);
        found := Some(i);
      } else {
        found := None;
      }
    }

    /** `mark_code_used(db, code, order_id)`: flips one row to used by the
        order at time `now`, commits, and returns the same row. */
    method MarkCodeUsed(id: nat, orderId: OrderRef, now: Timestamp) returns (used: GiftCode)
      requires id < |rows| && Valid()
      modifies this
      ensures Valid()
      ensures rows == old(rows)[id := MarkUsed(old(rows)[id], orderId, now)]
      ensures used == rows[id]
    {
      MarkUsedKeepsCodesUnique(rows, id, orderId, now);
      rows := rows[id := MarkUsed(rows[id], orderId, now)];
      used := rows[id];
    }
  }
}
