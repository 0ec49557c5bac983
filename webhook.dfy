/**
 * The order webhook (`webhook_order` in main.py): classify the payload,
 * check payment, pick the gift-card lines, claim codes from the pool line
 * by line, name one voucher file per claimed code and decide which
 * notifications go out.
 */
module Webhook {
  import opened Wrappers
  import opened PyJson
  import opened Decimal
  import opened Crud

  /** `GIFT_PRODUCT_ID`: the shop's product id of the gift card. */
  const GiftProductId: int := 14409

  /** `SIZE_TO_VALUE`: size variant name to face value. */
  const SizeToValue: map<string, int> :=
    map["100 zł" := 100, "200 zł" := 200, "300 zł" := 300, "500 zł" := 500]

  // ---------------------------------------------------------------
  //  Triage: Results, the order section and payment (main.py:111-144)
  // ---------------------------------------------------------------

  datatype Triage =
    | Ignore
    | Unpaid(orderId: Json)
    | Paid(orderId: Json, clientEmail: Json, products: Json)

  /** A prepaid entry with `paymentStatus == "y"`. */
  predicate PaidPrepaid(p: Json) {
    p.Object? && Get(p.entries, "paymentStatus") == Str("y")
  }

  /** `any(p.get("paymentStatus") == "y" for p in prepaids)`: stops at the
      first paid entry; a non-dict met before one raises AttributeError. */
  function AnyPaid(prepaids: seq<Json>): Result<bool, PyError> {
    if prepaids == [] then Ok(false)
    else if !prepaids[0].Object? then Err(AttributeError)
    else if PaidPrepaid(prepaids[0]) then Ok(true)
    else AnyPaid(prepaids[1..])
  }

  /** The order is paid exactly when some prepaid entry says "y" and no
      non-dict entry comes before it; it is unpaid exactly when every entry
      is a dict and none says "y". */
  lemma {:induction false} AnyPaidIff(prepaids: seq<Json>)
    ensures AnyPaid(prepaids) == Ok(true) <==>
      exists k :: 0 <= k < |prepaids| && PaidPrepaid(prepaids[k]) && forall j :: 0 <= j < k ==> prepaids[j].Object?
    ensures AnyPaid(prepaids) == Ok(false) <==>
      forall k :: 0 <= k < |prepaids| ==> prepaids[k].Object? && !PaidPrepaid(prepaids[k])
  {
    if prepaids != [] {
      var tail := prepaids[1..];
      AnyPaidIff(tail);
      assert forall k :: 1 <= k < |prepaids| ==> prepaids[k] == tail[k - 1];
      if AnyPaid(prepaids) == Ok(true) && !PaidPrepaid(prepaids[0]) {
        var k :| 0 <= k < |tail| && PaidPrepaid(tail[k]) && forall j :: 0 <= j < k ==> tail[j].Object?;
        assert PaidPrepaid(prepaids[k + 1]) && forall j :: 0 <= j < k + 1 ==> prepaids[j].Object?;
      }
      if exists k :: 0 <= k < |prepaids| && PaidPrepaid(prepaids[k]) && forall j :: 0 <= j < k ==> prepaids[j].Object? {
        var k :| 0 <= k < |prepaids| && PaidPrepaid(prepaids[k]) && forall j :: 0 <= j < k ==> prepaids[j].Object?;
        if k > 0 {
          assert PaidPrepaid(tail[k - 1]) && forall j :: 0 <= j < k - 1 ==> tail[j].Object?;
        }
      }
    }
  }

  /** Lines 111-144: everything the handler decides before it looks at the
      products. `payload.get` needs a dict; `payload["Results"][0]` needs a
      list (a str yields a str, whose `.get` fails); the nested
      `.get(..., {})` lookups need dicts along the way. */
  function TriagePayload(payload: Json): Result<Triage, PyError> {
    if !payload.Object? then Err(AttributeError)
    else
      var results := Get(payload.entries, "Results");
      if !Truthy(results) then Ok(Ignore)
      else match First(results)
        case Err(e) => Err(e)
        case Ok(order) =>
          if !order.Object? then Err(AttributeError)
          else
            var orderId := Get(order.entries, "orderId");
            var clientResult := GetOr(order.entries, "clientResult", Object([]));
            if !clientResult.Object? then Err(AttributeError)
            else
              var clientAccount := GetOr(clientResult.entries, "clientAccount", Object([]));
              if !clientAccount.Object? then Err(AttributeError)
              else
                var clientEmail := Get(clientAccount.entries, "clientEmail");
                var details := GetOr(order.entries, "orderDetails", Object([]));
                if !details.Object? then Err(AttributeError)
                else
                  var products := GetOr(details.entries, "productsResults", List([]));
                  var prepaids := GetOr(details.entries, "prepaids", List([]));
                  match Iterate(prepaids)
                  case Err(e) => Err(e)
                  case Ok(items) =>
                    match AnyPaid(items)
                    case Err(e) => Err(e)
                    case Ok(paid) => if paid then Ok(Paid(orderId, clientEmail, products)) else Ok(Unpaid(orderId))
  }

  /** A dict payload is ignored exactly when its `Results` is missing or falsy. */
  lemma IgnoredIffNoResults(payload: Json)
    ensures TriagePayload(payload) == Ok(Ignore) <==> payload.Object? && !Truthy(Get(payload.entries, "Results"))
  {
  }

  // ---------------------------------------------------------------
  //  Gift-card lines (main.py:156-191)
  // ---------------------------------------------------------------

  /** One entry of `gift_lines`. */
  datatype GiftLine = GiftLine(productId: int, quantity: Json, name: Json, size: string, value: int)

  /** A product the loop keeps: a dict with product id 14409 and a size
      name `SIZE_TO_VALUE` knows. */
  predicate IsGiftProduct(p: Json) {
    && p.Object?
    && Get(p.entries, "productId") == Int(GiftProductId)
    && Get(p.entries, "sizePanelName").Str?
    && Get(p.entries, "sizePanelName").s in SizeToValue
  }

  /** The line the loop appends for a kept product. */
  function GiftLineFor(p: Json): (l: GiftLine)
    requires IsGiftProduct(p)
    ensures l.productId == GiftProductId && l.size in SizeToValue && l.value == SizeToValue[l.size]
    ensures l.size == Get(p.entries, "sizePanelName").s
    ensures l.quantity == GetOr(p.entries, "productQuantity", Int(1))
    ensures Lookup(p.entries, "productQuantity").None? ==> l.quantity == Int(1)
    ensures l.name == Get(p.entries, "productName")
  {
    var size := Get(p.entries, "sizePanelName").s;
    GiftLine(GiftProductId, GetOr(p.entries, "productQuantity", Int(1)), Get(p.entries, "productName"), size, SizeToValue[size])
  }

  /** One pass of the loop body on product `p`: `p.get` needs a dict, and
      `SIZE_TO_VALUE.get(size)` raises TypeError on an unhashable size. */
  function LineStep(p: Json): Result<Option<GiftLine>, PyError> {
    if !p.Object? then Err(AttributeError)
    else
      var size := Get(p.entries, "sizePanelName");
      if Get(p.entries, "productId") != Int(GiftProductId) then Ok(None)
      else if !Hashable(size) then Err(TypeError)
      else if IsGiftProduct(p) then Ok(Some(GiftLineFor(p)))
      else Ok(None)
  }

  function OptionToSeq(o: Option<GiftLine>): seq<GiftLine> {
    match o
    case Some(l) => [l]
    case None => []
  }

  function Prepend(front: seq<GiftLine>, r: Result<seq<GiftLine>, PyError>): Result<seq<GiftLine>, PyError> {
    match r
    case Ok(rest) => Ok(front + rest)
    case Err(e) => Err(e)
  }

  lemma PrependAppend(a: seq<GiftLine>, b: seq<GiftLine>, r: Result<seq<GiftLine>, PyError>)
    ensures Prepend(a, Prepend(b, r)) == Prepend(a + b, r)
  {
    if r.Ok? {
      assert a + (b + r.value) == (a + b) + r.value;
    }
  }

  /** `gift_lines` after the loop over the product items, or the first
      exception the loop raises. */
  function GiftLinesOf(items: seq<Json>): Result<seq<GiftLine>, PyError> {
    if items == [] then Ok([])
    else match LineStep(items[0])
      case Err(e) => Err(e)
      case Ok(l) => Prepend(OptionToSeq(l), GiftLinesOf(items[1..]))
  }

  /** The products the loop can read without raising: every item a dict,
      and every gift-card item with a hashable size. */
  predicate ProductsReadable(items: seq<Json>) {
    forall k :: 0 <= k < |items| ==>
      items[k].Object? &&
      (Get(items[k].entries, "productId") == Int(GiftProductId) ==> Hashable(Get(items[k].entries, "sizePanelName")))
  }

  /** The gift products among the items, in product order. */
  function GiftProducts(items: seq<Json>): (r: seq<Json>)
    ensures forall k :: 0 <= k < |r| ==> IsGiftProduct(r[k])
  {
    if items == [] then []
    else
      (if IsGiftProduct(items[0]) then [items[0]] else []) + GiftProducts(items[1..])
  }

  /** Nothing is lost or invented: each gift product of known size occurs
      among the kept products as often as among the items, and no other
      product occurs there. */
  lemma {:induction false} GiftProductsComplete(items: seq<Json>)
    ensures forall x :: multiset(GiftProducts(items))[x] == (if IsGiftProduct(x) then multiset(items)[x] else 0)
  {
    if items != [] {
      GiftProductsComplete(items[1..]);
      assert items == [items[0]] + items[1..];
      assert multiset(items) == multiset{items[0]} + multiset(items[1..]);
    }
  }

  /** The loop raises exactly when the products are not readable. */
  lemma {:induction false} GiftLinesOkIff(items: seq<Json>)
    ensures GiftLinesOf(items).Ok? <==> ProductsReadable(items)
  {
    if items != [] {
      GiftLinesOkIff(items[1..]);
      assert forall k :: 1 <= k < |items| ==> items[k] == items[1..][k - 1];
      if ProductsReadable(items[1..]) && !ProductsReadable(items) {
        assert !(items[0].Object? &&
          (Get(items[0].entries, "productId") == Int(GiftProductId) ==> Hashable(Get(items[0].entries, "sizePanelName"))));
      }
    }
  }

  /** When the loop completes, `gift_lines` holds one line per gift product,
      in product order, and nothing else. */
  lemma {:induction false} GiftLinesExactly(items: seq<Json>)
    requires GiftLinesOf(items).Ok?
    ensures |GiftLinesOf(items).value| == |GiftProducts(items)|
    ensures forall k :: 0 <= k < |GiftProducts(items)| ==>
      GiftLinesOf(items).value[k] == GiftLineFor(GiftProducts(items)[k])
  {
    if items != [] {
      GiftLinesExactly(items[1..]);
    }
  }

  /** The loop at main.py:156-184 over `products`: `for p in products`
      needs an iterable. */
  method CollectGiftLines(products: Json) returns (r: Result<seq<GiftLine>, PyError>)
    ensures Iterate(products).Err? ==> r == Err(Iterate(products).error)
    ensures Iterate(products).Ok? ==> r == GiftLinesOf(Iterate(products).value)
  {
    var iterated := Iterate(products);
    if iterated.Err? {
      return Err(iterated.error);
    }
    var items := iterated.value;
    var lines: seq<GiftLine> := [];
    var i := 0;
    assert items[0..] == items;
    assert forall r :: Prepend([], r) == r by {
      forall r: Result<seq<GiftLine>, PyError> ensures Prepend([], r) == r {
        if r.Ok? { assert [] + r.value == r.value; }
      }
    }
    while i < |items|
      invariant 0 <= i <= |items|
      invariant GiftLinesOf(items) == Prepend(lines, GiftLinesOf(items[i..]))
    {
      assert items[i..][1..] == items[i + 1..];
      var step := LineStep(items[i]);
      if step.Err? {
        assert items[i..][0] == items[i];
        assert GiftLinesOf(items[i..]) == Err(step.error);
        return Err(step.error);
      }
      PrependAppend(lines, OptionToSeq(step.value), GiftLinesOf(items[i + 1..]));
      if step.value.Some? {
        lines := lines + [step.value.value];
      } else {
        assert lines + [] == lines;
      }
      i := i + 1;
    }
    assert items[i..] == [];
    assert lines + [] == lines;
    r := Ok(lines);
  }

  // ---------------------------------------------------------------
  //  Claiming codes (main.py:198-225)
  // ---------------------------------------------------------------

  /** One entry of `assigned_codes`. */
  datatype AssignedCode = AssignedCode(code: string, value: int)

  function ValuesOf(codes: seq<AssignedCode>): (r: seq<int>)
    ensures |r| == |codes|
    ensures forall k :: 0 <= k < |r| ==> r[k] == codes[k].value
  {
    seq(|codes|, k requires 0 <= k < |codes| => codes[k].value)
  }

  /** How often `for _ in range(q)` runs, or None when `range` rejects
      `q` with TypeError (bool counts as int in Python). */
  function RangeLength(q: Json): (r: Option<nat>)
    ensures r.Some? <==> q.Int? || q.Bool?
    ensures q.Int? ==> r == Some(if q.i > 0 then q.i else 0)
    ensures q.Bool? ==> r == Some(if q.b then 1 else 0)
  {
    match q
    case Int(n) => Some(if n > 0 then n else 0)
    case Bool(b) => Some(if b then 1 else 0)
    case _ => None
  }

  function Min(a: nat, b: nat): nat {
    if a <= b then a else b
  }

  function Repeat(value: int, k: nat): (r: seq<int>)
    ensures |r| == k && forall j :: 0 <= j < k ==> r[j] == value
  {
    seq(k, _ => value)
  }

  function Occurrences(s: seq<int>, value: int): nat {
    multiset(s)[value]
  }

  lemma {:induction false} OccurrencesRepeat(value: int, k: nat)
    ensures Occurrences(Repeat(value, k), value) == k
    ensures forall w :: w != value ==> Occurrences(Repeat(value, k), w) == 0
  {
    if k > 0 {
      assert Repeat(value, k) == Repeat(value, k - 1) + [value];
      OccurrencesRepeat(value, k - 1);
    } else {
      assert Repeat(value, k) == [];
    }
  }

  lemma OccurrencesConcat(a: seq<int>, b: seq<int>, value: int)
    ensures Occurrences(a + b, value) == Occurrences(a, value) + Occurrences(b, value)
  {
    assert multiset(a + b) == multiset(a) + multiset(b);
  }

  /** The free codes of `value` in `rows` that `taken` has not yet used up. */
  function Left(rows: seq<GiftCode>, taken: seq<int>, value: int): nat {
    if Occurrences(taken, value) < FreeCount(rows, value) then FreeCount(rows, value) - Occurrences(taken, value) else 0
  }

  /** The values of the codes the claiming loop takes from `rows`, in order,
      when `taken` have already been taken from it in the same call: per
      line, range(quantity) attempts, each of which succeeds while a free
      code of the line's value is left. A line whose quantity `range`
      rejects ends the loop. */
  function ClaimPlan(lines: seq<GiftLine>, rows: seq<GiftCode>, taken: seq<int>): seq<int> {
    if lines == [] then []
    else match RangeLength(lines[0].quantity)
      case None => []
      case Some(n) =>
        var value := lines[0].value;
        var k := Min(n, Left(rows, taken, value));
        Repeat(value, k) + ClaimPlan(lines[1..], rows, taken + Repeat(value, k))
  }

  /** The attempts the lines ask for at value v, up to the first line whose
      quantity `range` rejects. */
  function Demand(lines: seq<GiftLine>, value: int): nat {
    if lines == [] then 0
    else match RangeLength(lines[0].quantity)
      case None => 0
      case Some(n) => (if lines[0].value == value then n else 0) + Demand(lines[1..], value)
  }

  /** All attempts the lines ask for: the positive quantities, summed. */
  function TotalDemand(lines: seq<GiftLine>): nat {
    if lines == [] then 0
    else match RangeLength(lines[0].quantity)
      case None => 0
      case Some(n) => n + TotalDemand(lines[1..])
  }

  /** Exhaustion skips instead of aborting: of value v the loop claims the
      smaller of what the lines ask for and what the pool still has free. */
  lemma {:induction false} ClaimPlanCount(lines: seq<GiftLine>, rows: seq<GiftCode>, taken: seq<int>, value: int)
    requires Occurrences(taken, value) <= FreeCount(rows, value)
    ensures Occurrences(ClaimPlan(lines, rows, taken), value)
         == Min(Demand(lines, value), Left(rows, taken, value))
  {
    if lines != [] {
      match RangeLength(lines[0].quantity)
      case None =>
      case Some(n) =>
        var w := lines[0].value;
        var k := Min(n, Left(rows, taken, w));
        var chunk := Repeat(w, k);
        var rest := ClaimPlan(lines[1..], rows, taken + chunk);
        assert ClaimPlan(lines, rows, taken) == chunk + rest;
        assert Demand(lines, value) == (if w == value then n else 0) + Demand(lines[1..], value);
        OccurrencesRepeat(w, k);
        OccurrencesConcat(taken, chunk, value);
        OccurrencesConcat(chunk, rest, value);
        ClaimPlanCount(lines[1..], rows, taken + chunk, value);
    }
  }

  /** Never more claims than attempts: `len(assigned_codes)` is at most the
      sum of the positive quantities. */
  lemma {:induction false} ClaimPlanBounded(lines: seq<GiftLine>, rows: seq<GiftCode>, taken: seq<int>)
    ensures |ClaimPlan(lines, rows, taken)| <= TotalDemand(lines)
  {
    if lines != [] {
      match RangeLength(lines[0].quantity)
      case None =>
      case Some(n) =>
        var w := lines[0].value;
        var k := Min(n, Left(rows, taken, w));
        ClaimPlanBounded(lines[1..], rows, taken + Repeat(w, k));
    }
  }

  /** How the pool `after` differs from `before` when the rows at positions
      `at` were claimed for `orderId`, in the order of `codes`: each was
      free with the claimed value, now carries the order, and no row was
      claimed twice; every other row is unchanged. */
  ghost predicate Claimed(before: seq<GiftCode>, after: seq<GiftCode>, at: seq<nat>,
                          codes: seq<AssignedCode>, orderId: OrderRef, now: Timestamp)
  {
    && |after| == |before|
    && |at| == |codes|
    && (forall k :: 0 <= k < |at| ==>
          && at[k] < |before|
          && IsFree(before[at[k]], codes[k].value)
          && before[at[k]].code == codes[k].code
          && after[at[k]] == MarkUsed(before[at[k]], orderId, now))
    && (forall k1, k2 :: 0 <= k1 < k2 < |at| ==> at[k1] != at[k2])
    && (forall i :: 0 <= i < |before| && i !in at ==> after[i] == before[i])
  }

  /** Claiming one more free row extends the claim. */
  lemma ClaimStep(before: seq<GiftCode>, rows: seq<GiftCode>, at: seq<nat>, codes: seq<AssignedCode>,
                  orderId: OrderRef, now: Timestamp, id: nat, value: int)
    requires Claimed(before, rows, at, codes, orderId, now)
    requires id < |rows| && IsFree(rows[id], value)
    ensures Claimed(before, rows[id := MarkUsed(rows[id], orderId, now)], at + [id],
                    codes + [AssignedCode(rows[id].code, value)], orderId, now)
  {
    assert id !in at by {
      forall k | 0 <= k < |at| ensures at[k] != id {
        assert rows[at[k]].isUsed;
      }
    }
    assert rows[id] == before[id];
  }

  /** Claimed rows have pairwise different codes when the pool's codes are unique. */
  lemma ClaimedCodesDistinct(before: seq<GiftCode>, after: seq<GiftCode>, at: seq<nat>,
                             codes: seq<AssignedCode>, orderId: OrderRef, now: Timestamp)
    requires Claimed(before, after, at, codes, orderId, now) && CodesUnique(before)
    ensures forall k1, k2 :: 0 <= k1 < k2 < |codes| ==> codes[k1].code != codes[k2].code
  {
    forall k1, k2 | 0 <= k1 < k2 < |codes| ensures codes[k1].code != codes[k2].code {
      var i1, i2 := at[k1], at[k2];
      if i1 < i2 {
        assert before[i1].code != before[i2].code;
      } else {
        assert before[i2].code != before[i1].code;
      }
    }
  }

  /** A claim only moves rows from free to used: a row that was used stays
      exactly as it was, and no row changes its code or value. */
  lemma ClaimedIsMonotone(before: seq<GiftCode>, after: seq<GiftCode>, at: seq<nat>,
                          codes: seq<AssignedCode>, orderId: OrderRef, now: Timestamp)
    requires Claimed(before, after, at, codes, orderId, now)
    ensures forall i :: 0 <= i < |before| && before[i].isUsed ==> after[i] == before[i]
    ensures forall i :: 0 <= i < |before| ==> after[i].code == before[i].code && after[i].value == before[i].value
  {
    forall i | 0 <= i < |before|
      ensures before[i].isUsed ==> after[i] == before[i]
      ensures after[i].code == before[i].code && after[i].value == before[i].value
    {
      if i in at {
        var k :| 0 <= k < |at| && at[k] == i;
      }
    }
  }

  /** Every free code missing from `rows0` is accounted for by a claimed value. */
  ghost predicate FreeAccounted(rows0: seq<GiftCode>, rows: seq<GiftCode>, values: seq<int>) {
    forall v :: FreeCount(rows, v) + Occurrences(values, v) == FreeCount(rows0, v)
  }

  lemma FreeAccountedStep(rows0: seq<GiftCode>, rows: seq<GiftCode>, values: seq<int>,
                          id: nat, orderId: OrderRef, now: Timestamp)
    requires FreeAccounted(rows0, rows, values) && id < |rows| && !rows[id].isUsed
    ensures FreeAccounted(rows0, rows[id := MarkUsed(rows[id], orderId, now)], values + [rows[id].value])
  {
    ClaimLowersFreeCount(rows, id, orderId, now);
    forall v ensures Occurrences(values + [rows[id].value], v) == Occurrences(values, v) + (if v == rows[id].value then 1 else 0) {
      OccurrencesConcat(values, [rows[id].value], v);
    }
  }

  /** After `j` attempts of a line of value `value` that began with
      `before` claimed, the pool has as many free codes of that value left
      as the attempts have not yet taken. */
  lemma FreeLeftAfterAttempts(rows0: seq<GiftCode>, rows: seq<GiftCode>, before: seq<int>,
                              values: seq<int>, value: int, j: nat)
    requires FreeAccounted(rows0, rows, values)
    requires values == before + Repeat(value, Min(j, Left(rows0, before, value)))
    ensures FreeCount(rows, value) == Left(rows0, before, value) - Min(j, Left(rows0, before, value))
  {
    var m := Min(j, Left(rows0, before, value));
    OccurrencesRepeat(value, m);
    OccurrencesConcat(before, Repeat(value, m), value);
    assert FreeCount(rows, value) + Occurrences(values, value) == FreeCount(rows0, value);
  }

  /** One successful attempt: claiming row `id`, free with value `value`,
      keeps the free counts accounted for and extends the claim. */
  lemma ClaimAttempt(rows0: seq<GiftCode>, rows: seq<GiftCode>, at: seq<nat>, codes: seq<AssignedCode>,
                     orderId: OrderRef, now: Timestamp, id: nat, value: int)
    requires FreeAccounted(rows0, rows, ValuesOf(codes))
    requires Claimed(rows0, rows, at, codes, orderId, now)
    requires id < |rows| && IsFree(rows[id], value)
    ensures ValuesOf(codes + [AssignedCode(rows[id].code, value)]) == ValuesOf(codes) + [value]
    ensures FreeAccounted(rows0, rows[id := MarkUsed(rows[id], orderId, now)], ValuesOf(codes) + [value])
    ensures Claimed(rows0, rows[id := MarkUsed(rows[id], orderId, now)], at + [id],
                    codes + [AssignedCode(rows[id].code, value)], orderId, now)
  {
    FreeAccountedStep(rows0, rows, ValuesOf(codes), id, orderId, now);
    ClaimStep(rows0, rows, at, codes, orderId, now, id, value);
  }

  /** Claims made one after the other compose: the second starts from the
      pool the first left, so none of its rows was claimed by the first. */
  lemma ClaimedCompose(r0: seq<GiftCode>, r1: seq<GiftCode>, r2: seq<GiftCode>,
                       a1: seq<nat>, c1: seq<AssignedCode>, a2: seq<nat>, c2: seq<AssignedCode>,
                       orderId: OrderRef, now: Timestamp)
    requires Claimed(r0, r1, a1, c1, orderId, now)
    requires Claimed(r1, r2, a2, c2, orderId, now)
    ensures Claimed(r0, r2, a1 + a2, c1 + c2, orderId, now)
  {
    var a, c := a1 + a2, c1 + c2;
    forall k1, k2 | 0 <= k1 < |a1| && 0 <= k2 < |a2| ensures a1[k1] != a2[k2] {
      assert r1[a1[k1]].isUsed && !r1[a2[k2]].isUsed;
    }
    forall k | 0 <= k < |a|
      ensures a[k] < |r0| && IsFree(r0[a[k]], c[k].value) && r0[a[k]].code == c[k].code
      ensures r2[a[k]] == MarkUsed(r0[a[k]], orderId, now)
    {
      if k < |a1| {
        assert a[k] == a1[k] && c[k] == c1[k];
        assert a1[k] !in a2;
      } else {
        var k2 := k - |a1|;
        assert a[k] == a2[k2] && c[k] == c2[k2];
        assert a2[k2] !in a1;
      }
    }
    forall k1, k2 | 0 <= k1 < k2 < |a| ensures a[k1] != a[k2] {
      if k2 < |a1| {
        assert a[k1] == a1[k1] && a[k2] == a1[k2];
      } else if k1 >= |a1| {
        assert a[k1] == a2[k1 - |a1|] && a[k2] == a2[k2 - |a1|];
      } else {
        assert a[k1] == a1[k1] && a[k2] == a2[k2 - |a1|];
      }
    }
    forall i | 0 <= i < |r0| && i !in a ensures r2[i] == r0[i] {
      assert i !in a1 && i !in a2;
    }
  }

  /** `s` starts with `s0`. */
  ghost predicate Extends<T>(s0: seq<T>, s: seq<T>) {
    |s0| <= |s| && s[..|s0|] == s0
  }

  lemma ExtendsTrans<T>(s0: seq<T>, s1: seq<T>, s2: seq<T>)
    requires Extends(s0, s1) && Extends(s1, s2)
    ensures Extends(s0, s2)
  {
    assert s2[..|s0|] == s2[..|s1|][..|s0|];
  }

  /** `codes` and `at` extend `codes0` and `at0`, and what was added is a
      claim that took the pool from `rowsIn` to `rows`. */
  ghost predicate ClaimedSince(rowsIn: seq<GiftCode>, rows: seq<GiftCode>,
                               at0: seq<nat>, codes0: seq<AssignedCode>,
                               at: seq<nat>, codes: seq<AssignedCode>,
                               orderId: OrderRef, now: Timestamp)
  {
    Extends(codes0, codes) && Extends(at0, at) &&
    Claimed(rowsIn, rows, at[|at0|..], codes[|codes0|..], orderId, now)
  }

  /** The converse of `ClaimedCompose`: a claim that extends an earlier
      claim from the same starting pool is the earlier one followed by a
      claim of the rest from the pool the earlier one left. */
  lemma ClaimedSplit(r0: seq<GiftCode>, r1: seq<GiftCode>, r2: seq<GiftCode>,
                     a1: seq<nat>, c1: seq<AssignedCode>, a: seq<nat>, c: seq<AssignedCode>,
                     orderId: OrderRef, now: Timestamp)
    requires Claimed(r0, r1, a1, c1, orderId, now)
    requires Claimed(r0, r2, a, c, orderId, now)
    requires Extends(a1, a) && Extends(c1, c)
    ensures ClaimedSince(r1, r2, a1, c1, a, c, orderId, now)
  {
    var a2, c2 := a[|a1|..], c[|c1|..];
    assert a == a1 + a2 && c == c1 + c2;
    forall k | 0 <= k < |a2|
      ensures a2[k] < |r1| && IsFree(r1[a2[k]], c2[k].value) && r1[a2[k]].code == c2[k].code
      ensures r2[a2[k]] == MarkUsed(r1[a2[k]], orderId, now)
    {
      assert a2[k] == a[|a1| + k] && c2[k] == c[|c1| + k];
      forall k1 | 0 <= k1 < |a1| ensures a1[k1] != a2[k] {
        assert a1[k1] == a[k1];
      }
    }
    forall k1, k2 | 0 <= k1 < k2 < |a2| ensures a2[k1] != a2[k2] {
      assert a2[k1] == a[|a1| + k1] && a2[k2] == a[|a1| + k2];
    }
    forall i | 0 <= i < |r1| && i !in a2 ensures r2[i] == r1[i] {
      if i in a1 {
        var k1 :| 0 <= k1 < |a1| && a1[k1] == i;
        assert a[k1] == i;
      }
    }
  }

  /** Claiming the free row `id` on its own. */
  lemma ClaimedSinceOne(rows: seq<GiftCode>, at0: seq<nat>, codes0: seq<AssignedCode>,
                        orderId: OrderRef, now: Timestamp, id: nat, value: int)
    requires id < |rows| && IsFree(rows[id], value)
    ensures ClaimedSince(rows, rows[id := MarkUsed(rows[id], orderId, now)], at0, codes0,
                         at0 + [id], codes0 + [AssignedCode(rows[id].code, value)], orderId, now)
  {
    ClaimStep(rows, rows, [], [], orderId, now, id, value);
    assert (codes0 + [AssignedCode(rows[id].code, value)])[|codes0|..] == [AssignedCode(rows[id].code, value)];
    assert (at0 + [id])[|at0|..] == [id];
  }

  /** One iteration of the inner loop: `get_free_code(value)` and, when it
      finds a row, `mark_code_used` on it and an entry appended to `codes`.
      The attempt succeeds exactly when a free code of that value is left;
      a skipped attempt changes nothing. */
  method ClaimOnce(store: CodeStore, value: int, orderId: OrderRef, now: Timestamp,
                   ghost rows0: seq<GiftCode>, codes0: seq<AssignedCode>, ghost at0: seq<nat>)
    returns (codes: seq<AssignedCode>, ghost at: seq<nat>, claimed: bool)
    requires store.Valid()
    requires FreeAccounted(rows0, store.rows, ValuesOf(codes0))
    requires Claimed(rows0, store.rows, at0, codes0, orderId, now)
    modifies store
    ensures store.Valid()
    ensures claimed <==> FreeCount(old(store.rows), value) > 0
    ensures ValuesOf(codes) == ValuesOf(codes0) + (if claimed then [value] else [])
    ensures FreeAccounted(rows0, store.rows, ValuesOf(codes))
    ensures Claimed(rows0, store.rows, at, codes, orderId, now)
    ensures ClaimedSince(old(store.rows), store.rows, at0, codes0, at, codes, orderId, now)
    ensures !claimed ==> store.rows == old(store.rows) && codes == codes0 && at == at0
  {
    ghost var rowsIn := store.rows;
    var found := store.GetFreeCode(value);
    if found.Some? {
      ClaimAttempt(rows0, store.rows, at0, codes0, orderId, now, found.value, value);
      ClaimedSinceOne(rowsIn, at0, codes0, orderId, now, found.value, value);
      var used := store.MarkCodeUsed(found.value, orderId, now);
      codes := codes0 + [AssignedCode(used.code, used.value)];
      at := at0 + [found.value];
      claimed := true;
    } else {
      codes, at, claimed := codes0, at0, false;
      assert codes[|codes0|..] == [] && at[|at0|..] == [];
    }
  }

  /** The inner loop `for _ in range(qty)` of one line of value `value`:
      each attempt claims a free code of that value if one is left. While
      the pool lasts every attempt succeeds, and once it is exhausted every
      later attempt is skipped. The codes claimed before are kept, and the
      line's own claims relate the pool it found to the pool it leaves. */
  method ClaimLine(store: CodeStore, value: int, attempts: nat, orderId: OrderRef, now: Timestamp,
                   ghost rows0: seq<GiftCode>, codes0: seq<AssignedCode>, ghost at0: seq<nat>)
    returns (codes: seq<AssignedCode>, ghost at: seq<nat>)
    requires store.Valid()
    requires FreeAccounted(rows0, store.rows, ValuesOf(codes0))
    requires Claimed(rows0, store.rows, at0, codes0, orderId, now)
    modifies store
    ensures store.Valid()
    ensures ValuesOf(codes) == ValuesOf(codes0) + Repeat(value, Min(attempts, Left(rows0, ValuesOf(codes0), value)))
    ensures FreeAccounted(rows0, store.rows, ValuesOf(codes))
    ensures Claimed(rows0, store.rows, at, codes, orderId, now)
    ensures ClaimedSince(old(store.rows), store.rows, at0, codes0, at, codes, orderId, now)
  {
    ghost var rowsIn := store.rows;
    ghost var before := ValuesOf(codes0);
    ghost var avail := Left(rows0, before, value);
    codes, at := codes0, at0;
    assert before + Repeat(value, Min(0, avail)) == before;
    assert Extends(codes0, codes) && Extends(at0, at);
    var j := 0;
    while j < attempts
      invariant 0 <= j <= attempts
      invariant store.Valid()
      invariant ValuesOf(codes) == before + Repeat(value, Min(j, avail))
      invariant FreeAccounted(rows0, store.rows, ValuesOf(codes))
      invariant Claimed(rows0, store.rows, at, codes, orderId, now)
      invariant Extends(codes0, codes) && Extends(at0, at)
    {
      FreeLeftAfterAttempts(rows0, store.rows, before, ValuesOf(codes), value, j);
      ghost var done := Repeat(value, Min(j, avail));
      ghost var codesMid, atMid := codes, at;
      var claimed;
      codes, at, claimed := ClaimOnce(store, value, orderId, now, rows0, codes, at);
      ExtendsTrans(codes0, codesMid, codes);
      ExtendsTrans(at0, atMid, at);
      if claimed {
        RepeatSnoc(value, j);
        ConcatAssoc(before, done, [value]);
      } else {
        assert Min(j + 1, avail) == Min(j, avail);
      }
      j := j + 1;
    }
    ClaimedSplit(rows0, rowsIn, store.rows, at0, codes0, at, codes, orderId, now);
  }

  lemma RepeatSnoc(value: int, k: nat)
    ensures Repeat(value, k + 1) == Repeat(value, k) + [value]
  {
  }

  lemma ConcatAssoc(a: seq<int>, b: seq<int>, c: seq<int>)
    ensures a + b + c == a + (b + c)
  {
  }

  /** One line's share of the plan, then the rest. */
  lemma ClaimPlanUnfold(lines: seq<GiftLine>, i: nat, rows: seq<GiftCode>, taken: seq<int>)
    requires i < |lines| && RangeLength(lines[i].quantity).Some?
    ensures ClaimPlan(lines[i..], rows, taken)
         == Repeat(lines[i].value, Min(RangeLength(lines[i].quantity).value, Left(rows, taken, lines[i].value)))
          + ClaimPlan(lines[i + 1..], rows,
              taken + Repeat(lines[i].value, Min(RangeLength(lines[i].quantity).value, Left(rows, taken, lines[i].value))))
  {
    assert lines[i..][0] == lines[i];
    assert lines[i..][1..] == lines[i + 1..];
  }

  /** The claiming loop at main.py:202-223: for each line, `range(quantity)`
      times, take some free code of the line's value and mark it used by the
      order (each mark commits at once), skipping an attempt when none is
      left. `raised` reports the TypeError of a quantity `range` rejects;
      the codes claimed before it stay claimed. */
  method AllocateCodes(store: CodeStore, lines: seq<GiftLine>, orderId: OrderRef, now: Timestamp)
    returns (codes: seq<AssignedCode>, raised: bool, ghost at: seq<nat>)
    requires store.Valid()
    modifies store
    ensures store.Valid()
    ensures raised <==> exists k :: 0 <= k < |lines| && RangeLength(lines[k].quantity).None?
    ensures ValuesOf(codes) == ClaimPlan(lines, old(store.rows), [])
    ensures forall v :: Occurrences(ValuesOf(codes), v) == Min(Demand(lines, v), FreeCount(old(store.rows), v))
    ensures forall v :: FreeCount(store.rows, v) == FreeCount(old(store.rows), v) - Min(Demand(lines, v), FreeCount(old(store.rows), v))
    ensures Claimed(old(store.rows), store.rows, at, codes, orderId, now)
    ensures forall k1, k2 :: 0 <= k1 < k2 < |codes| ==> codes[k1].code != codes[k2].code
  {
    ghost var rows0 := store.rows;
    codes, raised, at := [], false, [];
    assert lines[0..] == lines;
    var i := 0;
    while i < |lines|
      invariant 0 <= i <= |lines|
      invariant store.Valid()
      invariant forall k :: 0 <= k < i ==> RangeLength(lines[k].quantity).Some?
      invariant ValuesOf(codes) + ClaimPlan(lines[i..], rows0, ValuesOf(codes)) == ClaimPlan(lines, rows0, [])
      invariant FreeAccounted(rows0, store.rows, ValuesOf(codes))
      invariant Claimed(rows0, store.rows, at, codes, orderId, now)
    {
      var n := RangeLength(lines[i].quantity);
      if n.None? {
        raised := true;
        assert ClaimPlan(lines[i..], rows0, ValuesOf(codes)) == [];
        assert ValuesOf(codes) + [] == ValuesOf(codes);
        break;
      }
      ghost var before := ValuesOf(codes);
      ClaimPlanUnfold(lines, i, rows0, before);
      codes, at := ClaimLine(store, lines[i].value, n.value, orderId, now, rows0, codes, at);
      ghost var chunk := Repeat(lines[i].value, Min(n.value, Left(rows0, before, lines[i].value)));
      ConcatAssoc(before, chunk, ClaimPlan(lines[i + 1..], rows0, before + chunk));
      i := i + 1;
    }
    if !raised {
      assert lines[i..] == [];
      assert ValuesOf(codes) + [] == ValuesOf(codes);
    }
    forall v ensures Occurrences(ValuesOf(codes), v) == Min(Demand(lines, v), FreeCount(rows0, v)) {
      ClaimPlanCount(lines, rows0, [], v);
    }
    ClaimedCodesDistinct(rows0, store.rows, at, codes, orderId, now);
  }

  // ---------------------------------------------------------------
  //  Voucher files (main.py:236-240)
  // ---------------------------------------------------------------

  /** One entry of `pdf_files`: the file name, and the code and value
      `generate_giftcard_pdf` renders into its bytes. */
  datatype PdfFile = PdfFile(filename: string, code: string, value: int)

  /** The f-string `giftcard_{value}zl_{code}.pdf`. */
  function PdfFileName(code: string, value: int): string {
    "giftcard_" + IntToDecimal(value) + "zl_" + code + ".pdf"
  }

  function PdfFileFor(c: AssignedCode): PdfFile {
    PdfFile(PdfFileName(c.code, c.value), c.code, c.value)
  }

  /** `pdf_files` for `assigned_codes`: one file per code, in order. */
  function PdfFilesOf(codes: seq<AssignedCode>): (r: seq<PdfFile>)
    ensures |r| == |codes|
  {
    seq(|codes|, k requires 0 <= k < |codes| => PdfFileFor(codes[k]))
  }

  /** The position of the first 'z' in a string, or its length if none. */
  function FirstZ(x: string): nat {
    if x == [] || x[0] == 'z' then 0 else 1 + FirstZ(x[1..])
  }

  /** Behind a 'z'-free word, the first 'z' is the one that follows it. */
  lemma {:induction false} FirstZAfter(a: string, s: string)
    requires |s| > 0 && s[0] == 'z'
    requires forall k :: 0 <= k < |a| ==> a[k] != 'z'
    ensures FirstZ(a + s) == |a|
  {
    if a == [] {
      assert a + s == s;
    } else {
      assert (a + s)[1..] == a[1..] + s;
      FirstZAfter(a[1..], s);
    }
  }

  /** The file name determines the code and the value: the decimal value
      holds no 'z', so the first 'z' ends it. */
  lemma PdfFileNameInjective(c1: string, v1: int, c2: string, v2: int)
    requires PdfFileName(c1, v1) == PdfFileName(c2, v2)
    ensures c1 == c2 && v1 == v2
  {
    var d1, d2 := IntToDecimal(v1), IntToDecimal(v2);
    var s1, s2 := "zl_" + c1 + ".pdf", "zl_" + c2 + ".pdf";
    PdfFileNameParts(c1, v1);
    PdfFileNameParts(c2, v2);
    SplitEqual("giftcard_", d1 + s1, "giftcard_", d2 + s2);
    FirstZAfter(d1, s1);
    FirstZAfter(d2, s2);
    SplitEqual(d1, s1, d2, s2);
    IntToDecimalInjective(v1, v2);
    SplitEqual("zl_" + c1, ".pdf", "zl_" + c2, ".pdf");
    SplitEqual("zl_", c1, "zl_", c2);
  }

  lemma PdfFileNameParts(code: string, value: int)
    ensures PdfFileName(code, value) == "giftcard_" + (IntToDecimal(value) + ("zl_" + code + ".pdf"))
  {
    var d := IntToDecimal(value);
    assert "giftcard_" + d + "zl_" == "giftcard_" + (d + "zl_");
    assert "giftcard_" + (d + "zl_") + code == "giftcard_" + (d + "zl_" + code);
    assert "giftcard_" + (d + "zl_" + code) + ".pdf" == "giftcard_" + (d + "zl_" + code + ".pdf");
    assert d + "zl_" + code + ".pdf" == d + ("zl_" + code + ".pdf");
  }

  /** Equal concatenations with equally long fronts have equal parts. */
  lemma SplitEqual(a: string, s: string, b: string, t: string)
    requires a + s == b + t && |a| == |b|
    ensures a == b && s == t
  {
    assert a == (a + s)[..|a|] && b == (b + t)[..|b|];
    assert s == (a + s)[|a|..] && t == (b + t)[|b|..];
  }

  /** Pairwise different codes get pairwise different file names, so no
      attachment of the e-mail hides another. */
  lemma PdfFileNamesDistinct(codes: seq<AssignedCode>)
    requires forall k1, k2 :: 0 <= k1 < k2 < |codes| ==> codes[k1].code != codes[k2].code
    ensures forall k1, k2 :: 0 <= k1 < k2 < |codes| ==> PdfFilesOf(codes)[k1].filename != PdfFilesOf(codes)[k2].filename
  {
    forall k1, k2 | 0 <= k1 < k2 < |codes|
      ensures PdfFilesOf(codes)[k1].filename != PdfFilesOf(codes)[k2].filename
    {
      if PdfFilesOf(codes)[k1].filename == PdfFilesOf(codes)[k2].filename {
        PdfFileNameInjective(codes[k1].code, codes[k1].value, codes[k2].code, codes[k2].value);
      }
    }
  }

  /** The loop at main.py:236-240. */
  method PdfFilesFor(codes: seq<AssignedCode>) returns (files: seq<PdfFile>)
    ensures files == PdfFilesOf(codes)
    ensures forall k :: 0 <= k < |files| ==>
      files[k].code == codes[k].code && files[k].value == codes[k].value &&
      files[k].filename == PdfFileName(codes[k].code, codes[k].value)
  {
    files := [];
    var i := 0;
    while i < |codes|
      invariant 0 <= i <= |codes|
      invariant files == PdfFilesOf(codes[..i])
    {
      assert codes[..i + 1][..i] == codes[..i];
      files := files + [PdfFileFor(codes[i])];
      i := i + 1;
    }
    assert codes[..i] == codes;
  }

  // ---------------------------------------------------------------
  //  Notifications and the response (main.py:245-273)
  // ---------------------------------------------------------------

  /** The arguments of `send_giftcard_email`. */
  datatype GiftcardEmail = GiftcardEmail(toEmail: Json, orderId: Json, codes: seq<AssignedCode>, pdfFiles: seq<PdfFile>)

  /** The arguments of `notify_idosell_about_codes`. */
  datatype ShopNotice = ShopNotice(orderId: Json, codes: seq<AssignedCode>)

  /** What the handler hands to the outside world besides its response:
      the e-mail it tries to send and the call reporting the codes back to
      the shop through `notify_idosell_about_codes`. Both calls swallow
      their own failures, so neither affects the response. */
  datatype Delivery = Delivery(email: Option<GiftcardEmail>, shopNotice: Option<ShopNotice>)

  const NoDelivery: Delivery := Delivery(None, None)

  /** Lines 245-265: the e-mail needs a truthy client e-mail and at least one
      code; the shop notice needs at least one code. */
  function DeliveryFor(clientEmail: Json, orderId: Json, codes: seq<AssignedCode>, pdfFiles: seq<PdfFile>): (d: Delivery)
    ensures d.email.Some? <==> Truthy(clientEmail) && codes != []
    ensures d.email.Some? ==> d.email.value == GiftcardEmail(clientEmail, orderId, codes, pdfFiles)
    ensures d.shopNotice.Some? <==> codes != []
    ensures d.shopNotice.Some? ==> d.shopNotice.value == ShopNotice(orderId, codes)
  {
    Delivery(
      if Truthy(clientEmail) && codes != [] then Some(GiftcardEmail(clientEmail, orderId, codes, pdfFiles)) else None,
      if codes != [] then Some(ShopNotice(orderId, codes)) else None)
  }

  /** An e-mail never goes out without the shop being told about the same
      order and codes. */
  lemma EmailImpliesNotice(clientEmail: Json, orderId: Json, codes: seq<AssignedCode>, pdfFiles: seq<PdfFile>)
    ensures var d := DeliveryFor(clientEmail, orderId, codes, pdfFiles);
      d.email.Some? ==> d.shopNotice == Some(ShopNotice(d.email.value.orderId, d.email.value.codes))
  {
  }

  /** The dicts the handler returns. */
  datatype Response =
    | Ignored
    | NotPaid(orderId: Json)
    | NoGiftcards(orderId: Json)
    | GiftcardsAssigned(orderId: Json, giftLines: seq<GiftLine>, assignedCodes: seq<AssignedCode>)

  function StatusOf(r: Response): string {
    match r
    case Ignored => "ignored"
    case NotPaid(_) => "not_paid"
    case NoGiftcards(_) => "no_giftcards"
    case GiftcardsAssigned(_, _, _) => "giftcards_assigned"
  }

  function GiftLineJson(l: GiftLine): Json {
    Object([("product_id", Int(l.productId)), ("quantity", l.quantity), ("name", l.name),
            ("size", Str(l.size)), ("value", Int(l.value))])
  }

  function AssignedCodeJson(c: AssignedCode): Json {
    Object([("code", Str(c.code)), ("value", Int(c.value))])
  }

  function AssignedCodesJson(codes: seq<AssignedCode>): (r: seq<Json>)
    ensures |r| == |codes|
  {
    seq(|codes|, k requires 0 <= k < |codes| => AssignedCodeJson(codes[k]))
  }

  /** One dict per gift line, in the lines' order. */
  function GiftLinesJson(lines: seq<GiftLine>): (r: seq<Json>)
    ensures |r| == |lines|
    ensures forall k :: 0 <= k < |lines| ==> r[k] == GiftLineJson(lines[k])
  {
    seq(|lines|, k requires 0 <= k < |lines| => GiftLineJson(lines[k]))
  }

  /** The response dict of each outcome. */
  function ResponseJson(r: Response): (j: Json)
    ensures j.Object? && Get(j.entries, "status") == Str(StatusOf(r))
    ensures r.Ignored? <==> Lookup(j.entries, "orderId").None?
    ensures !r.Ignored? ==> Get(j.entries, "orderId") == r.orderId
    ensures r.Ignored? ==> |j.entries| == 1
    ensures r.NotPaid? || r.NoGiftcards? ==> |j.entries| == 2
    ensures r.GiftcardsAssigned? ==> |j.entries| == 4
    ensures r.GiftcardsAssigned? ==> j.entries[2] == ("giftLines", List(GiftLinesJson(r.giftLines)))
    ensures r.GiftcardsAssigned? ==> j.entries[3] == ("assignedCodes", List(AssignedCodesJson(r.assignedCodes)))
  {
    match r
    case Ignored => Object([("status", Str("ignored"))])
    case NotPaid(orderId) => Object([("status", Str("not_paid")), ("orderId", orderId)])
    case NoGiftcards(orderId) => Object([("status", Str("no_giftcards")), ("orderId", orderId)])
    case GiftcardsAssigned(orderId, lines, codes) =>
      Object([("status", Str("giftcards_assigned")), ("orderId", orderId),
              ("giftLines", List(GiftLinesJson(lines))),
              ("assignedCodes", List(AssignedCodesJson(codes)))])
  }

  /** How a client of the webhook reads `assignedCodes` back from the
      response: a list of dicts with a string `code` and an int `value`.
      The service itself never decodes its response; this reader only
      checks that the encoding loses nothing. */
  function ReadAssignedCodes(items: seq<Json>): Option<seq<AssignedCode>> {
    if items == [] then Some([])
    else
      var c := items[0];
      if c.Object? && Get(c.entries, "code").Str? && Get(c.entries, "value").Int? then
        match ReadAssignedCodes(items[1..])
        case None => None
        case Some(rest) => Some([AssignedCode(Get(c.entries, "code").s, Get(c.entries, "value").i)] + rest)
      else None
  }

  /** A client reading the response recovers the assigned codes exactly. */
  lemma {:induction false} ReadAssignedCodesRoundTrip(codes: seq<AssignedCode>)
    ensures ReadAssignedCodes(AssignedCodesJson(codes)) == Some(codes)
  {
    var items := AssignedCodesJson(codes);
    if codes != [] {
      assert items[1..] == AssignedCodesJson(codes[1..]);
      assert items[0] == AssignedCodeJson(codes[0]);
      var entries := items[0].entries;
      assert entries[0] == ("code", Str(codes[0].code)) && entries[1..] == [("value", Int(codes[0].value))];
      assert entries[0].0 != "value" by { assert entries[0].0[0] == 'c'; }
      assert Lookup(entries[1..], "value") == Some(Int(codes[0].value));
      assert Get(entries, "code") == Str(codes[0].code);
      assert Get(entries, "value") == Int(codes[0].value);
      ReadAssignedCodesRoundTrip(codes[1..]);
      assert codes == [codes[0]] + codes[1..];
    }
  }

  // ---------------------------------------------------------------
  //  The handler (main.py:109-273)
  // ---------------------------------------------------------------

  /** What happens to a call: a response with its side deliveries, or an
      exception that escapes the handler (the web framework answers it with
      an error status). */
  datatype WebhookResult = Handled(response: Response, delivery: Delivery) | Failed(error: PyError)

  /** Where the handler stands once it has read the payload and collected
      the gift lines (main.py:111-191): an answer already, or lines to
      claim codes for. */
  datatype Stage =
    | Respond(response: Response)
    | Allocate(orderId: Json, clientEmail: Json, lines: seq<GiftLine>)

  /** Lines 156-191 for a paid order. */
  function PaidStage(orderId: Json, clientEmail: Json, products: Json): Result<Stage, PyError> {
    match Iterate(products)
    case Err(e) => Err(e)
    case Ok(items) =>
      match GiftLinesOf(items)
      case Err(e) => Err(e)
      case Ok(lines) =>
        if lines == [] then Ok(Respond(NoGiftcards(orderId)))
        else Ok(Allocate(orderId, clientEmail, lines))
  }

  function PreAllocation(payload: Json): Result<Stage, PyError> {
    match TriagePayload(payload)
    case Err(e) => Err(e)
    case Ok(Ignore) => Ok(Respond(Ignored))
    case Ok(Unpaid(orderId)) => Ok(Respond(NotPaid(orderId)))
    case Ok(Paid(orderId, clientEmail, products)) => PaidStage(orderId, clientEmail, products)
  }

  /** A paid order whose readable products hold no gift card is answered
      `no_giftcards`; one that holds some goes on to claiming, with one line
      per gift product in product order. */
  lemma PaidStageOfItems(orderId: Json, clientEmail: Json, products: Json)
    requires Iterate(products).Ok?
    ensures var items := Iterate(products).value;
      var stage := PaidStage(orderId, clientEmail, products);
      && (stage.Ok? <==> ProductsReadable(items))
      && (ProductsReadable(items) && GiftProducts(items) == [] ==> stage == Ok(Respond(NoGiftcards(orderId))))
      && (ProductsReadable(items) && GiftProducts(items) != [] ==>
            && stage.Ok? && stage.value.Allocate?
            && stage.value.orderId == orderId && stage.value.clientEmail == clientEmail
            && |stage.value.lines| == |GiftProducts(items)|
            && forall k :: 0 <= k < |GiftProducts(items)| ==> stage.value.lines[k] == GiftLineFor(GiftProducts(items)[k]))
  {
    var items := Iterate(products).value;
    GiftLinesOkIff(items);
    if ProductsReadable(items) {
      GiftLinesExactly(items);
    }
  }

  /** `webhook_order`. The pool changes only when the order is paid and
      holds gift lines; then the codes are claimed as `ClaimPlan` says,
      and a quantity `range` rejects makes the call fail with TypeError
      after the codes claimed before it were committed. */
  method HandleOrderWebhook(store: CodeStore, payload: Json, now: Timestamp)
    returns (result: WebhookResult, ghost codes: seq<AssignedCode>, ghost at: seq<nat>)
    requires store.Valid()
    modifies store
    ensures store.Valid()
    ensures PreAllocation(payload).Err? ==>
      result == Failed(PreAllocation(payload).error) && store.rows == old(store.rows)
    ensures PreAllocation(payload).Ok? && PreAllocation(payload).value.Respond? ==>
      result == Handled(PreAllocation(payload).value.response, NoDelivery) && store.rows == old(store.rows)
    ensures PreAllocation(payload).Ok? && PreAllocation(payload).value.Allocate? ==>
      var stage := PreAllocation(payload).value;
      && ValuesOf(codes) == ClaimPlan(stage.lines, old(store.rows), [])
      && Claimed(old(store.rows), store.rows, at, codes, stage.orderId, now)
      && (forall v :: FreeCount(store.rows, v) == FreeCount(old(store.rows), v) - Min(Demand(stage.lines, v), FreeCount(old(store.rows), v)))
      && (result.Failed? <==> exists k :: 0 <= k < |stage.lines| && RangeLength(stage.lines[k].quantity).None?)
      && (result.Failed? ==> result.error == TypeError)
      && (result.Handled? ==> result == Handled(GiftcardsAssigned(stage.orderId, stage.lines, codes),
                                              DeliveryFor(stage.clientEmail, stage.orderId, codes, PdfFilesOf(codes))))
  {
    codes, at := [], [];
    var triage := TriagePayload(payload);
    if triage.Err? {
      return Failed(triage.error), codes, at;
    }
    match triage.value
    case Ignore =>
      result := Handled(Ignored, NoDelivery);
    case Unpaid(orderId) =>
      result := Handled(NotPaid(orderId), NoDelivery);
    case Paid(orderId, clientEmail, products) =>
      var collected := CollectGiftLines(products);
      if collected.Err? {
        result := Failed(collected.error);
      } else if collected.value == [] {
        result := Handled(NoGiftcards(orderId), NoDelivery);
      } else {
        var lines := collected.value;
        var claimed, raised;
        claimed, raised, at := AllocateCodes(store, lines, orderId, now);
        codes := claimed;
        if raised {
          result := Failed(TypeError);
        } else {
          var pdfFiles := PdfFilesFor(claimed);
          result := Handled(GiftcardsAssigned(orderId, lines, claimed), DeliveryFor(clientEmail, orderId, claimed, pdfFiles));
        }
      }
  }
}
