# Gift-card order webhook: a Dafny model

This project models the core of a small web service that sells gift cards through an online shop. The shop posts an "order" webhook for each order. The handler then does the following:

- It reads the order from the JSON payload.
- It checks whether the order is paid.
- It picks out the gift-card lines: product 14409, with a size variant of "100 zł", "200 zł", "300 zł" or "500 zł".
- It takes pre-generated codes of the right face value from a pool in the database and marks each one used by the order.
- It names one PDF voucher per code, e-mails the vouchers to the buyer and reports the codes back to the shop.

The project also models the shop API client that the service uses to attach a note to an order:

- the order endpoint built from the configured domain;
- the request body;
- the classification of the shop's answer into success or `IdosellApiError`.

Modules, one per file:

- `Wrappers` (wrappers.dfy): `Option` and `Result`.
- `PyJson` (pyjson.dfy): the values `json` decoding yields (`None`, bool, int, str, list, dict), and the Python operations the handler applies to them:
  - truthiness, `dict.get` with and without a default, `for x in ...` and `x[0]`;
  - the exceptions (AttributeError, TypeError, KeyError) those raise on values of the wrong shape.
- `Decimal` (decimal.dfy): `str()` of an int, and the simplified `int()` the serial-number coercion relies on.
- `Crud` (crud.dfy): the code pool as a class `CodeStore` over a sequence of rows. It has `GetFreeCode` (`get_free_code`) and `MarkCodeUsed` (`mark_code_used`).
- `Webhook` (webhook.dfy): `webhook_order`. Its parts are:
  - the triage of the payload;
  - the gift-line loop;
  - the claiming loop, proved against the specification function `ClaimPlan`;
  - the voucher file names;
  - the e-mail and shop-notice gating;
  - the response dicts;
  - the whole handler as the method `HandleOrderWebhook`.
- `Idosell` (idosell.dfy): `IdosellClient`, with the URL normalisation of its constructor, `_parse_json_safely` and `update_order_note`. The HTTP answer is a parameter of `UpdateOrderNote`.

The model follows the code's own behaviour:

- There is no deficit computation. Nothing looks at the codes an order already holds: every call claims up to `quantity` new codes per line. So a repeated delivery of the same paid order claims a second set.
- Each `mark_code_used` commits on its own (database/crud.py:26). A quantity for which `range()` raises TypeError ends the call with that error after the earlier claims were committed. `HandleOrderWebhook` states both the failure and the claims made before it.
- There is no rollback when the pool runs out: an attempt that finds no free code is skipped.
- There is no event log.
- The pool rows carry the columns database/crud.py writes: `is_used`, `used_by_order_id`, `used_at`. database/models.py declares only `order_id`. The model follows crud.py and takes the uniqueness of the code column from database/models.py:9.

The ensures of `Webhook.AllocateCodes` make the first three points visible. A call lowers the free count of each value v by min(demand, free), whatever the order already holds.

The pool state is `CodeStore.rows`. `Crud.CodeStore.Valid` states code uniqueness, and every state change preserves it. `Webhook.Claimed` relates the pool before and after a call:

- every claimed row was free with the claimed value;
- it now carries the order;
- no row was claimed twice;
- every other row is unchanged.

`Webhook.ClaimedSince` says that the claims after a step extend those before it, and that what the step added is `Claimed` from the pool it found to the pool it left. `Webhook.ClaimedCompose` joins two such steps into one, and `Webhook.ClaimedSplit` takes one apart again.

`get_free_code` has no ORDER BY, so `GetFreeCode` chooses any free row. The properties are proved for every such choice.

## Model

| member | source | states |
|---|---|---|
| PyJson.Lookup | main.py:120-131 | `dict.get` finds a value exactly when the key is present, and the value found is stored under that key |
| PyJson.Iterate | main.py:158 | `for x in j` works on lists, strings and dicts only and visits nothing exactly when `j` is falsy; a list yields its items, a string its one-character strings and a dict its keys, each in order |
| PyJson.First | main.py:118 | `j[0]` of a truthy value succeeds exactly on lists and strings: on a list it is the first element, on a string its first character as a string; a dict raises KeyError and anything else TypeError |
| PyJson.FirstIsFirstIterated | main.py:118 | on a list or a string, `j[0]` is the first value `for x in j` visits |
| Decimal.NatToDecimal | main.py:239 | `str(n)` is a non-empty digit string with no leading zero: a string starting with '0' is "0" itself, and only for n == 0 |
| Decimal.IntToDecimal | main.py:239 | `str(i)` is non-empty and consists of digits with a leading minus sign exactly when i < 0; the digits have no leading zero except in "0" itself |
| Decimal.DigitsValueOfNatToDecimal | main.py:239 | reading the digits of `str(n)` back gives n |
| Decimal.ParseIntToDecimal | idosell_client.py:76 | `int(str(i)) == i`, and `str(i)` is a literal `int()` accepts |
| Decimal.IntToDecimalInjective | main.py:239 | different ints have different decimal strings |
| Crud.MarkUsed | database/crud.py:22-24 | a marked row keeps its code and value, is used, and carries the order and the time |
| Crud.FreeCountZero | database/crud.py:11-18 | the free count of a value is zero exactly when no row of that value is unused |
| Crud.FreeCountAfterUpdate | database/crud.py:21-28 | replacing one row changes each free count by that row's old and new contribution only |
| Crud.ClaimLowersFreeCount | database/crud.py:6-28 | marking a free row of value v lowers the free count of v by exactly one and of every other value by nothing |
| Crud.MarkUsedKeepsCodesUnique | database/crud.py:21-28 | marking a row keeps code uniqueness (database/models.py:9) |
| Crud.CodeStore.constructor | database/models.py:5-12 | a pool starts from rows with unique codes |
| Crud.CodeStore.GetFreeCode | database/crud.py:6-19 | the result is none exactly when no free row of the value exists, and otherwise a free row of that value; the pool is not modified |
| Crud.CodeStore.MarkCodeUsed | database/crud.py:21-28 | exactly that row becomes `MarkUsed` of itself, every other row is unchanged, the same row is returned, and uniqueness is kept |
| Webhook.AnyPaidIff | main.py:136-144 | `AnyPaid`, the `any(...)` over the prepaid entries, is true exactly when some entry has `paymentStatus == "y"` and no non-dict entry comes before it, and false exactly when every entry is a dict and none says "y" |
| Webhook.IgnoredIffNoResults | main.py:114-116 | `TriagePayload` ignores a payload exactly when it is a dict whose `Results` is missing or falsy |
| Webhook.GiftLineFor | main.py:159-183 | a kept line has product id 14409, a size known to `SIZE_TO_VALUE` and the value mapped from it; its size, name and quantity are the product's, the quantity 1 when the product gives none |
| Webhook.GiftProducts | main.py:158-175 | every product kept is a gift card of known size |
| Webhook.GiftProductsComplete | main.py:158-175 | the products kept are exactly the gift cards of known size: such a product occurs as often as among the items, any other not at all |
| Webhook.GiftLinesOkIff | main.py:158-165 | `GiftLinesOf`, the product loop step by step (`LineStep`), raises exactly when some product is not a dict or is a gift card with an unhashable size |
| Webhook.GiftLinesExactly | main.py:158-184 | the lines `GiftLinesOf` yields are one per gift product of known size, in product order, and nothing else |
| Webhook.CollectGiftLines | main.py:156-184 | the loop's result is the iteration error of `products`, or the lines `GiftLinesOf` specifies |
| Webhook.RangeLength | main.py:206 | `range(q)` accepts exactly ints and bools; an int runs max(q, 0) times, True once and False never |
| Webhook.ClaimPlanCount | main.py:202-215 | `ClaimPlan`, the claiming loop as a function, claims of each value v min(`Demand(lines, v)`, the free codes of v at the start): exhaustion skips instead of aborting |
| Webhook.ClaimPlanBounded | main.py:206-223 | never more claims than the sum of the positive quantities |
| Webhook.ClaimStep | main.py:207-223 | claiming one more free row extends the before/after relation of the pool |
| Webhook.ClaimedCodesDistinct | main.py:217-223 | the claimed codes are pairwise distinct when the pool's codes are unique |
| Webhook.ClaimedIsMonotone | database/crud.py:21-28 | rows only go from free to used: used rows stay as they were, and no row changes its code or value |
| Webhook.FreeAccountedStep | database/crud.py:6-28 | after a claim, every free code missing from the starting pool is still accounted for by a claimed value |
| Webhook.FreeLeftAfterAttempts | main.py:206-215 | after j attempts on a line the pool has exactly the line's available codes minus min(j, available) free |
| Webhook.ClaimAttempt | main.py:207-223 | one successful attempt keeps the accounting and the claim relation |
| Webhook.ClaimedCompose | main.py:202-223 | two claims one after the other, the second on the pool the first left, are together one claim of both |
| Webhook.ClaimedSplit | main.py:202-223 | a claim that extends an earlier claim from the same pool is the earlier one followed by a claim of the rest from the pool the earlier one left |
| Webhook.ClaimOnce | main.py:207-223 | an attempt claims exactly when a free code of the value is left; the earlier claims stay a prefix, what it adds takes the pool it found to the pool it leaves (`ClaimedSince`), and a skipped attempt changes neither the pool nor the claims |
| Webhook.ClaimLine | main.py:206-223 | the attempts of one line claim value v min(attempts, available) times; the earlier claims stay a prefix, and the line's own claims take the pool it found to the pool it leaves (`ClaimedSince`) |
| Webhook.AllocateCodes | main.py:198-225 | the claimed values are `ClaimPlan`, each value's count is min(demand, free), each free count drops by the same amount, the rows claimed are as `Claimed` says, the codes are distinct, and a TypeError is reported exactly when some quantity is not an int or bool |
| Webhook.PdfFilesOf | main.py:236-240 | one voucher file per assigned code |
| Webhook.PdfFileNameInjective | main.py:239 | `PdfFileName`, the name `giftcard_{value}zl_{code}.pdf`, determines the code and the value |
| Webhook.PdfFileNamesDistinct | main.py:236-240 | distinct codes give distinct attachment names |
| Webhook.PdfFilesFor | main.py:236-240 | the file loop yields, in order, one file per code, with that code and value and the name `giftcard_{value}zl_{code}.pdf` |
| Webhook.DeliveryFor | main.py:245-265 | the e-mail goes out exactly when the client e-mail is truthy and codes were assigned, with those codes and files; the shop is notified exactly when codes were assigned, with the order id and those codes |
| Webhook.EmailImpliesNotice | main.py:245-265 | no e-mail without the shop being told about the same codes |
| Webhook.ResponseJson | main.py:114-273 | each response dict is exactly what its return site builds: `ignored` has only its status, `not_paid` and `no_giftcards` have the status and the order id, and `giftcards_assigned` has four entries, the status, the order id, `giftLines` with one dict per gift line in order, and `assignedCodes` with one dict per code |
| Webhook.ReadAssignedCodesRoundTrip | main.py:268-273 | the `assignedCodes` of the response read back to exactly the assigned codes |
| Webhook.PaidStageOfItems | main.py:156-191 | `PaidStage` answers a paid order with readable products `no_giftcards` exactly when no gift product is present, and otherwise goes on to `PreAllocation` with one line per gift product in order; unreadable products raise |
| Webhook.HandleOrderWebhook | main.py:109-273 | the pool is untouched unless the order is paid and has gift lines; then the claims are `ClaimPlan`, as `Claimed`, lowering free counts by min(demand, free); the call fails with TypeError exactly on a bad quantity, after its earlier claims; otherwise it answers `giftcards_assigned` with the lines, the codes and the gated deliveries |
| Idosell.FindFrom | idosell_client.py:29 | the first occurrence of the separator at or after a position, or none at all |
| Idosell.LStrip | idosell_client.py:30 | `lstrip('/')` removes exactly the leading slashes |
| Idosell.RStrip | idosell_client.py:30 | `rstrip('/')` removes exactly the trailing slashes |
| Idosell.Strip | idosell_client.py:30 | the stripped host neither starts nor ends with '/' |
| Idosell.StripKeepsMiddle | idosell_client.py:30 | what `strip('/')` keeps is a middle part of the host with only slashes around it |
| Idosell.DropHttp | idosell_client.py:28-29 | `DropScheme` removes exactly the seven characters of a leading `http://` |
| Idosell.DropHttps | idosell_client.py:28-29 | `DropScheme` removes exactly the eight characters of a leading `https://` |
| Idosell.StripIdempotent | idosell_client.py:30 | stripping twice strips nothing more |
| Idosell.BaseUrlIgnoresScheme | idosell_client.py:28-30 | `BaseUrl` yields the same endpoint for a host given bare, with `http://` or with `https://` |
| Idosell.CoerceSerial | idosell_client.py:75-79 | an int is sent as itself, a string `int()` accepts as its int, and any other string as itself |
| Idosell.CoerceDecimalSerial | idosell_client.py:75-79 | a serial number given as its decimal text is sent as that int |
| Idosell.NotePayloadCarriesOneOrder | idosell_client.py:81-90 | the body `NotePayload` builds holds under `params.orders` exactly one order, with the serial number and the note |
| Idosell.ParseJsonSafely | idosell_client.py:44-51 | an unparseable body reads as None, any other as its value |
| Idosell.FirstItemErrorIff | idosell_client.py:125-134 | `FirstItemError` fails a list body exactly when some dict item has truthy `errors`, and reports the first such item |
| Idosell.NoteResponseErrorIff | idosell_client.py:101-134 | `NoteResponseError` fails status 400 or more with the HTTP error whatever the body, passes an unparseable body with a good status, and fails exactly on a bad status, a dict body with truthy `errors` or a list body with such an item |
| Idosell.IdosellClient.constructor | idosell_client.py:21-40 | the client's endpoint is `BaseUrl(domain)`, with its timeout (`DefaultTimeout`, 10 seconds, when none is given) and the session headers |
| Idosell.IdosellClient.UpdateOrderNote | idosell_client.py:53-139 | the PUT goes to the endpoint with the coerced serial number, the note and the timeout, and the error reported is `NoteResponseError` of the answer |

## Left out

- Row locking (`with_for_update`) and concurrent requests: the pool is modelled sequentially, one call at a time.
- The SQLAlchemy session, engine, `commit`/`refresh` and table creation. A mark is a direct update of `CodeStore.rows`, which is what a commit makes durable.
- `used_at`: `datetime.utcnow()` is the parameter `now`, one value for a whole call.
- Voucher rendering (pdf_utils.py): a `PdfFile` holds the name and the code and value the renderer is given, not the bytes. A failure inside the renderer is not modelled.
- E-mail sending (email_utils.py): `GiftcardEmail` holds the arguments of `send_giftcard_email`. SMTP, the text template and its failures are not modelled. The code swallows those failures, so they leave the response unchanged.
- `notify_idosell_about_codes` (main.py:72-106) and the HTTP exchange in `update_order_note`: the model's `ShopNotice` records that the handler calls the notifier, with the order id and the codes (main.py:264-265). What the notifier then does is not modelled: it returns without sending when `IDOSELL_API_URL` or `IDOSELL_API_KEY` is unset (main.py:80-84), since the environment is outside the model, and otherwise posts the codes and swallows any failure. The shop's answer to `update_order_note` is a parameter. The `requests` session and its I/O are not modelled.
- Decoding the request body: the handler model takes the decoded JSON value. A body that is not JSON is not modelled.
- JSON floats: `Json` has no float value. A float quantity, or a product id such as 14409.0, which Python compares equal to 14409, is not modelled.
- Repeated keys: a JSON text may repeat a key, and `json.loads` then keeps the last value, so a decoded dict never holds a key twice. The model takes decoded values, but `Json.Object` is a sequence of entries and does not itself enforce distinct keys. On a value that repeats a key, `Lookup` takes the first entry.
- Logging throughout, and the debug endpoints (main.py:37-69, 275-291).
- Idosell.CoerceSerial: models `int()` on strings as an optional sign followed by ASCII digits only. Python's `int()` also accepts surrounding whitespace, underscores between digits and other Unicode digits; such strings are sent as strings here.
- Idosell.IdosellClient.UpdateOrderNote: the text of the `IdosellApiError` message is not modelled. It embeds `str()` of the errors value (idosell_client.py:123, 134), so a string appears without quotes. The error records the status and text, or the errors value itself.
- The response dicts are modelled as `Json` values. Rendering them to bytes by the web framework is not modelled.
