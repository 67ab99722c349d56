# Ruri backend: chat escalation and order creation

A Dafny model of the two handlers of the Ruri Flask/MySQL backend (`app.py`) that
contain decisions or arithmetic:

- **`POST /chat` (`send_message`)**: the language model's generated reply is shown to
  the client unless it contains one of three fallback phrases ("I'm not sure",
  "I don't understand", "Sorry, I can't help with that", matched case-sensitively as
  substrings) or is shorter than five characters once Python's `strip()` has removed
  leading and trailing white space. An escalated reply is replaced by "I'm forwarding
  your question to a human representative." and flagged `human_needed`. Each turn then
  appends two `chat_logs` rows: client to responder (id 10) with the original message,
  and responder to client with the final reply.
- **`POST /orders` (`create_order`)**: the total is the sum of store price times
  quantity over the requested items, with every price read from `products`, never from
  the request. One `orders` row is inserted under a fresh id, then one `order_items`
  row per item carrying the store price.

Files:

- `pystr.dfy` (module `PyStr`): `in` on strings and `strip()`, each proved against a
  declarative definition; `str.isspace` is given as CPython's set of white-space code
  points.
- `escalation.dfy` (module `Escalation`): the fallback phrases, the hand-off notice and
  the decision `Decide`.
- `orders.dfy` (module `Orders`): the order's total (`Total`), its lines (`LineRows`),
  and the first pricing loop (`ComputeTotal`).
- `store.dfy` (module `Store`): class `Database`, holding the product prices, the
  `orders`, `order_items` and `chat_logs` tables as sequences, and the
  `AUTO_INCREMENT` counter that `cursor.lastrowid` reads. The two handlers are its
  methods `CreateOrder` and `SendMessage`.

Modelling choices:

- Prices and totals are integers counting cents. The products `price * quantity` and
  the running sum `total_amount +=` are computed in Python (app.py:114-115), on the
  `decimal.Decimal` values the MySQL driver returns for `DECIMAL` columns; the model
  computes them exactly.
- The language model is not modelled. Its output is the parameter `generated` of
  `SendMessage`.
- A handler that faults before its commit leaves the database unchanged. The only such
  fault in the modelled code is an unknown `product_id` in `create_order`'s first loop:
  `fetchone()` gives `None`, indexing it raises, and nothing has been inserted yet. The
  model returns `Err(UnknownProduct(id))` for the first such item in request order.
- The responder's id is `10`, as the code passes it. The comments beside the two
  inserts (app.py:172 and app.py:178) say `0`; the model follows the code.
- The code has no handler around the two `chat_logs` inserts or the commit
  (app.py:173-184), so a failed write fails the whole request and the reply does not
  reach the client. Store failures are not modelled at all (see below).

## Model

| member | source | states |
|---|---|---|
| `PyStr.ContainsSpec` | app.py:163 | the scanning test `Contains(hay, needle)` holds exactly when `needle` occurs at some index of `hay`, which is what Python's `needle in hay` means |
| `PyStr.StripStartSpec` | app.py:163 | `lstrip()` removes a prefix made only of white space, and what remains is empty or starts with a non-space |
| `PyStr.StripEndSpec` | app.py:163 | `rstrip()` removes a suffix made only of white space, and what remains is empty or ends with a non-space |
| `PyStr.StripSpec` | app.py:163 | `strip()` returns a contiguous slice of its input, everything cut away on both sides is white space, and the result neither starts nor ends with white space |
| `PyStr.StripShorter` | app.py:163 | stripping never makes a string longer |
| `PyStr.StripUnpadded` | app.py:163 | a string with no white space at either end is unchanged by `strip()` |
| `Escalation.AnyIn` | app.py:162-163 | the `any(resp in text for resp in phrases)` test is true exactly when some phrase of the list occurs as a substring of the text |
| `Escalation.Decide` | app.py:159-167 | the reply is escalated if and only if the generated text contains a fallback phrase or its stripped length is under 5; an escalated reply is exactly the hand-off notice, and any other reply is the generated text verbatim |
| `Escalation.ShortTextHasNoFallback` | app.py:162 | no text shorter than 12 characters contains a fallback phrase |
| `Escalation.LengthBoundary` | app.py:163-167 | "okay" and " \tokay\n " (four characters once stripped) escalate; "hello" (five characters) passes through verbatim with `human_needed` false |
| `Escalation.HandoffHasNoFallback` | app.py:162-164 | the hand-off notice contains none of the fallback phrases |
| `Escalation.HandoffPasses` | app.py:162-167 | the hand-off notice, if generated, would itself pass through without escalation |
| `Escalation.DecideStable` | app.py:159-167 | deciding on the reply a client was shown gives back that same reply, not escalated |
| `Store.PairedLogAppend` | app.py:172-182 | appending one turn's two rows to a log made of whole turns keeps it made of whole turns, and the new pair is a client-to-responder row answered by a responder-to-same-client row |
| `Store.Database.SendMessage` | app.py:153-192 | the returned reply is `Decide(generated)`; exactly two rows are appended to `chat_logs`, in order, (sender, 10, original message, 'client_ai') then (10, sender, returned reply text, 'client_ai'); earlier rows and all other tables are unchanged; the database invariant is kept |
| `Orders.FirstUnpriced` | app.py:112-114 | when some item's product has no price, the index of the first such item: every earlier item is priced and this one is not |
| `Orders.ComputeTotal` | app.py:107-115 | when every item's product has a store price, the result is the sum of store price times quantity over the items (0 for no items); otherwise it is the error naming the first unknown product |
| `Orders.LineRowsShape` | app.py:121-128 | the order lines are exactly one per item, in item order, each with the order id, the item's product id and quantity, and `price_each` equal to the store price |
| `Orders.LinesMatchTotal` | app.py:111-128 | the order lines' `price_each * quantity` add up to the order's total |
| `Orders.TotalAppend` | app.py:111-115 | the total of two item lists put together is the sum of their totals |
| `Orders.TotalNonNegative` | app.py:111-115 | with no negative price and no negative quantity the total is not negative |
| `Orders.PricingExample` | app.py:107-128 | two units at 10.00 and one unit at 5.00 give a total of 25.00 and two lines carrying the store prices 10.00 and 5.00 |
| `Store.Database.InsertOrderLines` | app.py:121-128 | the `order_items` rows of `LineRows` (one per item, in item order, store price) are appended after the earlier rows, their `price_each * quantity` add up to the order's total, every other table and the counter are unchanged, and the invariant is kept |
| `Store.Database.CreateOrder` | app.py:103-132 | an unknown product yields the error for the first such item and changes nothing; otherwise the result is the id `nextOrderId`, which no earlier order has, exactly one order row (id, user, total from store prices) is appended, the order lines of `LineRows` are appended after the earlier ones, the counter advances by one, the new lines add up to the new order's total, prices and chat logs are unchanged, and the invariant (increasing order ids below the counter, every line belonging to a stored order, chat log made of whole turns) is kept |

## Left out

- The language model (`nlp_model.py`: tokenizer, `generate`, decoding) is not modelled: its output is an arbitrary string parameter.
- `signup` and `login`: password hashing and checking are calls into bcrypt, a foreign cryptographic library.
- `get_products`: converts prices to floating point and formats a datetime; neither is modelled.
- `home`, `get_orders`, `attendance` and `ratings`: a constant response, or one SELECT or INSERT passed straight through, with no logic to state.
- Flask routing, CORS, loading of `.env` settings, the MySQL connection and cursor lifecycle, and JSON serialisation are not modelled.
- Commits and transactions are not modelled: a handler that reaches its commit makes all its inserts part of the store at once.
- Store failures and responder failures (connection errors, failed statements) are not modelled; in the code they make the request fail.
- Missing or ill-typed request fields (`data.get` giving `None`, an `items` value that is not a list, an item without `product_id` or `quantity`, a non-numeric quantity) are not modelled: the request types carry exactly the fields read.
- Only `product_id` and `quantity` of an item are in the model, because no other field of an item is ever read.
- CreateOrder: the second loop of `create_order` looks each price up again; the model reads the same, unchanged price map both times, so a price changed or a product deleted by another request between the two loops is not modelled, nor is the fault that deletion would cause in the second loop.
- CreateOrder: the `AUTO_INCREMENT` counter is modelled as advancing by exactly one per order, starting at 1; MySQL may skip values, which only strengthens freshness.
- The rounding of `total_amount` and `price_each` to the precision of their `DECIMAL` columns, and their range, are not modelled; nor is the 28-significant-digit precision of Python's default `decimal` context, which rounds a product or sum of more digits, where the model's integers stay exact.
- The ids and timestamps the store assigns to `order_items` and `chat_logs` rows are not modelled.
- Python strings may hold lone surrogate code points; Dafny strings hold Unicode scalar values only, so such strings are not modelled.
