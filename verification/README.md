# After-school classes booking API: request checks and data shaping

The booking backend is an Express server over a MongoDB database. Each data
route issues at most one database operation and returns JSON; four of them
first check their input, and `GET /` returns a constant descriptor.
This project models the decision logic inside those handlers as pure Dafny
functions and proves properties about it:

- the three-stage check of `POST /order` (body shape, then name, then phone), which reports the first failing stage;
- the order document built for an accepted request, with its total;
- the image-path rewrite that `GET /lessons` applies to every lesson;
- the `spaces` check of `PUT /lessons/:id`, which uses JavaScript's `parseInt`;
- the guard order of the id-based routes and of `GET /search`, which answer 400 before any database access.

Modules, one per concern:

- `Results`: `Option`, for JSON fields that may be absent, and `Result`, for checks that may reject.
- `JsText`: the JavaScript text semantics the handlers depend on.
  - The regex character classes `[A-Za-z]`, `[0-9]` and `\s`, with the full ECMAScript white-space set.
  - Whole-string matching of `/^[C]+$/`.
  - `startsWith`.
  - `String(v)` for JSON values.
  - `parseInt` with no radix: leading white space, sign, `0x` prefix, longest digit run.
- `Api`: the client errors. Each one is a 400 response with a fixed message.
- `Lessons`: the lesson document, the image rewrite and the spaces check.
- `Orders`: the order request, the order document, the price fold and `CreateOrder`.
- `Routes`: per handler, a `Plan` that is `Reject(error)`, `ServerError` or `Issue(request)`.
  - `Reject(error)` is a 400 response and carries no database operation.
  - `ServerError` is a 500 response raised while the query is prepared, before any database operation.
  - `Issue(request)` is the single database operation the handler performs.

The database is not modelled. Neither are the responses it decides: the 404
for a missing lesson and the 500 for a failed call. The id-format check of
the database driver (`ObjectId.isValid`) is the parameter `isValidId`. The
creation time of an order is the parameter `orderDate`.

The search route compiles the query into a case-insensitive regular
expression (backend/server.js:257-258) and lets the database match subject
and location against it. The model covers what happens before that match:
a missing or empty query is answered with 400. A query that is not a valid
pattern makes the `RegExp` constructor throw, and the route answers 500.
Whether a query is a valid pattern is the parameter `isValidPattern`.

## Model

| member | source | states |
|---|---|---|
| JsText.MatchesPlusIff | backend/server.js:151-160 | `/^[C]+$/` accepts a string exactly when it is non-empty and every character is in class C. Both directions are proved by induction on the regex semantics. |
| JsText.MatchesPlus | backend/server.js:151-160 | Whole-string matching of `/^[C]+$/`: one character of class C, then the end of the string or another match. It has no contract of its own. `MatchesPlusIff` characterises it as "non-empty and every character in C". |
| JsText.ParseIntOfNumeral | backend/server.js:211 | `parseInt` of the numeral of any integer n, followed by a character that cannot continue it, is n. This covers `"12abc"` and `"3.7"`. The one exception is `"0x…"`, which switches to hexadecimal. |
| JsText.ParseIntRoundTrip | backend/server.js:211 | `parseInt(String(n)) == n` for every integer n, so a JSON number of spaces is read back unchanged. |
| JsText.ParseIntSkipsWhitespace | backend/server.js:211 | Leading JavaScript white space does not change what `parseInt` reads. |
| JsText.TrimStartSkipsWhitespace | backend/server.js:211 | Trimming a string that starts with white space gives the same result as trimming the string without that white space. |
| JsText.ParseIntWithoutDigits | backend/server.js:211-212 | A string that does not start with white space, a sign or a digit parses to NaN. |
| JsText.ParseIntOfNonNumbers | backend/server.js:210-212 | `null`, `true` and `false` as spaces parse to NaN. |
| JsText.NatToDecimal | backend/server.js:211 | `String(n)` for a natural n is a non-empty string of digits with no leading zero. |
| JsText.NatToDecimalValue | backend/server.js:211 | The digits of `String(n)` have value n. |
| JsText.TrimStart | backend/server.js:211 | Trimming never lengthens a string. Everything removed is white space, and the result does not start with white space. |
| JsText.TrimStartIsSuffix | backend/server.js:211 | What trimming leaves is a tail of the original string. |
| JsText.ParseInt | backend/server.js:211 | `parseInt(s)` with no radix: trim leading white space, read one sign, read a `0x` prefix, read the longest digit run. It has no contract of its own. `ParseIntOfNumeral`, `ParseIntRoundTrip`, `ParseIntSkipsWhitespace` and `ParseIntWithoutDigits` characterise it. |
| JsText.ParseIntValue | backend/server.js:211 | `parseInt(updateData.spaces)`: `parseInt` of the value's string form. It has no contract of its own. `ParseIntRoundTrip` and `ParseIntOfNonNumbers` characterise it. |
| JsText.ToJsString | backend/server.js:211 | `String(v)`, the conversion `parseInt` applies first: `"null"`, `"true"`, `"false"`, the numeral of a number, or the string itself. It has no contract of its own. `ParseIntRoundTrip` and `ParseIntOfNonNumbers` characterise it through `parseInt`. |
| JsText.IntToDecimal | backend/server.js:211 | `String(n)` for an integer is non-empty and starts with `-` exactly when n is negative. `ParseIntRoundTrip` proves `parseInt` reads it back as n. |
| JsText.DigitRun | backend/server.js:211 | The digit run `parseInt` reads is the longest prefix of radix digits: everything before it is a digit and the next character is not. |
| Api.ApiError.Message | backend/server.js:112-253 | The `error` text of each 400 response, word for word as the handlers send it: the id error (lines 114 and 205), the shape, name and phone errors (lines 146, 154, 162), the spaces error (line 214) and the missing-query error (line 253). It has no contract of its own. `MessagesIdentifyErrors` characterises it as one distinct message per error. |
| Api.MessagesIdentifyErrors | backend/server.js:145-253 | Two client errors have the same message only when they are the same error, so the message tells the client which check failed. |
| Lessons.IsRelativeImage | backend/server.js:92 | The rewrite condition `lesson.image && lesson.image.startsWith('/images/')`: the image is present, non-empty and starts with `/images/`. It has no contract of its own. `RewriteChangesExactlyRelativeImages` characterises it as exactly the images the rewrite changes. |
| Lessons.RewriteImage | backend/server.js:92-93 | The rewrite keeps an image present or absent. The original path remains a suffix of the result. A changed image was a `/images/` path and is now exactly the base URL followed by that path. |
| Lessons.RewriteChangesExactlyRelativeImages | backend/server.js:92-94 | An image is changed exactly when it is present and starts with `/images/`. Both directions are proved. |
| Lessons.RewriteImageIdempotent | backend/server.js:90-95 | Rewriting an image twice gives the same result as rewriting it once. |
| Lessons.RewriteLessonImages | backend/server.js:91-95 | The lesson list keeps its length and order. Each lesson keeps every field except its image, which is rewritten. The resulting list is a fixed point of the rewrite. |
| Lessons.CheckSpacesUpdate | backend/server.js:210-218 | Without `spaces`, the update passes through unchanged. With it, the update is rejected exactly when `parseInt` gives NaN or a negative number. On acceptance the keys are the same, every other field is the same, and `spaces` becomes the parsed non-negative integer. |
| Lessons.CheckSpacesIdempotent | backend/server.js:210-218 | Checking an accepted update again accepts it and leaves it unchanged. |
| Lessons.NegativeSpacesRejected | backend/server.js:211-216 | A negative number of spaces is rejected, whether it is sent as a number or as a string. |
| Lessons.NonNegativeSpacesAccepted | backend/server.js:210-217 | A non-negative JSON number of spaces is accepted, and the update is stored exactly as sent. |
| Lessons.NonNumericSpacesRejected | backend/server.js:210-216 | `null` or a boolean as spaces is rejected. Only an absent field skips the check. |
| Lessons.FractionalSpacesTruncated | backend/server.js:211-217 | A string such as `"3.7"` is accepted and stored as 3. |
| Orders.HasOrderShape | backend/server.js:144 | The shape check: name and phone truthy, lessons a non-empty array. It has no contract of its own. `CreateOrder` and `ShapeErrorFirst` characterise it as the first check. |
| Orders.PriceOrZero | backend/server.js:171 | `l.price \|\| 0`: a lesson's price, or 0 when it has none. It has no contract of its own. `ReduceIsSum` and `SumPricesNonNegative` characterise the sum built from it. |
| Orders.ReducePrices | backend/server.js:171 | `lessons.reduce((sum, l) => sum + (l.price || 0), acc)` as a left fold. It has no contract of its own. `ReduceIsSum` proves it equals `acc` plus the reference sum. |
| Orders.SumPricesAppend | backend/server.js:171 | The price sum of a concatenation is the sum of the two parts. |
| Orders.ReduceIsSum | backend/server.js:171 | The left fold that `reduce` performs, started from `acc`, equals `acc` plus the reference sum of prices. A missing price counts as 0. |
| Orders.SumPricesNonNegative | backend/server.js:171 | When no price is negative, the sum of prices is not negative. |
| Orders.OrderTotal | backend/server.js:171 | The total is the client's `totalPrice` when it is present and non-zero. Otherwise it is the sum of the lesson prices. |
| Orders.ComputedTotalNonNegative | backend/server.js:171 | A total computed from non-negative prices is not negative. |
| Orders.NameRegexAccepts | backend/server.js:151-152 | `/^[A-Za-z\s]+$/.test(name)`. It has no contract of its own. `MatchesPlusIff` characterises it as a non-empty name of letters and white space; `DigitInNameRejected` and `WhitespaceNameAccepted` apply that to `CreateOrder`. |
| Orders.PhoneRegexAccepts | backend/server.js:159-160 | `/^[0-9]+$/.test(phone)`. It has no contract of its own. `MatchesPlusIff` characterises it as a non-empty phone of ASCII digits; `LetterInPhoneRejected` applies that to `CreateOrder`. |
| Orders.CreateOrder | backend/server.js:141-174 | A bad shape gives the shape error. Otherwise a name outside `[A-Za-z\s]` gives the name error. Otherwise a phone outside `[0-9]` gives the phone error. The request is accepted exactly when all three checks pass. The order then copies name, phone and lessons, has status `"pending"`, has the given date, and has the total from `OrderTotal`. |
| Orders.DigitInNameRejected | backend/server.js:151-156 | A name containing a digit is never accepted. |
| Orders.LetterInPhoneRejected | backend/server.js:159-164 | A phone containing a letter is never accepted. |
| Orders.ShapeErrorFirst | backend/server.js:144-148 | A missing name or phone, or a lessons field that is missing, not an array or empty, reports the shape error whatever else the request holds. |
| Orders.WhitespaceNameAccepted | backend/server.js:151-156 | Any non-empty name made only of white space, such as `" "` or a tab and a newline, passes the name check, so with a valid phone and lessons the order is accepted. |
| Routes.PlanGetLesson | backend/server.js:109-120 | The handler never fails before the lookup. It rejects exactly when the id is malformed, with the id error and no lookup. Otherwise it looks up exactly that id. |
| Routes.PlanUpdateLesson | backend/server.js:199-225 | A malformed id gives the id error whatever the body holds. Otherwise a failed spaces check gives the spaces error. An update is issued exactly when both checks pass. It targets that id, has the same keys, leaves a body without spaces unchanged, and leaves every other field as received. When the body has `spaces`, the issued value is the non-negative integer `parseInt` read from it. |
| Routes.PlanCreateOrder | backend/server.js:139-177 | Nothing is inserted exactly when a check fails. The error is the one `CreateOrder` reports, i.e. that of the first failing check in the order shape, name, phone. Otherwise the inserted order copies name, phone and lessons, is pending, and has the given date and the computed total. |
| Routes.PlanSearch | backend/server.js:249-260 | The handler rejects with 400 exactly when the query is missing or empty. Otherwise it fails with 500 exactly when the query is not a valid pattern. In both cases no search is issued. Otherwise it searches for the query as given. |
| Routes.IdRoutesAgree | backend/server.js:203-207 | `PUT /lessons/:id` rejects a malformed id exactly as `GET /lessons/:id` does, with the same error, before it looks at the body. |
| Routes.NegativeSpacesNeverStored | backend/server.js:203-225 | On a well-formed id, a negative number of spaces never reaches the database. |
| Routes.StoredSpacesNonNegative | backend/server.js:210-225 | Every update that reaches the database with spaces stores a non-negative integer. This is a corollary of the `PlanUpdateLesson` contract, stated on its own as the route-level guarantee. |

## Left out

- The database is left out because it is external I/O. This covers the connection, every query (`find`, `findOne`, `insertOne`, `findOneAndUpdate`), the 404 and 500 responses they lead to, and the inserted id.
- `GET /` and `GET /orders` make no decision, and `GET /lessons` makes none before its single query, so they are not modelled as plans.
- Express wiring is framework plumbing: the logger, CORS, body parsing, static files, the 404 and error handlers, `listen` and SIGINT.
- `backend/import-data.js` is not part of this model. It reads files and replaces two collections.
- `ObjectId.isValid` is a parameter, because it is the driver's definition.
- The search itself (backend/server.js:258-265) is left out. It builds a `RegExp` from user input and the database does the matching.
- `new Date()` is left out because it is a clock. The order date is a parameter.
- Prices, totals and spaces are integers. Floating point is not modelled: no fractional prices and no NaN total.
- `JsText.IntToDecimal`: `String(n)` is modelled as a plain decimal numeral for every integer. JavaScript switches to exponent notation from 1e21 on, and `parseInt` of that form reads only its leading digit.
- JSON coercion of other types is left out. Request fields are typed options: a name or phone is a string, a price or total a number, spaces one of null, a boolean, a number or a string. Arrays or objects in those places, a non-object lesson and a non-string image (on which `startsWith` throws) are not modelled.
- A `query` parameter that Express parses into an array is left out, as are repeated query keys.
- `Routes.PlanSearch`: which queries are valid JavaScript regular expressions is the parameter `isValidPattern`. The regular-expression grammar is not modelled.
- Strings are sequences of code points rather than UTF-16 units. No class used by the checks contains a character outside the Basic Multilingual Plane, so the checks accept the same strings.
