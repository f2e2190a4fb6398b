# Order submission with webhook notification

This project models the order-submission handler of a small Laravel application,
`OrderController::store`. The handler works in four steps:

1. It validates a submitted form with two fields, `customer_name` and `amount`.
2. It normalises the customer name: runs of whitespace collapse to one space, then PHP's `trim` runs.
3. It stores the order under a fresh id.
4. It queues one signed `order.created` webhook call that describes the stored order.

It then answers with the message "Order Created & Webhook Sent!".

The model has four modules:

- `Wrappers` (`wrappers.dfy`): the `Option` and `Result` types.
- `NameNormalization` (`normalization.dfy`): the normalisation, built from three parts.
  - PCRE's `\s` class, without the `u` flag: space, tab, line feed, vertical tab, form feed, carriage return.
  - The collapse done by `preg_replace('/\s+/', ' ', …)`.
  - PHP's `trim` with its default character list: space, tab, line feed, carriage return, NUL, vertical tab.

  The lemmas show four things:
  - The stored name is single-spaced, with no whitespace at either end.
  - Normalisation never lengthens a name and is idempotent.
  - Normalisation keeps the name's letters in order.
  - A name of letters and whitespace becomes letters separated by single spaces.
- `OrderValidation` (`validation.dfy`): the rules as Laravel applies them.
  - A failed `required` stops that field.
  - Otherwise every failing rule reports, in rule order.
  - `min`/`max` compare the numeric value for a numeric field, the element count for an array, and otherwise the string length.
  - The `regex` failure of the name carries the handler's custom message.

  Whether a text is numeric, and its value, are given by the parameter `toNumber`. Its values are exact `real`s.
- `OrderSubmission` (`order_controller.dfy`): the class `OrderController`. Its fields are the orders table (a sequence of rows), the auto-increment counter and the outbox of queued webhook calls.
  - `Store` validates the request.
  - On failure, it changes nothing and answers with the errors.
  - On success, it appends exactly one order and exactly one webhook call, and answers with the success message.
    - The order has a fresh id, the normalised name and the raw amount.
    - The webhook call carries that order's id, name and amount.

  The class invariant `Valid` holds before and after every call of `Store` and of `CreateAndAnnounce`. The constructor establishes it. `CreateOrder` on its own keeps only the id part, and `DispatchWebhook` on its own changes only the outbox, so it breaks the one-call-per-order part. `Valid` says:
  - Ids are positive and strictly increasing.
  - The outbox holds exactly one call per stored order, in the same order.

Two things about the handler's own behaviour are proved outright. Both hold for the fields exactly as the handler receives them, with no request middleware in front of it:

- Validation looks at the raw name, so the length check does not bound the stored name from below.
  - `" a"` is accepted and stored as `"a"`.
  - Two form feeds pass `required`, because `trim` does not strip form feeds. They also pass the regular expression, because `\s` matches them. The stored name is then empty.

A stock Laravel application registers the global `TrimStrings` and `ConvertEmptyStringsToNull` middleware. `TrimStrings` strips Unicode whitespace, form feed included, before validation runs. Behind it, `" a"` arrives as `"a"` and fails `min:2`. Two form feeds arrive as an empty string, become null, and fail `required`. So the two results above describe the handler on its own, not a stock application.

## Model

| member | source | states |
|---|---|---|
| NameNormalization.Collapse | app/Http/Controllers/OrderController.php:36 | `preg_replace('/\s+/', ' ', s)` never lengthens the string. It is empty exactly when the input is. It starts with a space exactly when the input starts with whitespace. |
| NameNormalization.CollapseSingleSpaced | app/Http/Controllers/OrderController.php:36 | After the collapse, every whitespace character is a plain space, and no two spaces are adjacent. |
| NameNormalization.CollapseKeepsLetters | app/Http/Controllers/OrderController.php:36 | The collapse keeps every ASCII letter, in order. |
| NameNormalization.CollapseFixesSingleSpaced | app/Http/Controllers/OrderController.php:36 | A string whose whitespace is already single plain spaces is unchanged by the collapse. |
| NameNormalization.Trim | app/Http/Controllers/OrderController.php:36 | `trim` never lengthens its input. The three lemmas below pin down what it keeps. |
| NameNormalization.TrimIsSlice | app/Http/Controllers/OrderController.php:36 | `trim` returns a contiguous slice of its input, starting at the number of characters `ltrim` removes. |
| NameNormalization.TrimEnds | app/Http/Controllers/OrderController.php:36 | What `trim` keeps neither starts nor ends with a character of PHP's default trim list. |
| NameNormalization.TrimKeepsInnerCharacter | app/Http/Controllers/OrderController.php:36 | A character outside the trim list is never removed: it lies inside the kept slice. |
| NameNormalization.TrimKeepsLetters | app/Http/Controllers/OrderController.php:36 | `trim` removes no letter. |
| NameNormalization.TrimFixesTrimmed | app/Http/Controllers/OrderController.php:36 | A string with no trimmable character at either end is unchanged by `trim`. |
| NameNormalization.Normalize | app/Http/Controllers/OrderController.php:36 | The stored name is never longer than the raw name. |
| NameNormalization.NormalizeSingleSpaced | app/Http/Controllers/OrderController.php:36 | The stored name's only whitespace is single plain spaces, never two in a row and never at either end. |
| NameNormalization.NormalizeKeepsLetters | app/Http/Controllers/OrderController.php:36 | The stored name has exactly the raw name's letters, in the same order. |
| NameNormalization.NormalizeOfLettersAndWhitespace | app/Http/Controllers/OrderController.php:27-36 | A raw name of letters and whitespace is stored as letters and single spaces, with its letters in order. |
| NameNormalization.NormalizeFixesNormalForm | app/Http/Controllers/OrderController.php:36 | A single-spaced string without trimmable ends is its own normal form. |
| NameNormalization.NormalizeIdempotent | app/Http/Controllers/OrderController.php:36 | Normalising twice gives the same result as normalising once. |
| NameNormalization.NormalizeWhitespaceRun | app/Http/Controllers/OrderController.php:36 | A name made only of whitespace is stored as the empty string. |
| NameNormalization.CollapseInterleave | app/Http/Controllers/OrderController.php:36 | Words separated by non-empty whitespace runs collapse to the words joined by exactly one space each, whatever follows them. |
| NameNormalization.NormalizeWords | app/Http/Controllers/OrderController.php:36 | Any number of words separated by non-empty whitespace runs, with optional whitespace before and after, are stored as the words joined by exactly one space each. |
| NameNormalization.NormalizeIndentedWord | app/Http/Controllers/OrderController.php:36 | Optional whitespace before a single word is dropped. |
| NameNormalization.NormalizeTwoWords | app/Http/Controllers/OrderController.php:36 | Two words separated by a whitespace run, with optional whitespace before and after, become the two words joined by one space. |
| NameNormalization.SpacedWordsNormalForm | app/Http/Controllers/OrderController.php:27-36 | Two words joined by one space match the name pattern and are stored unchanged. |
| NameNormalization.NormalizeExample | app/Http/Controllers/OrderController.php:36 | `"  John   Smith "` is stored as `"John Smith"`. |
| NameNormalization.NormalizeDoubleSpaceExample | app/Http/Controllers/OrderController.php:36 | `"John  Smith"` is stored as `"John Smith"`: the inner run becomes one space, not none. |
| OrderValidation.NameErrors | app/Http/Controllers/OrderController.php:22-27 | The name has no error exactly when it is a non-blank text of 2 to 255 characters matching `^[A-Za-z\s]+$`. The `regex` error is reported exactly when `required` passes and the value is not a matching text. Every error concerns `customer_name`. |
| OrderValidation.AmountErrors | app/Http/Controllers/OrderController.php:29 | The amount has no error exactly when it is a non-blank numeric text whose value is at least 1. The `numeric` error is reported exactly when `required` passes and the value is not a numeric text. Every error concerns `amount`. |
| OrderValidation.Validate | app/Http/Controllers/OrderController.php:21-33 | The request is accepted exactly when both fields are. An accepted request yields the raw name and amount. A rejected one carries at least one error. |
| OrderValidation.MessageFor | app/Http/Controllers/OrderController.php:30-32 | The custom text "Customer name must contain only letters and spaces." is shown exactly for the name's `regex` error. Every other error gets the standard message for its own field and rule, never a custom text. |
| OrderValidation.NonLetterNameRejected | app/Http/Controllers/OrderController.php:27-32 | A name with a character that is neither an ASCII letter nor whitespace is rejected. Unless the name is blank, one of its errors shows "Customer name must contain only letters and spaces." |
| OrderValidation.MissingAmountRejected | app/Http/Controllers/OrderController.php:29 | A missing amount is rejected by `required`. |
| OrderValidation.NonNumericAmountRejected | app/Http/Controllers/OrderController.php:29 | A non-numeric amount is rejected: by `numeric`, or by `required` when it is blank. |
| OrderValidation.SmallAmountRejected | app/Http/Controllers/OrderController.php:29 | A numeric amount below 1 is rejected: by `min:1`, or by `required` when it is blank. |
| OrderValidation.AmountOfOneAccepted | app/Http/Controllers/OrderController.php:29 | An amount of exactly 1 passes every amount rule. |
| OrderValidation.AcceptedNameNormalized | app/Http/Controllers/OrderController.php:26-36 | For an accepted request, the stored name is letters and single spaces. It keeps the raw letters in order and has at most 255 characters. |
| OrderValidation.LeadingSpaceCountsTowardsMinimum | app/Http/Controllers/OrderController.php:25-36 | When the handler receives `" a"` unmodified, it passes validation, yet its stored name has one character. |
| OrderValidation.FormFeedNameStoredEmpty | app/Http/Controllers/OrderController.php:23-36 | When the handler receives two form feeds unmodified, they pass validation, yet the stored name is empty. |
| OrderSubmission.CallsFor | app/Http/Controllers/OrderController.php:45-54 | The outbox that announces a list of orders holds one call per order, in the same order. Each call goes to the receiver URL with an `order.created` payload built from its order. |
| OrderSubmission.OrderController.constructor | app/Http/Controllers/OrderController.php:53 | The controller starts with an empty table and an empty outbox, the counter at 1, and the configured signing secret. The invariant holds. |
| OrderSubmission.OrderController.CreateOrder | app/Http/Controllers/OrderController.php:39-42 | Exactly one row is appended under the counter's id, which is larger than every existing id. The counter advances by one and the id invariant is kept. |
| OrderSubmission.OrderController.DispatchWebhook | app/Http/Controllers/OrderController.php:45-54 | Exactly one call is appended to the outbox, to the receiver URL and signed with the configured secret. |
| OrderSubmission.OrderController.CreateAndAnnounce | app/Http/Controllers/OrderController.php:36-54 | The normalised name and the raw amount are stored under a fresh id, and the counter advances by one. The call announcing that row is queued, and the invariant is kept. |
| OrderSubmission.OrderController.Store | app/Http/Controllers/OrderController.php:18-58 | A rejected request returns its errors and leaves the table, counter and outbox unchanged. An accepted one appends exactly one order and exactly one call, advances the counter by one, returns "Order Created & Webhook Sent!", and keeps the invariant. The order has a fresh id, the normalised name and the raw amount. The call's event is `order.created`, and its order id, name and amount are the order's. |
| OrderSubmission.SubmitTwice | app/Http/Controllers/OrderController.php:39-42 | Submitting the same valid form twice creates two orders with different ids and the same stored name and amount. |
| OrderSubmission.SubmitJaneDoe | app/Http/Controllers/OrderController.php:21-58 | Submitting "Jane Doe" / "50" answers with the success message and stores "Jane Doe" / "50". It queues a call whose payload carries that order's id. |
| OrderSubmission.JaneDoeAccepted | app/Http/Controllers/OrderController.php:21-33 | "Jane Doe" / "50" passes validation. |
| OrderSubmission.JaneDoeNormalForm | app/Http/Controllers/OrderController.php:36 | "Jane Doe" matches the name pattern and is stored unchanged. |

`PayloadFor` builds the payload at lines 47-52. It has no row of its own: the `CallsFor` and `Store` rows state what each call's payload carries.

## Left out

- `create` (the form page) only returns a view; the Blade template, its styling and its client-side input filter are user interface.
- Route wiring and the webhook-server configuration file are framework setup. The signing secret read from that configuration is a constructor parameter, taken as a string; the case where it is not set is not modelled.
- Delivery of the webhook: HTTP, request signing, the queue connection, retries, back-off, timeouts and SSL verification belong to the webhook library. Dispatch is modelled as appending the call to an outbox.
- Database internals: a failed insert, transactions and other columns such as timestamps. `Order::create` is an append under the next auto-increment id.
- PHP's numeric-string parsing (`is_numeric`, the float value and its range checks) is the parameter `toNumber`, and its values are exact reals.
- Request middleware that trims strings or turns empty strings into null before validation (Laravel's `TrimStrings` and `ConvertEmptyStringsToNull`). The fields are modelled as given to the handler with no middleware in front of it: absent, a text or an array.
- Laravel's standard message texts, the error bag, the redirect and the session flash: a response is `Created` with the success text or `Rejected` with the list of failed rules, and `MessageFor` gives the handler's custom text for the name pattern and names the rule otherwise.
- Character encoding: a string is a sequence of Unicode characters, so string length is `mb_strlen` on valid UTF-8; invalid byte sequences are not modelled.
- OrderSubmission.OrderController.Store: the answer is the success text itself; the redirect to the previous page is not modelled.
