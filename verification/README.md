# Inventory backend: insights engine and OTP registration, modelled in Dafny

This project models the two parts of a small business-management backend that carry behaviour:

- **The insights engine.** It computes aggregate metrics over one business's sales and inventory rows. These are revenue, cost of goods sold (COGS), profit, loss, inventory value and average sale price. The revenue, profit and inventory-value endpoints each append one row to an insight log. The comprehensive view returns all five metrics and writes nothing. A listing returns one business's log rows.
- **The registration / OTP verification / login state machine** over the user table, plus the six-digit OTP code generator.

Modules:

| file | module | contents |
|---|---|---|
| `results.dfy` | `Results` | `Option` and `Result` |
| `models.dfy` | `Models` | `User`, `PendingOtp`, `Business`, `Item`, `Sale`, `Insight`; the password hash/check pair; the unique constraints |
| `otp_codes.dfy` | `OtpCodes` | decimal rendering and parsing; `GenerateOtp` |
| `auth.dfy` | `Auth` | `Register`, `RegistrationMail`, `VerifyOtp`, `Login` and the lemmas relating them |
| `seqs.dfy` | `Seqs` | generic `Filter` (a WHERE clause) and `Sum` (a SUM aggregate), with append, pointwise and permutation lemmas |
| `insights.dfy` | `Insights` | the aggregates, the three logging endpoints, `Comprehensive`, `ListInsights` and their properties |

Modelling choices:

- **Money.** Amounts are integer cents, because the columns are `Numeric(10, 2)`. The average sale price is an exact `real` (see `Insights.AverageSalePrice` under "Left out").
- **Aggregates.** A SUM over the rows a WHERE clause selects is also stated as a SUM over every row of a masked summand (the summand where the condition holds, 0 elsewhere). The inner join is stated the same way, one masked term per inventory row.
- **Empty sums.** SQL `SUM` over no rows is NULL, and the source replaces it with 0 (`or 0.0`). A sum of exactly zero also becomes 0 that way. `Seqs.Sum` returns 0 over no rows, which gives the same number in both cases.
- **The COGS join.** It is an inner join on the item id. Every item whose id equals the sale's inventory id contributes `quantitySold * pricePerUnit`, whichever business owns that item. Nothing ties a sale's business to its item's business, so the model does not assume it.
- **Time.** Clock readings are parameters, in seconds. The OTP lifetime is 600 s. Sessions last 30 days (2 592 000 s) or 1 hour (3 600 s).
- **User ids.** A user's id is its position in the user sequence plus one. This matches an autoincrement key on a table that is never deleted from.
- **Form fields.** They are `Option<string>`. A field counts as present when it is given and non-empty, as in Python truthiness.
- **Password hashing.** The library is a `PasswordScheme` parameter holding a `hash` function and a `check` function. `Sound` states the library's promise that a password checks against its own salted hash.
- **Fields the source reads and writes.** The ORM `User` class in `models.py:48-55` declares no `role`, `otp` or `otp_expiration` columns, yet `auth.py:68` writes all three. The model takes the user's fields from `auth.py`. The pending code and its expiry form one optional `PendingOtp`, because they are always set and cleared together.
- **Duplicate emails.** Registration checks only the username. A duplicate email is stopped by the unique constraint on the email column when the insert commits. This is modelled as the error `EmailConflict`, with the table unchanged. The code has already been mailed at that point, because the send at `auth.py:65` comes before the insert.
- **Missing login fields.** A missing username matches nobody, because the lookup becomes an `IS NULL` test on a non-null column. A known username with a missing password does not simply fail the check: the hash check is called with no password, raises, and the request ends in an unhandled server error instead of the 401 for bad credentials. This is modelled as the separate error `PasswordMissing`.
- **OTP lookup.** Verification looks up the first user whose pending code equals the entered code, over all users. If that first holder's code has expired, verification fails even when a later user holds the same code unexpired.

The code allows the following, which a reader might not expect, and the model follows the code:

- Inventory quantity may be negative.
- A sale may name an item of another business (`Insights.CrossBusinessItemCost`).
- Login does not look at verification state (`Auth.VerifyKeepsLogin`, `Auth.RegisterThenLogin`).
- Log timestamps are whatever the clock says. They are not promised to increase.

## Model

| member | source | states |
|---|---|---|
| `Models.SetPassword` | models.py:59-65 | After the password is set, checking the same password succeeds under a sound hash library. Username, email, role and OTP state are untouched. |
| `OtpCodes.GenerateOtp` | utils.py:12-14 | The code for a draw in [100000, 999999] has exactly 6 characters, all digits, the first not '0', and it parses back to the draw. |
| `OtpCodes.ParseDecimalOfDecimal` | utils.py:14 | Parsing the decimal rendering of any natural number gives back that number. |
| `OtpCodes.DecimalOfParseDecimal` | utils.py:14 | Rendering the value of a digit string without redundant leading zeros gives back the string. |
| `OtpCodes.DecimalLength` | utils.py:13-14 | A number in [10^k, 10^(k+1)) renders to exactly k+1 characters. |
| `OtpCodes.GenerateOtpInjective` | utils.py:14 | Two draws give the same code exactly when they are equal. |
| `OtpCodes.GenerateOtpOnto` | utils.py:14 | Every 6-digit string without a leading zero is the code of a draw in range, namely its own value. |
| `Auth.FindByUsername` | auth.py:53 | The lookup returns the first user with the username, or reports that none has it. |
| `Auth.FindByOtp` | auth.py:84 | The lookup returns the first user whose pending code is the entered code, or reports that none holds it. |
| `Auth.Register` | auth.py:39-72 | A missing or empty field gives MissingFields. Otherwise a role outside {event_organizer, customer} gives InvalidRole, a taken username gives UserExists, and a taken email gives EmailConflict. Every refusal leaves the table unchanged. Success happens exactly when none of these apply, and it appends one user carrying the given username, email and role, the salted hash of the password, the generated code, and an expiry of now + 10 minutes. Earlier users are untouched, and both unique constraints are kept. |
| `Auth.PendingUser` | auth.py:58-68 | The inserted user carries the given username, email and role. Under a sound hash library the password checks against the stored hash. The pending code is 6 digits with no leading zero, parses back to the draw, and expires at now + 10 minutes. |
| `Auth.RegistrationMail` | auth.py:61-65 | A code is mailed to the given email exactly when validation and the username check pass. The code is 6 digits with no leading zero and parses back to the draw, which makes it the generated code for that draw. |
| `Auth.MailMatchesRegistration` | auth.py:61-70 | The mailed code is the code stored with the new user. A registration refused on the email constraint has still mailed a code. |
| `Auth.VerifyOtp` | auth.py:76-95 | A missing or empty code gives OtpRequired. A code nobody holds gives InvalidOrExpiredOtp, and so does every other refusal of a given code, including an expired first holder. Success happens exactly when the first holder's expiry is not before `now`. Success clears only that user's pending code, and every refusal leaves the table unchanged. |
| `Auth.VerifyAtExpiry` | auth.py:87-88 | A code is accepted at its expiry instant and refused one second later. |
| `Auth.VerifyOnce` | auth.py:84-93 | After a successful verification, the same code fails at any later time when no other user holds it. |
| `Auth.FindByOtpAppend` | auth.py:84 | After one user is appended, the code lookup still returns an earlier match first, and returns the new user only when there was none. |
| `Auth.RegisterThenVerify` | auth.py:61-93 | After a registration whose code no earlier user holds, verifying that code succeeds exactly until and at now + 10 minutes. |
| `Auth.SessionLifetime` | auth.py:17-24 | The token lifetime is 30 days exactly when stayLoggedIn is the string "true", and 1 hour otherwise. |
| `Auth.Login` | auth.py:14-35 | Login succeeds exactly when the first user with the username exists and a given password checks against their hash. It then returns the id of that first user (position + 1) and their role as the token identity, the profile fields, and the chosen lifetime. A known username with no password gives PasswordMissing. Every other refusal gives InvalidCredentials. |
| `Auth.RegisterThenLogin` | auth.py:20-68 | Under a sound hash library, a freshly registered user logs in with their password before any verification and receives id = position + 1 and their role. |
| `Auth.VerifyKeepsLogin` | auth.py:20-25 | Verifying a code changes no login outcome, because login ignores OTP state. |
| `Auth.RegisterKeepsValid` | auth.py:46-70 | Every registration request, accepted or refused, keeps the table valid. Valid means unique usernames, unique emails, and every pending code being 6 digits with no leading zero. |
| `Auth.VerifyKeepsValid` | auth.py:80-93 | Every verification request keeps the table valid in the same sense. |
| `Auth.FindByUsernameSameNames` | auth.py:20 | The username lookup gives the same answer on two tables whose usernames agree row by row. |
| `Models.CheckPassword` | models.py:63-65 | Under a sound hash library, a password checks against a stored hash made from that password with any salt. |
| `Seqs.Filter` | app.py:88 | Every row the filter returns comes from the input and satisfies the condition. |
| `Seqs.FilterCounts` | app.py:88 | Each row that satisfies the condition is kept as often as it occurs in the input. No other row is kept. |
| `Seqs.Sum` | app.py:93 | A SUM over no rows is 0, and a SUM of non-negative summands is non-negative. |
| `Seqs.FilterSum` | app.py:93 | Summing over the rows a condition selects equals summing, over every row, the summand masked to 0 where the condition fails. |
| `Seqs.SumDifference` | app.py:111 | The difference of two sums over the same rows is the sum of the row-wise differences. |
| `Seqs.SumPermutation` | app.py:93 | A sum does not depend on the order of the rows. |
| `Insights.Revenue` | app.py:93 | Revenue is the sum over every sale of its charged total when it belongs to b and 0 otherwise. It is non-negative when b's charged totals are. |
| `Insights.LineCost` | app.py:107-109 | A sale's joined cost is the sum over every inventory row of quantity sold × that row's unit price when the row's id is the sale's inventory id, and 0 otherwise. |
| `Insights.Cogs` | app.py:107-109 | COGS is the sum over every sale of its joined cost when it belongs to b and 0 otherwise. |
| `Insights.Profit` | app.py:111 | Profit is the sum, over b's sales, of each sale's charged total minus its joined cost. |
| `Insights.InventoryValue` | app.py:124-126 | The value is the sum over every inventory row of quantity × unit price when it belongs to b and 0 otherwise. It is non-negative when b's quantities and prices are. |
| `Insights.SaleCount` | app.py:147 | The count is at most the number of sales, and it is 0 exactly when no sale belongs to b. |
| `Insights.Loss` | app.py:149-150 | The loss is non-negative, positive exactly when profit is negative, and either 0 or the negation of the profit. |
| `Insights.AverageSalePrice` | app.py:147-151 | With no sales the average is 0, so nothing is divided by zero. Otherwise average × sale count = revenue. |
| `Insights.Record` | app.py:94-101 | Exactly one row is appended at the end of the log with the given business, metric, value and time. Earlier log rows, items and sales are unchanged. |
| `Insights.RecordRevenue` | app.py:91-102 | One row is appended: business b, metric total_revenue, value = the revenue, time now. Items and sales are unchanged. |
| `Insights.RecordProfit` | app.py:104-120 | One row is appended: business b, metric total_profit, value = revenue − joined COGS, time now. Items and sales are unchanged. |
| `Insights.RecordInventoryValue` | app.py:122-136 | One row is appended: business b, metric inventory_value, value = the business's stock value, time now. Items and sales are unchanged. |
| `Insights.Comprehensive` | app.py:138-160 | Exactly five entries, in the order total_revenue, total_profit, total_losses, inventory_value, average_sales_price. The loss is non-negative, positive exactly when the profit is negative, and profit + loss ≥ 0. Average × count = revenue. With no sales every figure except inventory value is 0. |
| `Insights.ListInsights` | app.py:86-89 | The listing holds exactly the log rows of business b, each with its multiplicity in the log. |
| `Insights.NoSalesNoFigures` | app.py:140-151 | A business with no sales has zero revenue, COGS, profit, loss and average. |
| `Insights.NoItemsNoValue` | app.py:124-126 | A business with no inventory rows has zero inventory value. |
| `Insights.UnmatchedSaleCostsNothing` | app.py:107-109 | A sale whose inventory id names no item contributes nothing to COGS. |
| `Insights.UnreferencedItemCostsNothing` | app.py:107-109 | An item that none of b's sales names leaves b's COGS unchanged when it is added. |
| `Insights.JoinFindsOne` | app.py:109 | With distinct item ids, the join matches exactly the one item carrying the sale's inventory id. |
| `Insights.MatchedSaleCost` | app.py:107-109 | With distinct item ids, a sale costs quantity sold × the unit price of the item it names. |
| `Insights.AddSale` | app.py:140-147 | Appending a sale changes b's revenue, COGS and sale count by that sale's own terms when it belongs to b, and not at all otherwise. |
| `Insights.OtherBusinessSale` | app.py:140-151 | A sale recorded for another business leaves b's revenue, COGS, profit, inventory value and average unchanged. |
| `Insights.OtherBusinessItem` | app.py:141-146 | An item recorded for another business leaves every metric of b unchanged, provided none of b's sales names its id. |
| `Insights.CrossBusinessItemCost` | app.py:141-143 | A sale of business 1 that names an item of business 2 is costed at that item's price in business 1's COGS. The item still adds nothing to business 1's inventory value. |
| `Insights.RowOrderIrrelevant` | app.py:140-147 | Revenue, COGS, inventory value and sale count depend only on the multisets of rows, not on their order. |
| `Insights.RepeatedRevenue` | app.py:91-102 | Two revenue requests with no write in between append two rows, in order, with equal values and the given timestamps. |
| `Insights.RepeatedProfitAndValue` | app.py:104-136 | Two profit requests, or two inventory-value requests, log equal values. |
| `Insights.ComprehensiveAgrees` | app.py:138-160 | The view's revenue, profit, loss and inventory value equal what the individual endpoints log on the same snapshot. |
| `Insights.Serve` | app.py:91-136 | Any of the three logging endpoints, called for b at time now, appends one row for b stamped now and changes nothing else. |
| `Insights.RecordShowsInListing` | app.py:86-136 | A request to any of the three logging endpoints for b extends b's listing by exactly that row and leaves every other business's listing unchanged. |
| `Insights.OneSaleFigures` | app.py:140-146 | One sale against its own business's item: revenue = total price, COGS = quantity × unit price, value = stock × unit price, count = 1. |
| `Insights.ProfitableExample` | app.py:140-160 | Stock 5 at 10.00 with 2 sold for 25.00 gives the view 25.00, 5.00, 0.00, 50.00, 25.00. |
| `Insights.LossExample` | app.py:149-150 | The same sale charged 10.00 gives profit −10.00 and loss 10.00. |

## Left out

- HTTP routing, form and JSON parsing, response bodies and status codes are not modelled. The model returns values and errors.
- The plain create/list resources (`app.py:30-84`) are not modelled; the lemmas show a new row as an appended sequence element. `to_dict` is not defined anywhere in the source.
- Email delivery over SMTP is not modelled. `Auth.RegistrationMail` records which code goes to which address. Delivery failures are swallowed by the source and never touch the table.
- JWT signing is not modelled. `Auth.Session` carries the token identity (user id and role) and its lifetime, but no signed token and no absolute expiry. The welcome message is left out as well.
- The werkzeug hashing is not modelled. It is abstracted as the `PasswordScheme` parameter.
- The random OTP draw, the random salt and `datetime.utcnow()` are not modelled. They are parameters.
- An OTP sent as a JSON number or other non-string value is not modelled; the entered code is a string or absent.
- The column size limits are not enforced: the 10-digit bound of `Numeric(10, 2)` and the `String(n)` length limits.
- `Insights.AverageSalePrice`: the model divides exactly, so average × count = revenue. The source divides two `Decimal` values, which rounds the quotient to 28 significant digits; for 100.00 over 3 sales the source's average times 3 is not exactly 100.00.
- The storage-time rounding of insight values is not modelled, because every logged value is already whole cents.
- The float/Decimal mixing caused by the `or 0.0` fallbacks is not modelled. For example, a zero revenue becomes the float 0.0, and Python refuses to subtract a Decimal cost from it. The model treats every amount as exact cents.
- `created_at` columns, ORM relationships, naming conventions, the marshmallow schemas and migrations are not modelled.
- Transactions and concurrency are not modelled: each request is one atomic step.
- `seed.py` and `config.py` are not part of this model.
- `Models.Business` is a shape only, because businesses are created solely by the plain create resource.
