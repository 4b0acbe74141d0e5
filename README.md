# Finance: a verified model of the validation and ledger core

The finance web application lets a registered user buy and sell stock at
quoted prices and deposit cash by card. This project models the part of it
that decides things. It is written in Dafny and the Dafny verifier proves
every contract. It covers:

- **helpers.py**:
  - `checksum`, the Luhn sum over a card number's digits.
  - `requirements`, the password character-class test.
  - `escape`, the chain of replace-all substitutions nested inside `apology`.
- **app.py**:
  - The inline scans of form fields: the share count, the deposit amount,
    the card number and the security code.
  - The order of the checks in `register` and `change_password`.
  - The three routes that write to the database: `buy`, `sell` and `add_cash`.

Modules:

| file | module | what it holds |
|---|---|---|
| `wrappers.dfy` | `Wrappers` | `Option` |
| `chars.dfy` | `Chars` | ASCII digit and letter classes; decimal strings and their values |
| `luhn.dfy` | `Luhn` | `checksum` as a loop, the Luhn sum it computes, and its properties |
| `password.dfy` | `Password` | `requirements` as a loop with three counters, the class-based predicate it decides, and its properties |
| `apology.dfy` | `Apology` | `escape` as a loop over the ordered substitution list, and a per-character description of its result |
| `forms.dfy` | `Forms` | the field scans of `buy`, `sell` and `add_cash`; the check order of `register` and `change_password` |
| `ledger.dfy` | `Ledger` | the `users`, `stocks` and `transactions` tables as a `Store` class, with `Buy`, `Sell` and `Deposit` |

How the ledger works:

- Each `Store` method returns one of three outcomes:
  - `Done`: the route performed its writes.
  - `Rejected(reason)`: the route rendered an apology. Each reason carries
    its message in a comment.
  - `Crashed`: the route raised an unhandled exception.
- Every rejection and every crash happens before the first write. So the
  contracts state that on any outcome other than `Done` all three tables are
  unchanged.
- On `Done`, the contracts state the whole new state with the code's own
  arithmetic, including its quirks:
  - The stored transaction price is the total cost.
  - When the user already holds the stock, the holding's total becomes the
    new share count times that total cost.
  - Only `add_cash` changes `users.total`.
- `Store.Valid()` is kept by every operation. It says that:
  - every holding has a positive share count and belongs to a known user;
  - the share count of every holding is the net of the transactions
    recorded under its user and symbol.

The quote service is an `Option<Quote>` input (`None` is a failed lookup).
The request time is an opaque `Timestamp` input. A form field that is absent
is modelled as the empty string: in every route the code treats `None` and
`""` alike.

## Model

| member | source | states |
|---|---|---|
| `Luhn.Contribution` | helpers.py:72-78 | a digit at an even 0-based position from the right contributes itself; at an odd position it is doubled, and a doubled value of 10 or more contributes 2d-9; every contribution is at most 9 |
| `Luhn.ContributionIsDigitSum` | helpers.py:75-78 | `digit % 10 + 1` on a doubled digit is its digit sum, so every contribution is the digit sum of the possibly doubled digit |
| `Luhn.Checksum` | helpers.py:69-79 | the loop from the rightmost digit computes the Luhn sum of the card |
| `Luhn.LuhnSumBounds` | helpers.py:70-79 | the sum of the empty card is 0, and the sum is at most 9 per digit |
| `Luhn.LuhnSumPrependPair` | helpers.py:71-78 | putting two digits in front of a card adds their contributions at the two positions after the card's own |
| `Luhn.Repeats42Sum` | helpers.py:71-78 | any even-length repetition of "42" is all digits and sums to 5 per digit |
| `Luhn.TestCardSum` | helpers.py:69-79 | "4242424242424242" sums to 80 |
| `Luhn.AlteredTestCardSum` | helpers.py:69-79 | "4242424242424241" sums to 79 |
| `Luhn.TestCardVerdicts` | app.py:368-370 | the first of these cards passes the modulo-10 test and the second fails it |
| `Luhn.ContributionInjective` | helpers.py:72-78 | at any position, distinct digits contribute distinct values |
| `Luhn.LuhnSumReplaceDigit` | helpers.py:71-78 | replacing one digit changes the sum by exactly the change in that position's contribution |
| `Luhn.SingleDigitErrorDetected` | app.py:368-370 | changing any single digit of a card changes its sum modulo 10, so a valid card with one wrong digit is rejected |
| `Password.IsSpecial` | helpers.py:89-98 | `regex.search` on one character matches one of the 21 characters of the class; every one of them is printable ASCII punctuation, so none is also a letter or a digit |
| `Password.HasSnoc` | helpers.py:90-99 | appending a character adds exactly that character's classes |
| `Password.Requirements` | helpers.py:83-103 | the counter loop returns true iff the password has an ASCII letter, a digit and a character of `@_!#$%^&*()<>?/\|}'{~:` |
| `Password.RequirementsMonotone` | helpers.py:90-100 | appending characters to an accepted password keeps it accepted |
| `Password.RequirementsDependOnCharactersOnly` | helpers.py:90-100 | two passwords with the same set of characters get the same verdict, whatever their order, repetition or length |
| `Password.AcceptedExamples` | helpers.py:83-103 | "Passw0rd!" and the 3-character "a1\|" are accepted: length is not examined |
| `Password.MissingSpecialExample` | helpers.py:97-101 | "Passw0rd" is rejected for lack of a special character |
| `Password.MissingDigitExamples` | helpers.py:94-101 | "Password!" and "password" are rejected for lack of a digit |
| `Password.MissingLetterExample` | helpers.py:91-101 | "12345678!" is rejected for lack of a letter |
| `Password.BackslashIsNotSpecial` | helpers.py:89 | backslash is not a special character (in the character class it only escapes the bar after it), so "a1\\" is rejected |
| `Apology.ReplaceAll` | helpers.py:20 | replacing a character that does not occur changes nothing, and the character no longer occurs afterwards unless the replacement contains it |
| `Apology.ReplaceAllConcat` | helpers.py:20 | replace-all distributes over concatenation |
| `Apology.ApplyInOrderConcat` | helpers.py:18-20 | the whole ordered chain distributes over concatenation |
| `Apology.ApplyInOrderNoHit` | helpers.py:18-20 | a string containing none of the replaced characters passes through the chain unchanged |
| `Apology.ApplyInOrderFirstHit` | helpers.py:18-20 | a one-character string becomes the replacement of the first pair that matches it, provided no later pair matches inside that replacement |
| `Apology.ApplyInOrderOneChar` | helpers.py:18-19 | through the eight pairs in list order, each character becomes its escape (`-`→`--`, space→`-`, `_`→`__`, `?`→`~q`, `%`→`~p`, `#`→`~h`, `/`→`~s`, `"`→`''`, others unchanged) |
| `Apology.ApplyInOrderEmpty` | helpers.py:18-20 | the chain maps the empty string to itself |
| `Apology.EscapeInOrderIsPerCharacter` | helpers.py:18-21 | the ordered chain equals escaping each character independently |
| `Apology.Escape` | helpers.py:12-21 | the loop that reassigns `s` once per pair returns the per-character escape of the input |
| `Apology.EscapeEachRemovesReserved` | helpers.py:18-19 | no space, `?`, `%`, `#`, `/` or `"` survives escaping, and the result is never shorter |
| `Apology.EscapeExample` | helpers.py:18-20 | "a b-c" becomes "a-b--c": `-` is doubled before spaces turn into `-` |
| `Apology.EscapeNotInjective` | helpers.py:18-19 | "-" and "  " both escape to "--", and `"` and `''` both escape to `''`, so an escaped message cannot always be decoded |
| `Chars.DecimalRoundTrip` | app.py:81 | `int` of the canonical spelling of n is n |
| `Chars.ZeroIffAllZeros` | app.py:81 | a digit string is worth 0 exactly when every digit is '0' |
| `Chars.DecimalValueBounds` | app.py:81 | `int` of an n-digit string is below 10^n, and at least 10^(n-1) when it has no leading zero |
| `Chars.DecimalValueConcat` | app.py:81 | `int` of a concatenation is the first part shifted left by the second part's length, plus the second part |
| `Forms.ScanDigits` | app.py:78-80 | the early-exit scan accepts exactly the strings whose characters are all digits |
| `Forms.CheckShares` | app.py:78-82 | the share count is not an integer iff some character is not a digit; it is unparsable iff it is empty; it is below one iff it is all digits, non-empty and worth 0; otherwise it is the decimal value, which is at least 1 |
| `Forms.CanonicalShareCount` | app.py:261-265 | every positive count has a spelling that the share-count check accepts as that count |
| `Forms.CheckAmount` | app.py:355-362 | the scan with its period counter accepts exactly the strings of digits and periods with at most one period |
| `Forms.CountConcat` | app.py:359-360 | the period count of a concatenation is the sum of the counts |
| `Forms.CountZero` | app.py:361 | a count of 0 means the character does not occur |
| `Forms.IndexOf` | app.py:355-362 | the first period's index is at most the length, holds a period when in range, and no earlier character is a period |
| `Forms.CountAround` | app.py:359-361 | the count of a string with a period at k is the counts on either side plus one |
| `Forms.NoPeriodMeansDigits` | app.py:357 | an accepted amount without a period is all digits |
| `Forms.AmountSplit` | app.py:355-362 | an accepted amount is digits, optionally followed by one period and more digits |
| `Forms.UnpointedAmount` | app.py:355-362 | dropping the period of an accepted amount leaves the digits before it followed by the digits after it |
| `Forms.PointValueScaled` | app.py:381 | the whole part plus the fraction scaled down, shifted left by the number of fraction digits, is the integer both parts spell together |
| `Forms.AmountValue` | app.py:381-382 | `float` of an accepted amount fails exactly on "" and "."; otherwise it is non-negative, and multiplied by 10 to the number of digits after the period it is the integer the digits spell with the period dropped (so "1.5" is 1.5 and "12." is 12); an all-digit amount is its integer value |
| `Forms.CheckCard` | app.py:365-370 | a card number is accepted iff it is all digits and its Luhn sum is a multiple of 10 |
| `Forms.CheckCode` | app.py:373-377 | a security code is accepted iff it is all digits and 3 or 4 long |
| `Forms.RegisterCheck` | app.py:210-227 | registration is accepted iff no field is blank, the confirmation matches, the password is at least 8 long and meets the requirements, and the username is new; each verdict holds exactly when every earlier check passed and its own check fails, in the order blank fields, mismatched confirmation, fewer than 8 characters, missing character classes, username taken |
| `Forms.ChangePasswordCheck` | app.py:310-327 | a change is accepted iff no field is blank, the old password verifies, the confirmation matches, and the new password is at least 8 long and meets the requirements; each verdict holds exactly when every earlier check passed and its own check fails, in the order blank fields, wrong old password, mismatched confirmation, fewer than 8 characters, missing character classes |
| `Forms.PasswordPolicyAgrees` | app.py:218-221 | registration and password change accept the same new passwords, and every one is at least 8 long with a letter, a digit and a special character |
| `Ledger.NetSharesAppend` | app.py:92-93 | appending a transaction moves the net share count of its own user and symbol only |
| `Ledger.AgreementKept` | app.py:270-291 | recording a trade and moving only the traded holding by the trade's share delta keeps holdings and history in agreement |
| `Ledger.BoughtHolding` | app.py:100-114 | after a purchase the holding has the old shares plus the bought ones; a new row takes the quote's name, the unit price and the total cost; an existing row keeps its name and price, and its total becomes the new share count times the purchase's total cost |
| `Ledger.Store.Buy` | app.py:58-117 | rejects in order: missing details, invalid symbol, non-integer shares, fewer than one share, insufficient cash, leaving every table unchanged; otherwise cash drops by shares times price and stays non-negative, one transaction with the total cost as its price is appended, the holding becomes `BoughtHolding`, total is unchanged, and validity is kept |
| `Ledger.Store.Sell` | app.py:239-294 | rejects in order: missing stock, then a crash on a failed quote, invalid stock, non-integer shares, then a crash on empty shares, fewer than one share, too many shares, leaving every table unchanged; otherwise cash rises by shares times the current price, one transaction with negated shares is appended, the holding is reduced and revalued at the current price or deleted when it reaches zero, total is unchanged, and validity is kept |
| `Ledger.Store.Deposit` | app.py:337-386 | rejects in order: missing fields, invalid amount, invalid card number, invalid security code, then a crash on the amount ".", leaving every table unchanged; otherwise cash and total both rise by the amount's value, holdings and history are unchanged, and validity is kept |

## Left out

- `lookup` is an HTTP call to a quote service. It is an `Option<Quote>` input.
- `usd`, `index`, `history`, `quote`, login, logout, `login_required` and the session: display, formatting and web-session state.
- Flask routing, templates and the cache headers set after each request.
- Password hashing is a foreign library. `Forms.ChangePasswordCheck` takes the hash check's verdict as a boolean. The insertion `register` makes and the hash `change_password` stores are not modelled.
- The `users` table's starting balance is a database default. The `Store` constructor takes the accounts as given.
- Money is exact `real` arithmetic, not binary floating point. Rounding of `float` is not modelled.
- `datetime.now()` is an opaque `Timestamp` parameter.
- Concurrent requests, and lost updates between them, are not modelled; every operation is one sequential step.
- `isdigit` and `isalpha` are modelled on ASCII only. Python also accepts other Unicode digits and letters, and `int` fails on some characters that `isdigit` accepts.
- `apology`'s rendering of the escaped message and its status code are not modelled; only `escape` is.
- An unhandled exception is the single outcome `Crashed`. The exception type and the error page are not modelled.
- The account id of the session is assumed to exist in `users` (the `requires uid in users` of the `Store` methods): users are never deleted.
- A backslash is not a special character: inside the regular-expression class at helpers.py:89 the backslash only escapes the bar after it (`Password.BackslashIsNotSpecial`).
- A failed request writes nothing only because every check runs before the first write; each `Store` method states this as its unchanged-state postcondition.
- `Chars.DecimalValue` gives 0 for the empty string, where `int("")` raises. Every use that stands for `int` is guarded: `Forms.CheckShares` reports "" as `Unparsable`, and in `Forms.AmountValue` an empty side of the period is worth 0, as it is for `float`.
