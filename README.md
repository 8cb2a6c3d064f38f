# CurrencyTable — a Dafny model

This project models the `CurrencyTable` component of a small currency
converter. The component fetches the latest exchange rates once. It lists
them in a table whose rows are revealed ten at a time. It keeps the
currency with the highest rate, and it lets the user type a base amount
through a format gate.

The model has these parts:

- `AmountGate` (amount.dfy): the regular expression `^\d*\.?\d*$` that
  `handleAmountChange` tests. `MatchesAmount` is a left-to-right scan. It
  is proved equal to a reference grammar: digits, an optional single dot,
  digits. A second lemma characterises it by the characters it allows.
- `Rates` (rates.dfy): the entries built from the response's `rates`
  object by `Object.keys(...).map(...)`, one entry per key, in key order.
- `HighestRate` (highest.dfy): the `reduce` that starts from the sentinel
  `{rate: 0}` and keeps the running maximum on a strict `>`. `Fold` is the
  recursive left fold. `HighestOf` is the same fold as a loop, proved equal
  to it. The lemmas say the result bounds every rate. They say it is the
  sentinel exactly when no rate exceeds 0, and otherwise the earliest
  entry with the largest rate.
- `Display` (display.dfy): the rendered rows `slice(0, visible)` with the
  `odd-row`/`even-row` class by index parity. It also holds the "All data
  has been displayed." condition, the page size of "Load More", and the
  buy/mid/sell figures as exact reals.
- `Component` (currency_table.dfy): the class `CurrencyTable`. Its fields
  are the component's state hooks. Its methods are the handlers
  `handleAmountChange`, `loadMore` and `fetchData`. `Valid()` says the
  stored highest rate is always the fold of the stored list, or that
  nothing has been fetched yet.

The network request is a parameter. `FetchData` takes a `FetchOutcome`:
either a response (its date and its rates object, already parsed to
numbers) or a failure. A failure covers a network error, a bad status, or
a body without a rates object; all of these reach the `catch` branch.
`fetchData` is split at its `await`. `BeginFetch` sets `loading` and clears
`error`. `CompleteFetch` stores the outcome and clears `loading`.
`FetchData` runs both. React's state setters are modelled as plain
assignments made in order.

Details of the code that the model keeps as written:

- Before the first fetch, and after a failed one, `highestRate` holds
  `{}`, not the sentinel `{rate: 0}`. The model writes this as `None`.
- The sentinel is kept not only for an empty list but whenever no rate
  exceeds 0, because the comparison is a strict `>` against 0.
- In the failure path `error` is set in `catch`, before `finally` clears
  `loading`.
- The "All data has been displayed." notice also shows when the list is
  empty, for example after a failed fetch.

## Model

| member | source | states |
|---|---|---|
| `AmountGate.DigitsToEnd` | src/components/CurrencyTable.js:55 | the trailing `\d*$` part of the pattern holds exactly when every remaining character is an ASCII digit |
| `AmountGate.MatchesAmountCorrect` | src/components/CurrencyTable.js:55 | the gate accepts a text if and only if it splits as digits, at most one `.`, then digits, anchored at both ends |
| `AmountGate.MatchesAmountCharacters` | src/components/CurrencyTable.js:55 | the gate accepts a text if and only if every character is a digit or `.` and no two positions hold a `.`; so a letter, `-`, whitespace or a second dot means rejection |
| `AmountGate.AmountExamples` | src/components/CurrencyTable.js:55 | `""`, `"0"`, `"12"`, `"12.5"`, `"0.001"`, `"."`, `"5."`, `".5"` are accepted; `"1.2.3"`, `"-1"`, `"1e5"`, `"abc"`, `" 1"` and `"5\n"` are rejected |
| `Rates.CurrencyData` | src/components/CurrencyTable.js:33-36 | the list has one entry per listed key, in key order; entry i has the i-th key as its currency and that key's value as its rate |
| `Rates.CurrencyDataOnePerKey` | src/components/CurrencyTable.js:33-36 | for a well-formed rates object, the currencies are exactly the object's keys in order, no currency appears twice, and every entry's rate is its key's value |
| `HighestRate.Step` | src/components/CurrencyTable.js:39 | one reducer call never lowers the running rate, ends at least at the entry's rate, and replaces the maximum only by an entry whose rate is strictly greater |
| `HighestRate.FoldPicksFirst` | src/components/CurrencyTable.js:38-40 | if some entry beats the starting accumulator, the fold returns an entry that beats it and that is strictly above every entry before it |
| `HighestRate.HighestIsMaximal` | src/components/CurrencyTable.js:38-40 | the selected rate is at least 0 and at least every entry's rate |
| `HighestRate.HighestSpec` | src/components/CurrencyTable.js:38-40 | the result is the sentinel if and only if no rate exceeds 0 (the empty list included); otherwise it is the entry at the earliest position holding the largest rate |
| `HighestRate.EarliestMaxUnique` | src/components/CurrencyTable.js:39 | at most one position is the earliest position of the largest rate, so the tie-break picks a single entry |
| `HighestRate.HighestOf` | src/components/CurrencyTable.js:38-40 | the reduce run as a loop over the list returns exactly the recursive fold's result |
| `HighestRate.HighestExample` | src/components/CurrencyTable.js:38-40 | EUR 0.9 and JPY 150 give JPY; two equal rates give the first; rates -1 and 0 give the sentinel |
| `Display.Striped` | src/components/CurrencyTable.js:103-104 | mapping rows with their index keeps every entry in place and gives row i the class for its index |
| `Display.Rows` | src/components/CurrencyTable.js:103-104 | the rendered rows are exactly the first min(visible, number of currencies) entries in order, and row i has class `odd-row` if and only if i is even (`even-row` otherwise) |
| `Display.NoticeIffAllRowsShown` | src/components/CurrencyTable.js:118 | the notice condition `visible >= number of currencies` holds if and only if every currency has a row, and then the rows are the whole list |
| `Display.AfterLoadMoreCount` | src/components/CurrencyTable.js:60-62 | n presses of Load More from v give v + 10n, whatever the list length |
| `Display.DisclosureExample` | src/components/CurrencyTable.js:12 | for 25 currencies: 10 rows and no notice at first, 20 rows after one press, all 25 rows and the notice after two |
| `Display.QuoteOf` | src/components/CurrencyTable.js:106-108 | for a non-negative rate and amount, we-buy ≤ mid ≤ we-sell, all non-negative (exact reals) |
| `Component.ConsistentHighest` | src/components/CurrencyTable.js:42-43 | in every consistent state, a stored highest rate bounds every stored rate, is the sentinel exactly when no rate exceeds 0, and otherwise is the earliest entry with the largest rate |
| `Component.CurrencyTable.constructor` | src/components/CurrencyTable.js:6-13 | initial state: no currencies, amount the number 1, not loading, no error, highest rate `{}`, 10 visible, empty date |
| `Component.CurrencyTable.HandleAmountChange` | src/components/CurrencyTable.js:53-58 | an accepted text becomes the amount exactly; a rejected text changes nothing; no other field can change |
| `Component.CurrencyTable.LoadMore` | src/components/CurrencyTable.js:60-62 | the visible count grows by exactly 10 and nothing else changes |
| `Component.CurrencyTable.LoadMoreTimes` | src/components/CurrencyTable.js:60-62 | n calls of the Load More handler leave the visible count at `AfterLoadMore` of the old count, that is old + 10n, and change nothing else |
| `Component.CurrencyTable.BeginFetch` | src/components/CurrencyTable.js:21-23 | loading becomes true and the error is cleared |
| `Component.CurrencyTable.CompleteFetch` | src/components/CurrencyTable.js:32-50 | loading ends false; on a response the list, its fold as highest rate and the date are stored and the error is kept; on a failure the error is the fixed message and the list, highest rate and date keep their old values; the highest rate stays consistent with the list |
| `Component.CurrencyTable.FetchData` | src/components/CurrencyTable.js:21-50 | the whole handler: loading ends false; on a response the error is unset and list, highest rate and date are set from the response; on a failure only the fixed message is added |

## Left out

- The `axios.get` request, its URL, the API key read from the environment,
  and `console.error`: network and environment access. The outcome of the
  request is a parameter of `FetchData`.
- `parseFloat` and the NaN it yields for text that is not a number: rates
  are taken as already-parsed reals.
- The order of `Object.keys`: the model takes the keys in the order the
  object enumerates them. It does not model the JavaScript rule that
  integer-like keys come first in ascending order; currency codes are
  never integer-like.
- A response whose `date` field is missing: the date is modelled as a
  string.
- QuoteOf: the figures are exact real products. The model does not capture
  floating-point rounding, `.toFixed(4)`, or the coercion of `baseAmount`
  from the number 1 or from the typed text into a number.
- The marquee line, which shows the highest entry's currency and its sell
  figure: it only combines `highestRate` with the same arithmetic.
- `showMore` and `toggleShowMore`: their state is never read when
  rendering.
- The JSX markup, the CSS, and the disabled USD `<select>`.
- The scheduling of `fetchData` by `useEffect` on mount: the model exposes
  `FetchData` as a method that a client calls.
- React's batching of state updates and any event that could run between
  `BeginFetch` and `CompleteFetch`: updates are plain assignments in order.
- src/App.js: it only mounts the component.
