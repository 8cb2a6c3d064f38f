/** What the component renders from its state: the first rows of the
    currency list with alternating row classes, the "all data has been
    displayed" notice, the page size of "Load More", and the
    buy/mid/sell figures. */
module Display {
  import opened Rates

  /** `useState(10)` for the number of visible currencies. */
  const InitialVisible: nat := 10
  /** `prev + 10` in the "Load More" handler. */
  const PageSize: nat := 10

  /** The class of a table row: `index % 2 === 0 ? 'odd-row' : 'even-row'`. */
  datatype RowClass = OddRow | EvenRow
  {
    function Name(): string {
      match this
      case OddRow => "odd-row"
      case EvenRow => "even-row"
    }
  }

  datatype Row = Row(entry: Entry, style: RowClass)

  function ClassAt(index: nat): RowClass {
    if index % 2 == 0 then OddRow else EvenRow
  }

  function Min(a: nat, b: nat): nat {
    if a <= b then a else b
  }

  /** `.map(({currency, rate}, index) => <tr className=...>)` over the
      entries `s`, the first of which sits at position `index`. */
  function Striped(s: seq<Entry>, index: nat): (rows: seq<Row>)
    ensures |rows| == |s|
    ensures forall i :: 0 <= i < |s| ==> rows[i].entry == s[i] && rows[i].style == ClassAt(index + i)
  {
    if s == [] then [] else [Row(s[0], ClassAt(index))] + Striped(s[1..], index + 1)
  }

  /** `currencies.slice(0, visible)` rendered as rows: exactly the first
      `min(visible, |currencies|)` entries, in order, and row `i` has class
      `odd-row` exactly when `i` is even. */
  function Rows(currencies: seq<Entry>, visible: nat): (rows: seq<Row>)
    ensures |rows| == Min(visible, |currencies|)
    ensures forall i :: 0 <= i < |rows| ==> rows[i].entry == currencies[i]
    ensures forall i :: 0 <= i < |rows| ==> (rows[i].style == OddRow <==> i % 2 == 0)
    ensures forall i :: 0 <= i < |rows| ==> rows[i].style.Name() == (if i % 2 == 0 then "odd-row" else "even-row")
  {
    Striped(currencies[..Min(visible, |currencies|)], 0)
  }

  /** `visibleCurrencies >= currencies.length`. */
  predicate AllDisplayed(currencies: seq<Entry>, visible: nat) {
    visible >= |currencies|
  }

  /** The notice is shown exactly when every currency has a row: the rows
      are then the whole list, in order (also when the list is empty). */
  lemma NoticeIffAllRowsShown(currencies: seq<Entry>, visible: nat)
    ensures AllDisplayed(currencies, visible) <==> |Rows(currencies, visible)| == |currencies|
    ensures AllDisplayed(currencies, visible) ==> Rows(currencies, visible) == Striped(currencies, 0)
  {
    if AllDisplayed(currencies, visible) {
      assert currencies[..Min(visible, |currencies|)] == currencies;
    }
  }

  /** Visible count after `n` presses of "Load More", starting from `v`. */
  function AfterLoadMore(v: nat, n: nat): nat
    decreases n
  {
    if n == 0 then v else AfterLoadMore(v + PageSize, n - 1)
  }

  /** Each press adds exactly one page, whatever the list length: `n`
      presses from the initial state give `10 + 10 n`. */
  lemma {:induction false} AfterLoadMoreCount(v: nat, n: nat)
    ensures AfterLoadMore(v, n) == v + PageSize * n
    decreases n
  {
    if n > 0 {
      AfterLoadMoreCount(v + PageSize, n - 1);
    }
  }

  /** Twenty-five currencies: 10 rows at first, 20 after one press, all 25
      and the notice after two. */
  lemma DisclosureExample(currencies: seq<Entry>)
    requires |currencies| == 25
    ensures |Rows(currencies, AfterLoadMore(InitialVisible, 0))| == 10 && !AllDisplayed(currencies, InitialVisible)
    ensures |Rows(currencies, AfterLoadMore(InitialVisible, 1))| == 20 && !AllDisplayed(currencies, AfterLoadMore(InitialVisible, 1))
    ensures |Rows(currencies, AfterLoadMore(InitialVisible, 2))| == 25 && AllDisplayed(currencies, AfterLoadMore(InitialVisible, 2))
  {
    AfterLoadMoreCount(InitialVisible, 1);
    AfterLoadMoreCount(InitialVisible, 2);
  }

  /** The three figures of a row for a rate and a base amount, over exact
      reals: we buy at 98% and sell at 102% of the mid rate. */
  datatype Quote = Quote(buy: real, mid: real, sell: real)

  function QuoteOf(rate: real, amount: real): (q: Quote)
    ensures rate >= 0.0 && amount >= 0.0 ==> 0.0 <= q.buy <= q.mid <= q.sell
  {
    var mid := rate * amount;
    Quote(mid * 0.98, mid, mid * 1.02)
  }
}
