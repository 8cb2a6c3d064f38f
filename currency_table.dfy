/** The `CurrencyTable` component: its state hooks as fields and its
    handlers as methods that update them. The network response is a
    parameter of the fetch handler. */
module Component {
  import opened Wrappers
  import opened Rates
  import opened HighestRate
  import opened AmountGate
  import opened Display

  /** The text shown when the fetch fails for any reason. */
  const FetchFailedMessage: string := "Failed to fetch data. Please try again."

  /** `baseAmount` starts as the number 1 and holds the typed text once
      the user edits the field. */
  datatype Amount = Number(n: int) | Typed(text: string)

  /** How the request of `fetchData` ended: a response with its date and
      rates object, or a thrown error (network failure, bad status, or a
      body without a rates object). */
  datatype FetchOutcome = Fetched(date: string, rates: RatesObject) | Failed

  /** The stored highest rate belongs to the stored list: either nothing
      has been fetched yet (`{}` and `[]`) or it is the fold of the list. */
  ghost predicate Consistent(currencies: seq<Entry>, highest: Option<Pick>) {
    (highest == None && currencies == []) || highest == Some(Highest(currencies))
  }

  /** What a consistent state tells about its highest rate: it bounds every
      stored rate, and when it is an entry, it is the earliest entry with
      the largest rate; it is the sentinel exactly when no rate exceeds 0. */
  lemma ConsistentHighest(currencies: seq<Entry>, highest: Option<Pick>)
    requires Consistent(currencies, highest) && highest.Some?
    ensures RateOf(highest.value) >= 0.0
    ensures forall i :: 0 <= i < |currencies| ==> currencies[i].rate <= RateOf(highest.value)
    ensures highest.value == Sentinel <==> forall i :: 0 <= i < |currencies| ==> currencies[i].rate <= 0.0
    ensures highest.value.Chosen? ==> exists k :: IsEarliestMax(currencies, k) && highest.value == Chosen(currencies[k])
  {
    HighestIsMaximal(currencies);
    HighestSpec(currencies);
  }

  class CurrencyTable {
    var currencies: seq<Entry>
    var baseAmount: Amount
    var loading: bool
    var error: Option<string>
    var highestRate: Option<Pick>
    var visibleCurrencies: nat
    var date: string

    ghost predicate Valid()
      reads this
    {
      Consistent(currencies, highestRate)
    }

    /** The initial values of the state hooks. */
    constructor ()
      ensures Valid()
      ensures currencies == [] && baseAmount == Number(1) && !loading && error == None
      ensures highestRate == None && visibleCurrencies == InitialVisible && date == ""
    {
      currencies := [];
      baseAmount := Number(1);
      loading := false;
      error := None;
      highestRate := None;
      visibleCurrencies := InitialVisible;
      date := "";
    }

    /** `handleAmountChange`: the new text replaces the amount exactly when
        it passes the format gate; otherwise nothing changes. */
    method HandleAmountChange(value: string)
      modifies this`baseAmount
      ensures MatchesAmount(value) ==> baseAmount == Typed(value)
      ensures !MatchesAmount(value) ==> baseAmount == old(baseAmount)
    {
      if MatchesAmount(value) {
        baseAmount := Typed(value);
      }
    }

    /** `loadMore`: one more page of rows, with no upper bound. */
    method LoadMore()
      modifies this`visibleCurrencies
      ensures visibleCurrencies == old(visibleCurrencies) + PageSize
    {
      visibleCurrencies := visibleCurrencies + PageSize;
    }

    /** `n` presses of "Load More", one handler call each. */
    method LoadMoreTimes(n: nat)
      modifies this`visibleCurrencies
      ensures visibleCurrencies == AfterLoadMore(old(visibleCurrencies), n)
    {
      var i := 0;
      while i < n
        invariant 0 <= i <= n
        invariant visibleCurrencies == old(visibleCurrencies) + PageSize * i
      {
        LoadMore();
        i := i + 1;
      }
      AfterLoadMoreCount(old(visibleCurrencies), n);
    }

    /** The start of `fetchData`, before the request is awaited. */
    method BeginFetch()
      modifies this`loading, this`error
      ensures loading && error == None
    {
      loading := true;
      error := None;
    }

    /** The rest of `fetchData` once the request has ended: on a response
        the list, its highest rate and the date are stored together; on a
        failure only the message is set; `loading` ends false either way. */
    method CompleteFetch(outcome: FetchOutcome)
      requires Valid()
      requires outcome.Fetched? ==> outcome.rates.Valid()
      modifies this`currencies, this`highestRate, this`date, this`error, this`loading
      ensures Valid() && !loading
      ensures outcome.Fetched? ==>
        currencies == CurrencyData(outcome.rates.keys, outcome.rates.values) &&
        highestRate == Some(Highest(currencies)) &&
        date == outcome.date && error == old(error)
      ensures outcome.Failed? ==>
        error == Some(FetchFailedMessage) &&
        currencies == old(currencies) && highestRate == old(highestRate) && date == old(date)
    {
      match outcome {
        case Fetched(d, obj) =>
          var currencyData := CurrencyData(obj.keys, obj.values);
          var highest := HighestOf(currencyData);
          currencies := currencyData;
          highestRate := Some(highest);
          date := d;
        case Failed =>
          error := Some(FetchFailedMessage);
      }
      loading := false;
    }

    /** `fetchData` as a whole, with the request's outcome given. */
    method FetchData(outcome: FetchOutcome)
      requires Valid()
      requires outcome.Fetched? ==> outcome.rates.Valid()
      modifies this`currencies, this`highestRate, this`date, this`error, this`loading
      ensures Valid() && !loading
      ensures outcome.Fetched? ==>
        currencies == CurrencyData(outcome.rates.keys, outcome.rates.values) &&
        highestRate == Some(Highest(currencies)) &&
        date == outcome.date && error == None
      ensures outcome.Failed? ==>
        error == Some(FetchFailedMessage) &&
        currencies == old(currencies) && highestRate == old(highestRate) && date == old(date)
    {
      BeginFetch();
      CompleteFetch(outcome);
    }

    /** The table body for the current state. */
    function RenderedRows(): seq<Row>
      reads this
    {
      Rows(currencies, visibleCurrencies)
    }

    /** Whether "All data has been displayed." is rendered. */
    predicate ShowsNotice()
      reads this
    {
      AllDisplayed(currencies, visibleCurrencies)
    }
  }

  /** The first fetch failing: no rows, the message is shown, the spinner
      is gone, and the notice appears because the empty list is all shown. */
  method FailedFirstFetch()
  {
    var t := new CurrencyTable();
    t.FetchData(Failed);
    assert !t.loading && t.error == Some(FetchFailedMessage);
    assert t.RenderedRows() == [] && t.ShowsNotice();
    t.HandleAmountChange("12.5");
    assert t.baseAmount == Typed("12.5") by { AmountExamples(); }
    t.HandleAmountChange("1.2.3");
    assert t.baseAmount == Typed("12.5") by { AmountExamples(); }
  }

  /** A response with EUR at 0.9 and JPY at 150: both rows are shown, in key
      order, JPY is the highest rate, and the error stays unset. */
  method SuccessfulFetch()
  {
    var t := new CurrencyTable();
    var obj := RatesObject(["EUR", "JPY"], map["EUR" := 0.9, "JPY" := 150.0]);
    assert obj.Valid();
    t.FetchData(Fetched("2024-05-01", obj));
    assert t.currencies == [Entry("EUR", 0.9), Entry("JPY", 150.0)];
    assert t.highestRate == Some(Chosen(Entry("JPY", 150.0))) by { HighestExample(); }
    assert !t.loading && t.error == None && t.date == "2024-05-01";
    assert |t.RenderedRows()| == 2 && t.RenderedRows()[1].style == EvenRow && t.ShowsNotice();
  }

  /** Twenty-five stored currencies and the initial visible count: 10 rows
      at first, 20 after one press of "Load More", all 25 and the notice
      after the second. */
  method DisclosureScenario(t: CurrencyTable)
    requires |t.currencies| == 25 && t.visibleCurrencies == InitialVisible
    modifies t
  {
    assert |t.RenderedRows()| == 10 && !t.ShowsNotice();
    t.LoadMore();
    assert |t.RenderedRows()| == 20 && !t.ShowsNotice();
    t.LoadMore();
    assert |t.RenderedRows()| == 25 && t.ShowsNotice();
  }
}
