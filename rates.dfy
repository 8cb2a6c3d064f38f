/** The rate entries the component builds from one API response. */
module Rates {

  /** One row of the currency list: the currency code and its rate, already
      converted to a number. */
  datatype Entry = Entry(currency: string, rate: real)

  /** The `rates` object of a response: its property names in enumeration
      order and the (already parsed) value of each. */
  datatype RatesObject = RatesObject(keys: seq<string>, values: map<string, real>)
  {
    /** A JavaScript object lists each property once, and exactly its own
        properties. */
    ghost predicate Valid() {
      (forall a, b :: 0 <= a < b < |keys| ==> keys[a] != keys[b]) &&
      (forall k :: k in values <==> k in keys)
    }
  }

  /** `Object.keys(rates).map(key => ({currency: key, rate: rates[key]}))`:
      one entry per key, in key order. */
  function CurrencyData(keys: seq<string>, values: map<string, real>): (r: seq<Entry>)
    requires forall k :: k in keys ==> k in values
    ensures |r| == |keys|
    ensures forall i :: 0 <= i < |r| ==> r[i].currency == keys[i] && r[i].rate == values[keys[i]]
  {
    if keys == [] then []
    else [Entry(keys[0], values[keys[0]])] + CurrencyData(keys[1..], values)
  }

  function Currencies(s: seq<Entry>): (codes: seq<string>)
    ensures |codes| == |s| && forall i :: 0 <= i < |s| ==> codes[i] == s[i].currency
  {
    if s == [] then [] else [s[0].currency] + Currencies(s[1..])
  }

  /** The list built from a valid object names every property of the
      object exactly once, with that property's value. */
  lemma CurrencyDataOnePerKey(obj: RatesObject)
    requires obj.Valid()
    ensures Currencies(CurrencyData(obj.keys, obj.values)) == obj.keys
    ensures forall a, b :: 0 <= a < b < |obj.keys| ==>
      CurrencyData(obj.keys, obj.values)[a].currency != CurrencyData(obj.keys, obj.values)[b].currency
    ensures forall k :: k in obj.values <==> exists i :: 0 <= i < |obj.keys| && CurrencyData(obj.keys, obj.values)[i].currency == k
    ensures forall e :: e in CurrencyData(obj.keys, obj.values) ==> e.currency in obj.values && obj.values[e.currency] == e.rate
  {
    var r := CurrencyData(obj.keys, obj.values);
    forall k | k in obj.values
      ensures exists i :: 0 <= i < |obj.keys| && r[i].currency == k
    {
      var i :| 0 <= i < |obj.keys| && obj.keys[i] == k;
      assert r[i].currency == k;
    }
  }
}
