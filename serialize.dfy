/** `make_serializable`: turns a document into something the JSON encoder
    accepts by rendering every `Decimal` as a string, recursively through
    lists and dictionaries (keys included). */
module Serialize {

  /** The values a document is made of. A dictionary is the list of its
      entries in insertion order, as Python iterates it. */
  datatype Value =
    | Null
    | Bool(b: bool)
    | Int(i: int)
    | Str(s: string)
    | Dec(d: real)
    | List(items: seq<Value>)
    | Dict(entries: seq<(Value, Value)>)

  /** Where key `k` sits among the entries, or -1. */
  function KeyIndex(es: seq<(Value, Value)>, k: Value): (r: int)
    ensures -1 <= r < |es|
    ensures r >= 0 ==> es[r].0 == k
    ensures r == -1 ==> forall i :: 0 <= i < |es| ==> es[i].0 != k
  {
    if es == [] then -1
    else if es[|es| - 1].0 == k then |es| - 1
    else KeyIndex(es[..|es| - 1], k)
  }

  /** `d[k] = v`: a present key keeps its place and takes the new value, a
      new key goes last. */
  function Insert(es: seq<(Value, Value)>, k: Value, v: Value): seq<(Value, Value)>
  {
    var i := KeyIndex(es, k);
    if i >= 0 then es[i := (k, v)] else es + [(k, v)]
  }

  /** The dictionary a comprehension builds from its pairs, in order. */
  function BuildDict(pairs: seq<(Value, Value)>): seq<(Value, Value)>
  {
    if pairs == [] then []
    else
      var last := pairs[|pairs| - 1];
      Insert(BuildDict(pairs[..|pairs| - 1]), last.0, last.1)
  }

  predicate DistinctKeys(es: seq<(Value, Value)>)
  {
    forall i, j :: 0 <= i < j < |es| ==> es[i].0 != es[j].0
  }

  /** `make_serializable`; `render` is `str` on a `Decimal`. */
  function MakeSerializable(v: Value, render: real -> string): (r: Value)
    ensures !r.Dec?
    ensures r.List? <==> v.List?
    ensures r.Dict? <==> v.Dict?
    ensures v.List? ==> |r.items| == |v.items|
    ensures v.Dec? ==> r == Str(render(v.d))
  {
    match v
    case List(xs) => List(seq(|xs|, i requires 0 <= i < |xs| => MakeSerializable(xs[i], render)))
    case Dict(es) =>
      Dict(BuildDict(seq(|es|, i requires 0 <= i < |es| =>
        (MakeSerializable(es[i].0, render), MakeSerializable(es[i].1, render)))))
    case Dec(d) => Str(render(d))
    case _ => v
  }

  /** No `Decimal` anywhere in the value. */
  predicate NoDecimal(v: Value)
  {
    match v
    case Dec(_) => false
    case List(xs) => forall i :: 0 <= i < |xs| ==> NoDecimal(xs[i])
    case Dict(es) => forall i :: 0 <= i < |es| ==> NoDecimal(es[i].0) && NoDecimal(es[i].1)
    case _ => true
  }

  /** Every dictionary in the value has each key once, as a Python dict. */
  predicate Canonical(v: Value)
  {
    match v
    case List(xs) => forall i :: 0 <= i < |xs| ==> Canonical(xs[i])
    case Dict(es) => DistinctKeys(es) && forall i :: 0 <= i < |es| ==> Canonical(es[i].0) && Canonical(es[i].1)
    case _ => true
  }

  /** Inserting keeps the keys distinct and takes entries only from the
      dictionary and the new pair. */
  lemma InsertSpec(es: seq<(Value, Value)>, k: Value, v: Value)
    requires DistinctKeys(es)
    ensures DistinctKeys(Insert(es, k, v))
    ensures forall e :: e in Insert(es, k, v) ==> e in es || e == (k, v)
  {
    var i := KeyIndex(es, k);
    if i >= 0 {
      var r := es[i := (k, v)];
      forall a, b | 0 <= a < b < |r|
        ensures r[a].0 != r[b].0
      {
        assert es[a].0 != es[b].0;
      }
      forall e | e in r
        ensures e in es || e == (k, v)
      {
        var j :| 0 <= j < |r| && r[j] == e;
        if j != i {
          assert es[j] == e;
        }
      }
    }
  }

  /** A comprehension builds a dictionary with distinct keys out of its
      pairs. */
  lemma {:induction false} BuildDictSpec(pairs: seq<(Value, Value)>)
    ensures DistinctKeys(BuildDict(pairs))
    ensures forall e :: e in BuildDict(pairs) ==> e in pairs
  {
    if pairs != [] {
      var prefix := pairs[..|pairs| - 1];
      var last := pairs[|pairs| - 1];
      BuildDictSpec(prefix);
      InsertSpec(BuildDict(prefix), last.0, last.1);
      assert forall e :: e in prefix ==> e in pairs;
    }
  }

  /** Pairs whose keys are already distinct come out unchanged. */
  lemma {:induction false} BuildDictDistinct(pairs: seq<(Value, Value)>)
    requires DistinctKeys(pairs)
    ensures BuildDict(pairs) == pairs
  {
    if pairs != [] {
      var n := |pairs|;
      var prefix := pairs[..n - 1];
      var last := pairs[n - 1];
      LastKeyNew(pairs);
      BuildDictDistinct(prefix);
      assert prefix + [last] == pairs;
    }
  }

  /** In a dictionary with distinct keys, the last key is new to the ones
      before it, which are distinct too. */
  lemma LastKeyNew(pairs: seq<(Value, Value)>)
    requires DistinctKeys(pairs) && pairs != []
    ensures DistinctKeys(pairs[..|pairs| - 1])
    ensures KeyIndex(pairs[..|pairs| - 1], pairs[|pairs| - 1].0) == -1
  {
    var prefix := pairs[..|pairs| - 1];
    assert forall a :: 0 <= a < |prefix| ==> prefix[a] == pairs[a];
  }

  /** Nothing serialisable is left unserialised: the result has no
      `Decimal` and each of its dictionaries has distinct keys. */
  lemma {:induction false} SerializedClean(v: Value, render: real -> string)
    ensures NoDecimal(MakeSerializable(v, render))
    ensures Canonical(MakeSerializable(v, render))
  {
    match v
    case List(xs) =>
      forall i | 0 <= i < |xs|
        ensures NoDecimal(MakeSerializable(xs[i], render)) && Canonical(MakeSerializable(xs[i], render))
      {
        SerializedClean(xs[i], render);
      }
    case Dict(es) =>
      var pairs := seq(|es|, i requires 0 <= i < |es| =>
        (MakeSerializable(es[i].0, render), MakeSerializable(es[i].1, render)));
      forall i | 0 <= i < |es|
        ensures NoDecimal(pairs[i].0) && Canonical(pairs[i].0)
        ensures NoDecimal(pairs[i].1) && Canonical(pairs[i].1)
      {
        SerializedClean(es[i].0, render);
        SerializedClean(es[i].1, render);
      }
      BuildDictSpec(pairs);
      var r := BuildDict(pairs);
      forall i | 0 <= i < |r|
        ensures NoDecimal(r[i].0) && Canonical(r[i].0) && NoDecimal(r[i].1) && Canonical(r[i].1)
      {
        assert r[i] in pairs;
      }
    case _ =>
  }

  /** A value with nothing left to serialise is returned as it is. */
  lemma {:induction false} SerializedFixed(v: Value, render: real -> string)
    requires NoDecimal(v) && Canonical(v)
    ensures MakeSerializable(v, render) == v
  {
    match v
    case List(xs) =>
      forall i | 0 <= i < |xs|
        ensures MakeSerializable(xs[i], render) == xs[i]
      {
        SerializedFixed(xs[i], render);
      }
    case Dict(es) =>
      var pairs := seq(|es|, i requires 0 <= i < |es| =>
        (MakeSerializable(es[i].0, render), MakeSerializable(es[i].1, render)));
      forall i | 0 <= i < |es|
        ensures pairs[i] == es[i]
      {
        SerializedFixed(es[i].0, render);
        SerializedFixed(es[i].1, render);
      }
      assert pairs == es;
      BuildDictDistinct(es);
    case _ =>
  }

  /** Serialising twice is serialising once. */
  lemma SerializeIdempotent(v: Value, render: real -> string)
    ensures MakeSerializable(MakeSerializable(v, render), render) == MakeSerializable(v, render)
  {
    SerializedClean(v, render);
    SerializedFixed(MakeSerializable(v, render), render);
  }

  /** Lists keep their length and the order of their items, a `Decimal`
      becomes its string and other scalars pass through. */
  lemma SerializeShape(v: Value, render: real -> string)
    ensures v.List? ==>
      && MakeSerializable(v, render).List?
      && |MakeSerializable(v, render).items| == |v.items|
      && forall i :: 0 <= i < |v.items| ==>
           MakeSerializable(v, render).items[i] == MakeSerializable(v.items[i], render)
    ensures v.Dict? ==> MakeSerializable(v, render).Dict?
    ensures v.Dec? ==> MakeSerializable(v, render) == Str(render(v.d))
    ensures v.Null? || v.Bool? || v.Int? || v.Str? ==> MakeSerializable(v, render) == v
  {
  }
}
