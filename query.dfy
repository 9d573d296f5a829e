/** What `search` and `remove` compute from the bound collection, as functions of the
    collection and of the argument the caller passes. */
module Query {
  import opened Errors
  import opened Values
  import opened Seqs

  /** `params[k] == e[k]` for one template key `k`. Reading a key of `null` throws, so a null
      element never matches. */
  predicate KeyMatches(t: Record, k: string, e: Record?): (r: bool)
    ensures r ==> e != null
    ensures e != null && t.Get(k).Obj? ==> (r <==> e.Get(k) == t.Get(k))
    ensures e != null && t.Get(k).Undefined? ==> (r <==> e.Get(k).Undefined? || e.Get(k).Null?)
  {
    e != null && LooseEq(t.Get(k), e.Get(k))
  }

  /** The filter callback of one round of the template loop. */
  function KeyFilter(t: Record, k: string): Record? -> bool {
    e => KeyMatches(t, k, e)
  }

  /** An element agrees with template `t` on every key of `ks`. */
  function MatchesKeys(t: Record, ks: seq<string>): Record? -> bool {
    e => forall j :: 0 <= j < |ks| ==> KeyMatches(t, ks[j], e)
  }

  /** An element agrees with template `t` on all of the template's own keys. */
  function Template(t: Record): Record? -> bool {
    MatchesKeys(t, t.keys)
  }

  /** The elements that a template or predicate query selects. */
  function Selector(q: JsValue): Record? -> bool
    requires q.Obj? || q.Fun?
  {
    if q.Obj? then Template(q.obj) else q.fn.call
  }

  /** The outcome of `search(q)` on collection `coll`. */
  function SearchResult(coll: seq<Record?>, q: JsValue): (r: Result<seq<Record?>>)
    ensures !Truthy(q) ==> r == Failure(ParamError(0, "No params!"))
    ensures Truthy(q) && !q.Obj? && !q.Fun? ==> r == Failure(TypeError)
    ensures q.Obj? && |q.obj.keys| > 0 && null in coll ==> r == Failure(TypeError)
    ensures r.Success? <==>
      (q.Fun? || (q.Obj? && (|q.obj.keys| == 0 || null !in coll)))
  {
    if !Truthy(q) then Failure(ParamError(0, "No params!"))
    else match q
      case Obj(t) =>
        if |t.keys| > 0 && null in coll then Failure(TypeError)
        else Success(Filter(coll, Template(t)))
      case Fun(f) => Success(Filter(coll, f.call))
      case _ => Failure(TypeError)
  }

  /** A query that succeeds returns exactly the elements it selects, each as often as it occurs
      in the collection, in collection order. */
  lemma SearchExact(coll: seq<Record?>, q: JsValue)
    requires SearchResult(coll, q).Success?
    ensures q.Obj? || q.Fun?
    ensures var found := SearchResult(coll, q).value;
      IsSubsequence(found, coll) &&
      (forall i :: 0 <= i < |found| ==> Selector(q)(found[i])) &&
      forall x :: multiset(found)[x] == if Selector(q)(x) then multiset(coll)[x] else 0
  {
    FilterExact(coll, Selector(q));
  }

  /** Every element a template query returns agrees with the template on each of its keys. */
  lemma TemplateResultsMatch(coll: seq<Record?>, t: Record, i: nat, j: nat)
    requires SearchResult(coll, Obj(t)).Success?
    requires i < |SearchResult(coll, Obj(t)).value| && j < |t.keys|
    ensures var e := SearchResult(coll, Obj(t)).value[i];
      e != null && LooseEq(t.Get(t.keys[j]), e.Get(t.keys[j]))
  {
    var e := SearchResult(coll, Obj(t)).value[i];
    assert Template(t)(e);
    assert KeyMatches(t, t.keys[j], e);
  }

  /** A template with no keys returns the whole collection. */
  lemma EmptyTemplateReturnsAll(coll: seq<Record?>, t: Record)
    requires t.keys == []
    ensures SearchResult(coll, Obj(t)) == Success(coll)
  {
    FilterKeepsAll(coll, Template(t));
  }

  /** A record of the collection, used as its own template, is among the results. */
  lemma SearchFindsItself(coll: seq<Record?>, e: Record)
    requires e in coll && null !in coll
    ensures SearchResult(coll, Obj(e)).Success? && e in SearchResult(coll, Obj(e)).value
  {
    FilterExact(coll, Template(e));
    assert multiset(coll)[e] > 0;
  }

  /** Filtering key by key, in the order of `ks`, equals filtering once by all of them. */
  lemma {:induction false} KeyByKey(s: seq<Record?>, t: Record, ks: seq<string>)
    requires |ks| > 0
    ensures Filter(Filter(s, MatchesKeys(t, ks[..|ks| - 1])), KeyFilter(t, ks[|ks| - 1]))
            == Filter(s, MatchesKeys(t, ks))
  {
    var n := |ks| - 1;
    forall e: Record?
      ensures MatchesKeys(t, ks)(e) == (MatchesKeys(t, ks[..n])(e) && KeyFilter(t, ks[n])(e))
    {
      assert forall j :: 0 <= j < n ==> ks[..n][j] == ks[j];
    }
    FilterTwice(s, MatchesKeys(t, ks[..n]), KeyFilter(t, ks[n]), MatchesKeys(t, ks));
  }

  /** `d => d != x`, the callback `remove` filters the collection with. */
  function Unlike(x: Record?): (keep: Record? -> bool)
    ensures !keep(x)
  {
    d => d != x
  }

  /** The outcome of `remove(q)`: the new collection, or the error thrown. */
  function Removed(coll: seq<Record?>, q: JsValue): (r: Result<seq<Record?>>)
    ensures !Truthy(q) ==> r == Failure(ParamError(0, "No params!"))
    ensures SearchResult(coll, q).Failure? ==> r == Failure(SearchResult(coll, q).error)
    ensures SearchResult(coll, q) == Success([]) ==> r == Failure(DBError(2, "Not found!"))
    ensures r.Success? <==> SearchResult(coll, q).Success? && SearchResult(coll, q).value != []
  {
    if !Truthy(q) then Failure(ParamError(0, "No params!"))
    else match SearchResult(coll, q)
      case Failure(e) => Failure(e)
      case Success(found) =>
        if found == [] then Failure(DBError(2, "Not found!"))
        else Success(Filter(coll, Unlike(found[0])))
  }

  /** `remove` reports "Not found!" exactly when the query runs and no element of the
      collection is selected by it. */
  lemma RemoveNotFound(coll: seq<Record?>, q: JsValue)
    requires SearchResult(coll, q).Success?
    ensures q.Obj? || q.Fun?
    ensures Removed(coll, q) == Failure(DBError(2, "Not found!")) <==>
      forall i :: 0 <= i < |coll| ==> !Selector(q)(coll[i])
  {
    FilterEmpty(coll, Selector(q));
  }

  /** The element `remove` deletes is the first element of the collection that the query
      selects. */
  lemma RemoveTargetsFirstMatch(coll: seq<Record?>, q: JsValue)
    requires Removed(coll, q).Success?
    ensures q.Obj? || q.Fun?
    ensures exists i ::
              0 <= i < |coll| && coll[i] == SearchResult(coll, q).value[0] &&
              Selector(q)(coll[i]) && forall j :: 0 <= j < i ==> !Selector(q)(coll[j])
  {
    FilterFirst(coll, Selector(q));
  }

  /** A successful `remove` drops every entry that is the first match, keeps every other
      entry as often as it occurred and in its order, and so shortens the collection. */
  lemma RemoveDropsOnlyTarget(coll: seq<Record?>, q: JsValue)
    requires Removed(coll, q).Success?
    ensures var x, rest := SearchResult(coll, q).value[0], Removed(coll, q).value;
      x in coll && x !in rest &&
      (forall y :: y != x ==> multiset(rest)[y] == multiset(coll)[y]) &&
      IsSubsequence(rest, coll) && |rest| < |coll|
  {
    var x := SearchResult(coll, q).value[0];
    RemoveTargetsFirstMatch(coll, q);
    var i :| 0 <= i < |coll| && coll[i] == x;
    FilterExact(coll, Unlike(x));
    FilterShrinks(coll, Unlike(x), i);
  }
}
