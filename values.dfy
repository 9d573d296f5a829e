/** The JavaScript values the store handles. Objects (plain objects and arrays alike) and
    functions are references, so two of them are the same value only when they are the same
    object; every other value is compared by content. */
module Values {

  datatype JsValue =
    | Undefined
    | Null
    | Bool(b: bool)
    | Num(n: int)
    | Str(s: string)
    | Obj(obj: Record)
    | Fun(fn: Func)

  /** A JavaScript object: its own keys in `Object.keys` order and the value of each key.
      The store never changes a record's fields, so they are constants and a record's identity
      is the reference itself. */
  class Record {
    const keys: seq<string>
    const fields: map<string, JsValue>

    constructor (keys: seq<string>, fields: map<string, JsValue>)
      requires forall i, j :: 0 <= i < j < |keys| ==> keys[i] != keys[j]
      requires forall k :: k in fields <==> k in keys
      ensures this.keys == keys && this.fields == fields
    {
      this.keys := keys;
      this.fields := fields;
    }

    /** `this[k]`: a key the object does not have reads as `undefined`. */
    function Get(k: string): (v: JsValue)
      ensures k !in fields ==> v == Undefined
      ensures v != Undefined ==> k in fields && fields[k] == v
    {
      if k in fields then fields[k] else Undefined
    }
  }

  /** A JavaScript function used as a search predicate, reduced to the truth of what it returns
      for one collection element. */
  class Func {
    const call: Record? -> bool

    constructor (call: Record? -> bool)
      ensures this.call == call
    {
      this.call := call;
    }
  }

  /** JavaScript truthiness: what `!v` negates. */
  predicate Truthy(v: JsValue): (r: bool)
    ensures (v.Undefined? || v.Null?) ==> !r
    ensures (v.Obj? || v.Fun?) ==> r
    ensures v.Str? ==> (r <==> v.s != "")
  {
    match v
    case Undefined => false
    case Null => false
    case Bool(b) => b
    case Num(n) => n != 0
    case Str(s) => s != ""
    case Obj(_) => true
    case Fun(_) => true
  }

  /** The string the `typeof` operator yields (`typeof null` is "object"). */
  function TypeOf(v: JsValue): (r: string)
    ensures r == "object" <==> v.Null? || v.Obj?
    ensures r == "function" <==> v.Fun?
  {
    match v
    case Undefined => "undefined"
    case Null => "object"
    case Bool(_) => "boolean"
    case Num(_) => "number"
    case Str(_) => "string"
    case Obj(_) => "object"
    case Fun(_) => "function"
  }

  function NumberOf(b: bool): int {
    if b then 1 else 0
  }

  /** JavaScript loose equality `a == b`: `null` and `undefined` equal each other and nothing
      else, primitives of one type compare by value, a boolean compares with a number as 1 or 0,
      and objects and functions are equal only to themselves. */
  predicate LooseEq(a: JsValue, b: JsValue): (r: bool)
    ensures a == b ==> r
    ensures (a.Undefined? || a.Null?) ==> (r <==> b.Undefined? || b.Null?)
    ensures (a.Obj? || a.Fun?) ==> (r <==> a == b)
  {
    if a.Undefined? || a.Null? then b.Undefined? || b.Null?
    else if b.Undefined? || b.Null? then false
    else match (a, b)
      case (Bool(x), Bool(y)) => x == y
      case (Num(x), Num(y)) => x == y
      case (Str(x), Str(y)) => x == y
      case (Bool(x), Num(y)) => NumberOf(x) == y
      case (Num(x), Bool(y)) => x == NumberOf(y)
      case (Obj(x), Obj(y)) => x == y
      case (Fun(x), Fun(y)) => x == y
      case _ => false
  }

  /** Loose equality does not depend on the order of its operands. */
  lemma LooseEqSymmetric(a: JsValue, b: JsValue)
    ensures LooseEq(a, b) == LooseEq(b, a)
  {
  }
}
