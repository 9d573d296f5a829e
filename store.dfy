/** The `DB` class: a handle bound to one file and one collection name, holding the parsed
    content of the whole file (every collection) in memory. */
module Store {
  import opened Errors
  import opened Values
  import opened Seqs
  import opened Query

  /** What the file holds under one collection name: `null`, or an array of elements. An
      element is an object, or `null` when `new(null)` stored one. */
  datatype Collection = NullCollection | Array(items: seq<Record?>)

  datatype Option<T> = None | Some(value: T)

  /** The constructor's options object; `None` stands for a missing or falsy option. */
  datatype Params = Params(filename: Option<string>, name: Option<string>)

  /** What reading the file and parsing it as JSON gave: the collections, or the exception. */
  datatype Stored = Unreadable(cause: string) | Parsed(content: map<string, Collection>)

  /** A truthy string option. */
  predicate Present(o: Option<string>) {
    o.Some? && o.value != ""
  }

  /** The constructor's argument checks, in the order it makes them. */
  function Validate(params: Option<Params>): (r: Result<(string, string)>)
    ensures r.Success? <==>
      params.Some? && Present(params.value.filename) && Present(params.value.name)
    ensures r.Success? ==> r.value == (params.value.filename.value, params.value.name.value)
    ensures r.Failure? ==> r.error.ParamError? && r.error.code == 0
    ensures params.Some? && !Present(params.value.filename) ==>
      r == Failure(ParamError(0, "No param \"filename\"!"))
  {
    if params.None? then Failure(ParamError(0, "No params!"))
    else if !Present(params.value.filename) then Failure(ParamError(0, "No param \"filename\"!"))
    else if !Present(params.value.name) then Failure(ParamError(0, "No param \"name\"!"))
    else Success((params.value.filename.value, params.value.name.value))
  }

  /** `db[name] == null`: the collection is absent or stored as `null`. */
  predicate NeedsCollection(db: map<string, Collection>, name: string): (r: bool)
    ensures r <==> !(name in db && db[name].Array?)
  {
    name !in db || db[name] == NullCollection
  }

  /** The collections after the constructor has made sure the named one exists. */
  function AutoCreate(db: map<string, Collection>, name: string): (r: map<string, Collection>)
    ensures name in r && r[name].Array? && !NeedsCollection(r, name)
    ensures NeedsCollection(db, name) ==> r[name] == Array([])
    ensures !NeedsCollection(db, name) ==> r == db
    ensures forall k :: k != name ==> (k in r <==> k in db)
    ensures forall k :: k != name && k in db ==> r[k] == db[k]
  {
    if NeedsCollection(db, name) then db[name := Array([])] else db
  }

  class DB {
    const filename: string
    const name: string
    var db: map<string, Collection>
    /** Every snapshot of `db` that `write` has handed to the file system, oldest first. */
    var writes: seq<map<string, Collection>>

    /** The bound collection exists and is an array. */
    predicate Valid()
      reads this
    {
      name in db && db[name].Array?
    }

    /** The elements of the bound collection, in order. */
    function Items(): seq<Record?>
      reads this
      requires Valid()
    {
      db[name].items
    }

    /** The part of the constructor that runs after the checks and the read. */
    constructor Load(filename: string, name: string, content: map<string, Collection>)
      ensures this.filename == filename && this.name == name
      ensures Valid() && db == AutoCreate(content, name)
      ensures writes == if NeedsCollection(content, name) then [db] else []
    {
      this.filename := filename;
      this.name := name;
      db := content;
      writes := [];
      new;
      if NeedsCollection(db, name) {
        db := db[name := Array([])];
        Write();
      }
    }

    /** `new DB(params)`: checks the options before touching the file, then loads it. */
    static method Open(params: Option<Params>, stored: Stored) returns (r: Result<DB>)
      ensures r.Success? <==> Validate(params).Success? && stored.Parsed?
      ensures Validate(params).Failure? ==> r == Failure(Validate(params).error)
      ensures Validate(params).Success? && stored.Unreadable? ==>
        r == Failure(DBError(-1, stored.cause))
      ensures r.Success? ==>
        fresh(r.value) && r.value.Valid() &&
        r.value.filename == Validate(params).value.0 &&
        r.value.name == Validate(params).value.1 &&
        r.value.db == AutoCreate(stored.content, r.value.name) &&
        r.value.writes ==
          if NeedsCollection(stored.content, r.value.name) then [r.value.db] else []
    {
      var checked := Validate(params);
      if checked.Failure? {
        return Failure(checked.error);
      }
      var (filename, name) := checked.value;
      if stored.Unreadable? {
        return Failure(DBError(-1, stored.cause));
      }
      var handle := new DB.Load(filename, name, stored.content);
      return Success(handle);
    }

    /** `get()`: the bound collection. */
    method Get() returns (items: seq<Record?>)
      requires Valid()
      ensures items == Items()
    {
      items := db[name].items;
    }

    /** `search(q)`: a template is applied one key at a time, a function as one filter. */
    method Search(q: JsValue) returns (r: Result<seq<Record?>>)
      requires Valid()
      ensures r == SearchResult(Items(), q)
    {
      if !Truthy(q) {
        return Failure(ParamError(0, "No params!"));
      }
      match q
      case Obj(t) =>
        var dbArray := db[name].items;
        FilterKeepsAll(dbArray, MatchesKeys(t, []));
        for i := 0 to |t.keys|
          invariant dbArray == Filter(Items(), MatchesKeys(t, t.keys[..i]))
          invariant i == 0 ==> dbArray == Items()
          invariant i > 0 ==> null !in Items() && null !in dbArray
        {
          if null in dbArray {
            return Failure(TypeError);
          }
          var prefix := t.keys[..i + 1];
          assert prefix[..i] == t.keys[..i];
          KeyByKey(Items(), t, prefix);
          dbArray := Filter(dbArray, KeyFilter(t, t.keys[i]));
        }
        assert t.keys[..|t.keys|] == t.keys;
        return Success(dbArray);
      case Fun(f) =>
        return Success(Filter(db[name].items, f.call));
      case _ =>
        return Failure(TypeError);
    }

    /** `write()`: hands a snapshot of every collection to the file system. */
    method Write()
      modifies this`writes
      ensures writes == old(writes) + [db]
    {
      writes := writes + [db];
    }

    /** `new(json)`: appends an object (or `null`, whose `typeof` is also "object"). */
    method New(json: JsValue) returns (r: Result<Record?>)
      requires Valid()
      modifies this`db
      ensures Valid() && writes == old(writes)
      ensures r.Failure? <==> TypeOf(json) != "object"
      ensures r.Failure? ==> r.error == ParamError(1, "No JSON introduced!") && db == old(db)
      ensures r.Success? ==> r.value == if json.Obj? then json.obj else null
      ensures r.Success? ==>
        Items() == old(Items()) + [r.value] && db == old(db)[name := Array(Items())]
    {
      if TypeOf(json) != "object" {
        return Failure(ParamError(1, "No JSON introduced!"));
      }
      var element: Record? := if json.Obj? then json.obj else null;
      var items := db[name].items + [element];
      db := db[name := Array(items)];
      var length := |items|;
      return Success(items[length - 1]);
    }

    /** `remove(q)`: deletes every entry that is the first element `search(q)` finds. */
    method Remove(q: JsValue) returns (r: Result<bool>)
      requires Valid()
      modifies this`db
      ensures Valid() && writes == old(writes)
      ensures r.Success? <==> Removed(old(Items()), q).Success?
      ensures r.Success? ==>
        r.value && db == old(db)[name := Array(Removed(old(Items()), q).value)]
      ensures r.Failure? ==> r.error == Removed(old(Items()), q).error && db == old(db)
    {
      if !Truthy(q) {
        return Failure(ParamError(0, "No params!"));
      }
      var result := Search(q);
      if result.Failure? {
        return Failure(result.error);
      }
      if |result.value| == 0 {
        return Failure(DBError(2, "Not found!"));
      }
      db := db[name := Array(Filter(db[name].items, Unlike(result.value[0])))];
      return Success(true);
    }
  }
}
