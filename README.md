# simpledb collection engine, modelled in Dafny

This project models the in-memory engine of simpledb's `DB` class (`index.js`). A handle is
bound to a file name and a collection name. It holds the parsed content of the whole file:
a map from collection name to an ordered array of records. The model covers:

- the constructor's argument checks and its auto-creation of the named collection;
- `get`;
- `search`, with a field-equality template applied one key at a time, or with a predicate
  function;
- `new`, which appends one record;
- `remove`, which deletes every array entry that is the same object as the first match.

Modules:

- `Errors` (errors.dfy): the two error classes of `errors.js` (`ParamError` and `DBError`,
  each with a code and a message). It adds the runtime's `TypeError` and a `Result` type for
  calls that throw.
- `Values` (values.dfy): JavaScript values. Objects and functions are Dafny class instances,
  so their identity is the reference, which is what `!=` compares in `remove`. It also holds
  truthiness, `typeof` and loose equality `==`.
- `Seqs` (filter.dfy): `Array.prototype.filter` and what its result is: the ordered
  subsequence of the selected elements.
- `Query` (query.dfy): what `search` and `remove` compute, as functions of the collection
  and the argument, with the lemmas that characterise them.
- `Store` (store.dfy): the `DB` class. Its `db` field is the map of collections. Its
  `writes` field records each snapshot that `write` hands to the file system. `Open` is the
  constructor, `Search` runs the key-by-key loop, and `New` and `Remove` update `db`.

File access is a parameter. `DB.Open` receives the outcome of reading and parsing the file
(`Stored`): either the collections, or the exception raised, which becomes `DBError(-1, …)`.
`write` is a persist request. It appends the current `db` to `writes`, because
`JSON.stringify` runs when `write` is called.

Facts about `index.js` that the model keeps:

- An empty or unparsable file makes the constructor throw `DBError` with code -1
  (index.js:28-35).
- `new` and `remove` never call `write` (index.js:75-97).
- `get` returns `this.db[this.name]` and nothing else (index.js:42-44).

## Model

| member | source | states |
|---|---|---|
| `Store.Validate` | index.js:6-17 | the options are accepted exactly when the options object, `filename` and `name` are all present and truthy; every rejection is a ParamError of code 0; a missing `filename` is reported before a missing `name` |
| `Store.AutoCreate` | index.js:36-39 | afterwards the named collection exists as an array; an absent or `null` collection becomes `[]`; an existing array is kept as is; every other collection is unchanged; applying it again changes nothing |
| `Store.NeedsCollection` | index.js:36 | `this.db[name] == null` holds exactly when the name is not bound to an array (absent or `null`) |
| `Store.DB.Load` | index.js:18-39 | the handle keeps the file name and the collection name; its collections are the loaded ones after auto-creation; exactly one write is issued, and only when the collection had to be created |
| `Store.DB.Open` | index.js:5-40 | a failed check gives its ParamError whatever the file holds, so the checks come before any file access; an unreadable or unparsable file gives DBError -1; otherwise a fresh valid handle as `Load` describes |
| `Store.DB.Get` | index.js:42-44 | returns the bound collection's elements in order |
| `Query.SearchResult` | index.js:51-63 | a falsy argument gives ParamError 0; a truthy argument that is neither an object nor a function gives a TypeError; a template with keys over a collection holding `null` gives a TypeError; every other query succeeds |
| `Store.DB.Search` | index.js:51-63 | the loop that filters one template key at a time returns the single conjunctive filter that `SearchResult` describes; the predicate form filters once; `db` and `writes` are not changed |
| `Query.KeyByKey` | index.js:57-58 | filtering by the first n-1 keys and then by key n equals filtering once by all n keys |
| `Query.SearchExact` | index.js:56-62 | a successful query returns exactly the selected elements, each as often as it occurs in the collection, as an ordered subsequence of the collection |
| `Query.TemplateResultsMatch` | index.js:58 | every element a template query returns is an object that loosely equals the template on each template key |
| `Query.EmptyTemplateReturnsAll` | index.js:56-59 | a template without keys returns the whole collection |
| `Query.SearchFindsItself` | index.js:58 | a record of a null-free collection, used as its own template, is among the results |
| `Store.DB.Write` | index.js:65-73 | appends a snapshot of every collection to the persist requests |
| `Store.DB.New` | index.js:75-82 | an argument whose `typeof` is not "object" gives ParamError 1 and changes nothing; otherwise the object (or `null`) is appended at the end, the old elements stay as a prefix, the appended element is returned, and no other collection changes and no write is issued |
| `Query.Removed` | index.js:84-97 | a falsy argument gives ParamError 0; a failing search passes its error on; an empty search result gives DBError 2 "Not found!"; otherwise the collection is filtered |
| `Store.DB.Remove` | index.js:84-97 | on success returns true and replaces the bound collection with the `Removed` result; on failure leaves `db` unchanged and returns the error; no other collection changes and no write is issued |
| `Query.RemoveNotFound` | index.js:89-94 | a query that runs reports "Not found!" exactly when no element of the collection is selected |
| `Query.RemoveTargetsFirstMatch` | index.js:89-95 | the deleted element is the first element of the collection that the query selects |
| `Query.RemoveDropsOnlyTarget` | index.js:95 | every entry that is that same object is dropped; every other element keeps its number of occurrences and its relative order; the collection gets shorter |
| `Values.LooseEq` | index.js:58 | `null` and `undefined` equal each other and nothing else; every value equals itself; an object or function equals only itself |
| `Values.Truthy` | index.js:52 | `!v` is true of `undefined` and `null`, false of every object and function, and true of a string exactly when it is empty |
| `Values.TypeOf` | index.js:76 | `typeof v` is "object" exactly for `null` and objects, and "function" exactly for functions |
| `Values.Record.Get` | index.js:58 | `e[k]` reads a key the object does not have as `undefined`; any other value read is the field's own value |
| `Query.KeyMatches` | index.js:58 | `params[k] == e[k]` never holds for a `null` element; an object template value matches only that same object; an `undefined` template value matches a missing, `undefined` or `null` field |
| `Query.Unlike` | index.js:95 | the `remove` callback rejects the first match itself |
| `Values.LooseEqSymmetric` | index.js:58 | loose equality does not depend on operand order |
| `Seqs.Filter` | index.js:58 | the result is no longer than the input, and each of its elements satisfies the predicate |
| `Seqs.FilterExact` | index.js:61 | the result is an ordered subsequence of the input, and it holds each satisfying element as often as the input does and no other element |
| `Seqs.FilterKeepsAll` | index.js:59 | the result is the whole input exactly when every element satisfies the predicate |
| `Seqs.FilterEmpty` | index.js:91 | the result is empty exactly when no element satisfies the predicate |
| `Seqs.FilterFirst` | index.js:95 | the first element of the result is the first satisfying element of the input |
| `Seqs.FilterTwice` | index.js:58 | filtering by p and then by q is filtering by "p and q" |
| `Seqs.FilterShrinks` | index.js:95 | if some element fails the predicate, the result is shorter than the input |

## Left out

- File access (`existsSync`, `appendFile`, `readFileSync`, `writeFile`): the outcome of the read is a parameter of `DB.Open`, and `write` only records the snapshot it would persist. The asynchronous callbacks that throw DBError -1 on a failed append or write cannot be observed in a sequential model. A missing file is not modelled separately. It shows up as whatever the read returns.
- `JSON.parse` and `JSON.stringify`: the parsed file is taken as a map from collection name to `null` or an array of objects and `null`s. A file whose top level is not an object, or whose named collection is some other JSON value, is not modelled.
- The `catch` branch of `get`: it runs only when `this.db` is not an object, which the constructor already excludes.
- Aliasing of the live array: `get` and an empty-template `search` return the stored array itself, so a caller's copy would see later `new` pushes. The model returns values.
- `Store.Validate`: `filename` and `name` are strings or absent. Other falsy values (`0`, `false`, `null`) behave as absent. The conversion of a non-string `name` to a property key is not modelled.
- `Values.LooseEq`: the string-to-number coercion (`"1" == 1`) and the object-to-primitive coercion (`[1] == 1`) of JavaScript `==` are not modelled; such pairs compare unequal. Numbers are integers, so NaN and fractions are left out.
- Predicate queries: a predicate is a pure function of the element. The index and array arguments that `filter` also passes, predicates that throw or have side effects, and truthiness of non-boolean return values are not modelled.
- Property reads: collection names and template keys are read as the object's own keys only. Inherited and non-enumerable properties are not modelled. For example, a collection named `constructor`, `toString` or `__proto__` reads an inherited value in index.js:36, so it is not created there and `new`/`search` then throw; the model creates it. Likewise `e["length"]` of an array element is `undefined` in the model.
- Records are immutable: a caller who keeps the reference `new` returns and changes that object would change what later searches see; the model's records have constant fields.
- Error messages of DBError -1 carry the underlying exception, represented by its text.
