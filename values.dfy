/** JSON values as they travel between the backend and the browser, and the
    few JavaScript operations the frontend applies to them: property access,
    truthiness, String(v), Object.entries, and the list items a component
    renders. Numbers are integers here: the rows carry integer keys and counts. */
module Values {
  import opened Text

  datatype Option<T> = None | Some(value: T)

  /** The outcome of JavaScript code that may throw. */
  datatype Outcome<T> = Threw | Returned(value: T)

  datatype Json =
    | Null
    | Bool(b: bool)
    | Num(n: int)
    | Str(s: string)
    | Arr(items: seq<Json>)
    | Obj(entries: seq<(string, Json)>)

  /** Property names of an object (or keys of a dict), in insertion order. */
  function Keys<V>(entries: seq<(string, V)>): (ks: seq<string>)
    ensures |ks| == |entries|
    ensures forall i :: 0 <= i < |entries| ==> ks[i] == entries[i].0
  {
    seq(|entries|, i requires 0 <= i < |entries| => entries[i].0)
  }

  predicate HasKey<V>(entries: seq<(string, V)>, key: string)
  {
    exists i :: 0 <= i < |entries| && entries[i].0 == key
  }

  /** No name occurs twice: a JavaScript object or a Python dict. */
  predicate UniqueKeys<V>(entries: seq<(string, V)>)
  {
    forall i, j :: 0 <= i < j < |entries| ==> entries[i].0 != entries[j].0
  }

  /** The value stored under key (the first one, should a name repeat). */
  function Lookup<V>(entries: seq<(string, V)>, key: string): (r: Option<V>)
    ensures r.Some? <==> HasKey(entries, key)
  {
    if entries == [] then None
    else if entries[0].0 == key then Some(entries[0].1)
    else
      var r := Lookup(entries[1..], key);
      assert HasKey(entries, key) ==> HasKey(entries[1..], key) by {
        if HasKey(entries, key) {
          var i :| 0 <= i < |entries| && entries[i].0 == key;
          assert entries[1..][i - 1].0 == key;
        }
      }
      r
  }

  /** A value Lookup finds is stored under key at some position. */
  lemma {:induction false} LookupFound<V>(entries: seq<(string, V)>, key: string)
    requires HasKey(entries, key)
    ensures exists i :: 0 <= i < |entries| && entries[i] == (key, Lookup(entries, key).value)
  {
    if entries[0].0 != key {
      LookupFound(entries[1..], key);
      var i :| 0 <= i < |entries[1..]| && entries[1..][i] == (key, Lookup(entries[1..], key).value);
      assert entries[i + 1] == entries[1..][i];
    }
  }

  /** Lookup of a name stored at a known position of an object without repeated names. */
  lemma LookupAt<V>(entries: seq<(string, V)>, i: nat)
    requires UniqueKeys(entries) && i < |entries|
    ensures Lookup(entries, entries[i].0) == Some(entries[i].1)
  {
    LookupFound(entries, entries[i].0);
    var r := Lookup(entries, entries[i].0);
    var j :| 0 <= j < |entries| && entries[j] == (entries[i].0, r.value);
    assert j == i;
  }

  /** `v.key` for a value that is an object; `undefined` (None) for any other value.
      The source applies it to objects, or behind optional chaining. */
  function Get(v: Json, key: string): Option<Json>
  {
    if v.Obj? then Lookup(v.entries, key) else None
  }

  /** JavaScript truthiness; None is `undefined`. */
  predicate Truthy(v: Option<Json>)
  {
    match v
    case None => false
    case Some(j) =>
      match j
      case Null => false
      case Bool(b) => b
      case Num(n) => n != 0
      case Str(s) => s != ""
      case Arr(_) => true
      case Obj(_) => true
  }

  /** String(v), as a template literal or a regular-expression test applies it.
      An array joins its elements with commas, null and undefined giving "". */
  function JsString(v: Option<Json>): string
  {
    match v
    case None => "undefined"
    case Some(j) => JsonString(j)
  }

  function JsonString(j: Json): string
  {
    match j
    case Null => "null"
    case Bool(b) => if b then "true" else "false"
    case Num(n) => IntToString(n)
    case Str(s) => s
    case Obj(_) => "[object Object]"
    case Arr(items) =>
      Join(seq(|items|, i requires 0 <= i < |items| => if items[i].Null? then "" else JsonString(items[i])))
  }

  /** Strings joined with "," between them. */
  function Join(parts: seq<string>): string
  {
    if parts == [] then ""
    else if |parts| == 1 then parts[0]
    else parts[0] + "," + Join(parts[1..])
  }

  /** The string of an integer value has no letter in it. */
  lemma NumStringHasNoLetter(n: int)
    ensures forall i :: 0 <= i < |JsonString(Num(n))| ==> !IsLetter(JsonString(Num(n))[i])
  {
    var s := IntToString(n);
    if n < 0 {
      assert forall i :: 1 <= i < |s| ==> s[i] == NatToString(-n)[i - 1];
    }
  }

  /** Object.entries(v): an object's own properties in the order the JSON text
      lists them, an array's indexed elements, a string's characters; no entries
      for a number or boolean; a TypeError for null and undefined. JavaScript
      lists keys that are array indices first, in ascending order; no such
      reordering is modelled, since the keys walked here are port names. */
  function Entries(v: Option<Json>): (r: Outcome<seq<(string, Json)>>)
    ensures r.Threw? <==> v.None? || v.value.Null?
    ensures r.Returned? && v.value.Obj? ==> r.value == v.value.entries
  {
    match v
    case None => Threw
    case Some(j) =>
      match j
      case Null => Threw
      case Bool(_) => Returned([])
      case Num(_) => Returned([])
      case Str(s) => Returned(seq(|s|, i requires 0 <= i < |s| => (NatToString(i), Str([s[i]]))))
      case Arr(items) => Returned(seq(|items|, i requires 0 <= i < |items| => (NatToString(i), items[i])))
      case Obj(entries) => Returned(entries)
  }

  /** How many entries Object.entries gives for an object or an array. */
  function EntryCount(v: Json): nat
  {
    if v.Obj? then |v.entries| else if v.Arr? then |v.items| else 0
  }

  /** The name of entry i: a property name, or an array index as a string. */
  function EntryKey(v: Json, i: nat): string
    requires i < EntryCount(v)
  {
    if v.Obj? then v.entries[i].0 else NatToString(i)
  }

  /** The entries a recursive renderer walks are Object.entries' own. */
  lemma EntriesAgree(v: Json, i: nat)
    requires i < EntryCount(v)
    ensures Entries(Some(v)).Returned? && |Entries(Some(v)).value| == EntryCount(v)
    ensures Entries(Some(v)).value[i] == (EntryKey(v, i), if v.Obj? then v.entries[i].1 else v.items[i])
  {
  }

  /** One rendered list entry: `<li>key: <a href=…>text</a></li>` or a nested
      list; a None child is a `null` the component returns for that entry. */
  datatype Item =
    | Link(key: string, href: string, text: string)
    | Group(key: string, children: seq<Option<Item>>)

  /** Every link anywhere below item has an href starting with one of prefixes. */
  predicate LinksUnder(item: Item, prefixes: set<string>)
  {
    match item
    case Link(_, href, _) => exists p :: p in prefixes && StartsWith(href, p)
    case Group(_, children) =>
      forall i :: 0 <= i < |children| ==>
        children[i].Some? ==> LinksUnder(children[i].value, prefixes)
  }

  /** HTTP verbs and the requests the frontend issues. */
  datatype Method = GET | PUT | POST | DELETE

  datatype Request = Request(verb: Method, url: string, body: seq<(string, Json)>)
}
