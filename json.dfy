/** Values produced by `json.loads`, and the few dictionary and container operations of
    Python the analyzer applies to them. Objects keep their keys in insertion order, as
    Python dictionaries do. Numbers are integers. */
module JsonValue {
  import opened Base
  import opened PyStr

  datatype Json =
    | JNull
    | JBool(b: bool)
    | JInt(i: int)
    | JStr(s: string)
    | JArr(items: seq<Json>)
    | JObj(fields: seq<(string, Json)>)

  type Fields = seq<(string, Json)>

  /** `key in d` for a dictionary. */
  predicate HasKey(fields: Fields, key: string) {
    exists i :: 0 <= i < |fields| && fields[i].0 == key
  }

  /** `d.get(key)`: the value stored under `key`, or `None`. */
  function Get(fields: Fields, key: string): (r: Option<Json>)
    ensures r.Some? <==> HasKey(fields, key)
  {
    if fields == [] then None
    else if fields[0].0 == key then Some(fields[0].1)
    else Get(fields[1..], key)
  }

  /** In a dictionary written out key by key, a key not written earlier holds its value. */
  lemma {:induction false} GetAt(fields: Fields, i: nat)
    requires i < |fields|
    requires forall j :: 0 <= j < i ==> fields[j].0 != fields[i].0
    ensures Get(fields, fields[i].0) == Some(fields[i].1)
  {
    if i > 0 {
      assert forall j :: 0 <= j < i - 1 ==> fields[1..][j] == fields[j + 1];
      GetAt(fields[1..], i - 1);
    }
  }

  /** `d.get(key, default)` */
  function GetOr(fields: Fields, key: string, default: Json): (r: Json)
    ensures HasKey(fields, key) ==> Some(r) == Get(fields, key)
    ensures !HasKey(fields, key) ==> r == default
  {
    match Get(fields, key)
    case Some(v) => v
    case None => default
  }

  /** `d[key] = v`: an existing key keeps its position, a new key goes last. */
  function Put(fields: Fields, key: string, v: Json): (r: Fields)
    ensures Get(r, key) == Some(v)
    ensures forall k :: k != key ==> Get(r, k) == Get(fields, k)
  {
    if fields == [] then [(key, v)]
    else if fields[0].0 == key then [(key, v)] + fields[1..]
    else [fields[0]] + Put(fields[1..], key, v)
  }

  /** `if key not in d: d[key] = v`: the key is set with `v` only when the key is missing. */
  function Default(f: Fields, key: string, v: Json): (r: Fields)
    ensures HasKey(r, key)
    ensures Get(r, key) == if HasKey(f, key) then Get(f, key) else Some(v)
    ensures forall k :: k != key ==> Get(r, k) == Get(f, k)
  {
    if HasKey(f, key) then f else Put(f, key, v)
  }

  /** A new key goes after all the others. */
  lemma {:induction false} PutNew(fields: Fields, key: string, v: Json)
    requires !HasKey(fields, key)
    ensures Put(fields, key, v) == fields + [(key, v)]
  {
    if fields != [] {
      assert fields[0].0 != key;
      assert !HasKey(fields[1..], key) by {
        forall i | 0 <= i < |fields[1..]| ensures fields[1..][i].0 != key {
          assert fields[1..][i] == fields[i + 1];
        }
      }
      PutNew(fields[1..], key, v);
      ConsAppend(fields[0], fields[1..], (key, v));
    }
  }

  lemma ConsAppend<T>(x: T, rest: seq<T>, y: T)
    ensures [x] + (rest + [y]) == ([x] + rest) + [y]
  {
  }

  /** An existing key keeps its position: every position holds the same key as before. */
  lemma {:induction false} PutExisting(fields: Fields, key: string, v: Json)
    ensures |Put(fields, key, v)| == |fields| + (if HasKey(fields, key) then 0 else 1)
    ensures forall i :: 0 <= i < |fields| ==> Put(fields, key, v)[i].0 == fields[i].0
  {
    if fields != [] && fields[0].0 != key {
      PutExisting(fields[1..], key, v);
      HasKeyTail(fields, key);
    }
  }

  lemma HasKeyTail(fields: Fields, key: string)
    requires fields != [] && fields[0].0 != key
    ensures HasKey(fields, key) == HasKey(fields[1..], key)
  {
    if HasKey(fields, key) {
      var i :| 0 <= i < |fields| && fields[i].0 == key;
      assert fields[1..][i - 1] == fields[i];
    }
    if HasKey(fields[1..], key) {
      var i :| 0 <= i < |fields[1..]| && fields[1..][i].0 == key;
      assert fields[i + 1] == fields[1..][i];
    }
  }

  /** `key in container` for a string key: a dictionary key, a substring, or a list element;
      `None` where Python raises TypeError (numbers, booleans, `None`). */
  function StrIn(key: string, container: Json): (r: Option<bool>)
    ensures r.None? <==> container.JNull? || container.JBool? || container.JInt?
    ensures container.JObj? ==> r == Some(HasKey(container.fields, key))
    ensures container.JArr? ==> r == Some(JStr(key) in container.items)
  {
    match container
    case JObj(fields) => Some(HasKey(fields, key))
    case JStr(s) => Some(Contains(s, key))
    case JArr(items) => Some(JStr(key) in items)
    case _ => None
  }

  /** `list(container)`: what a `for` loop over the value visits (characters of a string,
      keys of a dictionary); `None` where Python raises TypeError. */
  function Iter(container: Json): (r: Option<seq<Json>>)
    ensures r.None? <==> container.JNull? || container.JBool? || container.JInt?
    ensures r.Some? ==> |r.value| == Len(container).value
  {
    match container
    case JArr(items) => Some(items)
    case JStr(s) => Some(seq(|s|, i requires 0 <= i < |s| => JStr([s[i]])))
    case JObj(fields) => Some(seq(|fields|, i requires 0 <= i < |fields| => JStr(fields[i].0)))
    case _ => None
  }

  /** `len(container)`; `None` where Python raises TypeError. */
  function Len(container: Json): (r: Option<nat>)
    ensures r.None? <==> container.JNull? || container.JBool? || container.JInt?
  {
    match container
    case JArr(items) => Some(|items|)
    case JStr(s) => Some(|s|)
    case JObj(fields) => Some(|fields|)
    case _ => None
  }

  /** The object with `key` set to `v`, or `None` where item assignment raises TypeError
      (every value but a dictionary, for a string key). */
  function SetItem(target: Json, key: string, v: Json): (r: Option<Json>)
    ensures r.Some? <==> target.JObj?
    ensures r.Some? ==> r.value.JObj? && Get(r.value.fields, key) == Some(v)
  {
    if target.JObj? then Some(JObj(Put(target.fields, key, v))) else None
  }

  /** `str(v)` as an f-string renders it. */
  function Str(v: Json): string
  {
    match v
    case JStr(s) => s
    case _ => Repr(v)
  }

  /** `repr(v)`: strings in single quotes, containers with `, ` and `: ` separators. */
  function Repr(v: Json): string
    decreases v, 1
  {
    match v
    case JNull => "None"
    case JBool(b) => if b then "True" else "False"
    case JInt(i) => IntToStr(i)
    case JStr(s) => "'" + s + "'"
    case JArr(items) => "[" + ReprItems(v, items) + "]"
    case JObj(fields) => "{" + ReprFields(v, fields) + "}"
  }

  function ReprItems(parent: Json, items: seq<Json>): string
    requires forall i :: 0 <= i < |items| ==> items[i] < parent
    decreases parent, 0, |items|
  {
    if items == [] then ""
    else if |items| == 1 then Repr(items[0])
    else Repr(items[0]) + ", " + ReprItems(parent, items[1..])
  }

  function ReprFields(parent: Json, fields: Fields): string
    requires forall i :: 0 <= i < |fields| ==> fields[i].1 < parent
    decreases parent, 0, |fields|
  {
    if fields == [] then ""
    else
      var entry := "'" + fields[0].0 + "': " + Repr(fields[0].1);
      if |fields| == 1 then entry else entry + ", " + ReprFields(parent, fields[1..])
  }
}
