/** The parts of PHP's run-time semantics that the option pipeline relies on:
    dynamically typed values and their truthiness, arrays with string keys
    (which keep insertion order), and the string built-ins the source calls
    (strpos, strrpos, str_replace, explode/implode, ucfirst, sort). */
module Php {

  datatype Option<T> = None | Some(value: T)

  datatype Result<T, E> = Ok(value: T) | Err(error: E)

  /** A PHP value, as far as the pipeline stores, copies and tests it. */
  datatype Value =
    | Null
    | Bool(b: bool)
    | Int(i: int)
    | Str(s: string)
    | Arr(items: seq<Value>)  // an array with keys 0, 1, 2, ...
    | Callable(id: nat)       // a closure; only ever passed on and called

  /** PHP's conversion to boolean, as used by `if ($v)` and `!empty($v)`. */
  predicate Truthy(v: Value) {
    match v
    case Null => false
    case Bool(b) => b
    case Int(i) => i != 0
    case Str(s) => s != "" && s != "0"
    case Arr(items) => items != []
    case Callable(_) => true
  }

  /** An option record: an array with string keys; a key that is missing reads as null. */
  type Record = map<string, Value>

  function Field(r: Record, key: string): Value {
    if key in r then r[key] else Null
  }

  /** `$r[$key] === true` */
  predicate IsTrue(r: Record, key: string) {
    Field(r, key) == Bool(true)
  }

  /** The strings that `foreach ($r['aliases'] as $alias)` visits. */
  function Aliases(r: Record): seq<string> {
    match Field(r, "aliases")
    case Arr(items) => StringsOf(items)
    case _ => []
  }

  /** `$records[$key]`: the record stored under a key; a missing one reads as empty. */
  function RecordAt(records: map<string, Record>, key: string): Record {
    if key in records then records[key] else map[]
  }

  function StringsOf(items: seq<Value>): seq<string> {
    if items == [] then []
    else (if items[0].Str? then [items[0].s] else []) + StringsOf(items[1..])
  }

  function AsValues(names: seq<string>): (r: seq<Value>)
    ensures |r| == |names|
    ensures forall i :: 0 <= i < |names| ==> r[i] == Str(names[i])
  {
    seq(|names|, i requires 0 <= i < |names| => Str(names[i]))
  }

  lemma {:induction false} StringsOfAsValues(names: seq<string>)
    ensures StringsOf(AsValues(names)) == names
  {
    if names != [] {
      assert AsValues(names)[1..] == AsValues(names[1..]);
      StringsOfAsValues(names[1..]);
    }
  }

  lemma {:induction false} StringsOfAppend(a: seq<Value>, b: seq<Value>)
    ensures StringsOf(a + b) == StringsOf(a) + StringsOf(b)
  {
    if a == [] {
      assert a + b == b;
    } else {
      assert (a + b)[0] == a[0] && (a + b)[1..] == a[1..] + b;
      StringsOfAppend(a[1..], b);
    }
  }

  /** A PHP array with string keys: its keys in insertion order and the values they hold.
      Assigning to a key that exists keeps its position; a new key goes last. */
  datatype OMap<V> = OMap(keys: seq<string>, m: map<string, V>) {

    ghost predicate Valid() {
      && (forall i, j :: 0 <= i < j < |keys| ==> keys[i] != keys[j])
      && (forall k :: k in m <==> k in keys)
    }

    function Put(k: string, v: V): (r: OMap<V>)
      ensures Valid() ==> r.Valid()
      ensures r.m == m[k := v]
      ensures k in m ==> r.keys == keys
      ensures k !in m ==> r.keys == keys + [k]
    {
      if k in m then OMap(keys, m[k := v]) else OMap(keys + [k], m[k := v])
    }
  }

  function EmptyMap<V>(): (r: OMap<V>)
    ensures r.Valid() && r.keys == [] && r.m == map[]
  {
    OMap([], map[])
  }

  /** `$a[$name] = $v` for each name in turn. */
  function PutAll<V>(a: OMap<V>, names: seq<string>, v: V): (r: OMap<V>)
    ensures a.Valid() ==> r.Valid()
    decreases |names|
  {
    if names == [] then a else PutAll(a.Put(names[0], v), names[1..], v)
  }

  lemma AppendAssoc<T>(a: seq<T>, b: seq<T>, c: seq<T>)
    ensures a + b + c == a + (b + c)
  {
  }

  /** Every name ends up holding the value; every other entry is left as it was. */
  lemma {:induction false} PutAllSpec<V>(a: OMap<V>, names: seq<string>, v: V)
    ensures var r := PutAll(a, names, v);
      (forall n :: n in names ==> n in r.m && r.m[n] == v)
      && (forall n :: n !in names ==> (n in r.m <==> n in a.m) && (n in a.m ==> r.m[n] == a.m[n]))
    decreases |names|
  {
    if names != [] {
      var next := a.Put(names[0], v);
      PutAllSpec(next, names[1..], v);
      var r := PutAll(a, names, v);
      assert r == PutAll(next, names[1..], v);
      forall n | n in names ensures n in r.m && r.m[n] == v {
        if n !in names[1..] {
          assert n == names[0];
        }
      }
    }
  }

  /** `foreach ($keys as $k) { $a[$k] = f($k, $a[$k]); }` on the values `m`;
      a key without an entry is passed over. */
  function UpdateEach<V>(m: map<string, V>, keys: seq<string>, f: (string, V) -> V): (r: map<string, V>)
    ensures r.Keys == m.Keys
    decreases |keys|
  {
    if keys == [] then m
    else UpdateEach(if keys[0] in m then m[keys[0] := f(keys[0], m[keys[0]])] else m, keys[1..], f)
  }

  /** Over distinct keys, each listed entry is updated once, from its own
      value, and the others are kept. */
  lemma {:induction false} UpdateEachSpec<V>(m: map<string, V>, keys: seq<string>, f: (string, V) -> V)
    requires forall i, j :: 0 <= i < j < |keys| ==> keys[i] != keys[j]
    ensures forall k :: k in m ==> UpdateEach(m, keys, f)[k] == if k in keys then f(k, m[k]) else m[k]
    decreases |keys|
  {
    if keys != [] {
      var k := keys[0];
      var next := if k in m then m[k := f(k, m[k])] else m;
      UpdateEachSpec(next, keys[1..], f);
      assert k !in keys[1..];
      forall q | q in keys ensures q == k || q in keys[1..] {
      }
    }
  }

  /** The loop of `UpdateEach` on an ordered array, in place: the keys keep their order. */
  method UpdateAll<V>(a: OMap<V>, keys: seq<string>, f: (string, V) -> V) returns (r: OMap<V>)
    ensures r == OMap(a.keys, UpdateEach(a.m, keys, f))
  {
    r := a;
    for i := 0 to |keys|
      invariant r.keys == a.keys
      invariant UpdateEach(r.m, keys[i..], f) == UpdateEach(a.m, keys, f)
    {
      assert keys[i..][0] == keys[i] && keys[i..][1..] == keys[i + 1..];
      var k := keys[i];
      if k in r.m {
        r := r.Put(k, f(k, r.m[k]));
      }
    }
  }

  // ---------------------------------------------------------------------
  // Strings
  // ---------------------------------------------------------------------

  /** `strpos($s, $c)` for a one-character needle. */
  function FirstIndex(s: string, c: char): (r: Option<nat>)
    ensures r.Some? ==> r.value < |s| && s[r.value] == c && forall j :: 0 <= j < r.value ==> s[j] != c
    ensures r.None? ==> c !in s
  {
    if |s| == 0 then None
    else if s[0] == c then Some(0)
    else
      match FirstIndex(s[1..], c)
      case Some(i) =>
        assert s[..i + 1] == [s[0]] + s[1..][..i];
        Some(i + 1)
      case None =>
        assert s == [s[0]] + s[1..];
        None
  }

  /** `strrpos($s, $c)` for a one-character needle. */
  function LastIndex(s: string, c: char): (r: Option<nat>)
    ensures r.Some? ==> r.value < |s| && s[r.value] == c && forall j :: r.value < j < |s| ==> s[j] != c
    ensures r.None? ==> c !in s
  {
    if |s| == 0 then None
    else if s[|s| - 1] == c then Some(|s| - 1)
    else
      match LastIndex(s[..|s| - 1], c)
      case Some(i) =>
        assert s[i + 1..] == s[..|s| - 1][i + 1..] + [s[|s| - 1]];
        Some(i)
      case None =>
        assert s == s[..|s| - 1] + [s[|s| - 1]];
        None
  }

  predicate OccursAt(s: string, p: string, i: nat) {
    i + |p| <= |s| && s[i..i + |p|] == p
  }

  /** `strpos($s, $p)`; an empty needle yields false, as in PHP 5 and 7. */
  function IndexOf(s: string, p: string): (r: Option<nat>)
    ensures r.Some? ==> p != [] && r.value + |p| <= |s|
  {
    if p == [] then None else IndexFrom(s, p, 0)
  }

  function IndexFrom(s: string, p: string, from: nat): (r: Option<nat>)
    requires p != []
    ensures r.Some? ==> from <= r.value && r.value + |p| <= |s|
    decreases |s| - from
  {
    if from + |p| > |s| then None
    else if s[from..from + |p|] == p then Some(from)
    else IndexFrom(s, p, from + 1)
  }

  /** The search from `from` finds the first occurrence at or after `from`, if any. */
  lemma {:induction false} IndexFromSpec(s: string, p: string, from: nat)
    requires p != []
    ensures var r := IndexFrom(s, p, from);
      && (r.Some? ==> OccursAt(s, p, r.value) && forall j: nat :: from <= j < r.value ==> !OccursAt(s, p, j))
      && (r.None? ==> forall j: nat :: from <= j ==> !OccursAt(s, p, j))
    decreases |s| - from
  {
    if from + |p| <= |s| && s[from..from + |p|] != p {
      IndexFromSpec(s, p, from + 1);
    }
  }

  /** `strpos` finds the first occurrence of a non-empty needle, and fails
      exactly when there is none. */
  lemma IndexOfSpec(s: string, p: string)
    ensures var r := IndexOf(s, p);
      && (r.Some? ==> OccursAt(s, p, r.value) && forall j: nat :: j < r.value ==> !OccursAt(s, p, j))
      && (r.None? ==> p == [] || forall j: nat :: !OccursAt(s, p, j))
  {
    if p != [] {
      IndexFromSpec(s, p, 0);
    }
  }

  /** `str_replace($p, $r, $s)`: every occurrence of `p`, scanning left to right
      without overlap, becomes `r`. An empty search string changes nothing. */
  function Replace(s: string, p: string, r: string): string
    decreases |s|
  {
    if p == [] || |s| < |p| then s
    else if s[..|p|] == p then r + Replace(s[|p|..], p, r)
    else [s[0]] + Replace(s[1..], p, r)
  }

  /** Replacing a single character by text that does not contain it leaves none of it. */
  lemma {:induction false} ReplaceRemovesChar(s: string, c: char, r: string)
    requires c !in r
    ensures c !in Replace(s, [c], r)
  {
    if |s| >= 1 {
      ReplaceRemovesChar(s[1..], c, r);
    }
  }

  /** A string without the single-character needle is returned unchanged. */
  lemma {:induction false} ReplaceAbsentChar(s: string, c: char, r: string)
    requires c !in s
    ensures Replace(s, [c], r) == s
  {
    if |s| >= 1 {
      ReplaceAbsentChar(s[1..], c, r);
      assert s == [s[0]] + s[1..];
    }
  }

  /** Text that cannot start a match is copied as it is, and the scan goes on after it. */
  lemma {:induction false} ReplaceSkip(a: string, t: string, p: string, r: string)
    requires p != [] && p[0] !in a
    ensures Replace(a + t, p, r) == a + Replace(t, p, r)
    decreases |a|
  {
    if a != [] {
      var s := a + t;
      assert s[0] == a[0] && s[1..] == a[1..] + t;
      ReplaceSkip(a[1..], t, p, r);
      if |s| < |p| {
        assert Replace(a[1..] + t, p, r) == a[1..] + t;
        assert Replace(t, p, r) == t;
      } else {
        assert s[..|p|][0] != p[0];
      }
      assert a == [a[0]] + a[1..];
    } else {
      assert a + t == t;
    }
  }

  /** `ucfirst($s)` in the "C" locale: only an ASCII lower-case first letter changes. */
  function UcFirst(s: string): (r: string)
    ensures |r| == |s| && (|s| > 0 ==> r[1..] == s[1..])
  {
    if s != [] && 'a' <= s[0] <= 'z' then [(s[0] as int - 32) as char] + s[1..] else s
  }

  /** `str_repeat(' ', $n)` */
  function Spaces(n: nat): (r: string)
    ensures |r| == n && forall i :: 0 <= i < n ==> r[i] == ' '
  {
    seq(n, _ => ' ')
  }

  /** `explode($c, $s)` for a one-character delimiter. */
  function Split(s: string, c: char): (parts: seq<string>)
    ensures |parts| >= 1
    ensures forall k :: 0 <= k < |parts| ==> c !in parts[k]
    decreases |s|
  {
    match FirstIndex(s, c)
    case None => [s]
    case Some(i) => [s[..i]] + Split(s[i + 1..], c)
  }

  /** `implode($sep, $parts)` */
  function Join(parts: seq<string>, sep: string): string {
    if |parts| == 0 then ""
    else if |parts| == 1 then parts[0]
    else parts[0] + sep + Join(parts[1..], sep)
  }

  /** Joining the pieces of a split with the same delimiter gives back the input. */
  lemma {:induction false} JoinSplit(s: string, c: char)
    ensures Join(Split(s, c), [c]) == s
    decreases |s|
  {
    match FirstIndex(s, c)
    case None =>
    case Some(i) =>
      var rest := Split(s[i + 1..], c);
      JoinSplit(s[i + 1..], c);
      assert ([s[..i]] + rest)[1..] == rest;
      assert Join(Split(s, c), [c]) == s[..i] + [c] + Join(rest, [c]);
      assert s == s[..i] + [c] + s[i + 1..];
  }

  /** Splitting text whose first piece is free of the delimiter. */
  lemma {:induction false} SplitCons(a: string, c: char, b: string)
    requires c !in a
    ensures Split(a + [c] + b, c) == [a] + Split(b, c)
  {
    var s := a + [c] + b;
    assert s[|a|] == c;
    assert forall j :: 0 <= j < |a| ==> s[j] == a[j];
    assert FirstIndex(s, c) == Some(|a|);
    assert s[..|a|] == a && s[|a| + 1..] == b;
  }

  /** Splitting text that holds no delimiter. */
  lemma SplitNone(a: string, c: char)
    requires c !in a
    ensures Split(a, c) == [a]
  {
  }

  /** Splitting the join of delimiter-free pieces gives the pieces back. */
  lemma {:induction false} SplitJoin(parts: seq<string>, c: char)
    requires |parts| >= 1 && forall k :: 0 <= k < |parts| ==> c !in parts[k]
    ensures Split(Join(parts, [c]), c) == parts
  {
    if |parts| == 1 {
      SplitNone(parts[0], c);
    } else {
      var rest := Join(parts[1..], [c]);
      assert Join(parts, [c]) == parts[0] + [c] + rest;
      assert forall k :: 0 <= k < |parts[1..]| ==> c !in parts[1..][k] by {
        forall k | 0 <= k < |parts[1..]| ensures c !in parts[1..][k] {
          assert parts[1..][k] == parts[k + 1];
        }
      }
      SplitJoin(parts[1..], c);
      SplitCons(parts[0], c, rest);
      assert parts == [parts[0]] + parts[1..];
    }
  }

  // ---------------------------------------------------------------------
  // sort(): byte-wise string order (strcmp)
  // ---------------------------------------------------------------------

  /** `strcmp($a, $b) <= 0` */
  predicate StrLe(a: string, b: string)
    decreases |a|
  {
    if a == [] then true
    else if b == [] then false
    else if a[0] != b[0] then a[0] < b[0]
    else StrLe(a[1..], b[1..])
  }

  lemma {:induction false} StrLeTotal(a: string, b: string)
    ensures StrLe(a, b) || StrLe(b, a)
    decreases |a|
  {
    if a != [] && b != [] && a[0] == b[0] {
      StrLeTotal(a[1..], b[1..]);
    }
  }

  lemma {:induction false} StrLeTrans(a: string, b: string, c: string)
    requires StrLe(a, b) && StrLe(b, c)
    ensures StrLe(a, c)
    decreases |a|
  {
    if a != [] && b != [] && c != [] && a[0] == b[0] && b[0] == c[0] {
      StrLeTrans(a[1..], b[1..], c[1..]);
    }
  }

  ghost predicate SortedStrings(s: seq<string>) {
    forall i, j :: 0 <= i < j < |s| ==> StrLe(s[i], s[j])
  }

  function Insert(x: string, s: seq<string>): (r: seq<string>)
    ensures multiset(r) == multiset(s) + multiset{x}
  {
    if s == [] then [x]
    else if StrLe(x, s[0]) then [x] + s
    else
      assert s == [s[0]] + s[1..];
      [s[0]] + Insert(x, s[1..])
  }

  /** `sort($strings)` for strings PHP does not read as numbers. */
  function Sort(s: seq<string>): (r: seq<string>)
    ensures multiset(r) == multiset(s)
  {
    if s == [] then []
    else
      assert s == [s[0]] + s[1..];
      Insert(s[0], Sort(s[1..]))
  }

  lemma {:induction false} InsertSorted(x: string, s: seq<string>)
    requires SortedStrings(s)
    ensures SortedStrings(Insert(x, s))
  {
    if s == [] {
    } else if StrLe(x, s[0]) {
      forall j | 0 < j < |s| ensures StrLe(x, s[j]) {
        StrLeTrans(x, s[0], s[j]);
      }
    } else {
      StrLeTotal(x, s[0]);
      InsertSorted(x, s[1..]);
      var t := Insert(x, s[1..]);
      forall k | 0 <= k < |t| ensures StrLe(s[0], t[k]) {
        assert t[k] in multiset(t);
        assert t[k] == x || t[k] in multiset(s[1..]);
        if t[k] != x {
          var m :| 0 <= m < |s[1..]| && s[1..][m] == t[k];
          assert s[m + 1] == t[k];
        }
      }
    }
  }

  /** The result of `sort` is in ascending strcmp order. */
  lemma {:induction false} SortSorted(s: seq<string>)
    ensures SortedStrings(Sort(s))
  {
    if s != [] {
      SortSorted(s[1..]);
      InsertSorted(s[0], Sort(s[1..]));
    }
  }
}
