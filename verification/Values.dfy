/**
 Stored values and their total order, on values nested to any depth.

 A float is its place in the total order of floats (which is also its identity), and
 `asFloat` is the rounding of an integer to a float; all the order needs of it is that it is
 monotone. UUIDs are their 128-bit number.
 */
module Values {
  import opened Wrappers
  import opened TextOrder

  datatype Value =
    | Null
    | Bool(b: bool)
    | Int(n: int)
    | Float(place: int)
    | Uuid(id: nat)
    | Text(text: string)
    | Map(fields: map<string, Value>)
    | Array(items: seq<Value>)

  type Record = map<string, Value>

  /** A missing field reads as null. */
  function Get(record: Record, field: string): Value {
    if field in record then record[field] else Null
  }

  ghost predicate Monotone(asFloat: int -> int) {
    forall a, b :: a <= b ==> asFloat(a) <= asFloat(b)
  }

  function Rank(v: Value): nat {
    match v
    case Null => 0
    case Bool(_) => 1
    case Int(_) => 2
    case Float(_) => 2
    case Uuid(_) => 3
    case Text(_) => 4
    case Map(_) => 5
    case Array(_) => 6
  }

  // ---------- the keys of a map, sorted

  ghost predicate Sorted(keys: seq<string>) {
    forall i, j :: 0 <= i < j < |keys| ==> CompareText(keys[i], keys[j]) == Less
  }

  lemma Distinguished(a: string, b: string)
    requires a != b
    ensures CompareText(a, b) == Less || CompareText(b, a) == Less
  {
    CompareTextEqual(a, b);
    CompareTextReverse(a, b);
  }

  ghost predicate IsLeast(keys: set<string>, k: string) {
    k in keys && forall j | j in keys && j != k :: CompareText(k, j) == Less
  }

  lemma LeastKey(keys: set<string>) returns (k: string)
    requires keys != {}
    ensures IsLeast(keys, k)
  {
    hide CompareText;
    var first :| first in keys;
    var rest := keys - {first};
    k := first;
    if rest == {} {
      assert forall j | j in keys :: j == first || j in rest;
    } else {
      var least := LeastKey(rest);
      Distinguished(first, least);
      if CompareText(least, first) == Less {
        k := least;
        RestBeforeFirst(keys, first, least);
      } else {
        FirstBeforeRest(keys, first, least);
      }
    }
  }

  lemma RestBeforeFirst(keys: set<string>, first: string, least: string)
    requires first in keys && IsLeast(keys - {first}, least) && CompareText(least, first) == Less
    ensures IsLeast(keys, least)
  {
    hide CompareText;
    forall j | j in keys && j != least
      ensures CompareText(least, j) == Less
    {
      if j != first {
        assert j in keys - {first};
      }
    }
  }

  lemma FirstBeforeRest(keys: set<string>, first: string, least: string)
    requires first in keys && IsLeast(keys - {first}, least) && CompareText(first, least) == Less
    ensures IsLeast(keys, first)
  {
    hide CompareText;
    forall j | j in keys && j != first
      ensures CompareText(first, j) == Less
    {
      if j != least {
        assert j in keys - {first};
        CompareTextTransitive(first, least, j);
      }
    }
  }

  ghost function SortedKeys(keys: set<string>): (sorted: seq<string>)
    ensures Sorted(sorted)
    ensures forall k :: k in sorted <==> k in keys
  {
    if keys == {} then []
    else
      LeastKeyExists(keys);
      var k :| IsLeast(keys, k);
      [k] + SortedKeys(keys - {k})
  }

  lemma LeastKeyExists(keys: set<string>)
    requires keys != {}
    ensures exists k :: IsLeast(keys, k)
  {
    var k := LeastKey(keys);
  }

  // ---------- the order

  ghost function Compare(asFloat: int -> int, a: Value, b: Value): Ordering
    decreases a, 1, 0
  {
    match (a, b)
    case (Null, Null) => Equal
    case (Bool(x), Bool(y)) => if x == y then Equal else if y then Less else Greater
    case (Int(x), Int(y)) => CompareInt(x, y)
    case (Float(x), Float(y)) => CompareInt(x, y)
    case (Int(x), Float(y)) => CompareInt(asFloat(x), y).Then(Less)
    case (Float(x), Int(y)) => CompareInt(x, asFloat(y)).Then(Greater)
    case (Uuid(x), Uuid(y)) => CompareInt(x, y)
    case (Text(x), Text(y)) => CompareText(x, y)
    case (Array(xs), Array(ys)) => CompareArrays(asFloat, xs, ys)
    case (Map(m), Map(n)) =>
      if |m| != |n| then CompareInt(|m|, |n|)
      else CompareEntries(asFloat, a, b, SortedKeys(m.Keys), SortedKeys(n.Keys))
    case _ => CompareInt(Rank(a), Rank(b))
  }

  ghost function CompareArrays(asFloat: int -> int, xs: seq<Value>, ys: seq<Value>): Ordering {
    if xs == [] then (if ys == [] then Equal else Less)
    else if ys == [] then Greater
    else Compare(asFloat, xs[0], ys[0]).Then(CompareArrays(asFloat, xs[1..], ys[1..]))
  }

  /** The entries of two maps under these keys, each by its key and then its value. */
  ghost function CompareEntries(asFloat: int -> int, a: Value, b: Value, keys: seq<string>, others: seq<string>)
    : Ordering
    requires a.Map? && (forall k | k in keys :: k in a.fields)
    requires b.Map? && (forall k | k in others :: k in b.fields)
    decreases a, 0, |keys|
  {
    if keys == [] then (if others == [] then Equal else Less)
    else if others == [] then Greater
    else CompareText(keys[0], others[0])
         .Then(Compare(asFloat, a.fields[keys[0]], b.fields[others[0]]))
         .Then(CompareEntries(asFloat, a, b, keys[1..], others[1..]))
  }

  // ---------- it is a total order, and equality is being the same value

  lemma {:induction false} CompareEqual(asFloat: int -> int, a: Value, b: Value)
    ensures Compare(asFloat, a, b) == Equal <==> a == b
    decreases a, 1, 0
  {
    hide SortedKeys, CompareEntries, CompareArrays, CompareText;
    match (a, b)
    case (Text(x), Text(y)) => CompareTextEqual(x, y);
    case (Array(xs), Array(ys)) => CompareArraysEqual(asFloat, xs, ys);
    case (Map(m), Map(n)) =>
      CompareEntriesEqual(asFloat, a, b, SortedKeys(m.Keys), SortedKeys(n.Keys));
      SameMaps(m, n);
    case _ =>
  }

  lemma SameMaps(m: map<string, Value>, n: map<string, Value>)
    ensures m == n
            <==> SortedKeys(m.Keys) == SortedKeys(n.Keys)
                 && forall k | k in SortedKeys(m.Keys) :: k in n && m[k] == n[k]
  {
    var keys, others := SortedKeys(m.Keys), SortedKeys(n.Keys);
    hide SortedKeys;
    if keys == others && forall k | k in keys :: k in n && m[k] == n[k] {
      assert forall k :: k in m <==> k in keys;
      assert forall k :: k in n <==> k in others;
      assert m.Keys == n.Keys;
    }
  }

  lemma {:induction false} CompareArraysEqual(asFloat: int -> int, xs: seq<Value>, ys: seq<Value>)
    ensures CompareArrays(asFloat, xs, ys) == Equal <==> xs == ys
    decreases xs
  {
    if xs != [] && ys != [] {
      CompareEqual(asFloat, xs[0], ys[0]);
      CompareArraysEqual(asFloat, xs[1..], ys[1..]);
      assert xs == [xs[0]] + xs[1..] && ys == [ys[0]] + ys[1..];
    }
  }

  lemma {:induction false} CompareEntriesEqual(asFloat: int -> int, a: Value, b: Value, keys: seq<string>,
                                               others: seq<string>)
    requires a.Map? && (forall k | k in keys :: k in a.fields)
    requires b.Map? && (forall k | k in others :: k in b.fields)
    ensures CompareEntries(asFloat, a, b, keys, others) == Equal
            <==> keys == others && forall k | k in keys :: a.fields[k] == b.fields[k]
    decreases a, 0, |keys|
  {
    if keys != [] && others != [] {
      CompareTextEqual(keys[0], others[0]);
      CompareEqual(asFloat, a.fields[keys[0]], b.fields[others[0]]);
      CompareEntriesEqual(asFloat, a, b, keys[1..], others[1..]);
      assert keys == [keys[0]] + keys[1..] && others == [others[0]] + others[1..];
    }
  }

  lemma {:induction false} CompareReverse(asFloat: int -> int, a: Value, b: Value)
    ensures Compare(asFloat, b, a) == Compare(asFloat, a, b).Reverse()
    decreases a, 1, 0
  {
    match (a, b)
    case (Text(x), Text(y)) => CompareTextReverse(x, y);
    case (Array(xs), Array(ys)) => CompareArraysReverse(asFloat, xs, ys);
    case (Map(m), Map(n)) =>
      if |m| == |n| {
        CompareEntriesReverse(asFloat, a, b, SortedKeys(m.Keys), SortedKeys(n.Keys));
      }
    case _ =>
  }

  lemma {:induction false} CompareArraysReverse(asFloat: int -> int, xs: seq<Value>, ys: seq<Value>)
    ensures CompareArrays(asFloat, ys, xs) == CompareArrays(asFloat, xs, ys).Reverse()
    decreases xs
  {
    if xs != [] && ys != [] {
      CompareReverse(asFloat, xs[0], ys[0]);
      CompareArraysReverse(asFloat, xs[1..], ys[1..]);
    }
  }

  lemma {:induction false} CompareEntriesReverse(asFloat: int -> int, a: Value, b: Value, keys: seq<string>,
                                                 others: seq<string>)
    requires a.Map? && (forall k | k in keys :: k in a.fields)
    requires b.Map? && (forall k | k in others :: k in b.fields)
    ensures CompareEntries(asFloat, b, a, others, keys) == CompareEntries(asFloat, a, b, keys, others).Reverse()
    decreases a, 0, |keys|
  {
    if keys != [] && others != [] {
      CompareTextReverse(keys[0], others[0]);
      CompareReverse(asFloat, a.fields[keys[0]], b.fields[others[0]]);
      CompareEntriesReverse(asFloat, a, b, keys[1..], others[1..]);
    }
  }

  lemma {:induction false} CompareTransitive(asFloat: int -> int, a: Value, b: Value, c: Value)
    requires Monotone(asFloat)
    requires Compare(asFloat, a, b) == Less && Compare(asFloat, b, c) == Less
    ensures Compare(asFloat, a, c) == Less
    decreases a, 1, 0
  {
    if Rank(a) == Rank(b) == Rank(c) {
      match a
      case Text(x) => CompareTextTransitive(x, b.text, c.text);
      case Array(xs) => CompareArraysTransitive(asFloat, xs, b.items, c.items);
      case Map(m) =>
        if |m| == |b.fields| == |c.fields| {
          CompareEntriesTransitive(asFloat, a, b, c,
                                   SortedKeys(m.Keys), SortedKeys(b.fields.Keys), SortedKeys(c.fields.Keys));
        }
      case _ =>
    }
  }

  lemma {:induction false} CompareArraysTransitive(asFloat: int -> int, xs: seq<Value>, ys: seq<Value>, zs: seq<Value>)
    requires Monotone(asFloat)
    requires CompareArrays(asFloat, xs, ys) == Less && CompareArrays(asFloat, ys, zs) == Less
    ensures CompareArrays(asFloat, xs, zs) == Less
    decreases xs
  {
    if xs != [] {
      CompareEqual(asFloat, xs[0], ys[0]);
      CompareEqual(asFloat, ys[0], zs[0]);
      if xs[0] == ys[0] && ys[0] == zs[0] {
        CompareEqual(asFloat, xs[0], zs[0]);
        CompareArraysTransitive(asFloat, xs[1..], ys[1..], zs[1..]);
      } else if xs[0] != ys[0] && ys[0] != zs[0] {
        CompareTransitive(asFloat, xs[0], ys[0], zs[0]);
      }
    }
  }

  lemma {:induction false} CompareEntriesTransitive(asFloat: int -> int, a: Value, b: Value, c: Value,
                                                    ka: seq<string>, kb: seq<string>, kc: seq<string>)
    requires Monotone(asFloat)
    requires a.Map? && (forall k | k in ka :: k in a.fields)
    requires b.Map? && (forall k | k in kb :: k in b.fields)
    requires c.Map? && (forall k | k in kc :: k in c.fields)
    requires CompareEntries(asFloat, a, b, ka, kb) == Less && CompareEntries(asFloat, b, c, kb, kc) == Less
    ensures CompareEntries(asFloat, a, c, ka, kc) == Less
    decreases a, 0, |ka|
  {
    if ka != [] {
      var x, y, z := a.fields[ka[0]], b.fields[kb[0]], c.fields[kc[0]];
      CompareTextEqual(ka[0], kb[0]);
      CompareTextEqual(kb[0], kc[0]);
      if ka[0] != kb[0] && kb[0] != kc[0] {
        CompareTextTransitive(ka[0], kb[0], kc[0]);
      } else if ka[0] == kb[0] == kc[0] {
        CompareTextEqual(ka[0], kc[0]);
        CompareEqual(asFloat, x, y);
        CompareEqual(asFloat, y, z);
        if x == y == z {
          CompareEqual(asFloat, x, z);
          CompareEntriesTransitive(asFloat, a, b, c, ka[1..], kb[1..], kc[1..]);
        } else if x != y && y != z {
          CompareTransitive(asFloat, x, y, z);
        }
      }
    }
  }

  /** The order of values is a total order whose equality is being the same value: any two
      compare one way, oppositely the other way around, and the order is transitive. */
  lemma ValueOrderIsTotal(asFloat: int -> int, a: Value, b: Value, c: Value)
    requires Monotone(asFloat)
    ensures Compare(asFloat, a, b) == Equal <==> a == b
    ensures Compare(asFloat, b, a) == Compare(asFloat, a, b).Reverse()
    ensures Compare(asFloat, a, b) != Greater && Compare(asFloat, b, c) != Greater ==> Compare(asFloat, a, c) != Greater
  {
    CompareEqual(asFloat, a, b);
    CompareEqual(asFloat, b, c);
    CompareReverse(asFloat, a, b);
    if Compare(asFloat, a, b) == Less && Compare(asFloat, b, c) == Less {
      CompareTransitive(asFloat, a, b, c);
    }
  }

  /** Rounding integers to floats must be monotone for that: where it is not, two integers and
      a float compare in a circle. */
  lemma RoundingMustBeMonotone(asFloat: int -> int, a: int, b: int)
    requires a < b && asFloat(a) > asFloat(b)
    ensures Compare(asFloat, Int(a), Int(b)) == Less
    ensures Compare(asFloat, Int(b), Float(asFloat(b))) == Less
    ensures Compare(asFloat, Float(asFloat(b)), Int(a)) == Less
  {}

  // ---------- which values come first

  /** The kinds in order: null, truth, numbers, UUIDs, text, maps, arrays. Any value of one comes before
      any of the next. */
  lemma KindsInOrder(asFloat: int -> int, b: bool, n: int, place: int, id: nat, text: string, m: map<string, Value>,
                     items: seq<Value>)
    ensures Compare(asFloat, Null, Bool(b)) == Less
    ensures Compare(asFloat, Bool(b), Int(n)) == Less && Compare(asFloat, Bool(b), Float(place)) == Less
    ensures Compare(asFloat, Int(n), Uuid(id)) == Less && Compare(asFloat, Float(place), Uuid(id)) == Less
    ensures Compare(asFloat, Uuid(id), Text(text)) == Less
    ensures Compare(asFloat, Text(text), Map(m)) == Less
    ensures Compare(asFloat, Map(m), Array(items)) == Less
  {}

  /** Within a kind: false before true, integers and UUIDs as numbers, floats by place, an integer before
      a float exactly where it rounds to no greater a float, and a smaller map before a larger. */
  lemma WithinAKind(asFloat: int -> int, x: int, y: int, a: nat, b: nat, m: map<string, Value>, n: map<string, Value>)
    ensures Compare(asFloat, Bool(false), Bool(true)) == Less
    ensures Compare(asFloat, Int(x), Int(y)) == Less <==> x < y
    ensures Compare(asFloat, Float(x), Float(y)) == Less <==> x < y
    ensures Compare(asFloat, Uuid(a), Uuid(b)) == Less <==> a < b
    ensures Compare(asFloat, Int(x), Float(y)) == Less <==> asFloat(x) <= y
    ensures Compare(asFloat, Float(y), Int(x)) == Less <==> y < asFloat(x)
    ensures |m| < |n| ==> Compare(asFloat, Map(m), Map(n)) == Less
  {}

  /** An array before one that continues it, and before one with a greater value where they first
      differ. */
  lemma {:induction false} ArraysByTheFirstDifference(asFloat: int -> int, front: seq<Value>, x: Value, y: Value,
                                                      a: seq<Value>, b: seq<Value>)
    ensures Compare(asFloat, Array(front), Array(front + [y] + b)) == Less
    ensures Compare(asFloat, x, y) == Less ==>
              Compare(asFloat, Array(front + [x] + a), Array(front + [y] + b)) == Less
  {
    hide Compare;
    ArraysDiffer(asFloat, front, x, y, a, b);
    ArrayOrder(asFloat, front, front + [y] + b);
    ArrayOrder(asFloat, front + [x] + a, front + [y] + b);
  }

  lemma ArrayOrder(asFloat: int -> int, xs: seq<Value>, ys: seq<Value>)
    ensures Compare(asFloat, Array(xs), Array(ys)) == CompareArrays(asFloat, xs, ys)
  {}

  lemma {:induction false} ArraysDiffer(asFloat: int -> int, front: seq<Value>, x: Value, y: Value, a: seq<Value>,
                                        b: seq<Value>)
    ensures CompareArrays(asFloat, front, front + [y] + b) == Less
    ensures Compare(asFloat, x, y) == Less ==>
              CompareArrays(asFloat, front + [x] + a, front + [y] + b) == Less
  {
    hide Compare;
    var shorter, longer := front + [x] + a, front + [y] + b;
    if front == [] {
      assert shorter[0] == x && longer[0] == y;
    } else {
      ArraysDiffer(asFloat, front[1..], x, y, a, b);
      CompareEqual(asFloat, front[0], front[0]);
      assert shorter[0] == front[0] && shorter[1..] == front[1..] + [x] + a;
      assert longer[0] == front[0] && longer[1..] == front[1..] + [y] + b;
    }
  }
}
