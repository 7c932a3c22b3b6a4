/**
 The edit distance behind "did you mean" hints, and the choice of the closest known name.

 Characters are Unicode scalar values; lower-casing is a parameter.
 */
module EditDistance {
  import opened Wrappers

  function Min(a: nat, b: nat): nat {
    if a <= b then a else b
  }

  function Max(a: nat, b: nat): nat {
    if a >= b then a else b
  }

  function Front(s: string): string
    requires s != []
  {
    s[..|s| - 1]
  }

  function Last(s: string): char
    requires s != []
  {
    s[|s| - 1]
  }

  function Cost(x: char, y: char): nat {
    if x == y then 0 else 1
  }

  /** The recurrence of the table. */
  function Distance(a: string, b: string): nat
    decreases |a| + |b|
  {
    if a == [] then |b|
    else if b == [] then |a|
    else Min(Min(Distance(Front(a), b) + 1, Distance(a, Front(b)) + 1),
             Distance(Front(a), Front(b)) + Cost(Last(a), Last(b)))
  }

  // ---------- the table

  lemma {:induction false} DistanceNext(a: string, b: string, i: nat, j: nat)
    requires 0 < i <= |a| && 0 < j <= |b|
    ensures Distance(a[..i], b[..j])
            == Min(Min(Distance(a[..i - 1], b[..j]) + 1, Distance(a[..i], b[..j - 1]) + 1),
                   Distance(a[..i - 1], b[..j - 1]) + Cost(a[i - 1], b[j - 1]))
  {
    hide Distance;
    var x, y := a[..i], b[..j];
    assert Front(x) == a[..i - 1] && Front(y) == b[..j - 1];
    DistanceStep(x, y);
  }

  lemma {:induction false} DistanceStep(a: string, b: string)
    requires a != [] && b != []
    ensures Distance(a, b)
            == Min(Min(Distance(Front(a), b) + 1, Distance(a, Front(b)) + 1),
                   Distance(Front(a), Front(b)) + Cost(Last(a), Last(b)))
  {}

  method Levenshtein(a: string, b: string) returns (distance: nat)
    ensures distance == Distance(a, b)
  {
    hide Distance;
    var m, n := |a|, |b|;
    var table := new nat[m + 1, n + 1]((_, _) => 0);
    for i := 0 to m + 1
      invariant forall k | 0 <= k < i :: table[k, 0] == Distance(a[..k], b[..0])
    {
      DistanceToNothing(a[..i], b[..0]);
      table[i, 0] := i;
    }
    for j := 0 to n + 1
      invariant forall k | 0 <= k <= m :: table[k, 0] == Distance(a[..k], b[..0])
      invariant forall l | 0 <= l < j :: table[0, l] == Distance(a[..0], b[..l])
    {
      DistanceToNothing(a[..0], b[..j]);
      table[0, j] := j;
    }
    for i := 1 to m + 1
      invariant forall k, l | 0 <= k < i && 0 <= l <= n :: table[k, l] == Distance(a[..k], b[..l])
      invariant forall k | 0 <= k <= m :: table[k, 0] == Distance(a[..k], b[..0])
    {
      for j := 1 to n + 1
        invariant forall k, l | 0 <= k < i && 0 <= l <= n :: table[k, l] == Distance(a[..k], b[..l])
        invariant forall k | 0 <= k <= m :: table[k, 0] == Distance(a[..k], b[..0])
        invariant forall l | 0 <= l < j :: table[i, l] == Distance(a[..i], b[..l])
      {
        DistanceNext(a, b, i, j);
        var cost := if a[i - 1] == b[j - 1] then 0 else 1;
        table[i, j] := Min(Min(table[i - 1, j] + 1, table[i, j - 1] + 1), table[i - 1, j - 1] + cost);
      }
    }
    distance := table[m, n];
    assert a[..m] == a && b[..n] == b;
  }

  lemma DistanceToNothing(a: string, b: string)
    requires a == [] || b == []
    ensures Distance(a, b) == |a| + |b|
  {}

  // ---------- a metric

  lemma {:induction false} ZeroOnlyBetweenEquals(a: string, b: string)
    ensures Distance(a, b) == 0 <==> a == b
    decreases |a|
  {
    if a != [] && b != [] {
      ZeroOnlyBetweenEquals(Front(a), Front(b));
      assert a == Front(a) + [Last(a)] && b == Front(b) + [Last(b)];
    }
  }

  lemma {:induction false} Symmetric(a: string, b: string)
    ensures Distance(a, b) == Distance(b, a)
    decreases |a| + |b|
  {
    if a != [] && b != [] {
      Symmetric(Front(a), b);
      Symmetric(a, Front(b));
      Symmetric(Front(a), Front(b));
    }
  }

  /** Lengths differ by no more than the distance, which is no more than their sum. */
  lemma {:induction false} LengthBounds(a: string, b: string)
    ensures |a| <= |b| + Distance(a, b) && |b| <= |a| + Distance(a, b)
    ensures Distance(a, b) <= |a| + |b|
    decreases |a| + |b|
  {
    if a != [] && b != [] {
      LengthBounds(Front(a), b);
      LengthBounds(a, Front(b));
      LengthBounds(Front(a), Front(b));
    }
  }

  /** Every choice of a last edit is an upper bound. */
  lemma {:induction false} LastEdit(a: string, b: string)
    ensures a != [] ==> Distance(a, b) <= Distance(Front(a), b) + 1
    ensures b != [] ==> Distance(a, b) <= Distance(a, Front(b)) + 1
    ensures a != [] && b != [] ==> Distance(a, b) <= Distance(Front(a), Front(b)) + Cost(Last(a), Last(b))
  {}

  /** One of those choices reaches it. */
  lemma {:induction false} BestLastEdit(a: string, b: string)
    requires a != [] && b != []
    ensures || Distance(a, b) == Distance(Front(a), b) + 1
            || Distance(a, b) == Distance(a, Front(b)) + 1
            || Distance(a, b) == Distance(Front(a), Front(b)) + Cost(Last(a), Last(b))
  {}

  lemma {:induction false} Triangle(a: string, b: string, c: string)
    ensures Distance(a, c) <= Distance(a, b) + Distance(b, c)
    decreases |a| + |b| + |c|
  {
    if a == [] || b == [] || c == [] {
      LengthBounds(a, b);
      LengthBounds(b, c);
      LengthBounds(a, c);
    } else {
      TriangleStep(a, b, c);
    }
  }

  lemma {:induction false} TriangleStep(a: string, b: string, c: string)
    requires a != [] && b != [] && c != []
    ensures Distance(a, c) <= Distance(a, b) + Distance(b, c)
    decreases |a| + |b| + |c|, 0
  {
    hide Distance;
    LastEdit(a, c);
    BestLastEdit(a, b);
    BestLastEdit(b, c);
    if Distance(a, b) == Distance(Front(a), b) + 1 {
      Triangle(Front(a), b, c);
    } else if Distance(b, c) == Distance(b, Front(c)) + 1 {
      Triangle(a, b, Front(c));
    } else if Distance(a, b) == Distance(a, Front(b)) + 1 {
      Triangle(a, Front(b), c);
      Triangle(a, Front(b), Front(c));
    } else {
      Triangle(Front(a), Front(b), c);
      Triangle(Front(a), Front(b), Front(c));
    }
  }

  // ---------- the least number of single-character edits

  datatype Edit = Insert(at: nat, letter: char) | Delete(at: nat) | Replace(at: nat, letter: char)

  predicate Fits(edit: Edit, s: string) {
    if edit.Insert? then edit.at <= |s| else edit.at < |s|
  }

  function Edited(edit: Edit, s: string): string
    requires Fits(edit, s)
  {
    match edit
    case Insert(at, c) => s[..at] + [c] + s[at..]
    case Delete(at) => s[..at] + s[at + 1..]
    case Replace(at, c) => s[..at] + [c] + s[at + 1..]
  }

  /** The edits, first to last, turn `a` into `b`. */
  predicate Turns(a: string, edits: seq<Edit>, b: string)
    decreases |edits|
  {
    if edits == [] then a == b
    else Fits(edits[0], a) && Turns(Edited(edits[0], a), edits[1..], b)
  }

  lemma SameLast(a: string, b: string, x: char)
    ensures Distance(a + [x], b + [x]) <= Distance(a, b)
  {
    assert Front(a + [x]) == a && Front(b + [x]) == b;
    LastEdit(a + [x], b + [x]);
  }

  lemma FrontAndLast(s: string, end: string)
    requires end != []
    ensures s + end == s + Front(end) + [Last(end)]
  {
    assert end == Front(end) + [Last(end)];
  }

  lemma {:induction false} SameEnd(a: string, b: string, end: string)
    ensures Distance(a + end, b + end) <= Distance(a, b)
    decreases |end|
  {
    hide Distance;
    if end == [] {
      assert a + end == a && b + end == b;
    } else {
      SameEnd(a, b, Front(end));
      SameLast(a + Front(end), b + Front(end), Last(end));
      FrontAndLast(a, end);
      FrontAndLast(b, end);
    }
  }

  lemma OneMore(s: string, c: char)
    ensures Distance(s, s + [c]) <= 1 && Distance(s + [c], s) <= 1
  {
    assert Front(s + [c]) == s;
    ZeroOnlyBetweenEquals(s, s);
    LastEdit(s, s + [c]);
    LastEdit(s + [c], s);
  }

  lemma OneOther(s: string, c: char, d: char)
    ensures Distance(s + [c], s + [d]) <= 1
  {
    assert Front(s + [c]) == s && Front(s + [d]) == s;
    ZeroOnlyBetweenEquals(s, s);
    LastEdit(s + [c], s + [d]);
  }

  lemma OneEdit(edit: Edit, s: string)
    requires Fits(edit, s)
    ensures Distance(s, Edited(edit, s)) <= 1
  {
    hide Distance;
    var start := s[..edit.at];
    match edit
    case Insert(at, c) =>
      OneMore(start, c);
      SameEnd(start, start + [c], s[at..]);
      assert s == start + s[at..];
    case Delete(at) =>
      OneMore(start, s[at]);
      SameEnd(start + [s[at]], start, s[at + 1..]);
      assert s == start + [s[at]] + s[at + 1..];
    case Replace(at, c) =>
      OneOther(start, s[at], c);
      SameEnd(start + [s[at]], start + [c], s[at + 1..]);
      assert s == start + [s[at]] + s[at + 1..];
  }

  lemma {:induction false} NoShorterEdits(a: string, edits: seq<Edit>, b: string)
    requires Turns(a, edits, b)
    ensures Distance(a, b) <= |edits|
    decreases |edits|
  {
    hide Distance;
    if edits == [] {
      ZeroOnlyBetweenEquals(a, b);
    } else {
      var next := Edited(edits[0], a);
      OneEdit(edits[0], a);
      NoShorterEdits(next, edits[1..], b);
      Triangle(a, next, b);
    }
  }

  lemma EditedBefore(s: string, edit: Edit, x: char)
    requires Fits(edit, s)
    ensures Fits(edit, s + [x]) && Edited(edit, s + [x]) == Edited(edit, s) + [x]
  {
    assert Edited(edit, s + [x]) == Edited(edit, s) + [x];
  }

  /** Edits of a text leave what follows it alone. */
  lemma {:induction false} EditsBefore(a: string, edits: seq<Edit>, b: string, x: char)
    requires Turns(a, edits, b)
    ensures Turns(a + [x], edits, b + [x])
    decreases |edits|
  {
    if edits != [] {
      EditedBefore(a, edits[0], x);
      EditsBefore(Edited(edits[0], a), edits[1..], b, x);
    }
  }

  lemma {:induction false} ThenEdit(a: string, edits: seq<Edit>, b: string, edit: Edit)
    requires Turns(a, edits, b) && Fits(edit, b)
    ensures Turns(a, edits + [edit], Edited(edit, b))
    decreases |edits|
  {
    if edits == [] {
      assert (edits + [edit])[1..] == [];
    } else {
      assert (edits + [edit])[1..] == edits[1..] + [edit];
      ThenEdit(Edited(edits[0], a), edits[1..], b, edit);
    }
  }

  lemma {:induction false} ShortestEdits(a: string, b: string) returns (edits: seq<Edit>)
    ensures Turns(a, edits, b) && |edits| == Distance(a, b)
    decreases |a| + |b|
  {
    if a == [] && b == [] {
      edits := [];
    } else if a == [] {
      DistanceToNothing(a, b);
      DistanceToNothing(a, Front(b));
      edits := EndingInInsert(a, b);
    } else if b == [] {
      DistanceToNothing(a, b);
      DistanceToNothing(Front(a), b);
      edits := EndingInDelete(a, b);
    } else {
      BestLastEdit(a, b);
      if Distance(a, b) == Distance(Front(a), b) + 1 {
        edits := EndingInDelete(a, b);
      } else if Distance(a, b) == Distance(a, Front(b)) + 1 {
        edits := EndingInInsert(a, b);
      } else {
        edits := EndingInReplace(a, b);
      }
    }
  }

  lemma {:induction false} EndingInInsert(a: string, b: string) returns (edits: seq<Edit>)
    requires b != []
    ensures Turns(a, edits, b) && |edits| == Distance(a, Front(b)) + 1
    decreases |a| + |b|, 0
  {
    hide Distance, Turns;
    var before := ShortestEdits(a, Front(b));
    var insert := Insert(|b| - 1, Last(b));
    ThenEdit(a, before, Front(b), insert);
    edits := before + [insert];
    assert Edited(insert, Front(b)) == b;
  }

  lemma {:induction false} EndingInDelete(a: string, b: string) returns (edits: seq<Edit>)
    requires a != []
    ensures Turns(a, edits, b) && |edits| == Distance(Front(a), b) + 1
    decreases |a| + |b|, 0
  {
    hide Distance, Turns;
    var before := ShortestEdits(Front(a), b);
    EditsBefore(Front(a), before, b, Last(a));
    assert a == Front(a) + [Last(a)];
    var delete := Delete(|b|);
    ThenEdit(a, before, b + [Last(a)], delete);
    edits := before + [delete];
    assert Edited(delete, b + [Last(a)]) == b;
  }

  lemma {:induction false} EndingInReplace(a: string, b: string) returns (edits: seq<Edit>)
    requires a != [] && b != []
    ensures Turns(a, edits, b) && |edits| == Distance(Front(a), Front(b)) + Cost(Last(a), Last(b))
    decreases |a| + |b|, 0
  {
    hide Distance, Turns;
    var before := ShortestEdits(Front(a), Front(b));
    EditsBefore(Front(a), before, Front(b), Last(a));
    assert a == Front(a) + [Last(a)] && b == Front(b) + [Last(b)];
    if Last(a) == Last(b) {
      edits := before;
    } else {
      var replace := Replace(|b| - 1, Last(b));
      ThenEdit(a, before, Front(b) + [Last(a)], replace);
      edits := before + [replace];
      assert Edited(replace, Front(b) + [Last(a)]) == b;
    }
  }

  /** The distance is the least number of single-character edits between two texts. */
  lemma DistanceIsTheLeastNumberOfEdits(a: string, b: string)
    ensures exists edits :: Turns(a, edits, b) && |edits| == Distance(a, b)
    ensures forall edits | Turns(a, edits, b) :: Distance(a, b) <= |edits|
  {
    hide Distance, Turns;
    var shortest := ShortestEdits(a, b);
    forall edits | Turns(a, edits, b)
      ensures Distance(a, b) <= |edits|
    {
      NoShorterEdits(a, edits, b);
    }
  }

  // ---------- the closest name

  /** The bytes of a text in UTF-8. */
  function ByteLength(s: string): nat {
    if s == [] then 0
    else (if s[0] < '\U{80}' then 1 else if s[0] < '\U{800}' then 2 else if s[0] < '\U{10000}' then 3 else 4)
         + ByteLength(s[1..])
  }

  /** How far a candidate may be: half the longer text, in bytes, but at least two. */
  function Allowed(input: string, candidate: string): nat {
    Max(Max(ByteLength(input), ByteLength(candidate)) / 2, 2)
  }

  function Apart(lower: string -> string, input: string, candidate: string): nat {
    Distance(lower(input), lower(candidate))
  }

  predicate Near(lower: string -> string, input: string, candidate: string) {
    Apart(lower, input, candidate) <= Allowed(input, candidate)
  }

  /** Candidate `k` is near, none of the near ones is nearer, and none as near comes earlier. */
  predicate Closest(lower: string -> string, input: string, candidates: seq<string>, k: nat) {
    && k < |candidates|
    && Near(lower, input, candidates[k])
    && forall j | 0 <= j < |candidates| && Near(lower, input, candidates[j]) ::
         Apart(lower, input, candidates[k]) <= Apart(lower, input, candidates[j])
         && (j < k ==> Apart(lower, input, candidates[k]) < Apart(lower, input, candidates[j]))
  }

  /** How many characters are at `from` or beyond. */
  function From(s: string, from: char): nat {
    if s == [] then 0 else (if s[0] >= from then 1 else 0) + From(s[1..], from)
  }

  /** A text has a byte for each character, and one more for each that is beyond ASCII, beyond 0x7FF, and
      beyond the basic plane. */
  lemma {:induction false} BytesPerCharacter(s: string)
    ensures ByteLength(s) == |s| + From(s, '\U{80}') + From(s, '\U{800}') + From(s, '\U{10000}')
  {
    if s != [] {
      BytesPerCharacter(s[1..]);
    }
  }

  /** The allowance is two, or the half of a longer text's bytes if that is more. */
  lemma AllowanceGrowsWithTheLonger(input: string, candidate: string)
    ensures var allowed, a, b := Allowed(input, candidate), ByteLength(input) / 2, ByteLength(candidate) / 2;
            && allowed >= 2 && allowed >= a && allowed >= b
            && (allowed == 2 || allowed == a || allowed == b)
  {}

  method FindClosestMatch(lower: string -> string, input: string, candidates: seq<string>)
    returns (best: Option<string>)
    ensures best.None? <==> forall j | 0 <= j < |candidates| :: !Near(lower, input, candidates[j])
    ensures best.Some? ==> exists k: nat :: Closest(lower, input, candidates, k) && candidates[k] == best.value
  {
    hide Distance, ByteLength;
    var found: Option<(string, nat)> := None;
    ghost var at := 0;
    for i := 0 to |candidates|
      invariant found.None? <==> forall j | 0 <= j < i :: !Near(lower, input, candidates[j])
      invariant found.Some? ==> Closest(lower, input, candidates[..i], at)
      invariant found.Some? ==> found.value == (candidates[at], Apart(lower, input, candidates[at]))
    {
      var candidate := candidates[i];
      var distance := Levenshtein(lower(input), lower(candidate));
      var allowed := Max(Max(ByteLength(input), ByteLength(candidate)) / 2, 2);
      if distance <= allowed {
        if found.None? || distance < found.value.1 {
          found, at := Some((candidate, distance)), i;
        }
      }
    }
    assert candidates[..|candidates|] == candidates;
    best := if found.None? then None else Some(found.value.0);
  }

  /** A candidate that differs in case alone is found, and then only another such candidate can be. */
  lemma CaseAloneIsAlwaysNear(lower: string -> string, input: string, candidates: seq<string>, i: nat, k: nat)
    requires i < |candidates| && lower(candidates[i]) == lower(input)
    ensures Near(lower, input, candidates[i])
    ensures Closest(lower, input, candidates, k) ==> lower(candidates[k]) == lower(input) && k <= i
  {
    ZeroOnlyBetweenEquals(lower(input), lower(candidates[i]));
    if Closest(lower, input, candidates, k) {
      ZeroOnlyBetweenEquals(lower(input), lower(candidates[k]));
    }
  }
}
