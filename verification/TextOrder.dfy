/** The order of text: character by character, a prefix first. */
module TextOrder {
  import opened Wrappers

  function CompareChar(a: char, b: char): Ordering {
    if a < b then Less else if a == b then Equal else Greater
  }

  function CompareText(a: string, b: string): Ordering {
    if a == [] then (if b == [] then Equal else Less)
    else if b == [] then Greater
    else CompareChar(a[0], b[0]).Then(CompareText(a[1..], b[1..]))
  }

  lemma {:induction false} CompareTextEqual(a: string, b: string)
    ensures CompareText(a, b) == Equal <==> a == b
  {
    if a != [] && b != [] {
      CompareTextEqual(a[1..], b[1..]);
      assert a == [a[0]] + a[1..] && b == [b[0]] + b[1..];
    }
  }

  lemma {:induction false} CompareTextReverse(a: string, b: string)
    ensures CompareText(b, a) == CompareText(a, b).Reverse()
  {
    if a != [] && b != [] {
      CompareTextReverse(a[1..], b[1..]);
    }
  }

  lemma {:induction false} CompareTextTransitive(a: string, b: string, c: string)
    requires CompareText(a, b) == Less && CompareText(b, c) == Less
    ensures CompareText(a, c) == Less
  {
    if a != [] && b != [] && c != [] {
      if a[0] == b[0] == c[0] {
        CompareTextTransitive(a[1..], b[1..], c[1..]);
      }
    }
  }

  /** Text of a fixed width compares part by part. */
  lemma {:induction false} CompareConcat(a: string, b: string, x: string, y: string)
    requires |a| == |b|
    ensures CompareText(a + x, b + y) == CompareText(a, b).Then(CompareText(x, y))
  {
    if a == [] {
      assert a + x == x && b + y == y;
    } else {
      CompareConcat(a[1..], b[1..], x, y);
      assert (a + x)[1..] == a[1..] + x && (b + y)[1..] == b[1..] + y;
    }
  }
}
