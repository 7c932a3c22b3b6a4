/**
 SQL `LIKE`: the rolling table that decides it, against what a pattern means.
 */
module Like {

  datatype Token = Any | One | Literal(c: char)

  // ---------- what a pattern means

  /** The tokens of a pattern: a backslash makes the next character literal, and is itself at
      the end. */
  function Tokens(pattern: string): seq<Token> {
    if pattern == [] then []
    else if pattern[0] == '%' then [Any] + Tokens(pattern[1..])
    else if pattern[0] == '_' then [One] + Tokens(pattern[1..])
    else if pattern[0] != '\\' then [Literal(pattern[0])] + Tokens(pattern[1..])
    else if |pattern| == 1 then [Literal('\\')]
    else [Literal(pattern[1])] + Tokens(pattern[2..])
  }

  ghost predicate Fits(segment: string, token: Token) {
    match token
    case Any => true
    case One => |segment| == 1
    case Literal(c) => segment == [c]
  }

  ghost function Join(segments: seq<string>): string {
    if segments == [] then [] else Join(segments[..|segments| - 1]) + segments[|segments| - 1]
  }

  ghost predicate Splits(text: string, segments: seq<string>, tokens: seq<Token>) {
    && |segments| == |tokens|
    && Join(segments) == text
    && forall i :: 0 <= i < |tokens| ==> Fits(segments[i], tokens[i])
  }

  /** The text is a run of segments, one for each token and fitting it. */
  ghost predicate Matches(text: string, tokens: seq<Token>) {
    exists segments: seq<string> :: Splits(text, segments, tokens)
  }

  // ---------- the table's recurrence

  lemma MatchesNothing(text: string)
    ensures Matches(text, []) <==> text == []
  {
    if text == [] {
      assert Splits(text, [], []);
    }
  }

  lemma Extend(text: string, tokens: seq<Token>, segment: string, token: Token)
    requires Matches(text, tokens) && Fits(segment, token)
    ensures Matches(text + segment, tokens + [token])
  {
    var segments :| Splits(text, segments, tokens);
    var longer := segments + [segment];
    assert longer[..|longer| - 1] == segments;
    assert Splits(text + segment, longer, tokens + [token]);
  }

  lemma Shrink(text: string, tokens: seq<Token>) returns (k: nat)
    requires tokens != [] && Matches(text, tokens)
    ensures k <= |text| && Matches(text[..k], tokens[..|tokens| - 1]) && Fits(text[k..], tokens[|tokens| - 1])
  {
    var segments :| Splits(text, segments, tokens);
    var init, last := segments[..|segments| - 1], segments[|segments| - 1];
    k := |Join(init)|;
    assert text[..k] == Join(init) && text[k..] == last;
    assert Splits(text[..k], init, tokens[..|tokens| - 1]);
  }

  lemma MatchesSingle(text: string, tokens: seq<Token>, token: Token)
    requires token != Any
    ensures Matches(text, tokens + [token])
            <==> text != [] && Matches(text[..|text| - 1], tokens) && Fits(text[|text| - 1..], token)
  {
    var all := tokens + [token];
    assert all[..|all| - 1] == tokens;
    if Matches(text, all) {
      var k := Shrink(text, all);
      assert k == |text| - 1;
    }
    if text != [] && Matches(text[..|text| - 1], tokens) && Fits(text[|text| - 1..], token) {
      assert text == text[..|text| - 1] + text[|text| - 1..];
      Extend(text[..|text| - 1], tokens, text[|text| - 1..], token);
    }
  }

  lemma MatchesAny(text: string, tokens: seq<Token>)
    ensures Matches(text, tokens + [Any])
            <==> Matches(text, tokens) || (text != [] && Matches(text[..|text| - 1], tokens + [Any]))
  {
    var all := tokens + [Any];
    assert all[..|all| - 1] == tokens;
    if Matches(text, all) {
      var k := Shrink(text, all);
      if k == |text| {
        assert text[..k] == text;
      } else {
        Extend(text[..k], tokens, text[k..|text| - 1], Any);
        assert text[..k] + text[k..|text| - 1] == text[..|text| - 1];
      }
    }
    if Matches(text, tokens) {
      Extend(text, tokens, [], Any);
      assert text + [] == text;
    }
    if text != [] && Matches(text[..|text| - 1], all) {
      var shorter := text[..|text| - 1];
      var k := Shrink(shorter, all);
      assert shorter[..k] == text[..k];
      Extend(text[..k], tokens, text[k..], Any);
      assert text[..k] + text[k..] == text;
    }
  }

  // ---------- the table

  lemma TokensFrom(pattern: string, i: nat)
    requires i < |pattern|
    ensures Tokens(pattern[i..])
            == if pattern[i] == '%' then [Any] + Tokens(pattern[i + 1..])
               else if pattern[i] == '_' then [One] + Tokens(pattern[i + 1..])
               else if pattern[i] != '\\' then [Literal(pattern[i])] + Tokens(pattern[i + 1..])
               else if i + 1 == |pattern| then [Literal('\\')] + Tokens(pattern[i + 1..])
               else [Literal(pattern[i + 1])] + Tokens(pattern[i + 2..])
  {
    var rest := pattern[i..];
    assert rest[1..] == pattern[i + 1..] && (|rest| > 1 ==> rest[2..] == pattern[i + 2..]);
  }

  method Tokenize(pattern: string) returns (tokens: seq<Token>)
    ensures tokens == Tokens(pattern)
  {
    hide Tokens;
    tokens := [];
    var i := 0;
    assert pattern[0..] == pattern;
    while i < |pattern|
      invariant 0 <= i <= |pattern|
      invariant tokens + Tokens(pattern[i..]) == Tokens(pattern)
    {
      var ch := pattern[i];
      TokensFrom(pattern, i);
      ghost var rest := pattern[i..];
      i := i + 1;
      var token := One;
      if ch == '%' {
        token := Any;
      } else if ch == '\\' {
        token := Literal(if i < |pattern| then pattern[i] else '\\');
        i := if i < |pattern| then i + 1 else i;
      } else if ch != '_' {
        token := Literal(ch);
      }
      assert Tokens(rest) == [token] + Tokens(pattern[i..]);
      assert tokens + ([token] + Tokens(pattern[i..])) == (tokens + [token]) + Tokens(pattern[i..]);
      tokens := tokens + [token];
    }
    NoTokens(pattern[i..]);
  }

  lemma NoTokens(pattern: string)
    requires pattern == []
    ensures Tokens(pattern) == []
  {}

  /** What the table holds once `text` has been read: which prefixes of the pattern it matches. */
  ghost predicate Holds(table: seq<bool>, text: string, tokens: seq<Token>, upTo: nat) {
    && |table| == |tokens| + 1
    && forall j :: 0 <= j <= upTo && j <= |tokens| ==> table[j] == Matches(text, tokens[..j])
  }

  /** The first row: no text yet. */
  method FirstRow(tokens: seq<Token>) returns (matched: array<bool>)
    ensures fresh(matched) && Holds(matched[..], [], tokens, |tokens|)
  {
    matched := new bool[|tokens| + 1](_ => false);
    matched[0] := true;
    MatchesNothing([]);
    assert tokens[..0] == [];
    for j := 0 to |tokens|
      invariant Holds(matched[..], [], tokens, j)
      invariant forall k :: j < k <= |tokens| ==> !matched[k]
    {
      assert tokens[..j + 1] == tokens[..j] + [tokens[j]];
      if tokens[j] == Any {
        matched[j + 1] := matched[j];
        MatchesAny([], tokens[..j]);
      } else {
        MatchesSingle([], tokens[..j], tokens[j]);
      }
    }
  }

  /** The next row: one character more. */
  method NextRow(matched: array<bool>, text: string, ch: char, tokens: seq<Token>) returns (next: array<bool>)
    requires Holds(matched[..], text, tokens, |tokens|)
    ensures fresh(next) && Holds(next[..], text + [ch], tokens, |tokens|)
  {
    next := new bool[|tokens| + 1](_ => false);
    ghost var longer := text + [ch];
    MatchesNothing(longer);
    assert tokens[..0] == [];
    assert longer[..|longer| - 1] == text && longer[|longer| - 1..] == [ch];
    for j := 0 to |tokens|
      invariant Holds(next[..], longer, tokens, j)
      invariant Holds(matched[..], text, tokens, |tokens|)
    {
      assert tokens[..j + 1] == tokens[..j] + [tokens[j]];
      assert matched[..][j] == matched[j] && matched[..][j + 1] == matched[j + 1] && next[..][j] == next[j];
      match tokens[j] {
        case Any =>
          MatchesAny(longer, tokens[..j]);
          next[j + 1] := next[j] || matched[j + 1];
        case One =>
          MatchesSingle(longer, tokens[..j], One);
          next[j + 1] := matched[j];
        case Literal(want) =>
          MatchesSingle(longer, tokens[..j], tokens[j]);
          next[j + 1] := matched[j] && want == ch;
      }
    }
  }

  /** The rolling table decides exactly whether the pattern matches. */
  method LikeMatches(text: string, pattern: string) returns (matches: bool)
    ensures matches <==> Matches(text, Tokens(pattern))
  {
    var tokens := Tokenize(pattern);
    var matched := FirstRow(tokens);
    assert text[..0] == [];
    for i := 0 to |text|
      invariant Holds(matched[..], text[..i], tokens, |tokens|)
    {
      matched := NextRow(matched, text[..i], text[i], tokens);
      assert text[..i + 1] == text[..i] + [text[i]];
    }
    assert text[..|text|] == text && tokens[..|tokens|] == tokens;
    matches := matched[|tokens|];
  }

  // ---------- patterns built from a plain needle

  ghost predicate Plain(needle: string) {
    forall i :: 0 <= i < |needle| ==> needle[i] != '%' && needle[i] != '_' && needle[i] != '\\'
  }

  ghost function Literals(needle: string): seq<Token> {
    if needle == [] then [] else [Literal(needle[0])] + Literals(needle[1..])
  }

  lemma {:induction false} TokensOfPlain(needle: string, rest: string)
    requires Plain(needle)
    ensures Tokens(needle + rest) == Literals(needle) + Tokens(rest)
  {
    if needle == [] {
      assert needle + rest == rest;
    } else {
      assert (needle + rest)[1..] == needle[1..] + rest;
      TokensOfPlain(needle[1..], rest);
    }
  }

  lemma {:induction false} JoinConcat(left: seq<string>, right: seq<string>)
    ensures Join(left + right) == Join(left) + Join(right)
    decreases |right|
  {
    if right == [] {
      assert left + right == left;
    } else {
      var all, init := left + right, right[..|right| - 1];
      assert all[..|all| - 1] == left + init;
      JoinConcat(left, init);
    }
  }

  lemma MatchesBoth(text: string, left: seq<Token>, right: seq<Token>, k: nat)
    requires k <= |text| && Matches(text[..k], left) && Matches(text[k..], right)
    ensures Matches(text, left + right)
  {
    var a :| Splits(text[..k], a, left);
    var b :| Splits(text[k..], b, right);
    JoinConcat(a, b);
    assert text[..k] + text[k..] == text;
    assert Splits(text, a + b, left + right);
  }

  lemma MatchesApart(text: string, left: seq<Token>, right: seq<Token>) returns (k: nat)
    requires Matches(text, left + right)
    ensures k <= |text| && Matches(text[..k], left) && Matches(text[k..], right)
  {
    var segments :| Splits(text, segments, left + right);
    var a, b := segments[..|left|], segments[|left|..];
    assert segments == a + b;
    JoinConcat(a, b);
    k := |Join(a)|;
    assert text[..k] == Join(a) && text[k..] == Join(b);
    assert Splits(text[..k], a, left);
    assert Splits(text[k..], b, right);
  }

  /** A run of tokens matches exactly where the text splits between its two parts. */
  lemma MatchesConcat(text: string, left: seq<Token>, right: seq<Token>)
    ensures Matches(text, left + right)
            <==> exists k :: 0 <= k <= |text| && Matches(text[..k], left) && Matches(text[k..], right)
  {
    if Matches(text, left + right) {
      var k := MatchesApart(text, left, right);
    }
    if k :| 0 <= k <= |text| && Matches(text[..k], left) && Matches(text[k..], right) {
      MatchesBoth(text, left, right, k);
    }
  }

  lemma {:induction false} MatchesLiterals(text: string, needle: string)
    ensures Matches(text, Literals(needle)) <==> text == needle
  {
    if needle == [] {
      MatchesNothing(text);
    } else {
      var first := [Literal(needle[0])];
      MatchesConcat(text, first, Literals(needle[1..]));
      forall k | 0 <= k <= |text| ensures Matches(text[..k], first) <==> text[..k] == [needle[0]] {
        MatchesSingle(text[..k], [], Literal(needle[0]));
        MatchesNothing(text[..k][..if k == 0 then 0 else k - 1]);
        assert [] + first == first;
      }
      forall k | 0 <= k <= |text| ensures Matches(text[k..], Literals(needle[1..])) <==> text[k..] == needle[1..] {
        MatchesLiterals(text[k..], needle[1..]);
      }
      if text == needle {
        assert text[..1] == [needle[0]] && text[1..] == needle[1..];
      }
      if Matches(text, Literals(needle)) {
        var k :| 0 <= k <= |text| && Matches(text[..k], first) && Matches(text[k..], Literals(needle[1..]));
        assert text == text[..k] + text[k..] && needle == [needle[0]] + needle[1..];
      }
    }
  }

  lemma MatchesAnything(text: string)
    ensures Matches(text, [Any])
  {
    MatchesNothing([]);
    Extend([], [], text, Any);
    assert [] + text == text && [] + [Any] == [Any];
  }

  ghost predicate Contains(text: string, needle: string) {
    exists i :: 0 <= i <= |text| - |needle| && text[i..][..|needle|] == needle
  }

  ghost predicate EndsWith(text: string, needle: string) {
    |needle| <= |text| && text[|text| - |needle|..] == needle
  }

  /** `n` matches the text `n`; `n%` what starts with it; `%n` what ends with it; `%n%` what
      contains it. */
  lemma PlainPatterns(text: string, needle: string)
    requires Plain(needle)
    ensures Matches(text, Tokens(needle)) <==> text == needle
    ensures Matches(text, Tokens(needle + "%")) <==> needle <= text
    ensures Matches(text, Tokens("%" + needle)) <==> EndsWith(text, needle)
    ensures Matches(text, Tokens("%" + needle + "%")) <==> Contains(text, needle)
  {
    PlainPattern(text, needle);
    PrefixPattern(text, needle);
    SuffixPattern(text, needle);
    ContainsPattern(text, needle);
  }

  lemma PlainPattern(text: string, needle: string)
    requires Plain(needle)
    ensures Matches(text, Tokens(needle)) <==> text == needle
  {
    TokensOfPlain(needle, []);
    assert needle + [] == needle && Literals(needle) + [] == Literals(needle);
    MatchesLiterals(text, needle);
  }

  lemma PrefixPattern(text: string, needle: string)
    requires Plain(needle)
    ensures Matches(text, Tokens(needle + "%")) <==> needle <= text
  {
    TokensOfPlain(needle, "%");
    assert Tokens("%") == [Any];
    MatchesConcat(text, Literals(needle), [Any]);
    forall k | 0 <= k <= |text| ensures Matches(text[..k], Literals(needle)) <==> text[..k] == needle {
      MatchesLiterals(text[..k], needle);
    }
    if needle <= text {
      assert text[..|needle|] == needle;
      MatchesAnything(text[|needle|..]);
    }
  }

  lemma SuffixPattern(text: string, needle: string)
    requires Plain(needle)
    ensures Matches(text, Tokens("%" + needle)) <==> EndsWith(text, needle)
  {
    TokensOfPlain(needle, []);
    assert needle + [] == needle && Literals(needle) + [] == Literals(needle) && ("%" + needle)[1..] == needle;
    MatchesConcat(text, [Any], Literals(needle));
    forall k | 0 <= k <= |text| ensures Matches(text[k..], Literals(needle)) <==> text[k..] == needle {
      MatchesLiterals(text[k..], needle);
    }
    forall k | 0 <= k <= |text| ensures Matches(text[..k], [Any]) {
      MatchesAnything(text[..k]);
    }
    if EndsWith(text, needle) {
      assert text[|text| - |needle|..] == needle;
    }
  }

  lemma ContainsPattern(text: string, needle: string)
    requires Plain(needle)
    ensures Matches(text, Tokens("%" + needle + "%")) <==> Contains(text, needle)
  {
    var tail := needle + "%";
    assert ("%" + needle + "%")[1..] == tail;
    MatchesConcat(text, [Any], Tokens(tail));
    forall k | 0 <= k <= |text| ensures Matches(text[k..], Tokens(tail)) <==> needle <= text[k..] {
      PrefixPattern(text[k..], needle);
    }
    forall k | 0 <= k <= |text| ensures Matches(text[..k], [Any]) {
      MatchesAnything(text[..k]);
    }
    if Contains(text, needle) {
      var i :| 0 <= i <= |text| - |needle| && text[i..][..|needle|] == needle;
      assert needle <= text[i..];
    }
    if k :| 0 <= k <= |text| && needle <= text[k..] {
      assert text[k..][..|needle|] == needle;
    }
  }
}
