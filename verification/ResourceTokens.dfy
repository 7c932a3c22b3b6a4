/**
 The token-level parser and printer that `resource!` transformers share: a resource split into
 sections of raw tokens and printed back, and an `actions` section split into actions.

 What the Rust grammar decides is a parameter: which identifiers are keywords, which attribute
 contents are meta items, and how many trees a type takes.
 */
module ResourceTokens {
  import opened Wrappers

  datatype Delimiter = Parenthesis | Bracket | Brace

  datatype Tree =
    | Ident(name: string)
    | Punct(mark: char)
    | Literal(text: string)
    | Group(delimiter: Delimiter, inner: Tokens)

  type Tokens = seq<Tree>

  datatype Grammar = Grammar(keyword: string -> bool, meta: Tokens -> bool, typeLength: Tokens -> Option<nat>)

  datatype Error =
    | ExpectedIdent | ExpectedTree | ExpectedAttribute | ExpectedType
    | ExpectedBody(name: string) | AppearsTwice(name: string) | NotAResource | Trailing

  type Attribute = Tokens

  datatype Section = Section(name: string, tokens: Tokens, braced: bool)

  datatype Resource = Resource(
    callAttributes: seq<Attribute>, attributes: seq<Attribute>, embedded: bool, name: string, sections: seq<Section>)

  // ---------- peeking

  const SEMICOLON := Punct(';')

  predicate StartsWith(ts: Tokens, mark: char) {
    ts != [] && ts[0] == Punct(mark)
  }

  predicate StartsGroup(ts: Tokens, delimiter: Delimiter) {
    ts != [] && ts[0].Group? && ts[0].delimiter == delimiter
  }

  predicate StartsIdent(g: Grammar, ts: Tokens) {
    ts != [] && ts[0].Ident? && !g.keyword(ts[0].name)
  }

  // ---------- attributes

  function ParseAttributes(g: Grammar, ts: Tokens): (r: Result<(seq<Attribute>, Tokens), Error>)
    ensures r.Ok? ==> |r.value.1| <= |ts|
  {
    if !StartsWith(ts, '#') then Ok(([], ts))
    else if StartsGroup(ts[1..], Bracket) && g.meta(ts[1].inner) then
      match ParseAttributes(g, ts[2..])
      case Ok((more, rest)) => Ok(([ts[1].inner] + more, rest))
      case Err(e) => Err(e)
    else Err(ExpectedAttribute)
  }

  function PrintAttributes(attributes: seq<Attribute>): Tokens {
    if attributes == [] then []
    else [Punct('#'), Group(Bracket, attributes[0])] + PrintAttributes(attributes[1..])
  }

  // ---------- sections on one line

  const SECTION_NAMES := [
    "table", "attributes", "relationships", "calculations", "aggregates", "actions", "policies",
    "field_policies", "extensions", "notifiers", "extend", "optimistic_lock", "identities", "indexes",
    "checks", "statements", "embedded", "data_layer", "store", "timestamps", "multitenancy", "actor",
    "archive", "authentication", "state_machine"]

  predicate StartsSection(g: Grammar, ts: Tokens) {
    StartsIdent(g, ts) && ts[0].name in SECTION_NAMES
  }

  function ExtendLength(ts: Tokens): (n: nat)
    ensures n <= |ts|
  {
    if ts == [] || StartsWith(ts, ';') then 0
    else if StartsGroup(ts, Brace) then 1
    else 1 + ExtendLength(ts[1..])
  }

  function UnknownLength(g: Grammar, ts: Tokens, afterColon: bool): (n: nat)
    ensures n <= |ts|
  {
    if ts == [] || StartsWith(ts, ';') || (StartsSection(g, ts) && !afterColon) then 0
    else 1 + UnknownLength(g, ts[1..], StartsWith(ts, ':'))
  }

  function ColonLength(ts: Tokens): nat {
    if StartsWith(ts, ':') then 1 else 0
  }

  datatype LineForm = Bare | MaybeList | Path | OneTree | OneType | UpToNext

  /** The grammar each section name has on one line. */
  function FormOf(name: string): LineForm {
    if name == "embedded" then Bare
    else if name in ["extensions", "notifiers", "timestamps"] then MaybeList
    else if name == "extend" then Path
    else if name in ["table", "optimistic_lock", "data_layer"] then OneTree
    else if name == "store" then OneType
    else UpToNext
  }

  /** How many of the trees after a section's name are its own. */
  function LineLength(g: Grammar, form: LineForm, ts: Tokens): Result<nat, Error> {
    match form
    case Bare => Ok(0)
    case MaybeList => Ok(if StartsGroup(ts, Bracket) then 1 else 0)
    case Path => Ok(ExtendLength(ts))
    case OneTree => if ColonLength(ts) < |ts| then Ok(ColonLength(ts) + 1) else Err(ExpectedTree)
    case OneType =>
      var c := ColonLength(ts);
      var n := g.typeLength(ts[c..]);
      if n.Some? && c + n.value <= |ts| then Ok(c + n.value) else Err(ExpectedType)
    case UpToNext => Ok(UnknownLength(g, ts, false))
  }

  lemma LineFits(g: Grammar, form: LineForm, ts: Tokens)
    ensures LineLength(g, form, ts).Ok? ==> LineLength(g, form, ts).value <= |ts|
  {}

  // ---------- sections

  predicate Repeatable(name: string) {
    name == "extensions" || name == "notifiers"
  }

  predicate Repeats(sections: seq<Section>, name: string) {
    !Repeatable(name) && exists i | 0 <= i < |sections| :: sections[i].braced && sections[i].name == name
  }

  function SkipSemicolon(ts: Tokens): (rest: Tokens)
    ensures |rest| <= |ts|
  {
    if StartsWith(ts, ';') then ts[1..] else ts
  }

  /** The first section, and the trees after it. */
  function ParseSection(g: Grammar, ts: Tokens, before: seq<Section>): (r: Result<(Section, Tokens), Error>)
    ensures r.Ok? ==> |r.value.1| < |ts|
  {
    if !StartsIdent(g, ts) then Err(ExpectedIdent)
    else
      var name, after := ts[0].name, ts[1..];
      if StartsGroup(after, Brace) then
        if Repeats(before, name) then Err(AppearsTwice(name))
        else Ok((Section(name, after[0].inner, true), SkipSemicolon(after[1..])))
      else
        LineFits(g, FormOf(name), after);
        match LineLength(g, FormOf(name), after)
        case Err(e) => Err(e)
        case Ok(n) => Ok((Section(name, after[..n], false), SkipSemicolon(after[n..])))
  }

  function ParseSections(g: Grammar, ts: Tokens, before: seq<Section>): Result<seq<Section>, Error>
    decreases |ts|
  {
    if ts == [] then Ok(before)
    else
      match ParseSection(g, ts, before)
      case Err(e) => Err(e)
      case Ok((section, rest)) => ParseSections(g, rest, before + [section])
  }

  function PrintSection(s: Section): Tokens {
    [Ident(s.name)] + if s.braced then [Group(Brace, s.tokens)] else s.tokens + [SEMICOLON]
  }

  function PrintSections(sections: seq<Section>): Tokens {
    if sections == [] then [] else PrintSection(sections[0]) + PrintSections(sections[1..])
  }

  // ---------- resources

  /** The inside of a `resource!` call. */
  function ParseResource(g: Grammar, ts: Tokens): Result<Resource, Error> {
    match ParseAttributes(g, ts)
    case Err(e) => Err(e)
    case Ok((attributes, rest)) =>
      var embedded := StartsIdent(g, rest) && rest[0].name == "embedded";
      var named := if embedded then rest[1..] else rest;
      if !StartsIdent(g, named) then Err(ExpectedIdent)
      else if !StartsGroup(named[1..], Brace) then Err(ExpectedBody(named[0].name))
      else
        match ParseSections(g, named[1].inner, [])
        case Err(e) => Err(e)
        case Ok(sections) =>
          if named[2..] != [] then Err(Trailing) else Ok(Resource([], attributes, embedded, named[0].name, sections))
  }

  function PrintResource(r: Resource): Tokens {
    PrintAttributes(r.attributes) + (if r.embedded then [Ident("embedded")] else [])
    + [Ident(r.name), Group(Brace, PrintSections(r.sections))]
  }

  // ---------- the item an attribute macro receives

  predicate StartsPathSeparator(ts: Tokens) {
    |ts| >= 2 && ts[0] == Punct(':') && ts[1] == Punct(':')
  }

  /** The last segment of a path, and the trees after the path. */
  function LastSegment(ts: Tokens): Option<(string, Tokens)> {
    if ts == [] || !ts[0].Ident? then None
    else if StartsPathSeparator(ts[1..]) then LastSegment(ts[3..])
    else Some((ts[0].name, ts[1..]))
  }

  /** The tokens of a macro call that is the whole rest of the item. */
  function CallTokens(ts: Tokens): Option<Tokens> {
    if !StartsWith(ts, '!') then None
    else
      var after := if |ts| > 1 && ts[1].Ident? then ts[2..] else ts[1..];
      if after == [] || !after[0].Group? then None
      else if after[0].delimiter == Brace then (if |after| == 1 then Some(after[0].inner) else None)
      else if after[1..] == [SEMICOLON] then Some(after[0].inner) else None
  }

  datatype ItemMacro = ItemMacro(attributes: seq<Attribute>, segment: string, tokens: Tokens)

  function ParseItemMacro(g: Grammar, ts: Tokens): Option<ItemMacro> {
    match ParseAttributes(g, ts)
    case Err(_) => None
    case Ok((attributes, rest)) =>
      match LastSegment(if StartsPathSeparator(rest) then rest[2..] else rest)
      case None => None
      case Some((segment, call)) =>
        match CallTokens(call)
        case None => None
        case Some(tokens) => Some(ItemMacro(attributes, segment, tokens))
  }

  predicate IsDoc(attribute: Attribute) {
    attribute != [] && attribute[0] == Ident("doc") && !StartsPathSeparator(attribute[1..])
  }

  function Docs(attributes: seq<Attribute>): (docs: seq<Attribute>)
    ensures forall a | a in docs :: a in attributes
  {
    if attributes == [] then [] else (if IsDoc(attributes[0]) then [attributes[0]] else []) + Docs(attributes[1..])
  }

  function NotDocs(attributes: seq<Attribute>): (others: seq<Attribute>)
    ensures forall a | a in others :: a in attributes && !IsDoc(a)
  {
    if attributes == [] then [] else (if IsDoc(attributes[0]) then [] else [attributes[0]]) + NotDocs(attributes[1..])
  }

  /** `resource! { ... }`, its doc comments moved to the struct, or the bare resource. */
  function FromItem(g: Grammar, ts: Tokens): Result<Resource, Error> {
    match ParseItemMacro(g, ts)
    case None => ParseResource(g, ts)
    case Some(call) =>
      if call.segment != "resource" then Err(NotAResource)
      else
        match ParseResource(g, call.tokens)
        case Err(e) => Err(e)
        case Ok(r) => Ok(r.(attributes := Docs(call.attributes) + r.attributes,
                            callAttributes := NotDocs(call.attributes)))
  }

  const CALL := [Punct(':'), Punct(':'), Ident("ash_core"), Punct(':'), Punct(':'), Ident("resource"), Punct('!')]

  function ToResourceMacro(r: Resource): Tokens {
    PrintAttributes(r.callAttributes) + CALL + [Group(Brace, PrintResource(r))]
  }

  // ---------- what a parsed resource is like

  /** A type's own trees are the type again when a semicolon follows them. */
  ghost predicate TypesStopAtSemicolons(g: Grammar) {
    forall ts, rest :: g.typeLength(ts).Some? && g.typeLength(ts).value <= |ts| ==>
                         g.typeLength(ts[..g.typeLength(ts).value] + [SEMICOLON] + rest) == g.typeLength(ts)
  }

  predicate AllMeta(g: Grammar, attributes: seq<Attribute>) {
    forall a | a in attributes :: g.meta(a)
  }

  /** Its trees are the section's again when a semicolon and anything follow. */
  ghost predicate WellFormedLine(g: Grammar, s: Section) {
    && !StartsGroup(s.tokens, Brace)
    && forall rest :: LineLength(g, FormOf(s.name), s.tokens + [SEMICOLON] + rest) == Ok(|s.tokens|)
  }

  ghost predicate WellFormedSection(g: Grammar, s: Section, before: seq<Section>) {
    && !g.keyword(s.name)
    && if s.braced then !Repeats(before, s.name) else WellFormedLine(g, s)
  }

  ghost predicate WellFormedSections(g: Grammar, sections: seq<Section>, before: seq<Section>)
    decreases |sections|
  {
    sections == []
    || (WellFormedSection(g, sections[0], before) && WellFormedSections(g, sections[1..], before + [sections[0]]))
  }

  ghost predicate WellFormed(g: Grammar, r: Resource) {
    && AllMeta(g, r.callAttributes)
    && AllMeta(g, r.attributes)
    && (forall a | a in r.callAttributes :: !IsDoc(a))
    && !g.keyword(r.name)
    && (r.embedded ==> !g.keyword("embedded"))
    && (!r.embedded ==> r.name != "embedded")
    && WellFormedSections(g, r.sections, [])
  }

  // ---------- parsing loses nothing

  /** A section as it was written, with a semicolon after it or without. */
  function Source(s: Section, semicolon: bool): Tokens {
    [Ident(s.name)] + (if s.braced then [Group(Brace, s.tokens)] else s.tokens) + if semicolon then [SEMICOLON] else []
  }

  function Sources(sections: seq<Section>, semicolons: seq<bool>): Tokens
    requires |sections| == |semicolons|
  {
    if sections == [] then []
    else Source(sections[0], semicolons[0]) + Sources(sections[1..], semicolons[1..])
  }

  lemma SemicolonSkipped(ts: Tokens)
    ensures ts == (if StartsWith(ts, ';') then [SEMICOLON] else []) + SkipSemicolon(ts)
  {}

  lemma SectionAsWritten(g: Grammar, ts: Tokens, before: seq<Section>) returns (semicolon: bool)
    requires ParseSection(g, ts, before).Ok?
    ensures ts == Source(ParseSection(g, ts, before).value.0, semicolon) + ParseSection(g, ts, before).value.1
  {
    hide LineLength, FormOf, Repeats, SkipSemicolon, StartsWith;
    var name, after := ts[0].name, ts[1..];
    assert ts == [Ident(name)] + after;
    if StartsGroup(after, Brace) {
      semicolon := StartsWith(after[1..], ';');
      assert after == [Group(Brace, after[0].inner)] + after[1..];
      SemicolonSkipped(after[1..]);
    } else {
      LineFits(g, FormOf(name), after);
      var n := LineLength(g, FormOf(name), after).value;
      semicolon := StartsWith(after[n..], ';');
      assert after == after[..n] + after[n..];
      SemicolonSkipped(after[n..]);
    }
  }

  /** The sections a parse gives are the trees it was given, in order, none left out: each is its name and its
      trees, but for the semicolons between them. */
  lemma {:induction false} ParsingLosesNothing(g: Grammar, ts: Tokens, before: seq<Section>)
    returns (added: seq<Section>, semicolons: seq<bool>)
    requires ParseSections(g, ts, before).Ok?
    ensures |added| == |semicolons| && ts == Sources(added, semicolons)
    ensures ParseSections(g, ts, before).value == before + added
    decreases |ts|
  {
    hide ParseSection, Source;
    if ts == [] {
      added, semicolons := [], [];
    } else {
      var (section, rest) := ParseSection(g, ts, before).value;
      var semicolon := SectionAsWritten(g, ts, before);
      var more, others := ParsingLosesNothing(g, rest, before + [section]);
      added, semicolons := [section] + more, [semicolon] + others;
      assert added[1..] == more && semicolons[1..] == others;
      assert before + [section] + more == before + added;
    }
  }

  lemma {:induction false} AttributesAsWritten(g: Grammar, ts: Tokens)
    requires ParseAttributes(g, ts).Ok?
    ensures ts == PrintAttributes(ParseAttributes(g, ts).value.0) + ParseAttributes(g, ts).value.1
    decreases |ts|
  {
    if StartsWith(ts, '#') {
      AttributesAsWritten(g, ts[2..]);
      assert ts == [Punct('#'), Group(Bracket, ts[1].inner)] + ts[2..];
    }
  }

  /** Nor does a resource: it is its attributes, its name, with `embedded` before it or not, and one brace
      group around its sections, with nothing before, between or after. */
  lemma ParsedResourceIsItsInput(g: Grammar, ts: Tokens) returns (semicolons: seq<bool>)
    requires ParseResource(g, ts).Ok?
    ensures var r := ParseResource(g, ts).value;
            && |r.sections| == |semicolons|
            && ts == PrintAttributes(r.attributes) + (if r.embedded then [Ident("embedded")] else [])
                     + [Ident(r.name), Group(Brace, Sources(r.sections, semicolons))]
            && r.callAttributes == []
  {
    hide ParseSections, ParseAttributes, PrintAttributes, Sources;
    AttributesAsWritten(g, ts);
    var (attributes, rest) := ParseAttributes(g, ts).value;
    var embedded := StartsIdent(g, rest) && rest[0].name == "embedded";
    var named := if embedded then rest[1..] else rest;
    var added, marks := ParsingLosesNothing(g, named[1].inner, []);
    semicolons := marks;
    assert [] + added == added;
    assert named == [named[0], named[1]] + named[2..];
    assert embedded ==> rest == [Ident("embedded")] + named;
  }

  /** A macro call that is the whole rest of an item: `!`, a name or none, and the group, which a semicolon
      follows exactly if it is not in braces. */
  lemma CallsAreWhole(ts: Tokens, tokens: Tokens)
    ensures CallTokens(ts) == Some(tokens)
            <==> exists name: Tokens, delimiter ::
                   && (name == [] || (|name| == 1 && name[0].Ident?))
                   && ts == [Punct('!')] + name + [Group(delimiter, tokens)]
                            + if delimiter == Brace then [] else [SEMICOLON]
  {
    if CallTokens(ts) == Some(tokens) {
      var name := if |ts| > 1 && ts[1].Ident? then [ts[1]] else [];
      var after := if |ts| > 1 && ts[1].Ident? then ts[2..] else ts[1..];
      assert ts == [ts[0]] + name + after && after == [after[0]] + after[1..];
      assert ts == [Punct('!')] + name + [Group(after[0].delimiter, tokens)]
                   + if after[0].delimiter == Brace then [] else [SEMICOLON];
    }
  }

  /** A doc comment on the item: `doc`, not the start of a path. */
  predicate IsDocComment(attribute: Attribute) {
    |attribute| >= 1 && attribute[0] == Ident("doc")
    && !(|attribute| >= 3 && attribute[1] == Punct(':') && attribute[2] == Punct(':'))
  }

  /** Of a macro item's own attributes the doc comments come to stand before the resource's, and the others
      stay on the call, each in the order they were in. */
  lemma DocCommentsMoveToTheStruct(g: Grammar, ts: Tokens)
    requires FromItem(g, ts).Ok? && ParseItemMacro(g, ts).Some?
    ensures ParseResource(g, ParseItemMacro(g, ts).value.tokens).Ok?
    ensures var own, r := ParseItemMacro(g, ts).value.attributes, FromItem(g, ts).value;
            var inner := ParseResource(g, ParseItemMacro(g, ts).value.tokens).value;
            && (exists docs :: r.attributes == docs + inner.attributes
                               && Shuffles(own, docs, r.callAttributes)
                               && (forall a | a in docs :: IsDocComment(a)))
            && (forall a | a in r.callAttributes :: !IsDocComment(a))
            && r.name == inner.name && r.embedded == inner.embedded && r.sections == inner.sections
  {
    hide ParseItemMacro, ParseResource;
    var own := ParseItemMacro(g, ts).value.attributes;
    DocsAndOthers(own);
    assert Shuffles(own, Docs(own), NotDocs(own));
  }

  /** `all` is `a` and `b`, each in order. */
  predicate Shuffles(all: seq<Attribute>, a: seq<Attribute>, b: seq<Attribute>) {
    if all == [] then a == [] && b == []
    else
      || (a != [] && a[0] == all[0] && Shuffles(all[1..], a[1..], b))
      || (b != [] && b[0] == all[0] && Shuffles(all[1..], a, b[1..]))
  }

  lemma {:induction false} DocsAndOthers(attributes: seq<Attribute>)
    ensures Shuffles(attributes, Docs(attributes), NotDocs(attributes))
    ensures forall a | a in Docs(attributes) :: IsDocComment(a)
    ensures forall a | a in NotDocs(attributes) :: !IsDocComment(a)
  {
    if attributes != [] {
      DocsAndOthers(attributes[1..]);
      var docs, others := Docs(attributes), NotDocs(attributes);
      if IsDoc(attributes[0]) {
        assert docs[1..] == Docs(attributes[1..]) && others == NotDocs(attributes[1..]);
      } else {
        assert others[1..] == NotDocs(attributes[1..]) && docs == Docs(attributes[1..]);
      }
    }
  }

  /** No two braced sections of a resource have the same name, `extensions` and `notifiers` apart. */
  lemma {:induction false} NoSectionTwice(g: Grammar, ts: Tokens, before: seq<Section>, i: nat, j: nat)
    requires ParseSections(g, ts, before).Ok?
    requires forall a, b | 0 <= a < b < |before| ::
               before[a].braced && before[b].braced && before[a].name == before[b].name ==>
                 before[a].name in ["extensions", "notifiers"]
    requires var all := ParseSections(g, ts, before).value;
             i < j < |all| && all[i].braced && all[j].braced && all[i].name == all[j].name
    ensures ParseSections(g, ts, before).value[i].name in ["extensions", "notifiers"]
    decreases |ts|
  {
    hide LineLength, FormOf;
    if ts != [] {
      var (section, rest) := ParseSection(g, ts, before).value;
      NoSectionTwice(g, rest, before + [section], i, j);
    }
  }

  /** `extend` ends with its first brace group, or before a semicolon, or at the end. */
  lemma {:induction false} ExtendEnds(ts: Tokens)
    ensures var n := ExtendLength(ts);
            && (forall j | 0 <= j < n :: ts[j] != SEMICOLON)
            && (forall j | 0 <= j < n && ts[j].Group? && ts[j].delimiter == Brace :: j == n - 1)
            && (n == |ts| || ts[n] == SEMICOLON || (n > 0 && ts[n - 1].Group? && ts[n - 1].delimiter == Brace))
  {
    if !(ts == [] || StartsWith(ts, ';') || StartsGroup(ts, Brace)) {
      var rest := ts[1..];
      ExtendEnds(rest);
      assert forall j | 0 < j < |ts| :: ts[j] == rest[j - 1];
    }
  }

  /** The name of a section that is not after a colon. */
  predicate OpensASection(g: Grammar, ts: Tokens, j: nat, afterColon: bool)
    requires j < |ts|
  {
    && ts[j].Ident? && !g.keyword(ts[j].name) && ts[j].name in SECTION_NAMES
    && !(if j == 0 then afterColon else ts[j - 1] == Punct(':'))
  }

  /** An unknown section ends before the first semicolon or section that opens, or at the end. */
  lemma {:induction false} UnknownEnds(g: Grammar, ts: Tokens, afterColon: bool)
    ensures var n := UnknownLength(g, ts, afterColon);
            && (forall j | 0 <= j < n :: ts[j] != SEMICOLON && !OpensASection(g, ts, j, afterColon))
            && (n == |ts| || ts[n] == SEMICOLON || OpensASection(g, ts, n, afterColon))
    decreases |ts|
  {
    if !(ts == [] || StartsWith(ts, ';') || (StartsSection(g, ts) && !afterColon)) {
      var rest, colon := ts[1..], StartsWith(ts, ':');
      UnknownEnds(g, rest, colon);
      assert forall j | 0 < j < |ts| :: ts[j] == rest[j - 1];
      assert forall j: nat | 0 < j < |ts| ::
          OpensASection(g, ts, j, afterColon) <==> OpensASection(g, rest, j - 1, colon);
    }
  }

  /** A name that has a form of its own on one line ends an unknown section before it. */
  lemma NamesWithAFormEndUnknownSections(g: Grammar, name: string, ts: Tokens)
    requires FormOf(name) != UpToNext && !g.keyword(name) && ts != [] && ts[0] == Ident(name)
    ensures UnknownLength(g, ts, false) == 0
  {
    NamesWithAForm(name);
  }

  lemma NamesWithAForm(name: string)
    requires FormOf(name) != UpToNext
    ensures name in SECTION_NAMES
  {
    assert SECTION_NAMES[0] == "table" && SECTION_NAMES[8] == "extensions" && SECTION_NAMES[9] == "notifiers";
    assert SECTION_NAMES[10] == "extend" && SECTION_NAMES[11] == "optimistic_lock" && SECTION_NAMES[16] == "embedded";
    assert SECTION_NAMES[17] == "data_layer" && SECTION_NAMES[18] == "store" && SECTION_NAMES[19] == "timestamps";
  }

  // ---------- parsing gives well-formed resources

  lemma {:induction false} ParsedAttributes(g: Grammar, ts: Tokens)
    ensures ParseAttributes(g, ts).Ok? ==>
              AllMeta(g, ParseAttributes(g, ts).value.0) && !StartsWith(ParseAttributes(g, ts).value.1, '#')
    decreases |ts|
  {
    if StartsWith(ts, '#') && StartsGroup(ts[1..], Bracket) && g.meta(ts[1].inner) {
      ParsedAttributes(g, ts[2..]);
    }
  }

  lemma {:induction false} ExtendAgain(ts: Tokens, rest: Tokens)
    ensures ExtendLength(ts[..ExtendLength(ts)] + [SEMICOLON] + rest) == ExtendLength(ts)
    decreases |ts|
  {
    var n := ExtendLength(ts);
    var again := ts[..n] + [SEMICOLON] + rest;
    if n > 0 {
      assert again[0] == ts[0];
      if !StartsGroup(ts, Brace) {
        ExtendAgain(ts[1..], rest);
        assert again[1..] == ts[1..][..n - 1] + [SEMICOLON] + rest;
      }
    } else {
      assert again[0] == SEMICOLON;
    }
  }

  lemma {:induction false} UnknownAgain(g: Grammar, ts: Tokens, afterColon: bool, rest: Tokens)
    ensures UnknownLength(g, ts[..UnknownLength(g, ts, afterColon)] + [SEMICOLON] + rest, afterColon)
            == UnknownLength(g, ts, afterColon)
    decreases |ts|
  {
    hide StartsSection;
    var n := UnknownLength(g, ts, afterColon);
    var again := ts[..n] + [SEMICOLON] + rest;
    if n > 0 {
      SameStart(g, ts, again);
      UnknownAgain(g, ts[1..], StartsWith(ts, ':'), rest);
      assert again[1..] == ts[1..][..n - 1] + [SEMICOLON] + rest;
    } else {
      assert again[0] == SEMICOLON;
    }
  }

  lemma SameStart(g: Grammar, a: Tokens, b: Tokens)
    requires a != [] && b != [] && a[0] == b[0]
    ensures StartsSection(g, a) == StartsSection(g, b)
    ensures forall mark :: StartsWith(a, mark) == StartsWith(b, mark)
  {}

  lemma TypeAgain(g: Grammar, ts: Tokens, rest: Tokens)
    requires TypesStopAtSemicolons(g) && LineLength(g, OneType, ts).Ok?
    ensures var n := LineLength(g, OneType, ts).value;
            n <= |ts| && LineLength(g, OneType, ts[..n] + [SEMICOLON] + rest) == Ok(n)
  {
    var c, n := ColonLength(ts), LineLength(g, OneType, ts).value;
    var again := ts[..n] + [SEMICOLON] + rest;
    var own := ts[c..][..n - c];
    assert own + [SEMICOLON] + rest == again[c..];
    if n > 0 {
      assert again[0] == ts[0];
    }
    assert ColonLength(again) == c;
    assert g.typeLength(again[c..]) == g.typeLength(ts[c..]);
  }

  /** A line's own trees are its own again, printed with a semicolon after them. */
  lemma LineAgain(g: Grammar, form: LineForm, ts: Tokens, rest: Tokens)
    requires TypesStopAtSemicolons(g) && LineLength(g, form, ts).Ok?
    ensures LineLength(g, form, ts).value <= |ts|
    ensures LineLength(g, form, ts[..LineLength(g, form, ts).value] + [SEMICOLON] + rest) == LineLength(g, form, ts)
  {
    LineFits(g, form, ts);
    var n := LineLength(g, form, ts).value;
    var again := ts[..n] + [SEMICOLON] + rest;
    match form
    case Bare =>
    case MaybeList =>
      assert again[0] == if n == 1 then ts[0] else SEMICOLON;
    case Path => ExtendAgain(ts, rest);
    case OneTree =>
      assert again[0] == ts[0];
    case OneType => TypeAgain(g, ts, rest);
    case UpToNext => UnknownAgain(g, ts, false, rest);
  }

  lemma ParsedSection(g: Grammar, ts: Tokens, before: seq<Section>)
    requires TypesStopAtSemicolons(g)
    ensures ParseSection(g, ts, before).Ok? ==> WellFormedSection(g, ParseSection(g, ts, before).value.0, before)
  {
    hide LineLength, FormOf, Repeats;
    var r := ParseSection(g, ts, before);
    if r.Ok? && !r.value.0.braced {
      var name, after := ts[0].name, ts[1..];
      var form := FormOf(name);
      LineFits(g, form, after);
      var n := LineLength(g, form, after).value;
      forall rest
        ensures LineLength(g, form, after[..n] + [SEMICOLON] + rest) == Ok(n)
      {
        LineAgain(g, form, after, rest);
      }
      assert n > 0 ==> after[..n][0] == after[0];
    }
  }

  /** The sections a parse adds, well formed after those before them. */
  lemma {:induction false} ParsedSections(g: Grammar, ts: Tokens, before: seq<Section>) returns (added: seq<Section>)
    requires TypesStopAtSemicolons(g) && ParseSections(g, ts, before).Ok?
    ensures ParseSections(g, ts, before).value == before + added
    ensures WellFormedSections(g, added, before)
    decreases |ts|
  {
    hide ParseSection, WellFormedSection;
    if ts == [] {
      added := [];
    } else {
      ParsedSection(g, ts, before);
      var (section, rest) := ParseSection(g, ts, before).value;
      var more := ParsedSections(g, rest, before + [section]);
      added := [section] + more;
      assert added[1..] == more;
      assert before + [section] + more == before + added;
    }
  }

  lemma ParsedResource(g: Grammar, ts: Tokens)
    requires TypesStopAtSemicolons(g)
    ensures ParseResource(g, ts).Ok? ==> WellFormed(g, ParseResource(g, ts).value)
  {
    hide ParseSections, WellFormedSections, ParseAttributes;
    ParsedAttributes(g, ts);
    if ParseResource(g, ts).Ok? {
      var rest := ParseAttributes(g, ts).value.1;
      var embedded := StartsIdent(g, rest) && rest[0].name == "embedded";
      var named := if embedded then rest[1..] else rest;
      var added := ParsedSections(g, named[1].inner, []);
      assert [] + added == added;
    }
  }

  lemma ParsedItem(g: Grammar, ts: Tokens)
    requires TypesStopAtSemicolons(g)
    ensures FromItem(g, ts).Ok? ==> WellFormed(g, FromItem(g, ts).value)
  {
    hide ParseResource, WellFormedSections, ParseAttributes, LastSegment, CallTokens;
    ParsedAttributes(g, ts);
    ParsedResource(g, ts);
    if ParseItemMacro(g, ts).Some? {
      ParsedResource(g, ParseItemMacro(g, ts).value.tokens);
    }
  }

  // ---------- printing a well-formed resource parses back

  lemma {:induction false} AttributesAgain(g: Grammar, attributes: seq<Attribute>, rest: Tokens)
    requires AllMeta(g, attributes) && !StartsWith(rest, '#')
    ensures ParseAttributes(g, PrintAttributes(attributes) + rest) == Ok((attributes, rest))
    decreases |attributes|
  {
    if attributes == [] {
      assert PrintAttributes(attributes) + rest == rest;
    } else {
      AttributesAgain(g, attributes[1..], rest);
      var ts := PrintAttributes(attributes) + rest;
      assert ts[0] == Punct('#') && ts[1] == Group(Bracket, attributes[0]);
      assert ts[2..] == PrintAttributes(attributes[1..]) + rest;
      assert g.meta(attributes[0]);
      assert [attributes[0]] + attributes[1..] == attributes;
    }
  }

  lemma BracedAgain(g: Grammar, s: Section, before: seq<Section>, rest: Tokens)
    requires s.braced && WellFormedSection(g, s, before) && !StartsWith(rest, ';')
    ensures ParseSection(g, PrintSection(s) + rest, before) == Ok((s, rest))
  {
    hide Repeats;
    var ts := PrintSection(s) + rest;
    assert ts[0] == Ident(s.name) && ts[1] == Group(Brace, s.tokens);
    assert ts[1..][0] == ts[1] && ts[1..][1..] == rest;
  }

  lemma OneLineAgain(g: Grammar, s: Section, before: seq<Section>, rest: Tokens)
    requires !s.braced && WellFormedSection(g, s, before)
    ensures ParseSection(g, PrintSection(s) + rest, before) == Ok((s, rest))
  {
    hide LineLength, FormOf, Repeats;
    var ts := PrintSection(s) + rest;
    var after := s.tokens + [SEMICOLON] + rest;
    assert ts[0] == Ident(s.name) && ts[1..] == after;
    assert after[0] == if s.tokens == [] then SEMICOLON else s.tokens[0];
    assert after[..|s.tokens|] == s.tokens;
    var ended := after[|s.tokens|..];
    assert ended[0] == SEMICOLON && ended[1..] == rest;
    LineFits(g, FormOf(s.name), after);
    assert LineLength(g, FormOf(s.name), after) == Ok(|s.tokens|);
  }

  lemma SectionsStart(sections: seq<Section>)
    ensures PrintSections(sections) == [] || PrintSections(sections)[0].Ident?
    ensures !StartsWith(PrintSections(sections), ';')
    ensures sections != [] ==> PrintSections(sections) != []
  {}

  lemma {:induction false} SectionsAgain(g: Grammar, sections: seq<Section>, before: seq<Section>)
    requires WellFormedSections(g, sections, before)
    ensures ParseSections(g, PrintSections(sections), before) == Ok(before + sections)
    decreases |sections|
  {
    hide ParseSection, WellFormedSection, PrintSection;
    if sections == [] {
      assert before + sections == before;
    } else {
      var s, more := sections[0], sections[1..];
      SectionsStart(sections);
      SectionsStart(more);
      if s.braced {
        BracedAgain(g, s, before, PrintSections(more));
      } else {
        OneLineAgain(g, s, before, PrintSections(more));
      }
      SectionsAgain(g, more, before + [s]);
      assert before + [s] + more == before + sections;
    }
  }

  lemma ResourceAgain(g: Grammar, r: Resource)
    requires WellFormed(g, r)
    ensures ParseResource(g, PrintResource(r)) == Ok(r.(callAttributes := []))
  {
    hide ParseAttributes, PrintAttributes, ParseSections, PrintSections, WellFormedSections;
    var named := [Ident(r.name), Group(Brace, PrintSections(r.sections))];
    var rest := (if r.embedded then [Ident("embedded")] else []) + named;
    AttributesAgain(g, r.attributes, rest);
    assert PrintAttributes(r.attributes) + rest == PrintResource(r);
    assert if r.embedded then rest[1..] == named else rest == named;
    SectionsAgain(g, r.sections, []);
    assert [] + r.sections == r.sections;
    assert named[2..] == [];
    assert StartsGroup(named[1..], Brace);
  }

  lemma CallAgain(g: Grammar, r: Resource)
    requires WellFormed(g, r)
    ensures ParseItemMacro(g, ToResourceMacro(r)) == Some(ItemMacro(r.callAttributes, "resource", PrintResource(r)))
  {
    hide PrintResource, ParseAttributes, PrintAttributes, WellFormedSections;
    var group := [Group(Brace, PrintResource(r))];
    var rest := CALL + group;
    AttributesAgain(g, r.callAttributes, rest);
    assert PrintAttributes(r.callAttributes) + rest == ToResourceMacro(r);
    var path := rest[2..];
    var last := path[3..];
    assert path[0] == Ident("ash_core") && StartsPathSeparator(path[1..]);
    assert last[0] == Ident("resource") && last[1..] == [Punct('!')] + group;
    assert LastSegment(last) == Some(("resource", last[1..]));
    assert LastSegment(path) == LastSegment(last);
    assert last[1..][1..] == group;
  }

  lemma {:induction false} NoDocsAmong(attributes: seq<Attribute>)
    requires forall a | a in attributes :: !IsDoc(a)
    ensures Docs(attributes) == [] && NotDocs(attributes) == attributes
  {
    if attributes != [] {
      assert attributes[0] in attributes;
      NoDocsAmong(attributes[1..]);
    }
  }

  /** The printed form of any parsed resource parses back to the same attributes, flag, name and
      sections. */
  lemma PrintedResourceParsesBack(g: Grammar, ts: Tokens)
    requires TypesStopAtSemicolons(g) && FromItem(g, ts).Ok?
    ensures FromItem(g, ToResourceMacro(FromItem(g, ts).value)) == FromItem(g, ts)
  {
    hide ParseItemMacro, ParseResource, PrintResource, ToResourceMacro;
    var r := FromItem(g, ts).value;
    hide FromItem;
    ParsedItem(g, ts);
    FromPrinted(g, r);
  }

  lemma FromPrinted(g: Grammar, r: Resource)
    requires WellFormed(g, r)
    ensures FromItem(g, ToResourceMacro(r)) == Ok(r)
  {
    hide ParseItemMacro, ParseResource, PrintResource, ToResourceMacro;
    CallAgain(g, r);
    ResourceAgain(g, r);
    NoDocsAmong(r.callAttributes);
    assert [] + r.attributes == r.attributes;
  }

  /** Exactly the well-formed resources survive printing, edited ones too. */
  lemma SurvivesPrintingWhenWellFormed(g: Grammar, r: Resource)
    requires TypesStopAtSemicolons(g)
    ensures FromItem(g, ToResourceMacro(r)) == Ok(r) <==> WellFormed(g, r)
  {
    hide FromItem, ToResourceMacro, WellFormed;
    ParsedItem(g, ToResourceMacro(r));
    if WellFormed(g, r) {
      FromPrinted(g, r);
    }
  }

  // ---------- actions

  datatype Action = Action(attributes: seq<Attribute>, kind: string, name: string, returns_: Option<Tokens>,
                           body: Tokens)

  /** A return type goes up to the action's body or its end. */
  function ReturnLength(ts: Tokens): (n: nat)
    ensures n <= |ts|
  {
    if ts == [] || StartsGroup(ts, Brace) || StartsWith(ts, ';') then 0 else 1 + ReturnLength(ts[1..])
  }

  function ParseReturns(ts: Tokens): (r: (Option<Tokens>, Tokens))
    ensures |r.1| <= |ts|
  {
    if !StartsWith(ts, ',') then (None, ts)
    else
      var n := ReturnLength(ts[1..]);
      (Some(ts[1..][..n]), ts[1..][n..])
  }

  function ParseBody(ts: Tokens): (r: (Tokens, Tokens))
    ensures |r.1| <= |ts|
  {
    if StartsGroup(ts, Brace) then (ts[0].inner, ts[1..]) else ([], ts)
  }

  function ParseAction(g: Grammar, ts: Tokens): (r: Result<(Action, Tokens), Error>)
    ensures r.Ok? ==> |r.value.1| < |ts|
  {
    match ParseAttributes(g, ts)
    case Err(e) => Err(e)
    case Ok((attributes, rest)) =>
      if !StartsIdent(g, rest) || !StartsIdent(g, rest[1..]) then Err(ExpectedIdent)
      else
        var (returned, after) := ParseReturns(rest[2..]);
        var (body, more) := ParseBody(after);
        Ok((Action(attributes, rest[0].name, rest[1].name, returned, body), more))
  }

  function SkipSeparators(ts: Tokens): (rest: Tokens)
    ensures |rest| <= |ts|
  {
    if StartsWith(ts, ',') || StartsWith(ts, ';') then SkipSeparators(ts[1..]) else ts
  }

  function ParseActions(g: Grammar, ts: Tokens, before: seq<Action>): Result<seq<Action>, Error>
    decreases |ts|
  {
    var rest := SkipSeparators(ts);
    if rest == [] then Ok(before)
    else
      match ParseAction(g, rest)
      case Err(e) => Err(e)
      case Ok((action, more)) => ParseActions(g, more, before + [action])
  }

  function RenderAction(a: Action): Tokens {
    PrintAttributes(a.attributes) + [Ident(a.kind), Ident(a.name)]
    + (if a.returns_.Some? then [Punct(',')] + a.returns_.value else []) + [Group(Brace, a.body)]
  }

  function RenderActions(actions: seq<Action>): Tokens {
    if actions == [] then [] else RenderAction(actions[0]) + RenderActions(actions[1..])
  }

  predicate EndsAtBody(ts: Tokens) {
    forall i | 0 <= i < |ts| :: !StartsGroup(ts[i..], Brace) && !StartsWith(ts[i..], ';')
  }

  predicate WellFormedAction(g: Grammar, a: Action) {
    && AllMeta(g, a.attributes)
    && !g.keyword(a.kind)
    && !g.keyword(a.name)
    && (a.returns_.Some? ==> EndsAtBody(a.returns_.value))
  }

  lemma {:induction false} ReturnStops(ts: Tokens)
    ensures EndsAtBody(ts[..ReturnLength(ts)])
  {
    var n := ReturnLength(ts);
    if n > 0 {
      ReturnStops(ts[1..]);
      var own, more := ts[..n], ts[1..][..n - 1];
      forall i | 0 <= i < n
        ensures !StartsGroup(own[i..], Brace) && !StartsWith(own[i..], ';')
      {
        assert own[i..][0] == ts[i];
        if i > 0 {
          assert more[i - 1..][0] == ts[i];
        }
      }
    }
  }

  lemma {:induction false} ReturnAgain(ts: Tokens, body: Tokens, rest: Tokens)
    requires EndsAtBody(ts)
    ensures ReturnLength(ts + [Group(Brace, body)] + rest) == |ts|
    decreases |ts|
  {
    var again := ts + [Group(Brace, body)] + rest;
    if ts == [] {
      assert again[0] == Group(Brace, body);
    } else {
      assert again[0] == ts[0] && ts[0..][0] == ts[0];
      assert forall i | 0 <= i < |ts[1..]| :: ts[1..][i..] == ts[i + 1..];
      ReturnAgain(ts[1..], body, rest);
      assert again[1..] == ts[1..] + [Group(Brace, body)] + rest;
    }
  }

  lemma ParsedAction(g: Grammar, ts: Tokens)
    ensures ParseAction(g, ts).Ok? ==> WellFormedAction(g, ParseAction(g, ts).value.0)
  {
    hide ParseAttributes, EndsAtBody;
    ParsedAttributes(g, ts);
    if ParseAction(g, ts).Ok? {
      var rest := ParseAttributes(g, ts).value.1;
      if StartsWith(rest[2..], ',') {
        ReturnStops(rest[2..][1..]);
      }
    }
  }

  lemma ReturnsAgain(returned: Option<Tokens>, body: Tokens, rest: Tokens)
    requires returned.Some? ==> EndsAtBody(returned.value)
    ensures ParseReturns((if returned.Some? then [Punct(',')] + returned.value else []) + [Group(Brace, body)] + rest)
            == (returned, [Group(Brace, body)] + rest)
  {
    hide EndsAtBody;
    var ended := [Group(Brace, body)] + rest;
    if returned.Some? {
      var own := returned.value;
      var ts := [Punct(',')] + own + [Group(Brace, body)] + rest;
      ReturnAgain(own, body, rest);
      assert ts[0] == Punct(',') && ts[1..] == own + [Group(Brace, body)] + rest;
      assert ts[1..][..|own|] == own && ts[1..][|own|..] == ended;
    } else {
      assert [] + [Group(Brace, body)] + rest == ended;
      assert ended[0] == Group(Brace, body);
    }
  }

  lemma ActionAgain(g: Grammar, a: Action, rest: Tokens)
    requires WellFormedAction(g, a)
    ensures ParseAction(g, RenderAction(a) + rest) == Ok((a, rest))
  {
    hide ParseAttributes, PrintAttributes, ParseReturns, EndsAtBody;
    var returned := if a.returns_.Some? then [Punct(',')] + a.returns_.value else [];
    var after := returned + [Group(Brace, a.body)] + rest;
    var named := [Ident(a.kind), Ident(a.name)] + after;
    AttributesAgain(g, a.attributes, named);
    assert RenderAction(a) + rest == PrintAttributes(a.attributes) + named;
    ReturnsAgain(a.returns_, a.body, rest);
    assert named[1..][0] == Ident(a.name) && named[2..] == after;
    var ended := [Group(Brace, a.body)] + rest;
    assert ended[0] == Group(Brace, a.body) && ended[1..] == rest;
  }

  lemma RenderedStarts(g: Grammar, a: Action, rest: Tokens)
    ensures var ts := RenderAction(a) + rest; ts != [] && SkipSeparators(ts) == ts
  {
    var ts := RenderAction(a) + rest;
    assert ts[0] == if a.attributes == [] then Ident(a.kind) else Punct('#');
  }

  lemma {:induction false} ActionsAgain(g: Grammar, actions: seq<Action>, before: seq<Action>)
    requires forall i | 0 <= i < |actions| :: WellFormedAction(g, actions[i])
    ensures ParseActions(g, RenderActions(actions), before) == Ok(before + actions)
    decreases |actions|
  {
    hide ParseAction, RenderAction, WellFormedAction;
    if actions == [] {
      assert before + actions == before;
    } else {
      var more := actions[1..];
      RenderedStarts(g, actions[0], RenderActions(more));
      ActionAgain(g, actions[0], RenderActions(more));
      ActionsAgain(g, more, before + [actions[0]]);
      assert before + [actions[0]] + more == before + actions;
    }
  }

  lemma {:induction false} ParsedActions(g: Grammar, ts: Tokens, before: seq<Action>)
    requires forall i | 0 <= i < |before| :: WellFormedAction(g, before[i])
    ensures ParseActions(g, ts, before).Ok? ==>
              forall i | 0 <= i < |ParseActions(g, ts, before).value| ::
                WellFormedAction(g, ParseActions(g, ts, before).value[i])
    decreases |ts|
  {
    hide ParseAction, WellFormedAction;
    var rest := SkipSeparators(ts);
    if rest != [] {
      ParsedAction(g, rest);
      if ParseAction(g, rest).Ok? {
        var (action, more) := ParseAction(g, rest).value;
        ParsedActions(g, more, before + [action]);
      }
    }
  }

  /** Rendering any parsed list of actions and parsing it gives the same list. */
  lemma RenderedActionsParseBack(g: Grammar, ts: Tokens)
    requires ParseActions(g, ts, []).Ok?
    ensures ParseActions(g, RenderActions(ParseActions(g, ts, []).value), []) == ParseActions(g, ts, [])
  {
    hide ParseActions, RenderActions, WellFormedAction;
    var actions := ParseActions(g, ts, []).value;
    ParsedActions(g, ts, []);
    ActionsAgain(g, actions, []);
    assert [] + actions == actions;
  }

  // ---------- nor do actions lose anything

  predicate IsSeparator(t: Tree) {
    t == Punct(',') || t == Punct(';')
  }

  /** Separators, however many, and then something else. */
  lemma {:induction false} SeparatorsSkipped(ts: Tokens) returns (n: nat)
    ensures n <= |ts| && SkipSeparators(ts) == ts[n..]
    ensures forall j | 0 <= j < n :: IsSeparator(ts[j])
    ensures n < |ts| ==> !IsSeparator(ts[n])
  {
    n := 0;
    if StartsWith(ts, ',') || StartsWith(ts, ';') {
      var m := SeparatorsSkipped(ts[1..]);
      n := m + 1;
      assert forall j | 0 < j < |ts| :: ts[j] == ts[1..][j - 1];
    }
  }

  /** An action as it was written, its body in braces or left out. */
  function ActionSource(a: Action, braced: bool): Tokens {
    PrintAttributes(a.attributes) + [Ident(a.kind), Ident(a.name)]
    + (if a.returns_.Some? then [Punct(',')] + a.returns_.value else [])
    + if braced then [Group(Brace, a.body)] else []
  }

  lemma ReturnsAsWritten(ts: Tokens)
    ensures var (returned, rest) := ParseReturns(ts);
            ts == (if returned.Some? then [Punct(',')] + returned.value else []) + rest
  {
    hide ReturnLength;
  }

  lemma BodyAsWritten(ts: Tokens)
    ensures ts == (if StartsGroup(ts, Brace) then [Group(Brace, ParseBody(ts).0)] else []) + ParseBody(ts).1
    ensures !StartsGroup(ts, Brace) ==> ParseBody(ts).0 == []
  {}

  lemma ActionAsWritten(g: Grammar, ts: Tokens) returns (braced: bool)
    requires ParseAction(g, ts).Ok?
    ensures ts == ActionSource(ParseAction(g, ts).value.0, braced) + ParseAction(g, ts).value.1
    ensures !braced ==> ParseAction(g, ts).value.0.body == []
  {
    hide ParseAttributes, PrintAttributes, ParseReturns, ParseBody, StartsGroup;
    AttributesAsWritten(g, ts);
    var (attributes, rest) := ParseAttributes(g, ts).value;
    var after := ParseReturns(rest[2..]).1;
    braced := StartsGroup(after, Brace);
    assert rest == [Ident(rest[0].name), Ident(rest[1].name)] + rest[2..];
    ReturnsAsWritten(rest[2..]);
    BodyAsWritten(after);
  }

  /** What is written around actions: how many separators come before each, and whether its body is there. */
  datatype Layout = Layout(separators: Tokens, braced: bool)

  function ActionSources(actions: seq<Action>, layouts: seq<Layout>, last: Tokens): Tokens
    requires |actions| == |layouts|
  {
    if actions == [] then last
    else layouts[0].separators + ActionSource(actions[0], layouts[0].braced)
         + ActionSources(actions[1..], layouts[1..], last)
  }

  predicate OnlySeparators(ts: Tokens) {
    forall j | 0 <= j < |ts| :: IsSeparator(ts[j])
  }

  /** The actions a parse gives are the trees it was given, in order, but for separators between, before and
      after them. */
  lemma {:induction false} ParsingActionsLosesNothing(g: Grammar, ts: Tokens, before: seq<Action>)
    returns (added: seq<Action>, layouts: seq<Layout>, last: Tokens)
    requires ParseActions(g, ts, before).Ok?
    ensures ParseActions(g, ts, before).value == before + added
    ensures |added| == |layouts| && ts == ActionSources(added, layouts, last)
    ensures OnlySeparators(last) && forall k | 0 <= k < |layouts| :: OnlySeparators(layouts[k].separators)
    decreases |ts|
  {
    hide ParseAction, ActionSource, SkipSeparators;
    var n := SeparatorsSkipped(ts);
    var rest := SkipSeparators(ts);
    assert ts == ts[..n] + rest;
    if rest == [] {
      added, layouts, last := [], [], ts[..n];
    } else {
      var (action, more) := ParseAction(g, rest).value;
      var braced := ActionAsWritten(g, rest);
      var others, marks, end := ParsingActionsLosesNothing(g, more, before + [action]);
      added, layouts, last := [action] + others, [Layout(ts[..n], braced)] + marks, end;
      assert added[1..] == others && layouts[1..] == marks;
      assert before + [action] + others == before + added;
    }
  }

  // ---------- the parsers' loops

  /** `extend path! { ... }`: up to and with the braces, or up to a semicolon. */
  method ParseExtend(body: Tokens) returns (tokens: Tokens, rest: Tokens)
    ensures tokens == body[..ExtendLength(body)] && rest == body[ExtendLength(body)..]
  {
    tokens, rest := [], body;
    while rest != [] && !StartsGroup(rest, Brace) && !StartsWith(rest, ';')
      invariant tokens + rest == body
      invariant |tokens| + ExtendLength(rest) == ExtendLength(body)
      decreases |rest|
    {
      Shift(tokens, rest, body);
      tokens, rest := tokens + [rest[0]], rest[1..];
    }
    if StartsGroup(rest, Brace) {
      Shift(tokens, rest, body);
      tokens, rest := tokens + [rest[0]], rest[1..];
    }
    Taken(tokens, rest, body);
  }

  /** An unknown section: up to a semicolon, or a section's name that is not part of a path. */
  method ParseUnknown(g: Grammar, body: Tokens) returns (tokens: Tokens, rest: Tokens)
    ensures tokens == body[..UnknownLength(g, body, false)] && rest == body[UnknownLength(g, body, false)..]
  {
    hide StartsSection;
    tokens, rest := [], body;
    var afterColon := false;
    while rest != [] && !StartsWith(rest, ';')
      invariant tokens + rest == body
      invariant |tokens| + UnknownLength(g, rest, afterColon) == UnknownLength(g, body, false)
      decreases |rest|
    {
      if StartsSection(g, rest) && !afterColon {
        break;
      }
      Shift(tokens, rest, body);
      afterColon := StartsWith(rest, ':');
      tokens, rest := tokens + [rest[0]], rest[1..];
    }
    Taken(tokens, rest, body);
  }

  /** One tree, after a colon if there is one. */
  method TakeTree(g: Grammar, body: Tokens) returns (r: Result<(Tokens, Tokens), Error>)
    ensures match LineLength(g, OneTree, body)
            case Err(e) => r == Err(e)
            case Ok(n) => n <= |body| && r == Ok((body[..n], body[n..]))
  {
    var tokens: Tokens, rest := [], body;
    if StartsWith(rest, ':') {
      tokens, rest := [rest[0]], rest[1..];
    }
    if rest == [] {
      return Err(ExpectedTree);
    }
    Shift(tokens, rest, body);
    tokens, rest := tokens + [rest[0]], rest[1..];
    Taken(tokens, rest, body);
    return Ok((tokens, rest));
  }

  /** A type, after a colon if there is one. */
  method TakeType(g: Grammar, body: Tokens) returns (r: Result<(Tokens, Tokens), Error>)
    ensures match LineLength(g, OneType, body)
            case Err(e) => r == Err(e)
            case Ok(n) => n <= |body| && r == Ok((body[..n], body[n..]))
  {
    var tokens: Tokens, rest := [], body;
    if StartsWith(rest, ':') {
      tokens, rest := [rest[0]], rest[1..];
    }
    assert rest == body[ColonLength(body)..];
    var length := g.typeLength(rest);
    if length.None? || length.value > |rest| {
      return Err(ExpectedType);
    }
    tokens, rest := tokens + rest[..length.value], rest[length.value..];
    Taken(tokens, rest, body);
    return Ok((tokens, rest));
  }

  lemma FormsByName(section: string)
    ensures FormOf(section) == Bare <==> section == "embedded"
    ensures FormOf(section) == MaybeList
            <==> section == "extensions" || section == "notifiers" || section == "timestamps"
    ensures FormOf(section) == Path <==> section == "extend"
    ensures FormOf(section) == OneTree
            <==> section == "table" || section == "optimistic_lock" || section == "data_layer"
    ensures FormOf(section) == OneType <==> section == "store"
  {}

  /** The trees of a one-line section, and the trees after it. */
  method ParseOneLine(g: Grammar, section: string, body: Tokens) returns (r: Result<(Tokens, Tokens), Error>)
    ensures match LineLength(g, FormOf(section), body)
            case Err(e) => r == Err(e)
            case Ok(n) => n <= |body| && r == Ok((body[..n], body[n..]))
  {
    hide ExtendLength, UnknownLength, FormOf;
    FormsByName(section);
    var tokens: Tokens, rest := [], body;
    if section == "embedded" {
      Taken(tokens, rest, body);
    } else if section == "extensions" || section == "notifiers" || section == "timestamps" {
      if StartsGroup(rest, Bracket) {
        tokens, rest := [rest[0]], rest[1..];
      }
      Taken(tokens, rest, body);
    } else if section == "extend" {
      tokens, rest := ParseExtend(body);
    } else if section == "table" || section == "optimistic_lock" || section == "data_layer" {
      r := TakeTree(g, body);
      return;
    } else if section == "store" {
      r := TakeType(g, body);
      return;
    } else {
      tokens, rest := ParseUnknown(g, body);
    }
    return Ok((tokens, rest));
  }

  lemma Shift(tokens: Tokens, rest: Tokens, body: Tokens)
    requires tokens + rest == body && rest != []
    ensures tokens + [rest[0]] + rest[1..] == body
  {
    assert rest == [rest[0]] + rest[1..];
  }

  lemma Taken(tokens: Tokens, rest: Tokens, body: Tokens)
    requires tokens + rest == body
    ensures tokens == body[..|tokens|] && rest == body[|tokens|..]
  {}

  method ParseSectionList(g: Grammar, body: Tokens) returns (r: Result<seq<Section>, Error>)
    ensures r == ParseSections(g, body, [])
  {
    hide LineLength, FormOf;
    var sections: seq<Section> := [];
    var rest := body;
    while rest != []
      invariant ParseSections(g, rest, sections) == ParseSections(g, body, [])
      decreases |rest|
    {
      if !StartsIdent(g, rest) {
        return Err(ExpectedIdent);
      }
      var section := rest[0].name;
      rest := rest[1..];
      if StartsGroup(rest, Brace) {
        if section != "extensions" && section != "notifiers" {
          for i := 0 to |sections|
            invariant !exists k | 0 <= k < i :: sections[k].braced && sections[k].name == section
          {
            if sections[i].braced && sections[i].name == section {
              return Err(AppearsTwice(section));
            }
          }
        }
        sections, rest := sections + [Section(section, rest[0].inner, true)], rest[1..];
      } else {
        var line := ParseOneLine(g, section, rest);
        if line.Err? {
          return Err(line.error);
        }
        sections, rest := sections + [Section(section, line.value.0, false)], line.value.1;
      }
      if StartsWith(rest, ';') {
        rest := rest[1..];
      }
    }
    return Ok(sections);
  }

  method ParseActionList(g: Grammar, tokens: Tokens) returns (r: Result<seq<Action>, Error>)
    ensures r == ParseActions(g, tokens, [])
  {
    hide ParseAction;
    var actions: seq<Action> := [];
    var rest := tokens;
    while true
      invariant ParseActions(g, rest, actions) == ParseActions(g, tokens, [])
      decreases |rest|
    {
      ghost var separated := rest;
      while StartsWith(rest, ',') || StartsWith(rest, ';')
        invariant SkipSeparators(rest) == SkipSeparators(separated) && |rest| <= |separated|
        decreases |rest|
      {
        rest := rest[1..];
      }
      if rest == [] {
        return Ok(actions);
      }
      var parsed := ParseAction(g, rest);
      if parsed.Err? {
        return Err(parsed.error);
      }
      actions, rest := actions + [parsed.value.0], parsed.value.1;
    }
  }
}
