/** The template language: brace-escaped literals and `{name}` placeholders, scanned by hand.

The obvious printer is the specification: parsing inverts printing on every normal segment list, and a
text is rejected exactly when no normal segment list prints to it. Alerts and chat automation carry
the same scanner. */
module Templates {
  import opened Common

  datatype Segment = Literal(text: string) | Placeholder(name: string)

  datatype ParseError = UnmatchedOpen | EmptyPlaceholder | UnmatchedClose

  type Parsed = Result<seq<Segment>, ParseError>

  const MAX_RENDERED_CODE_POINTS: nat := 240

  // ----- the printer -----

  function EscapeChar(c: char): string {
    if c == '{' || c == '}' then [c, c] else [c]
  }

  function Escape(text: string): string {
    if text == "" then "" else EscapeChar(text[0]) + Escape(text[1..])
  }

  function PrintSegment(s: Segment): string {
    match s
    case Literal(text) => Escape(text)
    case Placeholder(name) => "{" + name + "}"
  }

  function Print(segments: seq<Segment>): string {
    if segments == [] then "" else PrintSegment(segments[0]) + Print(segments[1..])
  }

  predicate BraceFree(s: string) {
    '{' !in s && '}' !in s
  }

  predicate WellFormed(s: Segment) {
    match s
    case Literal(text) => text != ""
    case Placeholder(name) => name != "" && BraceFree(name)
  }

  /** No empty or adjacent literals; names non-empty and free of braces. */
  predicate Normal(segments: seq<Segment>) {
    segments == [] ||
    (WellFormed(segments[0]) && Normal(segments[1..])
     && (segments[0].Literal? && |segments| > 1 ==> segments[1].Placeholder?))
  }

  // ----- the scanner as a function -----

  function Flush(literal: string): seq<Segment> {
    if literal == "" then [] else [Literal(literal)]
  }

  /** The first brace at or after `from`, or the end. */
  function NameEnd(t: string, from: nat): (j: nat)
    requires from <= |t|
    ensures from <= j <= |t| && BraceFree(t[from..j]) && (j < |t| ==> t[j] == '{' || t[j] == '}')
    decreases |t| - from
  {
    if from == |t| || t[from] == '{' || t[from] == '}' then from
    else
      var j := NameEnd(t, from + 1);
      assert t[from..j] == [t[from]] + t[from + 1..j];
      j
  }

  function Prepend(segments: seq<Segment>, r: Parsed): Parsed {
    if r.Ok? then Ok(segments + r.value) else r
  }

  /** What the scanner meets at the start of a non-empty text: n characters standing for one literal
      character, a placeholder closed at index j, or an error. */
  datatype Token = Text(c: char, n: nat) | Name(j: nat) | Bad(error: ParseError)

  function Next(t: string): (k: Token)
    requires t != ""
    ensures k.Text? ==> 0 < k.n <= |t| && t == EscapeChar(k.c) + t[k.n..]
    ensures k.Name? ==> 1 < k.j < |t| && t == PrintSegment(Placeholder(t[1..k.j])) + t[k.j + 1..] && WellFormed(Placeholder(t[1..k.j]))
  {
    if t[0] == '{' then
      if |t| > 1 && t[1] == '{' then Text('{', 2)
      else
        var j := NameEnd(t, 1);
        if j == |t| || t[j] != '}' then Bad(UnmatchedOpen) else if j == 1 then Bad(EmptyPlaceholder) else Name(j)
    else if t[0] == '}' then
      if |t| > 1 && t[1] == '}' then Text('}', 2) else Bad(UnmatchedClose)
    else Text(t[0], 1)
  }

  /** The segments of the unread text `t`, with `literal` read but not yet emitted. */
  function Parse(t: string, literal: string): Parsed
    decreases |t|
  {
    if t == "" then Ok(Flush(literal))
    else
      match Next(t)
      case Text(c, n) => Parse(t[n..], literal + [c])
      case Name(j) => Prepend(Flush(literal) + [Placeholder(t[1..j])], Parse(t[j + 1..], ""))
      case Bad(error) => Err(error)
  }

  lemma {:induction false} EscapeAppend(a: string, b: string)
    ensures Escape(a + b) == Escape(a) + Escape(b)
  {
    if a == "" {
      assert a + b == b;
    } else {
      EscapeAppend(a[1..], b);
      ConsAppend(a, b);
      Assoc(EscapeChar(a[0]), Escape(a[1..]), Escape(b));
    }
  }

  lemma {:induction false} EscapeOne(c: char)
    ensures Escape([c]) == EscapeChar(c)
  {
    assert [c][1..] == "";
    assert EscapeChar(c) + Escape("") == EscapeChar(c);
  }

  lemma {:induction false} PrintAppend(a: seq<Segment>, b: seq<Segment>)
    ensures Print(a + b) == Print(a) + Print(b)
  {
    if a == [] {
      assert a + b == b;
    } else {
      PrintAppend(a[1..], b);
      ConsAppend(a, b);
      Assoc(PrintSegment(a[0]), Print(a[1..]), Print(b));
    }
  }

  lemma {:induction false} PrintOne(s: Segment)
    ensures Print([s]) == PrintSegment(s)
  {
    assert [s][1..] == [];
    assert PrintSegment(s) + Print([]) == PrintSegment(s);
  }

  /** Emitting a literal and a placeholder in front of normal segments prints in front of them. */
  lemma {:induction false} PrintEmitted(literal: string, name: string, rest: seq<Segment>)
    requires WellFormed(Placeholder(name)) && Normal(rest)
    ensures var all := Flush(literal) + [Placeholder(name)] + rest;
            Normal(all) && Print(all) == Escape(literal) + (PrintSegment(Placeholder(name)) + Print(rest))
  {
    var here := Placeholder(name);
    var some := [here] + rest;
    assert some[1..] == rest;
    if literal == "" {
      assert Flush(literal) + [here] + rest == some;
    } else {
      var all := [Literal(literal)] + some;
      assert all[1..] == some && Flush(literal) + [here] + rest == all;
    }
  }

  lemma {:induction false} PrintFlushed(literal: string)
    ensures Normal(Flush(literal)) && Print(Flush(literal)) == Escape(literal)
  {
    if literal != "" {
      PrintOne(Literal(literal));
    }
  }

  /** An accepted text is the print of its segments, and they are normal. */
  lemma {:induction false} ParseThenPrint(t: string, literal: string)
    requires Parse(t, literal).Ok?
    ensures Print(Parse(t, literal).value) == Escape(literal) + t && Normal(Parse(t, literal).value)
    decreases |t|
  {
    if t == "" {
      PrintFlushed(literal);
    } else {
      match Next(t)
      case Text(c, n) =>
        ParseThenPrint(t[n..], literal + [c]);
        EscapeAppend(literal, [c]);
        EscapeOne(c);
        Assoc(Escape(literal), EscapeChar(c), t[n..]);
      case Name(j) =>
        ParseThenPrint(t[j + 1..], "");
        PrintEmitted(literal, t[1..j], Parse(t[j + 1..], "").value);
        assert Escape("") + t[j + 1..] == t[j + 1..];
    }
  }

  lemma {:induction false} NameEndIs(t: string, from: nat, end: nat)
    requires from <= end <= |t| && BraceFree(t[from..end]) && (end == |t| || t[end] == '{' || t[end] == '}')
    ensures NameEnd(t, from) == end
    decreases end - from
  {
    if from < end {
      assert t[from] == t[from..end][0];
      assert forall k | from + 1 <= k < end :: t[k] == t[from..end][k - from];
      NameEndIs(t, from + 1, end);
    }
  }

  lemma {:induction false} NextOfEscaped(c: char, rest: string)
    ensures Next(EscapeChar(c) + rest) == Text(c, |EscapeChar(c)|)
  {
  }

  lemma {:induction false} NextOfPlaceholder(name: string, rest: string)
    requires WellFormed(Placeholder(name))
    ensures var t := PrintSegment(Placeholder(name)) + rest;
            Next(t) == Name(|name| + 1) && t[1..|name| + 1] == name && t[|name| + 2..] == rest
  {
    var t := PrintSegment(Placeholder(name)) + rest;
    assert t[1..|name| + 1] == name && t[|name| + 1] == '}';
    assert t[1] == name[0];
    NameEndIs(t, 1, |name| + 1);
  }

  /** Escaped literal text is read back as itself. */
  lemma {:induction false} ParseEscaped(text: string, rest: string, literal: string)
    ensures Parse(Escape(text) + rest, literal) == Parse(rest, literal + text)
    decreases |text|
  {
    if text == "" {
      assert Escape(text) + rest == rest && literal + text == literal;
    } else {
      var c, more := text[0], Escape(text[1..]) + rest;
      Assoc(EscapeChar(c), Escape(text[1..]), rest);
      NextOfEscaped(c, more);
      assert (EscapeChar(c) + more)[|EscapeChar(c)|..] == more;
      ParseEscaped(text[1..], rest, literal + [c]);
      Assoc(literal, [c], text[1..]);
      assert [c] + text[1..] == text;
    }
  }

  lemma {:induction false} ParsePlaceholder(name: string, rest: string, literal: string)
    requires WellFormed(Placeholder(name))
    ensures Parse(PrintSegment(Placeholder(name)) + rest, literal)
            == Prepend(Flush(literal) + [Placeholder(name)], Parse(rest, ""))
  {
    NextOfPlaceholder(name, rest);
  }

  /** Parsing what was printed from a normal segment list gives the list back. */
  lemma {:induction false} PrintThenParse(segments: seq<Segment>)
    requires Normal(segments)
    ensures Parse(Print(segments), "") == Ok(segments)
  {
    if segments != [] {
      var rest := segments[1..];
      match segments[0]
      case Placeholder(name) =>
        PrintThenParse(rest);
        ParsePlaceholder(name, Print(rest), "");
        assert [] + [segments[0]] + rest == segments;
      case Literal(text) =>
        ParseEscaped(text, Print(rest), "");
        assert "" + text == text;
        if rest == [] {
          assert segments == [Literal(text)];
        } else {
          PrintThenParse(rest[1..]);
          ParsePlaceholder(rest[0].name, Print(rest[1..]), text);
          assert [Literal(text)] + [rest[0]] + rest[1..] == segments;
        }
    }
  }

  /** Printing is injective on normal lists: a text has at most one normal reading. */
  lemma {:induction false} ReadingIsUnique(a: seq<Segment>, b: seq<Segment>)
    requires Normal(a) && Normal(b) && Print(a) == Print(b)
    ensures a == b
  {
    PrintThenParse(a);
    PrintThenParse(b);
  }

  /** A text is accepted exactly when some normal segment list prints to it. */
  lemma {:induction false} AcceptsExactlyThePrintedTexts(t: string)
    ensures Parse(t, "").Ok? <==> exists segments :: Normal(segments) && Print(segments) == t
  {
    if Parse(t, "").Ok? {
      ParseThenPrint(t, "");
      assert Escape("") + t == t;
      assert Normal(Parse(t, "").value) && Print(Parse(t, "").value) == t;
    } else {
      forall segments | Normal(segments) && Print(segments) == t ensures false {
        PrintThenParse(segments);
      }
    }
  }

  /** What has been emitted, followed by what the rest will yield, is what the whole text yields. */
  ghost predicate OnTrack(t: string, segments: seq<Segment>, i: nat, literal: string) {
    i <= |t| && Parse(t, "") == Prepend(segments, Parse(t[i..], literal))
  }

  lemma {:induction false} AdvanceOverText(t: string, segments: seq<Segment>, i: nat, literal: string, c: char, n: nat)
    requires OnTrack(t, segments, i, literal) && i < |t| && Next(t[i..]) == Text(c, n)
    ensures OnTrack(t, segments, i + n, literal + [c])
  {
    assert t[i..][n..] == t[i + n..];
  }

  lemma {:induction false} AdvanceOverName(t: string, segments: seq<Segment>, i: nat, literal: string, j: nat)
    requires OnTrack(t, segments, i, literal) && i < j < |t| && Next(t[i..]) == Name(j - i)
    ensures OnTrack(t, segments + (Flush(literal) + [Placeholder(t[i + 1..j])]), j + 1, "")
  {
    assert t[i..][1..j - i] == t[i + 1..j] && t[i..][j - i + 1..] == t[j + 1..];
    PrependTwice(segments, Flush(literal) + [Placeholder(t[i + 1..j])], Parse(t[j + 1..], ""));
  }

  lemma {:induction false} Finish(t: string, segments: seq<Segment>, i: nat, literal: string)
    requires OnTrack(t, segments, i, literal)
    ensures i == |t| ==> Parse(t, "") == Ok(segments + Flush(literal))
    ensures i < |t| && Next(t[i..]).Bad? ==> Parse(t, "") == Err(Next(t[i..]).error)
  {
  }

  /** The scanner: an index moving over the text, a literal buffer and the segments emitted so far. */
  method ParseTemplate(template: string) returns (r: Parsed)
    ensures r == Parse(template, "")
  {
    var segments: seq<Segment> := [];
    var literal, i := "", 0;
    assert template[0..] == template;
    PrependNone(Parse(template, ""));
    while i < |template|
      invariant OnTrack(template, segments, i, literal)
    {
      ghost var t := template[i..];
      var c := template[i];
      Finish(template, segments, i, literal);
      if c == '{' {
        if i + 1 < |template| && template[i + 1] == '{' {
          AdvanceOverText(template, segments, i, literal, '{', 2);
          literal, i := literal + "{", i + 2;
          continue;
        }
        var j := ScanName(template, i);
        if j >= |template| || template[j] != '}' {
          assert Next(t) == Bad(UnmatchedOpen);
          return Err(UnmatchedOpen);
        }
        var name := template[i + 1..j];
        if name == "" {
          assert Next(t) == Bad(EmptyPlaceholder);
          return Err(EmptyPlaceholder);
        }
        assert Next(t) == Name(j - i);
        AdvanceOverName(template, segments, i, literal, j);
        segments := segments + (Flush(literal) + [Placeholder(name)]);
        literal, i := "", j + 1;
      } else if c == '}' {
        if i + 1 < |template| && template[i + 1] == '}' {
          AdvanceOverText(template, segments, i, literal, '}', 2);
          literal, i := literal + "}", i + 2;
          continue;
        }
        assert Next(t) == Bad(UnmatchedClose);
        return Err(UnmatchedClose);
      } else {
        AdvanceOverText(template, segments, i, literal, c, 1);
        literal, i := literal + [c], i + 1;
      }
    }
    Finish(template, segments, i, literal);
    return Ok(segments + Flush(literal));
  }

  /** Runs over the name that starts behind the brace at i. */
  method ScanName(template: string, i: nat) returns (j: nat)
    requires i < |template|
    ensures i < j <= |template| && j - i == NameEnd(template[i..], 1)
  {
    j := i + 1;
    while j < |template| && template[j] != '}' && template[j] != '{'
      invariant i < j <= |template| && BraceFree(template[i + 1..j])
      decreases |template| - j
    {
      assert template[i + 1..j + 1] == template[i + 1..j] + [template[j]];
      j := j + 1;
    }
    assert template[i..][1..j - i] == template[i + 1..j];
    NameEndIs(template[i..], 1, j - i);
  }

  lemma PrependNone(r: Parsed)
    ensures Prepend([], r) == r
  {
    if r.Ok? {
      assert [] + r.value == r.value;
    }
  }

  lemma PrependTwice(a: seq<Segment>, b: seq<Segment>, r: Parsed)
    ensures Prepend(a, Prepend(b, r)) == Prepend(a + b, r)
  {
    if r.Ok? {
      assert a + (b + r.value) == (a + b) + r.value;
    }
  }

  // ----- rendering -----

  /** The value of a placeholder, or None when it cannot be resolved in this context. */
  type Resolver = string -> Option<string>

  datatype Rendered = Rendered(text: string, resolved: seq<string>, unresolved: seq<string>, valid: bool)

  function Shown(s: Segment, resolve: Resolver): string {
    match s
    case Literal(text) => text
    case Placeholder(name) => if resolve(name).Some? then resolve(name).value else ""
  }

  function Expand(segments: seq<Segment>, resolve: Resolver): string {
    if segments == [] then "" else Shown(segments[0], resolve) + Expand(segments[1..], resolve)
  }

  /** The placeholder names, each once, in order of first occurrence. */
  function Names(segments: seq<Segment>): seq<string> {
    if segments == [] then []
    else
      var before, last := Names(segments[..|segments| - 1]), segments[|segments| - 1];
      if last.Placeholder? && last.name !in before then before + [last.name] else before
  }

  function ResolvedNames(segments: seq<Segment>, resolve: Resolver): seq<string> {
    Filter(Names(segments), (name: string) => resolve(name).Some?)
  }

  function UnresolvedNames(segments: seq<Segment>, resolve: Resolver): seq<string> {
    Filter(Names(segments), (name: string) => resolve(name).None?)
  }

  /** What rendering a template in a context yields; only a malformed template fails. */
  function RenderSpec(template: string, resolve: Resolver): Result<Rendered, ParseError> {
    var parsed := Parse(template, "");
    if parsed.Err? then Err(parsed.error)
    else
      var text, missing := Expand(parsed.value, resolve), UnresolvedNames(parsed.value, resolve);
      Ok(Rendered(text, ResolvedNames(parsed.value, resolve), missing,
                  missing == [] && |text| <= MAX_RENDERED_CODE_POINTS))
  }

  lemma {:induction false} ExpandAppend(a: seq<Segment>, b: seq<Segment>, resolve: Resolver)
    ensures Expand(a + b, resolve) == Expand(a, resolve) + Expand(b, resolve)
  {
    if a == [] {
      assert a + b == b;
    } else {
      ExpandAppend(a[1..], b, resolve);
      ConsAppend(a, b);
      Assoc(Shown(a[0], resolve), Expand(a[1..], resolve), Expand(b, resolve));
    }
  }

  lemma {:induction false} ExpandOne(s: Segment, resolve: Resolver)
    ensures Expand([s], resolve) == Shown(s, resolve)
  {
    assert [s][1..] == [];
    assert Shown(s, resolve) + "" == Shown(s, resolve);
  }

  /** How the two reports grow when one more segment is read. */
  lemma {:induction false} ReportsGrow(before: seq<Segment>, s: Segment, resolve: Resolver)
    ensures ResolvedNames(before + [s], resolve) ==
            if s.Literal? then ResolvedNames(before, resolve)
            else Noted(ResolvedNames(before, resolve), s.name, resolve(s.name).Some?)
    ensures UnresolvedNames(before + [s], resolve) ==
            if s.Literal? then UnresolvedNames(before, resolve)
            else Noted(UnresolvedNames(before, resolve), s.name, resolve(s.name).None?)
  {
    var seen := Names(before);
    assert (before + [s])[..|before|] == before;
    if s.Placeholder? {
      var found, missing := (n: string) => resolve(n).Some?, (n: string) => resolve(n).None?;
      FilterAppend(seen, [s.name], found);
      FilterAppend(seen, [s.name], missing);
      FilterMember(seen, found, s.name);
      FilterMember(seen, missing, s.name);
      assert [s.name][1..] == [];
    }
  }

  function Noted(names: seq<string>, name: string, applies: bool): seq<string> {
    if applies && name !in names then names + [name] else names
  }

  /** Text and reports after the first i segments. */
  ghost predicate RenderedUpTo(
      segments: seq<Segment>, i: nat, resolve: Resolver, text: string, resolved: seq<string>, unresolved: seq<string>)
  {
    && i <= |segments| && text == Expand(segments[..i], resolve)
    && resolved == ResolvedNames(segments[..i], resolve) && unresolved == UnresolvedNames(segments[..i], resolve)
  }

  lemma {:induction false} RenderAdvances(
      segments: seq<Segment>, i: nat, resolve: Resolver, text: string, resolved: seq<string>, unresolved: seq<string>)
    requires RenderedUpTo(segments, i, resolve, text, resolved, unresolved) && i < |segments|
    ensures var s := segments[i];
            RenderedUpTo(segments, i + 1, resolve, text + Shown(s, resolve),
              if s.Literal? then resolved else Noted(resolved, s.name, resolve(s.name).Some?),
              if s.Literal? then unresolved else Noted(unresolved, s.name, resolve(s.name).None?))
  {
    assert segments[..i + 1] == segments[..i] + [segments[i]];
    ExpandAppend(segments[..i], [segments[i]], resolve);
    ExpandOne(segments[i], resolve);
    ReportsGrow(segments[..i], segments[i], resolve);
  }

  method Render(template: string, resolve: Resolver) returns (r: Result<Rendered, ParseError>)
    ensures r == RenderSpec(template, resolve)
  {
    var parsed := ParseTemplate(template);
    if parsed.Err? { return Err(parsed.error); }
    var segments := parsed.value;
    var text, resolved, unresolved := "", [], [];
    for i := 0 to |segments|
      invariant RenderedUpTo(segments, i, resolve, text, resolved, unresolved)
    {
      RenderAdvances(segments, i, resolve, text, resolved, unresolved);
      if segments[i].Literal? {
        text := text + segments[i].text;
        continue;
      }
      var name := segments[i].name;
      var value := resolve(name);
      if value.Some? {
        text := text + value.value;
        if name !in resolved { resolved := resolved + [name]; }
      } else {
        assert text + "" == text;
        if name !in unresolved { unresolved := unresolved + [name]; }
      }
    }
    assert segments[..|segments|] == segments;
    return Ok(Rendered(text, resolved, unresolved, unresolved == [] && |text| <= MAX_RENDERED_CODE_POINTS));
  }

  /** Any text survives being escaped into a template and rendered, in every context. */
  lemma {:induction false} EscapedTextRendersAsItself(text: string, resolve: Resolver)
    ensures RenderSpec(Escape(text), resolve) == Ok(Rendered(text, [], [], |text| <= MAX_RENDERED_CODE_POINTS))
  {
    ParseEscaped(text, "", "");
    assert Escape(text) + "" == Escape(text) && "" + text == text;
    assert Parse(Escape(text), "") == Ok(Flush(text));
    if text != "" {
      assert [Literal(text)][..0] == [];
      assert Names([Literal(text)]) == [];
      ExpandOne(Literal(text), resolve);
    }
  }

  /** The two reports are duplicate-free and split the template's placeholder names between them. */
  lemma {:induction false} ReportsSplitTheNames(segments: seq<Segment>, resolve: Resolver, name: string)
    ensures name in ResolvedNames(segments, resolve) <==> Placeholder(name) in segments && resolve(name).Some?
    ensures name in UnresolvedNames(segments, resolve) <==> Placeholder(name) in segments && resolve(name).None?
    ensures multiset(Names(segments))[name] <= 1
  {
    NamesAreThePlaceholders(segments, name);
    FilterMember(Names(segments), (n: string) => resolve(n).Some?, name);
    FilterMember(Names(segments), (n: string) => resolve(n).None?, name);
  }

  lemma {:induction false} NamesAreThePlaceholders(segments: seq<Segment>, name: string)
    ensures name in Names(segments) <==> Placeholder(name) in segments
    ensures multiset(Names(segments))[name] <= 1
  {
    if segments != [] {
      var n := |segments| - 1;
      assert segments == segments[..n] + [segments[n]];
      NamesAreThePlaceholders(segments[..n], name);
    }
  }

  /** With every placeholder resolvable the rendering is complete: nothing is reported missing. */
  lemma {:induction false} ResolvableRendersCompletely(segments: seq<Segment>, resolve: Resolver)
    requires forall name | Placeholder(name) in segments :: resolve(name).Some?
    ensures UnresolvedNames(segments, resolve) == []
  {
    forall name | name in Names(segments) ensures resolve(name).Some? {
      NamesAreThePlaceholders(segments, name);
    }
    FilterNone(Names(segments), (n: string) => resolve(n).None?);
  }
}
