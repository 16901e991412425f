/** What rendered text is made of: values in place of names, and texts put together render to their texts put together. */
module TemplateText {
  import opened Common
  import opened Templates

  /** The text a template renders to. */
  function TextOf(template: string, resolve: Resolver): string
    requires RenderSpec(template, resolve).Ok?
  {
    RenderSpec(template, resolve).value.text
  }

  lemma {:induction false} OneNameParses(name: string)
    requires WellFormed(Placeholder(name))
    ensures Parse("{" + name + "}", "") == Ok([Placeholder(name)])
  {
    ParsePlaceholder(name, "", "");
    assert "{" + name + "}" + "" == "{" + name + "}";
    assert Flush("") + [Placeholder(name)] == [Placeholder(name)];
    assert [Placeholder(name)] + [] == [Placeholder(name)];
  }

  lemma {:induction false} OneNameReports(name: string, resolve: Resolver)
    ensures ResolvedNames([Placeholder(name)], resolve) == if resolve(name).Some? then [name] else []
    ensures UnresolvedNames([Placeholder(name)], resolve) == if resolve(name).None? then [name] else []
  {
    var found, missing := (n: string) => resolve(n).Some?, (n: string) => resolve(n).None?;
    assert [Placeholder(name)][..0] == [];
    assert Names([Placeholder(name)]) == [name];
    assert forall x | x in [name] :: x == name;
    if resolve(name).Some? {
      FilterAll([name], found);
      FilterNone([name], missing);
    } else {
      FilterNone([name], found);
      FilterAll([name], missing);
    }
  }

  /** One name in braces renders to its value, and is reported found; a name without a value to nothing, reported missing. */
  lemma {:induction false} PlaceholderRendersItsValue(name: string, resolve: Resolver)
    requires name != "" && '{' !in name && '}' !in name
    ensures RenderSpec("{" + name + "}", resolve) ==
            match resolve(name)
            case Some(v) => Ok(Rendered(v, [name], [], |v| <= 240))
            case None => Ok(Rendered("", [], [name], false))
  {
    OneNameParses(name);
    OneNameReports(name, resolve);
    ExpandOne(Placeholder(name), resolve);
  }

  // ----- putting texts together -----

  lemma {:induction false} TextStays(a: string, b: string, c: char, n: nat)
    requires a != "" && Next(a) == Text(c, n)
    ensures Next(a + b) == Text(c, n) && (a + b)[n..] == a[n..] + b
  {
    assert a == EscapeChar(c) + a[n..] && n == |EscapeChar(c)|;
    Assoc(EscapeChar(c), a[n..], b);
    NextOfEscaped(c, a[n..] + b);
  }

  lemma {:induction false} NameStays(a: string, b: string, j: nat)
    requires a != "" && Next(a) == Name(j)
    ensures Next(a + b) == Name(j) && (a + b)[1..j] == a[1..j] && (a + b)[j + 1..] == a[j + 1..] + b
  {
    var p := PrintSegment(Placeholder(a[1..j]));
    assert a == p + a[j + 1..] && |p| == j + 1;
    Assoc(p, a[j + 1..], b);
    NextOfPlaceholder(a[1..j], a[j + 1..] + b);
  }

  /** What stands at the start of an accepted text stands there whatever follows it. */
  lemma {:induction false} NextIgnoresWhatFollows(a: string, b: string)
    requires a != "" && !Next(a).Bad?
    ensures Next(a + b) == Next(a)
    ensures Next(a).Text? ==> (a + b)[Next(a).n..] == a[Next(a).n..] + b
    ensures Next(a).Name? ==> (a + b)[1..Next(a).j] == a[1..Next(a).j] && (a + b)[Next(a).j + 1..] == a[Next(a).j + 1..] + b
  {
    match Next(a)
    case Text(c, n) => TextStays(a, b, c, n);
    case Name(j) => NameStays(a, b, j);
  }

  lemma {:induction false} FlushedText(literal: string, resolve: Resolver)
    ensures Expand(Flush(literal), resolve) == literal
  {
    if literal != "" { ExpandOne(Literal(literal), resolve); }
  }

  lemma {:induction false} NameInFront(literal: string, name: string, rest: seq<Segment>, resolve: Resolver)
    ensures Expand(Flush(literal) + [Placeholder(name)] + rest, resolve)
            == literal + (Shown(Placeholder(name), resolve) + Expand(rest, resolve))
  {
    FlushedText(literal, resolve);
    ExpandOne(Placeholder(name), resolve);
    ExpandAppend(Flush(literal) + [Placeholder(name)], rest, resolve);
    ExpandAppend(Flush(literal), [Placeholder(name)], resolve);
    Assoc(literal, Shown(Placeholder(name), resolve), Expand(rest, resolve));
  }

  lemma {:induction false} NameAfterLiteral(t: string, literal: string, j: nat, resolve: Resolver)
    requires t != "" && Next(t) == Name(j)
    ensures Parse(t, literal).Ok? <==> Parse(t, "").Ok?
    ensures Parse(t, "").Ok? ==> Expand(Parse(t, literal).value, resolve) == literal + Expand(Parse(t, "").value, resolve)
  {
    var rest := Parse(t[j + 1..], "");
    if rest.Ok? {
      NameInFront(literal, t[1..j], rest.value, resolve);
      NameInFront("", t[1..j], rest.value, resolve);
    }
  }

  /** A literal read before adds itself in front, and decides nothing. */
  lemma {:induction false} LiteralInFront(t: string, literal: string, resolve: Resolver)
    ensures Parse(t, literal).Ok? <==> Parse(t, "").Ok?
    ensures Parse(t, "").Ok? ==> Expand(Parse(t, literal).value, resolve) == literal + Expand(Parse(t, "").value, resolve)
    decreases |t|
  {
    if t == "" {
      FlushedText(literal, resolve);
      assert literal + "" == literal;
    } else {
      match Next(t)
      case Text(c, n) =>
        LiteralInFront(t[n..], literal + [c], resolve);
        LiteralInFront(t[n..], "" + [c], resolve);
        if Parse(t[n..], "").Ok? { Regroup(literal, c, Expand(Parse(t[n..], "").value, resolve)); }
      case Name(j) => NameAfterLiteral(t, literal, j, resolve);
      case Bad(_) =>
    }
  }

  lemma Regroup(literal: string, c: char, rest: string)
    ensures (literal + [c]) + rest == literal + (("" + [c]) + rest)
  {
    assert "" + [c] == [c];
    Assoc(literal, [c], rest);
  }

  lemma {:induction false} NameJoins(
      literal: string, name: string, a: seq<Segment>, b: seq<Segment>, both: seq<Segment>, resolve: Resolver)
    requires Expand(both, resolve) == Expand(a, resolve) + Expand(b, resolve)
    ensures Expand(Flush(literal) + [Placeholder(name)] + both, resolve)
            == Expand(Flush(literal) + [Placeholder(name)] + a, resolve) + Expand(b, resolve)
  {
    var shown := Shown(Placeholder(name), resolve);
    NameInFront(literal, name, a, resolve);
    NameInFront(literal, name, both, resolve);
    Assoc(shown, Expand(a, resolve), Expand(b, resolve));
    Assoc(literal, shown + Expand(a, resolve), Expand(b, resolve));
  }

  /** If both are accepted, so are the two together, and their texts join. */
  ghost predicate Join(a: string, b: string, literal: string, resolve: Resolver) {
    Parse(a, literal).Ok? && Parse(b, "").Ok? ==>
      && Parse(a + b, literal).Ok?
      && Expand(Parse(a + b, literal).value, resolve)
         == Expand(Parse(a, literal).value, resolve) + Expand(Parse(b, "").value, resolve)
  }

  lemma {:induction false} NothingJoins(b: string, literal: string, resolve: Resolver)
    ensures Join("", b, literal, resolve)
  {
    var both := "" + b;
    assert both == b;
    LiteralInFront(b, literal, resolve);
    FlushedText(literal, resolve);
    assert Parse("", literal) == Ok(Flush(literal));
  }

  lemma {:induction false} JoinAfterText(a: string, b: string, literal: string, c: char, n: nat, resolve: Resolver)
    requires a != "" && Next(a) == Text(c, n) && Join(a[n..], b, literal + [c], resolve)
    ensures Join(a, b, literal, resolve)
  {
    NextIgnoresWhatFollows(a, b);
  }

  lemma {:induction false} JoinAfterName(a: string, b: string, literal: string, j: nat, resolve: Resolver)
    requires a != "" && Next(a) == Name(j) && Join(a[j + 1..], b, "", resolve)
    ensures Join(a, b, literal, resolve)
  {
    if Parse(a, literal).Ok? && Parse(b, "").Ok? {
      NextIgnoresWhatFollows(a, b);
      NameJoins(literal, a[1..j], Parse(a[j + 1..], "").value, Parse(b, "").value, Parse(a[j + 1..] + b, "").value, resolve);
    }
  }

  lemma {:induction false} TextsJoin(a: string, b: string, literal: string, resolve: Resolver)
    ensures Join(a, b, literal, resolve)
    decreases |a|
  {
    if a == "" {
      NothingJoins(b, literal, resolve);
    } else {
      match Next(a)
      case Text(c, n) =>
        TextsJoin(a[n..], b, literal + [c], resolve);
        JoinAfterText(a, b, literal, c, n, resolve);
      case Name(j) =>
        TextsJoin(a[j + 1..], b, "", resolve);
        JoinAfterName(a, b, literal, j, resolve);
      case Bad(_) =>
    }
  }

  /** Two accepted templates one behind the other are accepted, and render to their two texts one behind the other. */
  lemma {:induction false} RenderingJoins(a: string, b: string, resolve: Resolver)
    requires RenderSpec(a, resolve).Ok? && RenderSpec(b, resolve).Ok?
    ensures RenderSpec(a + b, resolve).Ok?
    ensures TextOf(a + b, resolve) == TextOf(a, resolve) + TextOf(b, resolve)
  {
    TextsJoin(a, b, "", resolve);
  }

  /** A placeholder anywhere in a template may be replaced by its value, escaped: the text stays the same. */
  lemma {:induction false} ValueMayReplaceItsName(before: string, name: string, after: string, resolve: Resolver)
    requires RenderSpec(before, resolve).Ok? && RenderSpec(after, resolve).Ok?
    requires name != "" && '{' !in name && '}' !in name && resolve(name).Some?
    ensures var named, replaced := before + ("{" + name + "}") + after, before + Escape(resolve(name).value) + after;
            && RenderSpec(named, resolve).Ok? && RenderSpec(replaced, resolve).Ok?
            && TextOf(named, resolve) == TextOf(replaced, resolve)
            && TextOf(named, resolve) == TextOf(before, resolve) + resolve(name).value + TextOf(after, resolve)
  {
    var v := resolve(name).value;
    PlaceholderRendersItsValue(name, resolve);
    EscapedTextRendersAsItself(v, resolve);
    RenderingJoins(before, "{" + name + "}", resolve);
    RenderingJoins(before + ("{" + name + "}"), after, resolve);
    RenderingJoins(before, Escape(v), resolve);
    RenderingJoins(before + Escape(v), after, resolve);
  }

  /** Only what a context says of the names in a template matters for its text. */
  lemma {:induction false} OnlyItsNamesMatter(segments: seq<Segment>, resolve: Resolver, other: Resolver)
    requires forall name | Placeholder(name) in segments :: resolve(name) == other(name)
    ensures Expand(segments, resolve) == Expand(segments, other)
  {
    if segments != [] {
      var s := segments[0];
      assert s in segments;
      assert s.Placeholder? ==> Placeholder(s.name) == s;
      forall name | Placeholder(name) in segments[1..] ensures resolve(name) == other(name) {
        assert Placeholder(name) in segments;
      }
      OnlyItsNamesMatter(segments[1..], resolve, other);
    }
  }

  // ----- why a text is rejected -----

  /** Behind an accepted text the first thing that cannot be read decides. */
  lemma {:induction false} FirstBadDecides(a: string, b: string, literal: string, error: ParseError)
    requires Parse(a, literal).Ok? && b != "" && Next(b) == Bad(error)
    ensures Parse(a + b, literal) == Err(error)
    decreases |a|
  {
    if a == "" {
      assert a + b == b;
    } else {
      NextIgnoresWhatFollows(a, b);
      match Next(a)
      case Text(c, n) => FirstBadDecides(a[n..], b, literal + [c], error);
      case Name(j) => FirstBadDecides(a[j + 1..], b, "", error);
    }
  }

  lemma {:induction false} OpenedAndNotClosed(name: string, rest: string)
    requires '{' !in name && '}' !in name && (rest == "" || (rest[0] == '{' && name != ""))
    ensures Next("{" + name + rest) == Bad(UnmatchedOpen)
  {
    var t := "{" + name + rest;
    assert t[1..|name| + 1] == name;
    assert name != "" ==> t[1] == name[0];
    NameEndIs(t, 1, |name| + 1);
  }

  lemma {:induction false} OpenedAndClosedAtOnce(rest: string)
    ensures Next("{}" + rest) == Bad(EmptyPlaceholder)
  {
    var t := "{}" + rest;
    assert t[1..1] == "" && t[1] == '}';
    NameEndIs(t, 1, 1);
  }

  /** Behind any accepted text: a brace opened and followed by the end or by another one is unmatched, an empty pair is
      an empty placeholder, and a single closing brace is unmatched. */
  lemma {:induction false} RejectedFor(a: string, name: string, rest: string)
    requires Parse(a, "").Ok? && '{' !in name && '}' !in name
    ensures Parse(a + ("{" + name), "") == Err(UnmatchedOpen)
    ensures name != "" ==> Parse(a + ("{" + name + ("{" + rest)), "") == Err(UnmatchedOpen)
    ensures Parse(a + ("{}" + rest), "") == Err(EmptyPlaceholder)
    ensures rest == "" || rest[0] != '}' ==> Parse(a + ("}" + rest), "") == Err(UnmatchedClose)
  {
    OpenedAndNotClosed(name, "");
    assert "{" + name + "" == "{" + name;
    FirstBadDecides(a, "{" + name, "", UnmatchedOpen);
    if name != "" {
      OpenedAndNotClosed(name, "{" + rest);
      FirstBadDecides(a, "{" + name + ("{" + rest), "", UnmatchedOpen);
    }
    OpenedAndClosedAtOnce(rest);
    FirstBadDecides(a, "{}" + rest, "", EmptyPlaceholder);
    if rest == "" || rest[0] != '}' {
      assert Next("}" + rest) == Bad(UnmatchedClose);
      FirstBadDecides(a, "}" + rest, "", UnmatchedClose);
    }
  }
}
