// BonMot's streaming XML styler: a two-stack machine driven by parser callbacks, and the
// recursive rendering of the element tree that it computes.
module XmlBuilder {
  import opened Options
  import opened StringStyles

  const INTERNAL_TOP_LEVEL_ELEMENT := "BonMotTopLevelContainer"

  type Attributes = map<string, string>

  // Something that can be appended to an attributed string: a string, or a value whose own
  // appending is not modelled.
  datatype Composable = Text(text: string) | Custom(id: nat)

  // A stretch of text under one style.
  datatype Run = Run(style: Style, text: string)

  // What the builder calls out to: XMLStyler objects, transforms and custom composables.
  datatype Env = Env(
    styleFor: (StylerId, string, Attributes, Style) -> Option<Style>,
    prefixFor: (StylerId, string, Attributes) -> Option<Composable>,
    suffixFor: (StylerId, string) -> Option<Composable>,
    transformed: (TransformId, string) -> string,
    customRuns: (nat, Style) -> seq<Run>
  )

  // StringStyle.attributedString(from:) for a style without an XML styler.
  function Styled(env: Env, style: Style, text: string): seq<Run> {
    var t := if text != "" && style.transform.Some? then env.transformed(style.transform.value, text) else text;
    if t == "" then [] else [Run(style, t)]
  }

  function Appended(env: Env, c: Option<Composable>, style: Style): seq<Run> {
    match c
    case None => []
    case Some(Text(text)) => Styled(env, style, text)
    case Some(Custom(id)) => env.customRuns(id, style)
  }

  // ---- The machine ----

  datatype Machine = Machine(attributedString: seq<Run>, styles: seq<Style>, xmlStylers: seq<StylerId>,
      currentString: Option<string>)

  datatype Event =
    | StartElement(name: string, attributes: Attributes)
    | EndElement(name: string)
    | Characters(text: string)

  function Init(styler: StylerId, baseStyle: Style): Machine {
    Machine([], [Strip(baseStyle)], [styler], None)
  }

  predicate Stacked(m: Machine) {
    |m.styles| > 0 && |m.xmlStylers| > 0
  }

  function TopStyle(m: Machine): Style
    requires Stacked(m)
  {
    m.styles[|m.styles| - 1]
  }

  function TopStyler(m: Machine): StylerId
    requires Stacked(m)
  {
    m.xmlStylers[|m.xmlStylers| - 1]
  }

  function Pending(m: Machine): string {
    if m.currentString.Some? then m.currentString.value else ""
  }

  // foundNewString
  function Flush(env: Env, m: Machine): (r: Machine)
    requires Stacked(m)
    ensures Stacked(r) && r.currentString == None && r.styles == m.styles && r.xmlStylers == m.xmlStylers
  {
    if m.currentString.None? then m
    else m.(attributedString := m.attributedString + Styled(env, TopStyle(m), m.currentString.value),
        currentString := None)
  }

  // The style that an element adds to the one around it, XML styler included.
  function Entered(env: Env, styler: StylerId, style: Style, name: string, attributes: Attributes): Style {
    var named := env.styleFor(styler, name, attributes, style);
    if named.Some? then Combine(style, named.value) else style
  }

  // enter(element:attributes:)
  function Enter(env: Env, m: Machine, name: string, attributes: Attributes): (r: Machine)
    requires Stacked(m)
    ensures Stacked(r)
  {
    if name == INTERNAL_TOP_LEVEL_ELEMENT then m else
    var styler := TopStyler(m);
    var newStyle := Entered(env, styler, TopStyle(m), name, attributes);
    var inner := if newStyle.xmlStyler.Some? then newStyle.xmlStyler.value else styler;
    var own := Strip(newStyle);
    m.(xmlStylers := m.xmlStylers + [inner], styles := m.styles + [own],
       attributedString := m.attributedString + Appended(env, env.prefixFor(styler, name, attributes), own))
  }

  // exit(element:)
  function Exit(env: Env, m: Machine, name: string): Machine
    requires Stacked(m)
  {
    m.(attributedString := m.attributedString + Appended(env, env.suffixFor(TopStyler(m), name), TopStyle(m)),
       styles := m.styles[..|m.styles| - 1], xmlStylers := m.xmlStylers[..|m.xmlStylers| - 1])
  }

  // One callback. None is the trap on an empty stack, which a container tag with no text
  // pending does not look at.
  function Step(env: Env, m: Machine, e: Event): Option<Machine> {
    match e
    case Characters(text) => Some(m.(currentString := Some(Pending(m) + text)))
    case StartElement(name, attributes) =>
      if !Stacked(m) then (if m.currentString == None && name == INTERNAL_TOP_LEVEL_ELEMENT then Some(m) else None)
      else Some(Enter(env, Flush(env, m), name, attributes))
    case EndElement(name) =>
      if !Stacked(m) then (if m.currentString == None && name == INTERNAL_TOP_LEVEL_ELEMENT then Some(m) else None)
      else if name == INTERNAL_TOP_LEVEL_ELEMENT then Some(Flush(env, m))
      else Some(Exit(env, Flush(env, m), name))
  }

  function Drive(env: Env, m: Machine, events: seq<Event>): Option<Machine>
    decreases |events|
  {
    if events == [] then Some(m)
    else
      var next := Step(env, m, events[0]);
      if next.None? then None else Drive(env, next.value, events[1..])
  }

  lemma {:induction false} DriveConcat(env: Env, m: Machine, a: seq<Event>, b: seq<Event>)
    ensures var r := Drive(env, m, a);
            Drive(env, m, a + b) == if r.None? then None else Drive(env, r.value, b)
    decreases |a|
  {
    hide Step;
    if a == [] {
      assert a + b == b;
    } else {
      assert (a + b)[0] == a[0] && (a + b)[1..] == a[1..] + b;
      var next := Step(env, m, a[0]);
      if next.Some? {
        DriveConcat(env, next.value, a[1..], b);
      }
    }
  }

  // ---- Element trees ----

  // A list of sibling nodes; a text node is the list of chunks the parser reports it in.
  datatype Forest =
    | Done
    | TextThen(chunks: seq<string>, rest: Forest)
    | ElementThen(name: string, attributes: Attributes, kids: Forest, rest: Forest)

  function Chunks(chunks: seq<string>): seq<Event> {
    if chunks == [] then [] else [Characters(chunks[0])] + Chunks(chunks[1..])
  }

  // The callbacks for a forest, in document order.
  function Events(f: Forest): seq<Event> {
    match f
    case Done => []
    case TextThen(chunks, rest) => Chunks(chunks) + Events(rest)
    case ElementThen(name, attributes, kids, rest) =>
      [StartElement(name, attributes)] + Events(kids) + [EndElement(name)] + Events(rest)
  }

  function Joined(chunks: seq<string>): string {
    if chunks == [] then "" else chunks[0] + Joined(chunks[1..])
  }

  function Size(f: Forest): nat {
    match f
    case Done => 0
    case TextThen(_, rest) => 1 + Size(rest)
    case ElementThen(_, _, kids, rest) => 1 + Size(kids) + Size(rest)
  }

  // The meaning of a forest under a styler and a style: text is styled whole, an element
  // renders its prefix with the styler around it, its children with its own, and its suffix
  // with its own; the container element is transparent.
  function Render(env: Env, styler: StylerId, style: Style, f: Forest): seq<Run>
    decreases Size(f), 0
  {
    match f
    case Done => []
    case TextThen(c, TextThen(d, rest)) => assert Size(f) ==
      2 + Size(rest); Render(env, styler, style, TextThen(c + d, rest))
    case TextThen(chunks, rest) => Styled(env, style, Joined(chunks)) + Render(env, styler, style, rest)
    case ElementThen(name, attributes, kids, rest) =>
      RenderElement(env, styler, style, name, attributes, kids) + Render(env, styler, style, rest)
  }

  function RenderElement(env: Env, styler: StylerId, style: Style, name: string, attributes: Attributes,
                         kids: Forest): seq<Run>
    decreases Size(kids), 1
  {
    if name == INTERNAL_TOP_LEVEL_ELEMENT then Render(env, styler, style, kids) else
    var full := Entered(env, styler, style, name, attributes);
    var inner := if full.xmlStyler.Some? then full.xmlStyler.value else styler;
    var own := Strip(full);
    Appended(env, env.prefixFor(styler, name, attributes), own)
    + Render(env, inner, own, kids)
    + Appended(env, env.suffixFor(inner, name), own)
  }

  // ---- The machine computes the meaning ----

  function Written(m: Machine, runs: seq<Run>): Machine {
    m.(attributedString := m.attributedString + runs)
  }

  lemma {:induction false} JoinedConcat(c: seq<string>, d: seq<string>)
    ensures Joined(c + d) == Joined(c) + Joined(d)
  {
    if c == [] {
      assert c + d == d;
    } else {
      assert (c + d)[0] == c[0] && (c + d)[1..] == c[1..] + d;
      JoinedConcat(c[1..], d);
    }
  }

  lemma {:induction false} ChunksConcat(c: seq<string>, d: seq<string>)
    ensures Chunks(c + d) == Chunks(c) + Chunks(d)
  {
    if c == [] {
      assert c + d == d;
    } else {
      assert (c + d)[0] == c[0] && (c + d)[1..] == c[1..] + d;
      ChunksConcat(c[1..], d);
    }
  }

  // Chunks accumulate into one pending string.
  lemma {:induction false} DriveChunks(env: Env, m: Machine, chunks: seq<string>)
    ensures Drive(env, m, Chunks(chunks)) == Some(if chunks == [] then m
            else m.(currentString := Some(Pending(m) + Joined(chunks))))
    decreases |chunks|
  {
    hide Enter, Exit, Flush, Styled;
    if chunks != [] {
      var next := m.(currentString := Some(Pending(m) + chunks[0]));
      assert Chunks(chunks) == [Characters(chunks[0])] + Chunks(chunks[1..]);
      DriveConcat(env, m, [Characters(chunks[0])], Chunks(chunks[1..]));
      assert Drive(env, m, [Characters(chunks[0])]) == Some(next);
      DriveChunks(env, next, chunks[1..]);
      AppendAssociative(Pending(m), chunks[0], Joined(chunks[1..]));
      if |chunks| == 1 {
        assert Joined(chunks) == chunks[0] + "" == chunks[0];
      }
    }
  }

  // A machine with pending text behaves at the next tag like one that has just written it.
  lemma FlushFirst(env: Env, m: Machine, e: Event, rest: seq<Event>)
    requires Stacked(m) && !e.Characters?
    ensures Drive(env, m, [e] + rest) == Drive(env, Flush(env, m), [e] + rest)
  {
    hide Enter, Exit;
    assert ([e] + rest)[0] == e;
  }

  ghost predicate Renders(env: Env, m: Machine, f: Forest)
    requires Stacked(m)
  {
    var r := Drive(env, m, Events(f));
    r.Some? && Stacked(r.value) && Flush(env, r.value) == Written(m, Render(env, TopStyler(m), TopStyle(m), f))
  }

  // From any machine with nothing pending, the events of a forest append exactly its
  // rendering and leave both stacks as they were.
  lemma {:induction false} DriveRenders(env: Env, m: Machine, f: Forest)
    requires Stacked(m) && m.currentString == None
    ensures Renders(env, m, f)
    decreases Size(f), 0
  {
    hide Enter, Exit, Styled, RenderElement;
    match f
    case Done =>
    case TextThen(c, TextThen(d, rest)) =>
      assert Size(f) == 2 + Size(rest);
      ChunksConcat(c, d);
      assert Events(f) == Events(TextThen(c + d, rest));
      DriveRenders(env, m, TextThen(c + d, rest));
    case TextThen(chunks, rest) =>
      TextRenders(env, m, chunks, rest);
    case ElementThen(name, attributes, kids, rest) =>
      ElementRenders(env, m, name, attributes, kids);
      DriveRenders(env, Written(m, RenderElement(env, TopStyler(m), TopStyle(m), name, attributes, kids)), rest);
      ElementThenRenders(env, m, name, attributes, kids, rest);
  }

  // An element followed by its siblings.
  lemma ElementThenRenders(env: Env, m: Machine, name: string, attributes: Attributes, kids: Forest, rest: Forest)
    requires Stacked(m)
    requires var after := Written(m, RenderElement(env, TopStyler(m), TopStyle(m), name, attributes, kids));
             && Drive(env, m, [StartElement(name, attributes)] + Events(kids) + [EndElement(name)]) == Some(after)
             && Renders(env, after, rest)
    ensures Renders(env, m, ElementThen(name, attributes, kids, rest))
  {
    hide Drive, RenderElement, Flush;
    var start := [StartElement(name, attributes)] + Events(kids) + [EndElement(name)];
    DriveConcat(env, m, start, Events(rest));
    WrittenTwice(m, RenderElement(env, TopStyler(m), TopStyle(m), name, attributes, kids),
        Render(env, TopStyler(m), TopStyle(m), rest));
  }

  lemma {:induction false} TextRenders(env: Env, m: Machine, chunks: seq<string>, rest: Forest)
    requires Stacked(m) && m.currentString == None && !rest.TextThen?
    ensures Renders(env, m, TextThen(chunks, rest))
    decreases Size(rest), 1
  {
    hide Enter, Exit, RenderElement, Step, Styled, Chunks, Joined;
    var f := TextThen(chunks, rest);
    var text := Styled(env, TopStyle(m), Joined(chunks));
    var written := Written(m, text);
    var pending := if chunks == [] then m else m.(currentString := Some(Joined(chunks)));
    DriveChunks(env, m, chunks);
    PendingText(env, m, chunks);
    DriveConcat(env, m, Chunks(chunks), Events(rest));
    DriveRenders(env, written, rest);
    if rest.ElementThen? {
      var tail := Events(rest.kids) + [EndElement(rest.name)] + Events(rest.rest);
      assert Events(rest) == [StartElement(rest.name, rest.attributes)] + tail;
      FlushFirst(env, pending, StartElement(rest.name, rest.attributes), tail);
    }
    WrittenTwice(m, text, Render(env, TopStyler(m), TopStyle(m), rest));
  }

  lemma PendingText(env: Env, m: Machine, chunks: seq<string>)
    requires Stacked(m) && m.currentString == None
    ensures "" + Joined(chunks) == Joined(chunks)
    ensures var pending := if chunks == [] then m else m.(currentString := Some(Joined(chunks)));
            Flush(env, pending) == Written(m, Styled(env, TopStyle(m), Joined(chunks)))
  {
    hide Styled;
    if chunks == [] {
      StyledEmpty(env, TopStyle(m));
      assert Flush(env, m).attributedString == m.attributedString + [];
    }
  }

  lemma StyledEmpty(env: Env, style: Style)
    ensures Styled(env, style, "") == []
  {
  }

  lemma WrittenTwice(m: Machine, a: seq<Run>, b: seq<Run>)
    ensures Written(Written(m, a), b) == Written(m, a + b)
  {
    AppendAssociative(m.attributedString, a, b);
  }

  lemma {:induction false} ElementRenders(env: Env, m: Machine, name: string, attributes: Attributes, kids: Forest)
    requires Stacked(m) && m.currentString == None
    ensures Drive(env, m, [StartElement(name, attributes)] + Events(kids) + [EndElement(name)]) ==
            Some(Written(m, RenderElement(env, TopStyler(m), TopStyle(m), name, attributes, kids)))
    decreases Size(kids), 1
  {
    hide Appended, Entered, Styled;
    var inside := Enter(env, m, name, attributes);
    DriveRenders(env, inside, kids);
    var r := Drive(env, inside, Events(kids)).value;
    DriveConcat(env, m, [StartElement(name, attributes)], Events(kids));
    DriveConcat(env, m, [StartElement(name, attributes)] + Events(kids), [EndElement(name)]);
    var rendered := Render(env, TopStyler(inside), TopStyle(inside), kids);
    assert Flush(env, r) == Written(inside, rendered);
    assert Drive(env, m, [StartElement(name, attributes)]) == Some(inside);
    assert Drive(env, r, [EndElement(name)]) == Step(env, r, EndElement(name));
    if name != INTERNAL_TOP_LEVEL_ELEMENT {
      ExitUndoesEnter(env, m, name, attributes, rendered);
    }
  }

  // Leaving an element pops exactly what entering it pushed.
  lemma ExitUndoesEnter(env: Env, m: Machine, name: string, attributes: Attributes, runs: seq<Run>)
    requires Stacked(m) && name != INTERNAL_TOP_LEVEL_ELEMENT
    ensures var inside := Enter(env, m, name, attributes);
            var full := Entered(env, TopStyler(m), TopStyle(m), name, attributes);
            && TopStyle(inside) == Strip(full)
            && TopStyler(inside) == (if full.xmlStyler.Some? then full.xmlStyler.value else TopStyler(m))
            && Exit(env, Written(inside, runs), name) ==
               Written(m, Appended(env, env.prefixFor(TopStyler(m), name, attributes), TopStyle(inside))
                          + runs + Appended(env, env.suffixFor(TopStyler(inside), name), TopStyle(inside)))
  {
    hide Appended, Entered;
    var inside := Enter(env, m, name, attributes);
    assert inside.styles[..|inside.styles| - 1] == m.styles;
    assert inside.xmlStylers[..|inside.xmlStylers| - 1] == m.xmlStylers;
  }

  // A whole document: the fragment wrapped in the container element.
  function Document(f: Forest): Forest {
    ElementThen(INTERNAL_TOP_LEVEL_ELEMENT, map[], f, Done)
  }

  // Parsing a wrapped fragment yields exactly its rendering, and both stacks as they began.
  lemma DocumentRenders(env: Env, styler: StylerId, baseStyle: Style, f: Forest)
    ensures Drive(env, Init(styler, baseStyle), Events(Document(f))) ==
            Some(Init(styler, baseStyle).(attributedString := Render(env, styler, Strip(baseStyle), f)))
  {
    hide Render;
    var m := Init(styler, baseStyle);
    ElementRenders(env, m, INTERNAL_TOP_LEVEL_ELEMENT, map[], f);
    assert Events(Done) == [];
    assert Events(Document(f)) == [StartElement(INTERNAL_TOP_LEVEL_ELEMENT,
           map[])] + Events(f) + [EndElement(INTERNAL_TOP_LEVEL_ELEMENT)];
    assert [] + Render(env, styler, Strip(baseStyle), f) == Render(env, styler, Strip(baseStyle), f);
  }

  // A transform sees the text whole, however the parser has split it: text without a transform
  // is one run as it is, text under one is one run of what the transform makes of it, and
  // empty text is no run.
  lemma TextIsTransformedWhole(env: Env, styler: StylerId, base: Style, chunks: seq<string>)
    ensures var done := Drive(env, Init(styler, base), Events(Document(TextThen(chunks, Done))));
            var text := Joined(chunks);
            && done.Some?
            && (text == "" ==> done.value.attributedString == [])
            && (text != "" && base.transform == None ==> done.value.attributedString == [Run(Strip(base), text)])
            && (text != "" && base.transform.Some? ==>
                  var t := env.transformed(base.transform.value, text);
                  done.value.attributedString == if t == "" then [] else [Run(Strip(base), t)])
  {
    hide Drive, Events, Joined;
    var f := TextThen(chunks, Done);
    DocumentRenders(env, styler, base, f);
    assert Render(env, styler, Strip(base), f) == Styled(env, Strip(base), Joined(chunks)) + [];
  }

  // ---- How the text is chunked does not matter ----

  // The same forest with every text node in one chunk.
  function Unchunked(f: Forest): Forest {
    match f
    case Done => Done
    case TextThen(chunks, rest) => TextThen([Joined(chunks)], Unchunked(rest))
    case ElementThen(name, attributes, kids, rest) => ElementThen(name, attributes, Unchunked(kids), Unchunked(rest))
  }

  lemma {:induction false} ChunkingIsInvisible(env: Env, styler: StylerId, style: Style, f: Forest, g: Forest)
    requires Unchunked(f) == Unchunked(g)
    ensures Render(env, styler, style, f) == Render(env, styler, style, g)
    decreases Size(f)
  {
    hide Styled, Appended, Entered;
    match f
    case Done =>
    case TextThen(c, TextThen(d, rest)) =>
      assert Size(f) == 2 + Size(rest);
      var c', d', rest' := g.chunks, g.rest.chunks, g.rest.rest;
      SameText(c, c');
      SameText(d, d');
      JoinedConcat(c, d);
      JoinedConcat(c', d');
      ChunkingIsInvisible(env, styler, style, TextThen(c + d, rest), TextThen(c' + d', rest'));
    case TextThen(chunks, rest) =>
      SameText(chunks, g.chunks);
      ChunkingIsInvisible(env, styler, style, rest, g.rest);
    case ElementThen(name, attributes, kids, rest) =>
      ChunkingIsInvisible(env, styler, style, rest, g.rest);
      if name == INTERNAL_TOP_LEVEL_ELEMENT {
        ChunkingIsInvisible(env, styler, style, kids, g.kids);
      } else {
        var full := Entered(env, styler, style, name, attributes);
        var inner := if full.xmlStyler.Some? then full.xmlStyler.value else styler;
        ChunkingIsInvisible(env, inner, Strip(full), kids, g.kids);
      }
  }

  lemma SameText(c: seq<string>, d: seq<string>)
    requires [Joined(c)] == [Joined(d)]
    ensures Joined(c) == Joined(d)
  {
    assert [Joined(c)][0] == [Joined(d)][0];
  }

  // ---- The stacks at every moment ----

  // The number of elements left open by a list of callbacks, if it never closes more than it
  // has opened. The container element does not count.
  function OpenAfter(events: seq<Event>, open: nat): Option<nat>
    decreases |events|
  {
    if events == [] then Some(open) else
    match events[0]
    case Characters(_) => OpenAfter(events[1..], open)
    case StartElement(name, _) => OpenAfter(events[1..], if name == INTERNAL_TOP_LEVEL_ELEMENT then open else open + 1)
    case EndElement(name) =>
      if name == INTERNAL_TOP_LEVEL_ELEMENT then OpenAfter(events[1..], open)
      else if open == 0 then None
      else OpenAfter(events[1..], open - 1)
  }

  // One entry a level on both stacks, and no XML styler inside a stacked style.
  ghost predicate WellStacked(m: Machine, open: nat) {
    && |m.styles| == |m.xmlStylers| == 1 + open
    && forall k :: 0 <= k < |m.styles| ==> m.styles[k].xmlStyler == None
  }

  lemma EnterStacks(env: Env, m: Machine, name: string, attributes: Attributes, open: nat)
    requires WellStacked(m, open)
    ensures WellStacked(Enter(env, m, name, attributes), if name == INTERNAL_TOP_LEVEL_ELEMENT then open else open + 1)
  {
    hide Entered, Appended;
  }

  // Callbacks that never close more than they opened never meet an empty stack.
  lemma {:induction false} StacksFollowDepth(env: Env, m: Machine, events: seq<Event>, open: nat)
    requires WellStacked(m, open) && OpenAfter(events, open).Some?
    ensures var r := Drive(env, m, events);
            r.Some? && WellStacked(r.value, OpenAfter(events, open).value)
    decreases |events|
  {
    hide Enter, Appended, Styled;
    if events != [] {
      var flushed := Flush(env, m);
      match events[0]
      case Characters(_) =>
        StacksFollowDepth(env, Step(env, m, events[0]).value, events[1..], open);
      case StartElement(name, attributes) =>
        EnterStacks(env, flushed, name, attributes, open);
        StacksFollowDepth(env, Enter(env, flushed, name, attributes), events[1..],
            if name == INTERNAL_TOP_LEVEL_ELEMENT then open else open + 1);
      case EndElement(name) =>
        StacksFollowDepth(env, Step(env, m, events[0]).value, events[1..], if name == INTERNAL_TOP_LEVEL_ELEMENT
            then open else open - 1);
    }
  }

  lemma {:induction false} OpenConcat(a: seq<Event>, b: seq<Event>, open: nat)
    ensures OpenAfter(a + b, open) == if OpenAfter(a, open).None? then None else OpenAfter(b, OpenAfter(a, open).value)
    decreases |a|
  {
    if a == [] {
      assert a + b == b;
    } else {
      assert (a + b)[0] == a[0] && (a + b)[1..] == a[1..] + b;
      match a[0]
      case Characters(_) => OpenConcat(a[1..], b, open);
      case StartElement(name, _) => OpenConcat(a[1..], b, if name == INTERNAL_TOP_LEVEL_ELEMENT then open
        else open + 1);
      case EndElement(name) =>
        if name == INTERNAL_TOP_LEVEL_ELEMENT {
          OpenConcat(a[1..], b, open);
        } else if open > 0 {
          OpenConcat(a[1..], b, open - 1);
        }
    }
  }

  lemma {:induction false} OpenAfterChunks(chunks: seq<string>, open: nat)
    ensures OpenAfter(Chunks(chunks), open) == Some(open)
  {
    if chunks != [] {
      assert Chunks(chunks)[1..] == Chunks(chunks[1..]);
      OpenAfterChunks(chunks[1..], open);
    }
  }

  // The callbacks of a forest close all they open.
  lemma {:induction false} OpenAfterForest(f: Forest, open: nat)
    ensures OpenAfter(Events(f), open) == Some(open)
  {
    match f
    case Done =>
    case TextThen(chunks, rest) =>
      OpenAfterChunks(chunks, open);
      OpenConcat(Chunks(chunks), Events(rest), open);
      OpenAfterForest(rest, open);
    case ElementThen(name, attributes, kids, rest) =>
      var inner := if name == INTERNAL_TOP_LEVEL_ELEMENT then open else open + 1;
      var start, end := [StartElement(name, attributes)], [EndElement(name)];
      OpenAfterForest(kids, inner);
      OpenAfterForest(rest, open);
      OpenConcat(start, Events(kids), open);
      OpenConcat(start + Events(kids), end, open);
      OpenConcat(start + Events(kids) + end, Events(rest), open);
      assert OpenAfter(start, open) == Some(inner);
      assert OpenAfter(end, inner) == Some(open);
  }

  // At every moment of parsing any document, both stacks hold one entry more than there are
  // open elements, so neither is ever empty, and no stacked style carries an XML styler.
  lemma StacksAtEveryMoment(env: Env, styler: StylerId, baseStyle: Style, f: Forest, k: nat)
    requires k <= |Events(f)|
    ensures var open := OpenAfter(Events(f)[..k], 0);
            var r := Drive(env, Init(styler, baseStyle), Events(f)[..k]);
            open.Some? && r.Some? && Stacked(r.value) && WellStacked(r.value, open.value)
  {
    hide OpenAfter, Drive, Events;
    OpenAfterForest(f, 0);
    OpenConcat(Events(f)[..k], Events(f)[k..], 0);
    assert Events(f)[..k] + Events(f)[k..] == Events(f);
    StacksFollowDepth(env, Init(styler, baseStyle), Events(f)[..k], 0);
  }

  // ---- The builder object ----

  class XMLBuilder {
    const env: Env
    var attributedString: seq<Run>
    var styles: seq<Style>
    var xmlStylers: seq<StylerId>
    var currentString: Option<string>

    function Snapshot(): Machine
      reads this
    {
      Machine(attributedString, styles, xmlStylers, currentString)
    }

    constructor (env: Env, styler: StylerId, baseStyle: Style)
      ensures Snapshot() == Init(styler, baseStyle) && this.env == env
    {
      this.env := env;
      attributedString, styles, xmlStylers, currentString := [], [Strip(baseStyle)], [styler], None;
    }

    method FoundNewString()
      requires Stacked(Snapshot())
      modifies this
      ensures Snapshot() == Flush(env, old(Snapshot()))
    {
      if currentString.Some? {
        attributedString := attributedString + Styled(env, styles[|styles| - 1], currentString.value);
        currentString := None;
      }
    }

    method EnterElement(name: string, attributes: Attributes)
      requires Stacked(Snapshot())
      modifies this
      ensures Snapshot() == Enter(env, old(Snapshot()), name, attributes)
    {
      if name == INTERNAL_TOP_LEVEL_ELEMENT {
        return;
      }
      var topStyle, xmlStyler := styles[|styles| - 1], xmlStylers[|xmlStylers| - 1];
      var namedStyle := env.styleFor(xmlStyler, name, attributes, topStyle);
      var newStyle := new StringStyle.Copy(topStyle);
      if namedStyle.Some? {
        newStyle.AddStringStyle(namedStyle.value);
      }
      xmlStylers := xmlStylers + [if newStyle.xmlStyler.Some? then newStyle.xmlStyler.value else xmlStyler];
      newStyle.xmlStyler := None;
      styles := styles + [newStyle.Snapshot()];
      attributedString := attributedString + Appended(env, env.prefixFor(xmlStyler, name, attributes),
          newStyle.Snapshot());
    }

    method ExitElement(name: string)
      requires Stacked(Snapshot())
      modifies this
      ensures Snapshot() == Exit(env, old(Snapshot()), name)
    {
      var suffix := env.suffixFor(xmlStylers[|xmlStylers| - 1], name);
      if suffix.Some? {
        attributedString := attributedString + Appended(env, suffix, styles[|styles| - 1]);
      }
      styles := styles[..|styles| - 1];
      xmlStylers := xmlStylers[..|xmlStylers| - 1];
    }

    method DidStartElement(name: string, attributes: Attributes)
      requires Stacked(Snapshot())
      modifies this
      ensures Some(Snapshot()) == Step(env, old(Snapshot()), StartElement(name, attributes))
    {
      FoundNewString();
      EnterElement(name, attributes);
    }

    method DidEndElement(name: string)
      requires Stacked(Snapshot())
      modifies this
      ensures Some(Snapshot()) == Step(env, old(Snapshot()), EndElement(name))
    {
      FoundNewString();
      if name == INTERNAL_TOP_LEVEL_ELEMENT {
        return;
      }
      ExitElement(name);
    }

    method FoundCharacters(text: string)
      modifies this
      ensures Some(Snapshot()) == Step(env, old(Snapshot()), Characters(text))
    {
      currentString := Some((if currentString.Some? then currentString.value else "") + text);
    }

    // The parser reporting a well-formed fragment to a builder in its initial state: the
    // string ends up as the rendering of the tree, and the stacks as they began.
    method ParseAttributedString(f: Forest, ghost styler: StylerId, ghost baseStyle: Style) returns (r: seq<Run>)
      requires Snapshot() == Init(styler, baseStyle)
      modifies this
      ensures r == Render(env, styler, Strip(baseStyle), f)
      ensures Snapshot() == Init(styler, baseStyle).(attributedString := r)
    {
      hide Step, Render, Events, OpenAfter;
      var events := Events(Document(f));
      var k := 0;
      ghost var start := Snapshot();
      DocumentRenders(env, styler, baseStyle, f);
      while k < |events|
        invariant 0 <= k <= |events|
        invariant Drive(env, start, events[..k]) == Some(Snapshot())
      {
        StacksAtEveryMoment(env, styler, baseStyle, Document(f), k);
        DriveOneMore(env, start, events, k);
        match events[k] {
          case StartElement(name, attributes) => DidStartElement(name, attributes);
          case EndElement(name) => DidEndElement(name);
          case Characters(text) => FoundCharacters(text);
        }
        k := k + 1;
      }
      assert events[..k] == events;
      r := attributedString;
    }
  }

  lemma DriveOneMore(env: Env, m: Machine, events: seq<Event>, k: nat)
    requires k < |events|
    ensures var r := Drive(env, m, events[..k]);
            Drive(env, m, events[..k + 1]) == if r.None? then None else Step(env, r.value, events[k])
  {
    hide Step;
    var r := Drive(env, m, events[..k]);
    DriveConcat(env, m, events[..k], [events[k]]);
    assert events[..k + 1] == events[..k] + [events[k]];
    if r.Some? {
      assert Drive(env, r.value, [events[k]]) == Step(env, r.value, events[k]);
    }
  }
}
