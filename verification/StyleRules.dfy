// The rule-based XML styler, and what it makes of nested elements: the style of any text is
// the base style plus one style combined from its ancestors.
module StyleRules {
  import opened Options
  import opened StringStyles
  import opened XmlBuilder

  datatype Rule =
    | Styles(named: string -> Option<Style>)
    | StyleOf(name: string, style: Style)
    | StyleBlock(name: string, block: Attributes -> Style)
    | EnterWith(name: string, insert: Composable)
    | EnterBlock(name: string, insertFor: Attributes -> Composable)
    | ExitWith(name: string, insert: Composable)
    | ExitBlock(name: string, insertNow: () -> Composable)

  // The first rule that styles this very element, if any.
  function OwnStyle(rules: seq<Rule>, name: string, attributes: Attributes): Option<Style> {
    if rules == [] then None else
    match rules[0]
    case StyleOf(n, style) => if n == name then Some(style) else OwnStyle(rules[1..], name, attributes)
    case StyleBlock(n, block) => if n == name then Some(block(attributes)) else OwnStyle(rules[1..], name, attributes)
    case _ => OwnStyle(rules[1..], name, attributes)
  }

  // The first collection of named styles answers, even when it has no such name.
  function SharedStyle(rules: seq<Rule>, name: string): Option<Style> {
    if rules == [] then None
    else if rules[0].Styles? then rules[0].named(name)
    else SharedStyle(rules[1..], name)
  }

  // style(forElement:attributes:currentStyle:)
  function RuleStyle(rules: seq<Rule>, name: string, attributes: Attributes): Option<Style> {
    var own := OwnStyle(rules, name, attributes);
    if own.Some? then own else SharedStyle(rules, name)
  }

  // prefix(forElement:attributes:)
  function RulePrefix(rules: seq<Rule>, name: string, attributes: Attributes): Option<Composable> {
    if rules == [] then None else
    match rules[0]
    case EnterWith(n, insert) => if n == name then Some(insert) else RulePrefix(rules[1..], name, attributes)
    case EnterBlock(n, insertFor) => if n == name then Some(insertFor(attributes))
      else RulePrefix(rules[1..], name, attributes)
    case _ => RulePrefix(rules[1..], name, attributes)
  }

  // suffix(forElement:)
  function RuleSuffix(rules: seq<Rule>, name: string): Option<Composable> {
    if rules == [] then None else
    match rules[0]
    case ExitWith(n, insert) => if n == name then Some(insert) else RuleSuffix(rules[1..], name)
    case ExitBlock(n, insertNow) => if n == name then Some(insertNow()) else RuleSuffix(rules[1..], name)
    case _ => RuleSuffix(rules[1..], name)
  }

  // ---- Priority between rules ----

  predicate StylesElement(r: Rule, name: string) {
    (r.StyleOf? || r.StyleBlock?) && r.name == name
  }

  // An element's style comes from its own first rule wherever that stands, and only without
  // one from the first collection of named styles.
  lemma {:induction false} FirstRuleWins(rules: seq<Rule>, name: string, attributes: Attributes, k: nat)
    requires k < |rules|
    requires StylesElement(rules[k], name) && forall j :: 0 <= j < k ==> !StylesElement(rules[j], name)
    ensures RuleStyle(rules, name, attributes) ==
            Some(if rules[k].StyleOf? then rules[k].style else rules[k].block(attributes))
  {
    if k > 0 {
      FirstRuleWins(rules[1..], name, attributes, k - 1);
      OwnStyleFound(rules[1..], name, attributes, k - 1);
    }
  }

  lemma {:induction false} OwnStyleFound(rules: seq<Rule>, name: string, attributes: Attributes, k: nat)
    requires k < |rules| && StylesElement(rules[k], name)
    ensures OwnStyle(rules, name, attributes).Some?
  {
    if k > 0 {
      OwnStyleFound(rules[1..], name, attributes, k - 1);
    }
  }

  lemma {:induction false} NamedStylesAreLast(rules: seq<Rule>, name: string, attributes: Attributes, k: nat)
    requires k < |rules| && rules[k].Styles?
    requires forall j :: 0 <= j < |rules| ==> !StylesElement(rules[j], name)
    requires forall j :: 0 <= j < k ==> !rules[j].Styles?
    ensures RuleStyle(rules, name, attributes) == rules[k].named(name)
  {
    OwnStyleMissing(rules, name, attributes);
    SharedStyleFound(rules, name, k);
  }

  lemma {:induction false} OwnStyleMissing(rules: seq<Rule>, name: string, attributes: Attributes)
    requires forall j :: 0 <= j < |rules| ==> !StylesElement(rules[j], name)
    ensures OwnStyle(rules, name, attributes) == None
  {
    if rules != [] {
      assert !StylesElement(rules[0], name);
      OwnStyleMissing(rules[1..], name, attributes);
    }
  }

  lemma {:induction false} SharedStyleFound(rules: seq<Rule>, name: string, k: nat)
    requires k < |rules| && rules[k].Styles?
    requires forall j :: 0 <= j < k ==> !rules[j].Styles?
    ensures SharedStyle(rules, name) == rules[k].named(name)
  {
    if k > 0 {
      SharedStyleFound(rules[1..], name, k - 1);
    }
  }

  // ---- What rules insert ----

  predicate InsertsBefore(r: Rule, name: string) {
    (r.EnterWith? || r.EnterBlock?) && r.name == name
  }

  predicate InsertsAfter(r: Rule, name: string) {
    (r.ExitWith? || r.ExitBlock?) && r.name == name
  }

  // Rule k is the first one that inserts before an element of that name; |rules| is none.
  predicate FirstBefore(rules: seq<Rule>, name: string, k: nat) {
    && k <= |rules| && (k < |rules| ==> InsertsBefore(rules[k], name))
    && forall j :: 0 <= j < k ==> !InsertsBefore(rules[j], name)
  }

  predicate FirstAfter(rules: seq<Rule>, name: string, k: nat) {
    && k <= |rules| && (k < |rules| ==> InsertsAfter(rules[k], name))
    && forall j :: 0 <= j < k ==> !InsertsAfter(rules[j], name)
  }

  // What it inserts: a block before an element is given the element's attributes.
  function InsertBefore(rules: seq<Rule>, k: nat, attributes: Attributes): Option<Composable>
    requires k < |rules| ==> rules[k].EnterWith? || rules[k].EnterBlock?
  {
    if k >= |rules| then None
    else Some(if rules[k].EnterWith? then rules[k].insert else rules[k].insertFor(attributes))
  }

  function InsertAfter(rules: seq<Rule>, k: nat): Option<Composable>
    requires k < |rules| ==> rules[k].ExitWith? || rules[k].ExitBlock?
  {
    if k >= |rules| then None
    else Some(if rules[k].ExitWith? then rules[k].insert else rules[k].insertNow())
  }

  // The first enter rule with the element's name inserts before it; without one nothing does.
  lemma {:induction false} FirstEnterRuleInserts(rules: seq<Rule>, name: string, attributes: Attributes, k: nat)
    requires FirstBefore(rules, name, k)
    ensures RulePrefix(rules, name, attributes) == InsertBefore(rules, k, attributes)
  {
    if k > 0 {
      assert !InsertsBefore(rules[0], name);
      assert FirstBefore(rules[1..], name, k - 1);
      FirstEnterRuleInserts(rules[1..], name, attributes, k - 1);
    }
  }

  // The first exit rule with the element's name inserts after it; without one nothing does.
  lemma {:induction false} FirstExitRuleInserts(rules: seq<Rule>, name: string, k: nat)
    requires FirstAfter(rules, name, k)
    ensures RuleSuffix(rules, name) == InsertAfter(rules, k)
  {
    if k > 0 {
      assert !InsertsAfter(rules[0], name);
      assert FirstAfter(rules[1..], name, k - 1);
      FirstExitRuleInserts(rules[1..], name, k - 1);
    }
  }

  // ---- Nested elements ----

  // Every XML styler is rule-based: it does not look at the style around the element.
  function RuleEnv(rulesOf: StylerId -> seq<Rule>, transformed: (TransformId, string) -> string,
                   customRuns: (nat, Style) -> seq<Run>): Env {
    Env(
      (id: StylerId, name, attributes, current) => RuleStyle(rulesOf(id), name, attributes),
      (id: StylerId, name, attributes) => RulePrefix(rulesOf(id), name, attributes),
      (id: StylerId, name) => RuleSuffix(rulesOf(id), name),
      transformed, customRuns)
  }

  // Under rules, an element is what its first enter rule inserts, its children, and what its
  // first exit rule inserts, all under the style around it plus its own. The enter rule and
  // the style are those of the styler around it, the exit rule that of the styler inside.
  lemma ElementByRules(rulesOf: StylerId -> seq<Rule>, transformed: (TransformId, string) -> string,
                       customRuns: (nat, Style) -> seq<Run>, styler: StylerId, style: Style, name: string,
                       attributes: Attributes, kids: Forest, inner: StylerId, k: nat, l: nat)
    requires name != INTERNAL_TOP_LEVEL_ELEMENT
    requires var named := RuleStyle(rulesOf(styler), name, attributes);
             inner == if named.Some? && named.value.xmlStyler.Some? then named.value.xmlStyler.value
                      else if style.xmlStyler.Some? then style.xmlStyler.value else styler
    requires FirstBefore(rulesOf(styler), name, k) && FirstAfter(rulesOf(inner), name, l)
    ensures var env := RuleEnv(rulesOf, transformed, customRuns);
            var named := RuleStyle(rulesOf(styler), name, attributes);
            var own := (if named.Some? then Combine(style, named.value) else style).(xmlStyler := None);
            RenderElement(env, styler, style, name, attributes, kids) ==
            Appended(env, InsertBefore(rulesOf(styler), k, attributes), own) + Render(env, inner, own, kids)
            + Appended(env, InsertAfter(rulesOf(inner), l), own)
  {
    hide RuleStyle, RulePrefix, RuleSuffix, InsertBefore, InsertAfter, Appended, FirstBefore, FirstAfter;
    FirstEnterRuleInserts(rulesOf(styler), name, attributes, k);
    FirstExitRuleInserts(rulesOf(inner), name, l);
  }

  // A value other than a string is appended under the element's own style: <img/> with a style
  // and an enter block of its own.
  lemma CustomIsInserted(transformed: (TransformId, string) -> string, customRuns: (nat, Style) -> seq<Run>,
                         styler: StylerId, base: Style, own: Style, attributes: Attributes,
                         block: Attributes -> Composable)
    requires own.xmlStyler == None && block(attributes).Custom?
    ensures var rules := [StyleOf("img", own), EnterBlock("img", block)];
            var env := RuleEnv((id: StylerId) => rules, transformed, customRuns);
            var done := Drive(env, Init(styler, base), Events(Document(ElementThen("img", attributes, Done, Done))));
            done.Some? &&
            done.value.attributedString == customRuns(block(attributes).id, Combine(Strip(base), own))
  {
    hide Drive, Events, Combine;
    var rules := [StyleOf("img", own), EnterBlock("img", block)];
    var rulesOf := (id: StylerId) => rules;
    var env := RuleEnv(rulesOf, transformed, customRuns);
    DocumentRenders(env, styler, base, ElementThen("img", attributes, Done, Done));
    CombinedStyler(Strip(base), own);
    ElementByRules(rulesOf, transformed, customRuns, styler, Strip(base), "img", attributes, Done, styler, 1, 2);
    hide RenderElement;
    var runs := customRuns(block(attributes).id, Combine(Strip(base), own));
    assert RenderElement(env, styler, Strip(base), "img", attributes, Done) == runs + [] + [] == runs;
    assert Render(env, styler, Strip(base), ElementThen("img", attributes, Done, Done)) == runs + [] == runs;
  }

  lemma CombinedStyler(a: Style, b: Style)
    requires a.xmlStyler == None && b.xmlStyler == None
    ensures Combine(a, b).(xmlStyler := None) == Combine(a, b)
  {
  }

  // A rule that ends every <p> with a line feed: <p>a</p> gives "a" and a line feed.
  lemma ParagraphsEnd(transformed: (TransformId, string) -> string, customRuns: (nat, Style) -> seq<Run>,
                      styler: StylerId, base: Style)
    requires base.transform == None
    ensures var rules := [ExitWith("p", Text("\n"))];
            var env := RuleEnv((id: StylerId) => rules, transformed, customRuns);
            var p := ElementThen("p", map[], TextThen(["a"], Done), Done);
            var done := Drive(env, Init(styler, base), Events(Document(p)));
            done.Some? && done.value.attributedString == [Run(Strip(base), "a"), Run(Strip(base), "\n")]
  {
    hide Drive, Events;
    var rules := [ExitWith("p", Text("\n"))];
    var rulesOf := (id: StylerId) => rules;
    var env := RuleEnv(rulesOf, transformed, customRuns);
    var own, kids := Strip(base), TextThen(["a"], Done);
    DocumentRenders(env, styler, base, ElementThen("p", map[], kids, Done));
    assert rules[1..] == [] && RuleStyle(rules, "p", map[]) == None;
    ElementByRules(rulesOf, transformed, customRuns, styler, own, "p", map[], kids, styler, 1, 0);
    hide RenderElement, RuleStyle;
    assert ["a"][1..] == [] && Joined(["a"]) == "a" + Joined([]) == "a";
    assert Render(env, styler, own, kids) == [Run(own, "a")];
    assert Render(env, styler, own, ElementThen("p", map[], kids, Done)) == [Run(own, "a")] + [Run(own, "\n")];
  }

  ghost predicate StyleBlind(env: Env) {
    forall id, name, attributes, s, t :: env.styleFor(id, name, attributes, s) == env.styleFor(id, name, attributes, t)
  }

  lemma RulesAreStyleBlind(rulesOf: StylerId -> seq<Rule>, transformed: (TransformId, string) -> string,
                           customRuns: (nat, Style) -> seq<Run>)
    ensures StyleBlind(RuleEnv(rulesOf, transformed, customRuns))
  {
  }

  // What the enclosing elements leave at a point of the tree: the styles they add, outermost
  // first, and the styler in charge, which is the one the nearest ancestor to bring one brought.
  datatype Context = Context(ancestors: seq<Style>, styler: StylerId)

  function Under(env: Env, c: Context, name: string, attributes: Attributes): Context {
    var named := env.styleFor(c.styler, name, attributes, PLAIN);
    if named.None? then c
    else Context(c.ancestors + [named.value], if named.value.xmlStyler.Some? then named.value.xmlStyler.value
        else c.styler)
  }

  // The base style plus the single combined style of the ancestors, without XML stylers.
  function StyleAt(base: Style, c: Context): Style {
    Combine(Strip(base), Strip(CombineAll(c.ancestors)))
  }

  // Rendering by path: no style is threaded through the tree, each piece of text is styled
  // from the base and its ancestors alone.
  function RenderByPath(env: Env, base: Style, c: Context, f: Forest): seq<Run>
    decreases Size(f)
  {
    match f
    case Done => []
    case TextThen(x, TextThen(y, rest)) => assert Size(f) ==
      2 + Size(rest); RenderByPath(env, base, c, TextThen(x + y, rest))
    case TextThen(chunks, rest) => Styled(env, StyleAt(base, c), Joined(chunks)) + RenderByPath(env, base, c, rest)
    case ElementThen(name, attributes, kids, rest) =>
      (if name == INTERNAL_TOP_LEVEL_ELEMENT then RenderByPath(env, base, c, kids) else
       var inside := Under(env, c, name, attributes);
       Appended(env, env.prefixFor(c.styler, name, attributes), StyleAt(base, inside))
       + RenderByPath(env, base, inside, kids)
       + Appended(env, env.suffixFor(inside.styler, name), StyleAt(base, inside)))
      + RenderByPath(env, base, c, rest)
  }

  // Entering an element adds its style at the end of the path.
  lemma UnderIsEntered(env: Env, base: Style, c: Context, name: string, attributes: Attributes)
    requires StyleBlind(env)
    ensures var full := Entered(env, c.styler, StyleAt(base, c), name, attributes);
            var inside := Under(env, c, name, attributes);
            && Strip(full) == StyleAt(base, inside)
            && inside.styler == (if full.xmlStyler.Some? then full.xmlStyler.value else c.styler)
  {
    var style := StyleAt(base, c);
    var named := env.styleFor(c.styler, name, attributes, style);
    assert named == env.styleFor(c.styler, name, attributes, PLAIN);
    if named.Some? {
      var all := c.ancestors + [named.value];
      assert all[..|all| - 1] == c.ancestors;
      assert CombineAll(all) == Combine(CombineAll(c.ancestors), named.value);
      StripCombine(CombineAll(c.ancestors), named.value);
      StripCombine(style, named.value);
      CombineAssociative(Strip(base), Strip(CombineAll(c.ancestors)), Strip(named.value));
    }
  }

  lemma {:induction false} PathsDetermineStyles(env: Env, base: Style, c: Context, f: Forest)
    requires StyleBlind(env)
    ensures Render(env, c.styler, StyleAt(base, c), f) == RenderByPath(env, base, c, f)
    decreases Size(f)
  {
    hide Combine, StyleAt, Under, Entered, Styled, Appended;
    match f
    case Done =>
    case TextThen(x, TextThen(y, rest)) =>
      assert Size(f) == 2 + Size(rest);
      PathsDetermineStyles(env, base, c, TextThen(x + y, rest));
    case TextThen(chunks, rest) =>
      PathsDetermineStyles(env, base, c, rest);
    case ElementThen(name, attributes, kids, rest) =>
      PathsDetermineStyles(env, base, c, rest);
      if name == INTERNAL_TOP_LEVEL_ELEMENT {
        PathsDetermineStyles(env, base, c, kids);
      } else {
        UnderIsEntered(env, base, c, name, attributes);
        PathsDetermineStyles(env, base, Under(env, c, name, attributes), kids);
      }
  }

  // Parsing a document under rule-based stylers styles every piece of text with the base
  // style plus the combined style of its ancestors.
  lemma DocumentStyledByPath(rulesOf: StylerId -> seq<Rule>, transformed: (TransformId, string) -> string,
                             customRuns: (nat, Style) -> seq<Run>,
                             styler: StylerId, base: Style, f: Forest)
    ensures var env := RuleEnv(rulesOf, transformed, customRuns);
            Drive(env, Init(styler, base), Events(Document(f))) ==
            Some(Init(styler, base).(attributedString := RenderByPath(env, base, Context([], styler), f)))
  {
    hide Drive, Events, Render, RenderByPath;
    var env := RuleEnv(rulesOf, transformed, customRuns);
    RulesAreStyleBlind(rulesOf, transformed, customRuns);
    CombineIdentity(Strip(base));
    DocumentRenders(env, styler, base, f);
    PathsDetermineStyles(env, base, Context([], styler), f);
  }
}
