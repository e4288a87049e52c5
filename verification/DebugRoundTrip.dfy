// Reading the debug printer's output back through the XML builder under the default rules.
module DebugRoundTrip {
  import opened Options
  import opened StringStyles
  import opened XmlBuilder
  import opened StyleRules
  import opened Specials
  import opened DebugPrinter

  // ---- Reading markup ----

  // XML 1.0, production [2] Char.
  predicate XmlChar(c: char) {
    c in "\t\n\r" || (' ' <= c && c != '\U{FFFE}' && c != '\U{FFFF}')
  }

  // Written with the ranges of that production.
  lemma XmlCharIs(c: char)
    ensures var n := c as int;
            XmlChar(c) <==> n == 0x9 || n == 0xA || n == 0xD || 0x20 <= n <= 0xD7FF || 0xE000 <= n <= 0xFFFD
                            || 0x10000 <= n <= 0x10FFFF
  {
  }

  predicate NameChar(c: char) {
    c == ':' || 'a' <= c <= 'z' || 'A' <= c <= 'Z'
  }

  // The number of name characters that a string starts with.
  function NameLength(s: string): (n: nat)
    ensures n <= |s|
  {
    if s == "" || !NameChar(s[0]) then 0 else 1 + NameLength(s[1..])
  }

  // The sequence that character data must not contain.
  predicate ClosesCData(s: string) {
    |s| >= 3 && s[0] == ']' && s[1] == ']' && s[2] == '>'
  }

  predicate ValueChar(c: char) {
    XmlChar(c) && ' ' <= c && c != '<' && c != '&' && c != '\''
  }

  // The number of characters of a quoted value that a string starts with.
  function ValueLength(s: string): (n: nat)
    ensures n <= |s|
  {
    if s == "" || !ValueChar(s[0]) then 0 else 1 + ValueLength(s[1..])
  }

  // An empty element's tag, and what comes after it.
  datatype EmptyElement = EmptyElement(name: string, attributes: Attributes, rest: string)

  // What follows '<' when it is an empty element with at most one attribute.
  function ParseElement(s: string): (r: Option<EmptyElement>)
    ensures r.Some? ==> |r.value.rest| < |s| && r.value.rest == s[|s| - |r.value.rest|..]
  {
    var n := NameLength(s);
    if n == 0 then None
    else if HasPrefix(s[n..], "/>") then Some(EmptyElement(s[..n], map[], s[n + 2..]))
    else if HasPrefix(s[n..], " ") then
      var attribute := ParseAttribute(s[n + 1..]);
      if attribute.Some? then Some(attribute.value.(name := s[..n])) else None
    else None
  }

  // The attribute of such an element and the end of its tag; the name is still missing.
  function ParseAttribute(s: string): (r: Option<EmptyElement>)
    ensures r.Some? ==> |r.value.rest| < |s| && r.value.rest == s[|s| - |r.value.rest|..]
  {
    var k := NameLength(s);
    if k == 0 || !HasPrefix(s[k..], "='") then None
    else
      var v := ValueLength(s[k + 2..]);
      if !HasPrefix(s[k + 2 + v..], "'/>") then None
      else Some(EmptyElement("", map[s[..k] := s[k + 2..k + 2 + v]], s[k + v + 5..]))
  }

  // Character data and empty elements; anything else is not read.
  function Parse(s: string): Option<Forest>
    decreases |s|
  {
    if s == "" then Some(Done)
    else if s[0] == '<' then
      var element := ParseElement(s[1..]);
      if element.None? then None
      else
        var rest := Parse(element.value.rest);
        if rest.None? then None
        else Some(ElementThen(element.value.name, element.value.attributes, Done, rest.value))
    else if s[0] == '&' || !XmlChar(s[0]) || ClosesCData(s) then None
    else
      var rest := Parse(s[1..]);
      if rest.None? then None else Some(TextThen([[s[0]]], rest.value))
  }

  // ---- What the builder makes of what was read ----

  function TextOf(runs: seq<Run>): string {
    if |runs| == 0 then "" else runs[0].text + TextOf(runs[1..])
  }

  // The text put in by an element under the default rules.
  function Inserted(named: string -> Option<Style>, name: string, attributes: Attributes): string {
    match RulePrefix(DefaultRules(named), name, attributes)
    case Some(Text(text)) => text
    case _ => ""
  }

  function Flat(named: string -> Option<Style>, f: Forest): string {
    match f
    case Done => ""
    case TextThen(chunks, rest) => Joined(chunks) + Flat(named, rest)
    case ElementThen(name, attributes, _, rest) => Inserted(named, name, attributes) + Flat(named, rest)
  }

  // Parsing gives text and childless elements.
  predicate Shallow(f: Forest) {
    match f
    case Done => true
    case TextThen(_, rest) => Shallow(rest)
    case ElementThen(name, attributes, kids, rest) => kids == Done && Shallow(rest)
  }

  lemma {:induction false} ParsedIsShallow(s: string)
    ensures var f := Parse(s); f.Some? ==> Shallow(f.value)
    decreases |s|
  {
    hide ParseElement, XmlChar, ClosesCData;
    if |s| > 0 {
      if s[0] == '<' {
        var element := ParseElement(s[1..]);
        if element.Some? {
          ParsedIsShallow(element.value.rest);
        }
      } else {
        ParsedIsShallow(s[1..]);
      }
    }
  }

  function DefaultEnv(named: string -> Option<Style>, transformed: (TransformId, string) -> string,
                      customRuns: (nat, Style) -> seq<Run>): Env {
    RuleEnv((id: StylerId) => DefaultRules(named), transformed, customRuns)
  }

  // No transform and no styler: text comes out as it went in, under the style itself.
  ghost predicate Plain(style: Style) {
    style.transform == None && style.xmlStyler == None
  }

  ghost predicate AllUnder(runs: seq<Run>, style: Style) {
    forall r :: r in runs ==> r.style == style
  }

  lemma TextOfFirst(runs: seq<Run>)
    requires |runs| > 0
    ensures TextOf(runs) == runs[0].text + TextOf(runs[1..])
  {
  }

  lemma TextOfNone(a: seq<Run>, b: seq<Run>)
    requires |a| == 0
    ensures TextOf(a + b) == TextOf(a) + TextOf(b)
  {
    assert a + b == b;
  }

  lemma {:induction false} TextOfConcat(a: seq<Run>, b: seq<Run>)
    ensures TextOf(a + b) == TextOf(a) + TextOf(b)
  {
    hide TextOf;
    if |a| == 0 {
      TextOfNone(a, b);
    } else {
      assert (a + b)[0] == a[0] && (a + b)[1..] == a[1..] + b;
      TextOfFirst(a);
      TextOfFirst(a + b);
      TextOfConcat(a[1..], b);
      AppendAssociative(a[0].text, TextOf(a[1..]), TextOf(b));
    }
  }

  lemma StyledPlain(env: Env, style: Style, text: string)
    requires style.transform == None
    ensures TextOf(Styled(env, style, text)) == text && AllUnder(Styled(env, style, text), style)
  {
    var runs := Styled(env, style, text);
    if text != "" {
      assert runs == [Run(style, text)] && runs[1..] == [];
    }
  }

  // An element's own text has no markup in it; a named character's element adds no style.
  lemma ElementInserts(named: string -> Option<Style>, transformed: (TransformId, string) -> string,
                       customRuns: (nat, Style) -> seq<Run>, styler: StylerId, style: Style, name: string,
                       attributes: Attributes)
    requires Plain(style)
    ensures var env := DefaultEnv(named, transformed, customRuns);
            var runs := RenderElement(env, styler, style, name, attributes, Done);
            TextOf(runs) == Inserted(named, name, attributes) && AllUnder(runs, style)
  {
    hide Name, RawValue, InsertionRules, RulePrefix, OwnStyle, SharedStyle, RuleSuffix, Combine, Styled;
    var env := DefaultEnv(named, transformed, customRuns);
    InsertionRulesOnly(ALL_CASES, named, name, attributes);
    var prefix := RulePrefix(DefaultRules(named), name, attributes);
    var full := Entered(env, styler, style, name, attributes);
    var own := Strip(full);
    var inner := if full.xmlStyler.Some? then full.xmlStyler.value else styler;
    assert env.suffixFor(inner, name) == None;
    assert Render(env, inner, own, Done) == [];
    if name == INTERNAL_TOP_LEVEL_ELEMENT {
      assert forall s :: ElementName(s)[1] == 'O' != name[1];
    }
    assert name != INTERNAL_TOP_LEVEL_ELEMENT ==>
        RenderElement(env, styler, style, name, attributes, Done) == Appended(env, prefix, own) + [] + [] ==
            Appended(env, prefix, own);
    if prefix.Some? {
      var s :| ElementName(s) == name && prefix == Some(Text([RawValue(s)]));
      Listed(s);
      InsertionRulesInsert(ALL_CASES, [Styles(named)], s, attributes);
      CombineIdentity(style);
      assert RuleStyle(DefaultRules(named), name, attributes) == Some(PLAIN);
      assert env.styleFor(styler, name, attributes, style) == Some(PLAIN);
      assert own == style;
      StyledPlain(env, style, [RawValue(s)]);
    }
  }

  // Under a plain style, the builder turns what was read into its text with the named
  // characters put back, all of it under that style.
  lemma {:induction false} RenderShallow(named: string -> Option<Style>, transformed: (TransformId, string) -> string,
                                         customRuns: (nat, Style) -> seq<Run>,
                                         styler: StylerId, style: Style, f: Forest)
    requires Plain(style) && Shallow(f)
    ensures var runs := Render(DefaultEnv(named, transformed, customRuns), styler, style, f);
            TextOf(runs) == Flat(named, f) && AllUnder(runs, style)
    decreases Size(f)
  {
    hide RenderElement, Styled, DefaultEnv, Inserted;
    var env := DefaultEnv(named, transformed, customRuns);
    match f
    case Done =>
    case TextThen(c, TextThen(d, rest)) =>
      assert Size(f) == 2 + Size(rest);
      RenderShallow(named, transformed, customRuns, styler, style, TextThen(c + d, rest));
      JoinedConcat(c, d);
      AppendAssociative(Joined(c), Joined(d), Flat(named, rest));
    case TextThen(chunks, rest) =>
      RenderShallow(named, transformed, customRuns, styler, style, rest);
      StyledPlain(env, style, Joined(chunks));
      TextOfConcat(Styled(env, style, Joined(chunks)), Render(env, styler, style, rest));
    case ElementThen(name, attributes, kids, rest) =>
      RenderShallow(named, transformed, customRuns, styler, style, rest);
      ElementInserts(named, transformed, customRuns, styler, style, name, attributes);
      TextOfConcat(RenderElement(env, styler, style, name, attributes, Done), Render(env, styler, style, rest));
  }

  // ---- Printing, then reading ----

  // The forest that a text without markup is read back as.
  function Tokens(text: string): Forest {
    if text == "" then Done
    else
      var mark := MarkFor(text[0], 0, NoImages);
      if mark.Some? then ElementThen("BON:" + mark.value, map[], Done, Tokens(text[1..]))
      else TextThen([[text[0]]], Tokens(text[1..]))
  }

  const NoImages: nat -> Option<string> := index => None

  predicate ReadsBack(text: string) {
    text == ""
    || ((FromScalar(text[0]).Some? || XmlChar(text[0])) && !ClosesCData(text) && ReadsBack(text[1..]))
  }

  predicate NoMarkup(s: string) {
    forall i :: 0 <= i < |s| ==> s[i] != '<' && s[i] != '&'
  }

  lemma MarkOf(c: char, index: nat)
    ensures var mark := MarkFor(c, index, NoImages);
            var special := FromScalar(c);
            && (mark.Some? <==> special.Some? && special != Some(Space))
            && (mark.Some? ==> mark.value == Name(special.value))
  {
    hide FromScalar, Name;
  }

  // The names are made of name characters.
  lemma NameIsNames(s: Special, i: nat)
    requires i < |Name(s)|
    ensures NameChar(Name(s)[i])
  {
    if |Name(s)| <= 8 {
      ShortName(s, i);
    } else if |Name(s)| <= 11 {
      MediumName(s, i);
    } else if |Name(s)| <= 17 {
      LongName(s, i);
    } else if |Name(s)| == 18 {
      VeryLongName(s, i);
    } else {
      LongestName(s, i);
    }
  }

  lemma ShortName(s: Special, i: nat)
    requires i < |Name(s)| <= 8
    ensures NameChar(Name(s)[i])
  {
  }

  lemma MediumName(s: Special, i: nat)
    requires i < |Name(s)| && 9 <= |Name(s)| <= 11
    ensures NameChar(Name(s)[i])
  {
  }

  lemma LongName(s: Special, i: nat)
    requires i < |Name(s)| && 12 <= |Name(s)| <= 17
    ensures NameChar(Name(s)[i])
  {
  }

  lemma VeryLongName(s: Special, i: nat)
    requires i < |Name(s)| == 18
    ensures NameChar(Name(s)[i])
  {
  }

  lemma LongestName(s: Special, i: nat)
    requires i < |Name(s)| && 19 <= |Name(s)|
    ensures NameChar(Name(s)[i])
  {
  }

  lemma {:induction false} NameLengthOf(name: string, rest: string)
    requires forall i :: 0 <= i < |name| ==> NameChar(name[i])
    requires rest != "" && !NameChar(rest[0])
    ensures NameLength(name + rest) == |name|
  {
    if name == "" {
      assert name + rest == rest;
    } else {
      assert (name + rest)[0] == name[0] && (name + rest)[1..] == name[1..] + rest;
      NameLengthOf(name[1..], rest);
    }
  }

  // A printed tag is read as the element it stands for.
  lemma ParseTag(s: Special, rest: string)
    ensures Parse(Tag(Name(s)) + rest) ==
            (if Parse(rest).None? then None else Some(ElementThen(ElementName(s), map[], Done, Parse(rest).value)))
  {
    hide Name, ParseElement;
    ElementNameIsName(s);
    ParseEmpty(ElementName(s), rest);
    var whole := Tag(Name(s)) + rest;
    assert whole[0] == '<' && whole[1..] == ElementName(s) + ("/>" + rest);
  }

  lemma ElementNameIsName(s: Special)
    ensures forall i :: 0 <= i < |ElementName(s)| ==> NameChar(ElementName(s)[i])
  {
    hide Name;
    var name := ElementName(s);
    forall i | 0 <= i < |name|
      ensures NameChar(name[i])
    {
      if i >= 4 {
        NameIsNames(s, i - 4);
        assert name[i] == Name(s)[i - 4];
      }
    }
  }

  lemma ParseEmpty(name: string, rest: string)
    requires |name| > 0 && forall i :: 0 <= i < |name| ==> NameChar(name[i])
    ensures ParseElement(name + ("/>" + rest)) == Some(EmptyElement(name, map[], rest))
  {
    var s := name + ("/>" + rest);
    NameLengthOf(name, "/>" + rest);
    assert s[|name|..][..2] == "/>" && s[|name| + 2..] == rest && s[..|name|] == name;
  }

  // The head of an expansion shows the head of the text.
  lemma ExpandHead(text: string, index: nat)
    requires |text| > 0
    ensures var e := Expand(text, index, NoImages);
            var mark := MarkFor(text[0], index, NoImages);
            var rest := Expand(text[1..], index + |Units(text[0])|, NoImages);
            && (mark.Some? ==> e == Tag(mark.value) + rest && e != "" && e[0] == '<')
            && (mark.None? ==> e == [text[0]] + rest && e[1..] == rest)
  {
    hide MarkFor, Units;
  }

  lemma Unmarked(c: char, index: nat)
    requires c == ']' || c == '>' || c == '<' || c == '&'
    ensures MarkFor(c, index, NoImages) == None && FromScalar(c) == None
  {
    hide FromScalar;
    FromScalarSound(c);
    MarkOf(c, index);
  }

  lemma ExpandNothing(text: string, index: nat)
    ensures |text| == 0 ==> |Expand(text, index, NoImages)| == 0
  {
  }

  lemma HasPrefixFirst(s: string, p: string)
    requires |p| > 0
    ensures HasPrefix(s, p) <==> |s| > 0 && s[0] == p[0] && HasPrefix(s[1..], p[1..])
  {
    if |p| <= |s| {
      assert s[..|p|] == [s[0]] + s[1..][..|p| - 1] && p == [p[0]] + p[1..];
    }
  }

  lemma {:induction false} ExpandStarts(text: string, index: nat, p: string)
    requires forall i :: 0 <= i < |p| ==> p[i] == ']' || p[i] == '>'
    ensures HasPrefix(Expand(text, index, NoImages), p) == HasPrefix(text, p)
    decreases |p|
  {
    hide MarkFor, Tag, Units, Expand, FromScalar;
    ExpandNothing(text, index);
    if |p| > 0 {
      hide HasPrefix;
      HasPrefixFirst(text, p);
      HasPrefixFirst(Expand(text, index, NoImages), p);
    }
    if |p| > 0 && |text| > 0 {
      ExpandHead(text, index);
      Unmarked(p[0], index);
      if MarkFor(text[0], index, NoImages) == None {
        ExpandStarts(text[1..], index + |Units(text[0])|, p[1..]);
      }
    }
  }

  // Expanding neither makes nor breaks the sequence that closes character data.
  lemma ExpandClosesCData(text: string, index: nat)
    ensures ClosesCData(Expand(text, index, NoImages)) == ClosesCData(text)
  {
    hide Expand;
    ExpandStarts(text, index, "]]>");
  }

  // Text without markup is read back as its tokens, or not at all.
  lemma {:induction false} ParseExpanded(text: string, index: nat)
    requires NoMarkup(text)
    ensures Parse(Expand(text, index, NoImages)) == if ReadsBack(text) then Some(Tokens(text)) else None
  {
    hide MarkFor, FromScalar, Tag, Name, Units, ClosesCData;
    if text != "" {
      var c, rest := text[0], text[1..];
      var next := index + |Units(c)|;
      var e := Expand(text, index, NoImages);
      var mark := MarkFor(c, index, NoImages);
      MarkOf(c, index);
      MarkOf(c, 0);
      FromScalarSound(c);
      ParseExpanded(rest, next);
      ExpandHead(text, index);
      ExpandClosesCData(text, index);
      if mark.Some? {
        ParseTag(FromScalar(c).value, Expand(rest, next, NoImages));
        assert !ClosesCData(text) by {
          Unmarked(']', index);
          NotClosing(text);
        }
      } else if FromScalar(c).Some? {
        assert XmlChar(c);
      }
    }
  }

  lemma NotClosing(text: string)
    requires text != "" && text[0] != ']'
    ensures !ClosesCData(text)
  {
  }

  function CanonicalText(text: string): string {
    if text == "" then "" else [Canonical(text[0])] + CanonicalText(text[1..])
  }

  // The tokens of a text insert that text, up to canonical equivalence.
  lemma {:induction false} TokensRestore(named: string -> Option<Style>, text: string)
    ensures Flat(named, Tokens(text)) == CanonicalText(text) && Shallow(Tokens(text))
  {
    hide MarkFor, FromScalar, Name, RawValue, InsertionRules, RulePrefix, OwnStyle;
    if text != "" {
      var c := text[0];
      MarkOf(c, 0);
      FromScalarSound(c);
      TokensRestore(named, text[1..]);
      if MarkFor(c, 0, NoImages).Some? {
        var s := FromScalar(c).value;
        Listed(s);
        InsertionRulesInsert(ALL_CASES, [Styles(named)], s, map[]);
      } else {
        UnmarkedIsCanonical(c);
        assert Joined([[c]]) == [c] + "" == [c];
      }
    }
  }

  lemma UnmarkedIsCanonical(c: char)
    requires MarkFor(c, 0, NoImages) == None
    ensures Canonical(c) == c
  {
    hide FromScalar, MarkFor;
    MarkOf(c, 0);
    if c == '\U{2000}' {
      FromScalarExactly(c, EnSpace);
    } else if c == '\U{2001}' {
      FromScalarExactly(c, EmSpace);
    }
  }

  // ---- The round trip ----

  function Built(m: Option<Machine>): Option<seq<Run>> {
    match m
    case None => None
    case Some(m) => Some(m.attributedString)
  }

  // What the builder makes of a string under the default styler.
  function Read(named: string -> Option<Style>, transformed: (TransformId, string) -> string,
                customRuns: (nat, Style) -> seq<Run>, styler: StylerId, base: Style, s: string): Option<seq<Run>> {
    match Parse(s)
    case None => None
    case Some(f) => Built(Drive(DefaultEnv(named, transformed, customRuns), Init(styler, base), Events(Document(f))))
  }

  // ... and of a printed text.
  function Restored(u: Unicode, named: string -> Option<Style>, transformed: (TransformId, string) -> string,
                    customRuns: (nat, Style) -> seq<Run>, styler: StylerId, base: Style, text: string)
    : Option<seq<Run>>
  {
    Read(named, transformed, customRuns, styler, base, Printed(u, text, NoImages))
  }

  lemma ReadIsFlat(named: string -> Option<Style>, transformed: (TransformId, string) -> string,
                   customRuns: (nat, Style) -> seq<Run>, styler: StylerId, base: Style, s: string)
    requires base.transform == None
    ensures var f, r := Parse(s), Read(named, transformed, customRuns, styler, base, s);
            && (f.None? ==> r == None)
            && (f.Some? ==> r.Some? && TextOf(r.value) == Flat(named, f.value) && AllUnder(r.value, Strip(base)))
  {
    hide Drive, Events, Document, Parse, DefaultEnv, Render, Flat, AllUnder, TextOf;
    var f := Parse(s);
    if f.Some? {
      ParsedIsShallow(s);
      DocumentRenders(DefaultEnv(named, transformed, customRuns), styler, base, f.value);
      RenderShallow(named, transformed, customRuns, styler, Strip(base), f.value);
    }
  }

  // Without markup characters, what the first pass makes of a text is read back as that text up
  // to canonical equivalence, under the base style, exactly if it consists of XML characters
  // and named ones and nowhere closes character data; otherwise reading fails.
  lemma FirstPassIsRead(named: string -> Option<Style>, transformed: (TransformId, string) -> string,
                        customRuns: (nat, Style) -> seq<Run>, styler: StylerId, base: Style, text: string)
    requires base.transform == None && NoMarkup(text)
    ensures var r := Read(named, transformed, customRuns, styler, base, Expand(text, 0, NoImages));
            && (r.Some? <==> ReadsBack(text))
            && (r.Some? ==> TextOf(r.value) == CanonicalText(text) && AllUnder(r.value, Strip(base)))
  {
    hide Read, Parse, Expand, Flat, TextOf, AllUnder, CanonicalText, ReadsBack, Tokens;
    ReadIsFlat(named, transformed, customRuns, styler, base, Expand(text, 0, NoImages));
    ParseExpanded(text, 0);
    TokensRestore(named, text);
  }

  // ---- Unassigned characters ----

  // An unassigned scalar, going by its name.
  predicate IsUnassigned(u: Unicode, c: char) {
    HasPrefix(u.name(c), "<unassigned-")
  }

  // What holds of every version of Unicode: characters make up their string, names are in ASCII,
  // and neither ASCII nor a named character is unassigned.
  ghost predicate Sound(u: Unicode) {
    && u.Segments()
    && (forall c :: IsAscii(u.name(c)))
    && (forall c :: IsUnassigned(u, c) ==> c > '\U{007F}' && FromScalar(c) == None)
  }

  ghost predicate IsAscii(s: string) {
    forall i :: 0 <= i < |s| ==> s[i] <= '\U{007F}'
  }

  // The number of unassigned scalars of a string.
  function Reserved(u: Unicode, s: string): nat {
    if s == "" then 0 else (if IsUnassigned(u, s[0]) then 1 else 0) + Reserved(u, s[1..])
  }

  lemma {:induction false} ReservedConcat(u: Unicode, a: string, b: string)
    ensures Reserved(u, a + b) == Reserved(u, a) + Reserved(u, b)
  {
    hide IsUnassigned;
    if a == "" {
      assert a + b == b;
    } else {
      assert (a + b)[0] == a[0] && (a + b)[1..] == a[1..] + b;
      ReservedConcat(u, a[1..], b);
    }
  }

  lemma {:induction false} ReservedAscii(u: Unicode, s: string)
    requires Sound(u) && IsAscii(s)
    ensures Reserved(u, s) == 0
  {
    hide IsUnassigned, FromScalar;
    if s != "" {
      ReservedAscii(u, s[1..]);
    }
  }

  // The first pass adds none.
  lemma {:induction false} ReservedExpanded(u: Unicode, text: string, index: nat)
    requires Sound(u)
    ensures Reserved(u, Expand(text, index, NoImages)) <= Reserved(u, text)
  {
    hide IsUnassigned, MarkFor, Tag, Units, FromScalar, Name;
    if text != "" {
      var rest := Expand(text[1..], index + |Units(text[0])|, NoImages);
      ReservedExpanded(u, text[1..], index + |Units(text[0])|);
      MarkOf(text[0], index);
      if MarkFor(text[0], index, NoImages).Some? {
        TagIsAscii(FromScalar(text[0]).value);
        ReservedAscii(u, Tag(Name(FromScalar(text[0]).value)));
        ReservedConcat(u, Tag(Name(FromScalar(text[0]).value)), rest);
      } else {
        assert ([text[0]] + rest)[1..] == rest;
      }
    }
  }

  lemma TagIsAscii(s: Special)
    ensures IsAscii(Tag(Name(s)))
  {
    hide Name;
    TagIsVisible(s);
  }

  // A prefix without the character that comes next is one of what comes before it.
  lemma PrefixWithin(s: string, tail: string, p: string)
    requires HasPrefix(s + tail, p) && |tail| > 0 && forall i :: 0 <= i < |p| ==> p[i] != tail[0]
    ensures HasPrefix(s, p)
  {
    var whole := s + tail;
    assert whole[..|p|] == p;
    assert forall i :: 0 <= i < |p| ==> p[i] == whole[..|p|][i] == whole[i];
    assert whole[|s|] == tail[0];
    assert |p| <= |s|;
    assert whole[..|p|] == s[..|p|];
  }

  lemma PrefixAfter(s: string, a: string, p: string)
    requires HasPrefix(a + s, a + p)
    ensures HasPrefix(s, p)
  {
    assert (a + s)[..|a + p|][|a|..] == s[..|p|];
    assert (a + p)[|a|..] == p;
  }

  // A replaced character starts with an unassigned scalar.
  lemma UnassignedStarts(u: Unicode, character: string)
    requires Unassigned(u, character).Some?
    ensures |character| > 0 && IsUnassigned(u, character[0])
  {
    hide ReplacingOccurrences, HasPrefix, HasSuffix;
    NoPrefixOfNothing();
    var name, tail := u.name(character[0]), UnicodeName(u, character[1..]);
    assert UnicodeName(u, character) == "\\N{" + (name + ("}" + tail));
    assert UNASSIGNED_PREFIX == "\\N{" + "<unassigned-";
    PrefixAfter(name + ("}" + tail), "\\N{", "<unassigned-");
    PrefixWithin(name, "}" + tail, "<unassigned-");
  }

  lemma NoPrefixOfNothing()
    ensures !HasPrefix("", UNASSIGNED_PREFIX)
  {
  }

  // Which characters are replaced: those whose first scalar is unassigned and the name of whose
  // last one ends with a bracket.
  lemma ReplacedExactly(u: Unicode, character: string)
    requires |character| > 0
    ensures Unassigned(u, character).Some? <==>
            IsUnassigned(u, character[0]) && HasSuffix(u.name(character[|character| - 1]), ">")
  {
    hide ReplacingOccurrences, HasPrefix, HasSuffix, UnicodeName;
    var t := UnicodeName(u, character);
    NameEnds(u, character);
    if IsUnassigned(u, character[0]) {
      NameStarts(u, character);
    }
    if Unassigned(u, character).Some? {
      UnassignedStarts(u, character);
    }
  }

  lemma NameStarts(u: Unicode, character: string)
    requires |character| > 0 && IsUnassigned(u, character[0])
    ensures HasPrefix(UnicodeName(u, character), UNASSIGNED_PREFIX)
  {
    var name, tail := u.name(character[0]), UnicodeName(u, character[1..]);
    var t := UnicodeName(u, character);
    assert t == "\\N{" + name + "}" + tail;
    assert t[..15] == "\\N{" + name[..12];
  }

  lemma {:induction false} NameEnds(u: Unicode, s: string)
    requires |s| > 0
    ensures HasSuffix(UnicodeName(u, s), UNASSIGNED_SUFFIX) <==> HasSuffix(u.name(s[|s| - 1]), ">")
    ensures |UnicodeName(u, s)| >= 4 && HasSuffix(UnicodeName(u, s), "}")
  {
    var name, rest := u.name(s[0]), s[1..];
    var head := "\\N{" + name + "}";
    if |rest| == 0 {
      assert UnicodeName(u, s) == head + "" == head;
      OneNameEnds(name);
    } else {
      NameEnds(u, rest);
      SuffixOfTail(head, UnicodeName(u, rest), UNASSIGNED_SUFFIX);
      SuffixOfTail(head, UnicodeName(u, rest), "}");
    }
  }

  lemma OneNameEnds(name: string)
    ensures var head := "\\N{" + name + "}";
            |head| >= 4 && HasSuffix(head, "}") && (HasSuffix(head, UNASSIGNED_SUFFIX) <==> HasSuffix(name, ">"))
  {
    var head := "\\N{" + name + "}";
    assert head[|head| - 2..] == [head[|head| - 2], '}'];
    assert |name| > 0 ==> head[|head| - 2] == name[|name| - 1] && name[|name| - 1..] == [name[|name| - 1]];
    assert |name| == 0 ==> head[|head| - 2] == '{';
  }

  lemma SuffixOfTail(a: string, b: string, p: string)
    requires |p| <= |b|
    ensures HasSuffix(a + b, p) <==> HasSuffix(b, p)
  {
    assert (a + b)[|a + b| - |p|..] == b[|b| - |p|..];
  }

  lemma {:induction false} NameIsAscii(u: Unicode, s: string)
    requires Sound(u)
    ensures IsAscii(UnicodeName(u, s))
  {
    hide IsUnassigned, FromScalar;
    if s != "" {
      NameIsAscii(u, s[1..]);
      assert IsAscii(u.name(s[0]));
    }
  }

  lemma {:induction false} ReplacingKeepsAscii(s: string, of: string, with: string)
    requires |of| > 0 && IsAscii(s) && IsAscii(with)
    ensures IsAscii(ReplacingOccurrences(s, of, with))
    decreases |s|
  {
    if |s| >= |of| {
      if s[..|of|] == of {
        ReplacingKeepsAscii(s[|of|..], of, with);
      } else {
        ReplacingKeepsAscii(s[1..], of, with);
      }
    }
  }

  lemma ReplacementIsAscii(u: Unicode, character: string)
    requires Sound(u) && Unassigned(u, character).Some?
    ensures IsAscii(Unassigned(u, character).value)
  {
    hide ReplacingOccurrences, UnicodeName, HasPrefix, HasSuffix, IsUnassigned, FromScalar;
    var t := UnicodeName(u, character);
    NameIsAscii(u, character);
    ReplacingKeepsAscii(t, UNASSIGNED_PREFIX, UNASSIGNED_PREFIX_REPLACEMENT);
    ReplacingKeepsAscii(ReplacingOccurrences(t, UNASSIGNED_PREFIX, UNASSIGNED_PREFIX_REPLACEMENT), UNASSIGNED_SUFFIX,
                        UNASSIGNED_SUFFIX_REPLACEMENT);
  }

  predicate AllKept(u: Unicode, characters: seq<string>) {
    forall i :: 0 <= i < |characters| ==> Unassigned(u, characters[i]) == None
  }

  // The second pass takes unassigned scalars away, unless it leaves everything as it is.
  lemma {:induction false} SecondPassTakes(u: Unicode, characters: seq<string>)
    requires Sound(u)
    ensures Reserved(u, Expanded(CharacterPieces(u, characters))) <= Reserved(u, Joined(characters))
    ensures AllKept(u, characters) ==> Expanded(CharacterPieces(u, characters)) == Joined(characters)
    ensures !AllKept(u, characters) ==>
              Reserved(u, Expanded(CharacterPieces(u, characters))) < Reserved(u, Joined(characters))
  {
    hide Reserved, Unassigned, IsUnassigned, FromScalar;
    if |characters| > 0 {
      var c, rest := characters[0], characters[1..];
      SecondPassTakes(u, rest);
      KeptFirst(u, characters);
      assert CharacterPieces(u, characters)[1..] == CharacterPieces(u, rest);
      ReservedConcat(u, c, Joined(rest));
      ReservedConcat(u, Piece(c, Unassigned(u, c)).Shown(), Expanded(CharacterPieces(u, rest)));
      if Unassigned(u, c).Some? {
        ReplacementIsAscii(u, c);
        ReservedAscii(u, Unassigned(u, c).value);
        UnassignedStarts(u, c);
        ReservedFirst(u, c);
      }
    }
  }

  lemma KeptFirst(u: Unicode, characters: seq<string>)
    requires |characters| > 0
    ensures AllKept(u, characters) <==> Unassigned(u, characters[0]) == None && AllKept(u, characters[1..])
  {
    hide Unassigned;
    assert forall i :: 1 <= i < |characters| ==> characters[i] == characters[1..][i - 1];
  }

  lemma ReservedFirst(u: Unicode, s: string)
    requires s != "" && IsUnassigned(u, s[0])
    ensures Reserved(u, s) > 0
  {
  }

  // Reading adds none.
  lemma {:induction false} ReadingAddsNone(u: Unicode, named: string -> Option<Style>, s: string)
    requires Sound(u)
    ensures var f := Parse(s); f.Some? ==> Reserved(u, Flat(named, f.value)) <= Reserved(u, s)
    decreases |s|
  {
    hide Reserved, Inserted, ParseElement, XmlChar, ClosesCData, IsUnassigned, FromScalar;
    if |s| > 0 && Parse(s).Some? {
      if s[0] == '<' {
        var e := ParseElement(s[1..]).value;
        ReadingAddsNone(u, named, e.rest);
        InsertedIsAssigned(u, named, e.name, e.attributes);
        ReservedConcat(u, Inserted(named, e.name, e.attributes), Flat(named, Parse(e.rest).value));
        var skipped := |s| - |e.rest|;
        assert s == s[..skipped] + e.rest;
        ReservedConcat(u, s[..skipped], e.rest);
      } else {
        ReadingAddsNone(u, named, s[1..]);
        assert Joined([[s[0]]]) == [s[0]] + "" == [s[0]];
        ReservedConcat(u, [s[0]], Flat(named, Parse(s[1..]).value));
        ReservedConcat(u, [s[0]], s[1..]);
        assert s == [s[0]] + s[1..];
      }
    }
  }

  lemma InsertedIsAssigned(u: Unicode, named: string -> Option<Style>, name: string, attributes: Attributes)
    requires Sound(u)
    ensures Reserved(u, Inserted(named, name, attributes)) == 0
  {
    hide Inserted, RawValue, IsUnassigned, FromScalar, IsAscii;
    InsertedIsNamed(named, name, attributes);
    var inserted := Inserted(named, name, attributes);
    if |inserted| > 0 {
      var s :| inserted == [RawValue(s)];
      FromScalarExactly(RawValue(s), s);
      assert inserted[1..] == "";
    }
  }

  // What an element puts in is nothing or a named character.
  lemma InsertedIsNamed(named: string -> Option<Style>, name: string, attributes: Attributes)
    ensures |Inserted(named, name, attributes)| == 0
            || exists s :: Inserted(named, name, attributes) == [RawValue(s)] && name == ElementName(s)
  {
    hide Name, ElementName, RawValue, InsertionRules, RulePrefix, OwnStyle, RuleSuffix, ALL_CASES;
    InsertionRulesOnly(ALL_CASES, named, name, attributes);
  }

  // The printer leaves the characters of what the first pass made as they are.
  predicate NothingReplaced(u: Unicode, text: string) {
    AllKept(u, u.characters(Expand(text, 0, NoImages)))
  }

  lemma PrintedWhenKept(u: Unicode, text: string)
    requires Sound(u) && NothingReplaced(u, text)
    ensures Printed(u, text, NoImages) == Expand(text, 0, NoImages)
  {
    hide AllKept, Expand, CharacterPieces, Expanded, Joined, IsUnassigned, FromScalar, IsAscii;
    SecondPassTakes(u, u.characters(Expand(text, 0, NoImages)));
  }

  // A text without unassigned scalars is one.
  lemma AssignedIsKept(u: Unicode, text: string)
    requires Sound(u) && Reserved(u, text) == 0
    ensures NothingReplaced(u, text)
  {
    hide AllKept, Expand, CharacterPieces, Expanded, Joined, IsUnassigned, FromScalar, IsAscii, Reserved;
    SecondPassTakes(u, u.characters(Expand(text, 0, NoImages)));
    ReservedExpanded(u, text, 0);
  }

  // Once something has been replaced, the text does not come back.
  lemma ReplacedIsLost(u: Unicode, named: string -> Option<Style>, text: string)
    requires Sound(u) && !NothingReplaced(u, text)
    ensures var f := Parse(Printed(u, text, NoImages)); f.Some? ==> Flat(named, f.value) != text
  {
    hide AllKept, Expand, CharacterPieces, Expanded, Joined, IsUnassigned, FromScalar, IsAscii, Reserved, Parse, Flat;
    SecondPassTakes(u, u.characters(Expand(text, 0, NoImages)));
    ReservedExpanded(u, text, 0);
    ReadingAddsNone(u, named, Printed(u, text, NoImages));
  }

  // Without markup and where no character is replaced as unassigned, the printed text is
  // read as the text the first pass stands for.
  lemma PrintedTextIsRestored(u: Unicode, named: string -> Option<Style>, transformed: (TransformId, string) -> string,
                              customRuns: (nat, Style) -> seq<Run>, styler: StylerId, base: Style, text: string)
    requires Sound(u) && base.transform == None && NoMarkup(text)
    ensures var r := Restored(u, named, transformed, customRuns, styler, base, text);
            if NothingReplaced(u, text) then
              && (r.Some? <==> ReadsBack(text))
              && (r.Some? ==> TextOf(r.value) == CanonicalText(text) && AllUnder(r.value, Strip(base)))
            else
              r.Some? ==> TextOf(r.value) != text && AllUnder(r.value, Strip(base))
  {
    hide Read, Parse, Expand, Printed, Flat, TextOf, AllUnder, CanonicalText, ReadsBack, NothingReplaced, NoMarkup;
    hide Sound;
    ReadIsFlat(named, transformed, customRuns, styler, base, Printed(u, text, NoImages));
    if NothingReplaced(u, text) {
      PrintedWhenKept(u, text);
      FirstPassIsRead(named, transformed, customRuns, styler, base, text);
    } else {
      ReplacedIsLost(u, named, text);
    }
  }

  // A scalar is restored if it is not markup, not one of the two quads, is named or may stand
  // in XML, and does not begin the sequence that closes character data.
  predicate RestorableAt(text: string, i: nat)
    requires i < |text|
  {
    var c := text[i];
    && c != '<' && c != '&'
    && c != '\U{2000}' && c != '\U{2001}'
    && (FromScalar(c).Some? || XmlChar(c))
    && !(i + 2 < |text| && c == ']' && text[i + 1] == ']' && text[i + 2] == '>')
  }

  lemma {:induction false} RestorableEverywhere(text: string)
    ensures (forall i :: 0 <= i < |text| ==> RestorableAt(text, i)) <==>
            NoMarkup(text) && ReadsBack(text) && CanonicalText(text) == text
  {
    hide FromScalar;
    if text != "" {
      var rest := text[1..];
      RestorableEverywhere(rest);
      assert forall i :: 0 <= i < |rest| ==> RestorableAt(rest, i) == RestorableAt(text, i + 1);
      assert (forall i :: 0 <= i < |text| ==> RestorableAt(text, i)) <==>
             RestorableAt(text, 0) && (forall i :: 0 <= i < |rest| ==> RestorableAt(rest, i)) by {
        assert forall i :: 1 <= i < |text| ==> RestorableAt(text, i) == RestorableAt(rest, i - 1);
      }
      assert NoMarkup(text) <==> text[0] != '<' && text[0] != '&' && NoMarkup(rest) by {
        assert forall i :: 0 <= i < |rest| ==> rest[i] == text[i + 1];
        assert forall i :: 1 <= i < |text| ==> text[i] == rest[i - 1];
      }
      assert CanonicalText(text) == text <==> Canonical(text[0]) == text[0] && CanonicalText(rest) == rest by {
        assert text == [text[0]] + rest;
        assert CanonicalText(text)[0] == Canonical(text[0]) && CanonicalText(text)[1..] == CanonicalText(rest);
      }
    }
  }

  // What has been read never contains a markup character.
  lemma {:induction false} FlatHasNoMarkup(named: string -> Option<Style>, s: string)
    ensures var f := Parse(s); f.Some? ==> NoMarkup(Flat(named, f.value))
    decreases |s|
  {
    hide Inserted, ParseElement, XmlChar, ClosesCData;
    if |s| > 0 && Parse(s).Some? {
      if s[0] == '<' {
        var element := ParseElement(s[1..]).value;
        FlatHasNoMarkup(named, element.rest);
        InsertedHasNoMarkup(named, element.name, element.attributes);
      } else {
        FlatHasNoMarkup(named, s[1..]);
        assert Joined([[s[0]]]) == [s[0]] + "" == [s[0]];
      }
    }
  }

  lemma InsertedHasNoMarkup(named: string -> Option<Style>, name: string, attributes: Attributes)
    ensures NoMarkup(Inserted(named, name, attributes))
  {
    hide Inserted, ElementName;
    InsertedIsNamed(named, name, attributes);
  }

  // Printing a text and building it again gives that text back if and only if every scalar
  // of it is restorable and the printer found no unassigned character in it.
  lemma RestoredExactlyWhen(u: Unicode, named: string -> Option<Style>, transformed: (TransformId, string) -> string,
                            customRuns: (nat, Style) -> seq<Run>, styler: StylerId, base: Style, text: string)
    requires Sound(u) && base.transform == None
    ensures var r := Restored(u, named, transformed, customRuns, styler, base, text);
            (r.Some? && TextOf(r.value) == text) <==>
            (forall i :: 0 <= i < |text| ==> RestorableAt(text, i)) && NothingReplaced(u, text)
  {
    hide Read, Parse, Printed, Expand, Flat, TextOf, CanonicalText, ReadsBack, RestorableAt, NoMarkup, AllUnder, Sound;
    hide NothingReplaced;
    ReadIsFlat(named, transformed, customRuns, styler, base, Printed(u, text, NoImages));
    RestorableEverywhere(text);
    FlatHasNoMarkup(named, Printed(u, text, NoImages));
    if NoMarkup(text) {
      PrintedTextIsRestored(u, named, transformed, customRuns, styler, base, text);
    }
  }

  // ---- Texts that do not come back ----

  // An en quad comes back as the en space that it is canonically equivalent to.
  lemma EnQuadBecomesEnSpace(u: Unicode, named: string -> Option<Style>, transformed: (TransformId, string) -> string,
                             customRuns: (nat, Style) -> seq<Run>, styler: StylerId, base: Style)
    requires Sound(u) && base.transform == None
    ensures var r := Restored(u, named, transformed, customRuns, styler, base, "\U{2000}");
            r.Some? && TextOf(r.value) == "\U{2002}"
  {
    hide FromScalar, Restored, TextOf, AllUnder, ClosesCData, IsUnassigned, NothingReplaced;
    var text := "\U{2000}";
    FromScalarExactly(text[0], EnSpace);
    NotClosing(text);
    assert text[1..] == "" && CanonicalText(text) == ['\U{2002}'] + CanonicalText("") == "\U{2002}";
    assert Reserved(u, text[1..]) == 0;
    AssignedIsKept(u, text);
    PrintedTextIsRestored(u, named, transformed, customRuns, styler, base, text);
  }

  // A scalar of visible ASCII is printed as it is.
  lemma VisibleIsUnmarked(c: char, index: nat)
    requires '!' <= c <= '~'
    ensures MarkFor(c, index, NoImages) == None
  {
    hide FromScalar;
    FromScalarSound(c);
    MarkOf(c, index);
  }

  lemma {:induction false} VisibleIsPrinted(text: string, index: nat)
    requires forall i :: 0 <= i < |text| ==> '!' <= text[i] <= '~'
    ensures Expand(text, index, NoImages) == text
  {
    hide MarkFor, Units, Tag;
    ExpandNothing(text, index);
    if |text| > 0 {
      ExpandHead(text, index);
      VisibleIsUnmarked(text[0], index);
      VisibleIsPrinted(text[1..], index + |Units(text[0])|);
    }
  }

  lemma TagIsVisible(s: Special)
    ensures forall i :: 0 <= i < |Tag(Name(s))| ==> '!' <= Tag(Name(s))[i] <= '~'
  {
    hide Name;
    var name, text := Name(s), Tag(Name(s));
    forall i | 0 <= i < |text|
      ensures '!' <= text[i] <= '~'
    {
      if 5 <= i < 5 + |name| {
        NameIsNames(s, i - 5);
        assert text[i] == name[i - 5];
      }
    }
  }

  lemma FlatElement(named: string -> Option<Style>, s: Special)
    ensures Flat(named, ElementThen(ElementName(s), map[], Done, Done)) == [RawValue(s)]
  {
    hide InsertionRules, RulePrefix, OwnStyle, ElementName, RawValue;
    Listed(s);
    InsertionRulesInsert(ALL_CASES, [Styles(named)], s, map[]);
    assert Flat(named, Done) == "";
  }

  // Text that spells out a named character's element comes back as that character.
  lemma MarkupIsObeyed(u: Unicode, named: string -> Option<Style>, transformed: (TransformId, string) -> string,
                       customRuns: (nat, Style) -> seq<Run>, styler: StylerId, base: Style, s: Special)
    requires Sound(u) && base.transform == None
    ensures var r := Restored(u, named, transformed, customRuns, styler, base, Tag(Name(s)));
            r.Some? && TextOf(r.value) == [RawValue(s)]
  {
    hide Read, TextOf, AllUnder, Expand, Parse, Flat, Tag, Name, ElementName, RawValue, Printed, NothingReplaced, Sound;
    var text := Tag(Name(s));
    TagIsVisible(s);
    TagIsAscii(s);
    VisibleIsPrinted(text, 0);
    ReservedAscii(u, text);
    AssignedIsKept(u, text);
    PrintedWhenKept(u, text);
    ParseTag(s, "");
    assert text + "" == text;
    NothingToParse();
    FlatElement(named, s);
    ReadIsFlat(named, transformed, customRuns, styler, base, text);
  }

  // ---- An unassigned scalar on its own ----

  lemma {:induction false} ReplacingAfter(a: string, b: string, of: string, with: string)
    requires |of| > 0 && forall i :: 0 <= i < |a| ==> a[i] != of[0]
    ensures ReplacingOccurrences(a + b, of, with) == a + ReplacingOccurrences(b, of, with)
  {
    if a == "" {
      assert a + b == b;
    } else {
      var s := a + b;
      assert s[0] == a[0] && s[1..] == a[1..] + b;
      ReplacingAfter(a[1..], b, of, with);
      assert |s| >= |of| ==> s[..|of|][0] == a[0];
      assert |s| < |of| ==> ReplacingOccurrences(b, of, with) == b;
    }
  }

  lemma ReplacingAtOnce(s: string, of: string, with: string)
    requires |of| > 0
    ensures ReplacingOccurrences(of + s, of, with) == with + ReplacingOccurrences(s, of, with)
  {
    assert (of + s)[..|of|] == of && (of + s)[|of|..] == s;
  }

  predicate HexDigits(s: string) {
    forall i :: 0 <= i < |s| ==> '0' <= s[i] <= '9' || 'A' <= s[i] <= 'F'
  }

  function UnicodeTag(hex: string): string {
    UNASSIGNED_PREFIX_REPLACEMENT + hex + UNASSIGNED_SUFFIX_REPLACEMENT
  }

  // A character of several unassigned scalars becomes an element for each.
  function UnicodeTags(hexes: seq<string>): string {
    if |hexes| == 0 then "" else UnicodeTag(hexes[0]) + UnicodeTags(hexes[1..])
  }

  predicate UnassignedAs(u: Unicode, s: string, hexes: seq<string>) {
    && |s| == |hexes|
    && forall i :: 0 <= i < |s| ==> HexDigits(hexes[i]) && u.name(s[i]) == "<unassigned-" + hexes[i] + ">"
  }

  // The names with the prefix replaced already.
  function HalfReplaced(hexes: seq<string>): string {
    if |hexes| == 0 then ""
    else UNASSIGNED_PREFIX_REPLACEMENT + (hexes[0] + UNASSIGNED_SUFFIX) + HalfReplaced(hexes[1..])
  }

  lemma {:induction false} PrefixesReplaced(u: Unicode, s: string, hexes: seq<string>)
    requires UnassignedAs(u, s, hexes)
    ensures ReplacingOccurrences(UnicodeName(u, s), UNASSIGNED_PREFIX, UNASSIGNED_PREFIX_REPLACEMENT) ==
            HalfReplaced(hexes)
  {
    hide ReplacingOccurrences;
    if |s| == 0 {
      ReplacingNone("", UNASSIGNED_PREFIX, UNASSIGNED_PREFIX_REPLACEMENT);
    } else {
      var middle, rest := hexes[0] + UNASSIGNED_SUFFIX, UnicodeName(u, s[1..]);
      PrefixesReplaced(u, s[1..], hexes[1..]);
      NameAsParts(u.name(s[0]), hexes[0], rest);
      ReplacingAtOnce(middle + rest, UNASSIGNED_PREFIX, UNASSIGNED_PREFIX_REPLACEMENT);
      ReplacingAfter(middle, rest, UNASSIGNED_PREFIX, UNASSIGNED_PREFIX_REPLACEMENT);
      AppendAssociative(UNASSIGNED_PREFIX_REPLACEMENT, middle, HalfReplaced(hexes[1..]));
    }
  }

  lemma NameAsParts(name: string, hex: string, rest: string)
    requires name == "<unassigned-" + hex + ">"
    ensures "\\N{" + name + "}" + rest == UNASSIGNED_PREFIX + ((hex + UNASSIGNED_SUFFIX) + rest)
  {
  }

  lemma {:induction false} SuffixesReplaced(hexes: seq<string>)
    requires forall i :: 0 <= i < |hexes| ==> HexDigits(hexes[i])
    ensures ReplacingOccurrences(HalfReplaced(hexes), UNASSIGNED_SUFFIX, UNASSIGNED_SUFFIX_REPLACEMENT) ==
            UnicodeTags(hexes)
  {
    hide ReplacingOccurrences, UnicodeTag;
    if |hexes| == 0 {
      ReplacingNone("", UNASSIGNED_SUFFIX, UNASSIGNED_SUFFIX_REPLACEMENT);
    } else {
      var rest := HalfReplaced(hexes[1..]);
      SuffixesReplaced(hexes[1..]);
      HeadReplaced(hexes[0], rest);
    }
  }

  lemma HeadReplaced(hex: string, rest: string)
    requires HexDigits(hex)
    ensures ReplacingOccurrences(UNASSIGNED_PREFIX_REPLACEMENT + (hex + UNASSIGNED_SUFFIX) + rest, UNASSIGNED_SUFFIX,
                                 UNASSIGNED_SUFFIX_REPLACEMENT) ==
            UnicodeTag(hex) + ReplacingOccurrences(rest, UNASSIGNED_SUFFIX, UNASSIGNED_SUFFIX_REPLACEMENT)
  {
    hide ReplacingOccurrences;
    var start := UNASSIGNED_PREFIX_REPLACEMENT + hex;
    var after := ReplacingOccurrences(rest, UNASSIGNED_SUFFIX, UNASSIGNED_SUFFIX_REPLACEMENT);
    assert UNASSIGNED_PREFIX_REPLACEMENT + (hex + UNASSIGNED_SUFFIX) + rest == start + (UNASSIGNED_SUFFIX + rest);
    ReplacingAfter(start, UNASSIGNED_SUFFIX + rest, UNASSIGNED_SUFFIX, UNASSIGNED_SUFFIX_REPLACEMENT);
    ReplacingAtOnce(rest, UNASSIGNED_SUFFIX, UNASSIGNED_SUFFIX_REPLACEMENT);
    AppendAssociative(start, UNASSIGNED_SUFFIX_REPLACEMENT, after);
  }

  lemma UnassignedAreTagged(u: Unicode, s: string, hexes: seq<string>)
    requires |s| > 0 && UnassignedAs(u, s, hexes)
    ensures Unassigned(u, s) == Some(UnicodeTags(hexes))
  {
    hide ReplacingOccurrences, UnicodeName, UnicodeTags, HalfReplaced;
    var first, last := u.name(s[0]), u.name(s[|s| - 1]);
    assert first[..12] == "<unassigned-";
    assert last[|last| - 1..] == ">";
    ReplacedExactly(u, s);
    PrefixesReplaced(u, s, hexes);
    SuffixesReplaced(hexes);
  }

  lemma ReplacingNone(s: string, of: string, with: string)
    requires |of| > 0 && forall i :: 0 <= i < |s| ==> s[i] != of[0]
    ensures ReplacingOccurrences(s, of, with) == s
  {
    ReplacingAfter(s, "", of, with);
    assert s + "" == s;
  }

  lemma UnassignedIsTagged(u: Unicode, c: char, hex: string)
    requires HexDigits(hex) && u.name(c) == "<unassigned-" + hex + ">"
    ensures Unassigned(u, [c]) == Some(UnicodeTag(hex))
  {
    hide Unassigned;
    UnassignedAreTagged(u, [c], [hex]);
    assert [hex][1..] == [] && UnicodeTags([hex]) == UnicodeTag(hex) + "" == UnicodeTag(hex);
  }

  lemma {:induction false} ValueLengthOf(value: string, rest: string)
    requires HexDigits(value) && rest != "" && !ValueChar(rest[0])
    ensures ValueLength(value + rest) == |value|
  {
    if value == "" {
      assert value + rest == rest;
    } else {
      assert (value + rest)[0] == value[0] && (value + rest)[1..] == value[1..] + rest;
      ValueLengthOf(value[1..], rest);
    }
  }

  // What follows the element's name in such a tag.
  function NumberAttribute(hex: string): string {
    "value" + ("='" + (hex + "'/>"))
  }

  lemma ParseNumber(hex: string)
    requires HexDigits(hex)
    ensures ParseAttribute(NumberAttribute(hex)) == Some(EmptyElement("", map["value" := hex], ""))
  {
    hide NameLength, ValueLength;
    var attribute := NumberAttribute(hex);
    NameLengthOf("value", "='" + (hex + "'/>"));
    assert NameLength(attribute) == 5;
    NumberParts(hex);
    ValueLengthOf(hex, "'/>");
    assert ValueLength(attribute[7..]) == |hex|;
  }

  lemma NumberParts(hex: string)
    ensures var attribute := NumberAttribute(hex);
            && |attribute| == |hex| + 10 && attribute[..5] == "value" && attribute[5..][..2] == "='"
            && attribute[7..] == hex + "'/>" && attribute[7..7 + |hex|] == hex
            && attribute[7 + |hex|..] == "'/>" && attribute[|hex| + 10..] == ""
  {
  }

  lemma ParseUnicodeTag(hex: string)
    requires HexDigits(hex)
    ensures Parse(UnicodeTag(hex)) == Some(ElementThen("BON:unicode", map["value" := hex], Done, Done))
  {
    hide NameLength, ParseAttribute, NumberAttribute;
    var tag, attribute := UnicodeTag(hex), NumberAttribute(hex);
    TagParts(hex);
    NameLengthOf("BON:unicode", " " + attribute);
    ParseNumber(hex);
    assert ParseElement(tag[1..]) == Some(EmptyElement("BON:unicode", map["value" := hex], ""));
    NothingToParse();
  }

  lemma TagParts(hex: string)
    ensures var tag, attribute := UnicodeTag(hex), NumberAttribute(hex);
            && |tag| > 0 && tag[0] == '<' && tag[1..] == "BON:unicode" + (" " + attribute)
            && tag[1..][..11] == "BON:unicode" && tag[1..][11..] == " " + attribute && tag[1..][12..] == attribute
  {
    var tag, attribute := UnicodeTag(hex), NumberAttribute(hex);
    assert UNASSIGNED_PREFIX_REPLACEMENT == "<" + ("BON:unicode" + (" " + ("value" + "='")));
    assert tag[1..] == "BON:unicode" + (" " + attribute) by {
      AppendAssociative("value", "='", hex + "'/>");
    }
    Split("BON:unicode", " ", attribute);
  }

  lemma Split(a: string, b: string, c: string)
    ensures (a + (b + c))[..|a|] == a && (a + (b + c))[|a|..] == b + c && (a + (b + c))[|a| + |b|..] == c
  {
  }

  lemma UnicodeIsNoName(s: Special)
    ensures ElementName(s) != "BON:unicode"
  {
    NameFound(s);
    assert ElementName(s)[4..] == Name(s) && "BON:unicode"[4..] == "unicode";
    assert Name(s) == "unicode" ==> s == EnSpace;
  }

  // It is printed with its number, as an element that the default rules have nothing for, so
  // nothing comes back.
  lemma UnassignedIsLost(u: Unicode, named: string -> Option<Style>, transformed: (TransformId, string) -> string,
                         customRuns: (nat, Style) -> seq<Run>, styler: StylerId, base: Style, c: char, hex: string)
    requires Sound(u) && base.transform == None
    requires HexDigits(hex) && u.name(c) == "<unassigned-" + hex + ">" && u.characters([c]) == [[c]]
    ensures Printed(u, [c], NoImages) == UnicodeTag(hex)
    ensures var r := Restored(u, named, transformed, customRuns, styler, base, [c]);
            r.Some? && TextOf(r.value) == ""
  {
    hide Read, TextOf, AllUnder, Expand, Parse, Unassigned, UnicodeTag, MarkFor, FromScalar, Name, ElementName;
    hide Inserted;
    UnassignedIsTagged(u, c, hex);
    assert u.name(c)[..12] == "<unassigned-";
    assert IsUnassigned(u, c);
    MarkOf(c, 0);
    ExpandHead([c], 0);
    ExpandNothing([c][1..], |Units(c)|);
    assert Expand([c], 0, NoImages) == [c];
    assert CharacterPieces(u, [[c]][1..]) == [];
    assert CharacterPieces(u, [[c]]) == [Piece([c], Some(UnicodeTag(hex)))];
    assert Expanded([Piece([c], Some(UnicodeTag(hex)))][1..]) == "";
    assert Printed(u, [c], NoImages) == UnicodeTag(hex) + "" == UnicodeTag(hex);
    ParseUnicodeTag(hex);
    ReadIsFlat(named, transformed, customRuns, styler, base, UnicodeTag(hex));
    InsertedIsNamed(named, "BON:unicode", map["value" := hex]);
    forall s: Special
      ensures ElementName(s) != "BON:unicode"
    {
      UnicodeIsNoName(s);
    }
    assert Flat(named, Done) == "";
  }

  lemma NothingToParse()
    ensures Parse("") == Some(Done)
  {
  }
}
