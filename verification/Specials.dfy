// The characters that BonMot has names for, and the XML rules that insert them.
module Specials {
  import opened Options
  import opened StringStyles
  import opened XmlBuilder
  import opened StyleRules

  datatype Special =
    | Tab | LineFeed | VerticalTab | FormFeed | CarriageReturn | Space | NextLine | NoBreakSpace
    | EnSpace | EmSpace | FigureSpace | ThinSpace | HairSpace | ZeroWidthSpace | NonBreakingHyphen
    | FigureDash | EnDash | EmDash | HorizontalEllipsis | LineSeparator | ParagraphSeparator
    | LeftToRightOverride | NarrowNoBreakSpace | WordJoiner | MinusSign | ObjectReplacementCharacter

  const ALL_CASES: seq<Special> := [
    Tab, LineFeed, VerticalTab, FormFeed, CarriageReturn, Space, NextLine, NoBreakSpace,
    EnSpace, EmSpace, FigureSpace, ThinSpace, HairSpace, ZeroWidthSpace, NonBreakingHyphen,
    FigureDash, EnDash, EmDash, HorizontalEllipsis, LineSeparator, ParagraphSeparator,
    LeftToRightOverride, NarrowNoBreakSpace, WordJoiner, MinusSign, ObjectReplacementCharacter]

  function RawValue(s: Special): char {
    match s
    case Tab => '\U{0009}'
    case LineFeed => '\U{000A}'
    case VerticalTab => '\U{000B}'
    case FormFeed => '\U{000C}'
    case CarriageReturn => '\U{000D}'
    case Space => '\U{0020}'
    case NextLine => '\U{0085}'
    case NoBreakSpace => '\U{00A0}'
    case EnSpace => '\U{2002}'
    case EmSpace => '\U{2003}'
    case FigureSpace => '\U{2007}'
    case ThinSpace => '\U{2009}'
    case HairSpace => '\U{200A}'
    case ZeroWidthSpace => '\U{200B}'
    case NonBreakingHyphen => '\U{2011}'
    case FigureDash => '\U{2012}'
    case EnDash => '\U{2013}'
    case EmDash => '\U{2014}'
    case HorizontalEllipsis => '\U{2026}'
    case LineSeparator => '\U{2028}'
    case ParagraphSeparator => '\U{2029}'
    case LeftToRightOverride => '\U{202D}'
    case NarrowNoBreakSpace => '\U{202F}'
    case WordJoiner => '\U{2060}'
    case MinusSign => '\U{2212}'
    case ObjectReplacementCharacter => '\U{FFFC}'
  }

  function Name(s: Special): string {
    match s
    case Tab => "tab"
    case LineFeed => "lineFeed"
    case VerticalTab => "verticalTab"
    case FormFeed => "formFeed"
    case CarriageReturn => "carriageReturn"
    case Space => "space"
    case NextLine => "nextLine"
    case NoBreakSpace => "noBreakSpace"
    case EnSpace => "enSpace"
    case EmSpace => "emSpace"
    case FigureSpace => "figureSpace"
    case ThinSpace => "thinSpace"
    case HairSpace => "hairSpace"
    case ZeroWidthSpace => "zeroWidthSpace"
    case NonBreakingHyphen => "nonBreakingHyphen"
    case FigureDash => "figureDash"
    case EnDash => "enDash"
    case EmDash => "emDash"
    case HorizontalEllipsis => "horizontalEllipsis"
    case LineSeparator => "lineSeparator"
    case ParagraphSeparator => "paragraphSeparator"
    case LeftToRightOverride => "leftToRightOverride"
    case NarrowNoBreakSpace => "narrowNoBreakSpace"
    case WordJoiner => "wordJoiner"
    case MinusSign => "minusSign"
    case ObjectReplacementCharacter => "objectReplacementCharacter"
  }

  // The characters and their names in the order of the cases, which is that of the scalars.
  const RAW_VALUES: seq<int> := [
    0x9, 0xA, 0xB, 0xC, 0xD, 0x20, 0x85, 0xA0,
    0x2002, 0x2003, 0x2007, 0x2009, 0x200A, 0x200B, 0x2011,
    0x2012, 0x2013, 0x2014, 0x2026, 0x2028, 0x2029,
    0x202D, 0x202F, 0x2060, 0x2212, 0xFFFC]

  const NAMES: seq<string> := [
    "tab", "lineFeed", "verticalTab", "formFeed", "carriageReturn", "space", "nextLine", "noBreakSpace",
    "enSpace", "emSpace", "figureSpace", "thinSpace", "hairSpace", "zeroWidthSpace", "nonBreakingHyphen",
    "figureDash", "enDash", "emDash", "horizontalEllipsis", "lineSeparator", "paragraphSeparator",
    "leftToRightOverride", "narrowNoBreakSpace", "wordJoiner", "minusSign", "objectReplacementCharacter"]

  // The place of a case.
  function Order(s: Special): nat {
    match s
    case Tab => 0 case LineFeed => 1 case VerticalTab => 2 case FormFeed => 3 case CarriageReturn => 4
    case Space => 5 case NextLine => 6 case NoBreakSpace => 7 case EnSpace => 8 case EmSpace => 9
    case FigureSpace => 10 case ThinSpace => 11 case HairSpace => 12 case ZeroWidthSpace => 13
    case NonBreakingHyphen => 14 case FigureDash => 15 case EnDash => 16 case EmDash => 17
    case HorizontalEllipsis => 18 case LineSeparator => 19 case ParagraphSeparator => 20
    case LeftToRightOverride => 21 case NarrowNoBreakSpace => 22 case WordJoiner => 23
    case MinusSign => 24 case ObjectReplacementCharacter => 25
  }

  lemma CaseIs(s: Special)
    ensures ALL_CASES[Order(s)] == s
  {
    hide Name, RawValue;
  }

  lemma RawValueIs(s: Special)
    ensures RawValue(s) as int == RAW_VALUES[Order(s)]
  {
  }

  lemma NameIs(s: Special)
    ensures Name(s) == NAMES[Order(s)]
  {
    if Order(s) < 13 {
      EarlyNameIs(s);
    } else {
      LateNameIs(s);
    }
  }

  lemma EarlyNameIs(s: Special)
    requires Order(s) < 13
    ensures Name(s) == NAMES[Order(s)]
  {
  }

  lemma LateNameIs(s: Special)
    requires Order(s) >= 13
    ensures Name(s) == NAMES[Order(s)]
  {
  }

  lemma ScalarsIncrease(i: nat)
    requires 0 < i < 26
    ensures RAW_VALUES[i - 1] < RAW_VALUES[i]
  {
  }

  // Swift compares strings up to canonical equivalence, so Special(rawValue:) sees the two
  // quads as the two spaces they are canonically equivalent to.
  function Canonical(c: char): char {
    if c == '\U{2000}' then '\U{2002}' else if c == '\U{2001}' then '\U{2003}' else c
  }

  function FirstWithRawValue(cases: seq<Special>, c: char): Option<Special> {
    if cases == [] then None
    else if RawValue(cases[0]) == c then Some(cases[0])
    else FirstWithRawValue(cases[1..], c)
  }

  // Special(rawValue:) on a one-scalar string
  function FromScalar(c: char): Option<Special> {
    FirstWithRawValue(ALL_CASES, Canonical(c))
  }

  lemma {:induction false} FirstWithRawValueSound(cases: seq<Special>, c: char)
    ensures var r := FirstWithRawValue(cases, c); r.Some? ==> RawValue(r.value) == c
  {
    if cases != [] {
      FirstWithRawValueSound(cases[1..], c);
    }
  }

  lemma FromScalarSound(c: char)
    ensures FromScalar(c).Some? ==> RawValue(FromScalar(c).value) == Canonical(c)
  {
    FirstWithRawValueSound(ALL_CASES, Canonical(c));
  }

  lemma {:induction false} FirstWithRawValueComplete(cases: seq<Special>, s: Special)
    requires s in cases
    ensures FirstWithRawValue(cases, RawValue(s)).Some?
  {
    hide RawValue;
    if RawValue(cases[0]) != RawValue(s) {
      FirstWithRawValueComplete(cases[1..], s);
    }
  }

  lemma RawValuesAreDistinct(s: Special, t: Special)
    requires RawValue(s) == RawValue(t)
    ensures s == t
  {
  }

  lemma RawValuesAreCanonical(s: Special)
    ensures Canonical(RawValue(s)) == RawValue(s)
  {
  }

  // Looking a scalar up finds exactly the case that it is canonically equivalent to.
  lemma FromScalarExactly(c: char, s: Special)
    ensures FromScalar(c) == Some(s) <==> RawValue(s) == Canonical(c)
    ensures FromScalar(RawValue(s)) == Some(s)
  {
    hide RawValue, Canonical, FirstWithRawValue;
    FromScalarSound(c);
    FromScalarSound(RawValue(s));
    Listed(s);
    FirstWithRawValueComplete(ALL_CASES, s);
    RawValuesAreCanonical(s);
    if RawValue(s) == Canonical(c) {
      RawValuesAreDistinct(s, FromScalar(c).value);
    }
    RawValuesAreDistinct(s, FromScalar(RawValue(s)).value);
  }

  lemma Listed(s: Special)
    ensures s in ALL_CASES
  {
    CaseIs(s);
  }

  // The length and the first two letters of a name tell which one it is.
  function ByLetters(length: nat, first: char, second: char): Special {
    match length
    case 3 => Tab
    case 5 => Space
    case 6 => if second == 'n' then EnDash else EmDash
    case 7 => if second == 'n' then EnSpace else EmSpace
    case 8 => if first == 'l' then LineFeed else if first == 'f' then FormFeed else NextLine
    case 9 => if first == 'h' then HairSpace else if first == 't' then ThinSpace else MinusSign
    case 10 => if first == 'f' then FigureDash else WordJoiner
    case 11 => if first == 'v' then VerticalTab else FigureSpace
    case 12 => NoBreakSpace
    case 13 => LineSeparator
    case 14 => if first == 'z' then ZeroWidthSpace else CarriageReturn
    case 17 => NonBreakingHyphen
    case 18 => if first == 'h' then HorizontalEllipsis else if first == 'p' then ParagraphSeparator
      else NarrowNoBreakSpace
    case 19 => LeftToRightOverride
    case _ => ObjectReplacementCharacter
  }

  lemma NamesAreDistinct(s: Special, t: Special)
    requires Name(s) == Name(t)
    ensures s == t
  {
    NameFound(s);
    NameFound(t);
  }

  lemma NameFound(s: Special)
    ensures |Name(s)| >= 2 && ByLetters(|Name(s)|, Name(s)[0], Name(s)[1]) == s
  {
  }

  function ElementName(s: Special): string {
    "BON:" + Name(s)
  }

  // Special.insertionRules: an insertion and an empty style for every case.
  function InsertionRules(cases: seq<Special>): seq<Rule> {
    if cases == [] then []
    else [EnterWith(ElementName(cases[0]), Text([RawValue(cases[0])])), StyleOf(ElementName(cases[0]), PLAIN)]
         + InsertionRules(cases[1..])
  }

  // The rules of the default XML styler.
  function DefaultRules(named: string -> Option<Style>): seq<Rule> {
    InsertionRules(ALL_CASES) + [Styles(named)]
  }

  lemma SameElementName(s: Special, t: Special)
    requires ElementName(s) == ElementName(t)
    ensures s == t
  {
    assert ElementName(s)[4..] == Name(s) && ElementName(t)[4..] == Name(t);
    NamesAreDistinct(s, t);
  }

  // Every named character's element inserts that character and adds no style.
  lemma {:induction false} InsertionRulesInsert(cases: seq<Special>, tail: seq<Rule>, s: Special,
                                                attributes: Attributes)
    requires s in cases
    ensures RulePrefix(InsertionRules(cases) + tail, ElementName(s), attributes) == Some(Text([RawValue(s)]))
    ensures OwnStyle(InsertionRules(cases) + tail, ElementName(s), attributes) == Some(PLAIN)
  {
    hide ElementName, Name, RawValue;
    var rules := InsertionRules(cases) + tail;
    assert rules[2..] == InsertionRules(cases[1..]) + tail && rules[1..][1..] == rules[2..];
    assert rules[0] == EnterWith(ElementName(cases[0]), Text([RawValue(cases[0])]))
           && rules[1..][0] == StyleOf(ElementName(cases[0]), PLAIN);
    if cases[0] != s {
      if ElementName(cases[0]) == ElementName(s) {
        SameElementName(cases[0], s);
      }
      InsertionRulesInsert(cases[1..], tail, s, attributes);
    }
  }

  // What the default rules put in for an element of any name: one named character, or nothing.
  lemma {:induction false} InsertionRulesOnly(cases: seq<Special>, named: string -> Option<Style>, name: string,
                                              attributes: Attributes)
    ensures var rules := InsertionRules(cases) + [Styles(named)];
            && RuleSuffix(rules, name) == None
            && (RulePrefix(rules, name, attributes) == None
                || exists s :: s in cases && ElementName(s) == name
                    && RulePrefix(rules, name, attributes) == Some(Text([RawValue(s)])))
  {
    hide ElementName, Name, RawValue;
    var rules := InsertionRules(cases) + [Styles(named)];
    if cases == [] {
      assert rules == [Styles(named)];
      assert RuleSuffix(rules[1..], name) == None && RulePrefix(rules[1..], name, attributes) == None;
    } else {
      assert rules[2..] == InsertionRules(cases[1..]) + [Styles(named)] && rules[1..][1..] == rules[2..];
      assert rules[0] == EnterWith(ElementName(cases[0]), Text([RawValue(cases[0])]))
             && rules[1..][0] == StyleOf(ElementName(cases[0]), PLAIN);
      InsertionRulesOnly(cases[1..], named, name, attributes);
      if ElementName(cases[0]) != name && RulePrefix(rules, name, attributes).Some? {
        assert RulePrefix(rules, name, attributes) == RulePrefix(rules[1..], name, attributes) ==
               RulePrefix(rules[2..], name, attributes);
        var s :| s in cases[1..] && ElementName(s) == name
            && RulePrefix(InsertionRules(cases[1..]) + [Styles(named)], name, attributes) == Some(Text([RawValue(s)]));
        assert s in cases;
      }
    }
  }
}
