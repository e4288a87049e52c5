// bonMotDebugString: two passes, each of which collects replacements by UTF-16 offset and then
// applies them in place, last one first. The first goes over the scalars and names the special
// ones, the second over the characters and names the unassigned ones.
module DebugPrinter {
  import opened Options
  import opened StringStyles
  import opened XmlBuilder
  import opened Specials

  // The UTF-16 code units of a scalar.
  function Units(c: char): (r: seq<nat>)
    ensures 1 <= |r| <= 2
  {
    var n := c as int;
    if n < 0x10000 then [n]
    else [0xD800 + (n - 0x10000) / 0x400, 0xDC00 + (n - 0x10000) % 0x400]
  }

  function Utf16(s: string): seq<nat> {
    if s == "" then [] else Units(s[0]) + Utf16(s[1..])
  }

  // A scalar of the basic plane is its own code unit; one beyond it is a high and a low
  // surrogate that hold its upper and lower ten bits.
  lemma UnitsAre(c: char)
    ensures c as int < 0x10000 ==> Units(c) == [c as int]
    ensures c as int >= 0x10000 ==>
              var u := Units(c);
              && |u| == 2 && 0xD800 <= u[0] < 0xDC00 && 0xDC00 <= u[1] < 0xE000
              && c as int == 0x10000 + (u[0] - 0xD800) * 0x400 + (u[1] - 0xDC00)
  {
  }

  lemma {:induction false} Utf16Concat(a: string, b: string)
    ensures Utf16(a + b) == Utf16(a) + Utf16(b)
  {
    if a == "" {
      assert a + b == b;
    } else {
      assert (a + b)[0] == a[0] && (a + b)[1..] == a[1..] + b;
      Utf16Concat(a[1..], b);
      assert Units(a[0]) + (Utf16(a[1..]) + Utf16(b)) == (Units(a[0]) + Utf16(a[1..])) + Utf16(b);
    }
  }

  // The string that code units spell; a surrogate on its own is not a scalar.
  function Decoded(units: seq<nat>): string {
    if |units| == 0 then ""
    else if |units| >= 2 && 0xD800 <= units[0] < 0xDC00 && 0xDC00 <= units[1] < 0xE000 then
      [(0x10000 + (units[0] - 0xD800) * 0x400 + (units[1] - 0xDC00)) as char] + Decoded(units[2..])
    else
      [if units[0] < 0xD800 || 0xE000 <= units[0] < 0x10000 then units[0] as char else '\U{FFFD}'] + Decoded(units[1..])
  }

  lemma DecodedFirst(c: char, rest: seq<nat>)
    ensures Decoded(Units(c) + rest) == [c] + Decoded(rest)
  {
    var units := Units(c) + rest;
    if |Units(c)| == 2 {
      assert units[0] == Units(c)[0] && units[1] == Units(c)[1] && units[2..] == rest;
    } else {
      assert units[0] == c as int && units[1..] == rest;
    }
  }

  // A string is determined by its code units.
  lemma {:induction false} DecodedUtf16(s: string)
    ensures Decoded(Utf16(s)) == s
  {
    hide Decoded, Units;
    if |s| > 0 {
      DecodedFirst(s[0], Utf16(s[1..]));
      DecodedUtf16(s[1..]);
    } else {
      DecodedNothing();
    }
  }

  lemma DecodedNothing()
    ensures Decoded([]) == ""
  {
  }

  lemma Utf16Injective(a: string, b: string)
    requires Utf16(a) == Utf16(b)
    ensures a == b
  {
    DecodedUtf16(a);
    DecodedUtf16(b);
  }

  // NSMutableAttributedString's text.
  class MutableString {
    var units: seq<nat>

    constructor (s: string)
      ensures units == Utf16(s)
    {
      units := Utf16(s);
    }

    function String(): string
      reads this
    {
      Decoded(units)
    }

    method ReplaceCharacters(location: nat, length: nat, s: string)
      requires location + length <= |units|
      modifies this
      ensures units == old(units)[..location] + Utf16(s) + old(units)[location + length..]
    {
      units := units[..location] + Utf16(s) + units[location + length..];
    }
  }

  // ---- Replacing pieces of a text ----

  // A piece of a text, and what is put instead of it, if it is replaced.
  datatype Piece = Piece(text: string, instead: Option<string>) {
    function Shown(): string {
      if instead.Some? then instead.value else text
    }
  }

  function Spelled(ps: seq<Piece>): string {
    if |ps| == 0 then "" else ps[0].text + Spelled(ps[1..])
  }

  // The left-to-right expansion of every piece.
  function Expanded(ps: seq<Piece>): string {
    if |ps| == 0 then "" else ps[0].Shown() + Expanded(ps[1..])
  }

  datatype Replacement = Replacement(location: nat, length: nat, written: string)

  function Collect(ps: seq<Piece>, index: nat): seq<Replacement> {
    if |ps| == 0 then []
    else
      var unit := |Utf16(ps[0].text)|;
      (if ps[0].instead.Some? then [Replacement(index, unit, ps[0].instead.value)] else [])
      + Collect(ps[1..], index + unit)
  }

  function Edit(units: seq<nat>, r: Replacement): seq<nat>
    requires r.location + r.length <= |units|
  {
    units[..r.location] + Utf16(r.written) + units[r.location + r.length..]
  }

  // The replacements come in order and none overlaps another.
  predicate Ordered(rs: seq<Replacement>, from: nat, total: nat) {
    if |rs| == 0 then from <= total
    else from <= rs[0].location && Ordered(rs[1..], rs[0].location + rs[0].length, total)
  }

  // Applying the last replacement first leaves everything before it where it was, so the
  // offsets of the others stay valid.
  function ApplyReversed(units: seq<nat>, rs: seq<Replacement>, from: nat): (r: seq<nat>)
    requires Ordered(rs, from, |units|)
    ensures from <= |r| && from <= |units| && r[..from] == units[..from]
    decreases |rs|
  {
    if |rs| == 0 then units
    else
      var after := rs[0].location + rs[0].length;
      var later := ApplyReversed(units, rs[1..], after);
      assert later[..after][..from] == later[..from] && units[..after][..from] == units[..from];
      Edit(later, rs[0])
  }

  lemma SpelledFirst(ps: seq<Piece>)
    requires |ps| > 0
    ensures Utf16(Spelled(ps)) == Utf16(ps[0].text) + Utf16(Spelled(ps[1..]))
    ensures Utf16(Expanded(ps)) == Utf16(ps[0].Shown()) + Utf16(Expanded(ps[1..]))
  {
    hide Utf16, Piece.Shown;
    Utf16Concat(ps[0].text, Spelled(ps[1..]));
    Utf16Concat(ps[0].Shown(), Expanded(ps[1..]));
  }

  lemma CollectFirst(ps: seq<Piece>, index: nat)
    requires |ps| > 0
    ensures var unit := |Utf16(ps[0].text)|;
            var rest := Collect(ps[1..], index + unit);
            && (ps[0].instead.Some? ==> Collect(ps, index) == [Replacement(index, unit, ps[0].instead.value)] + rest)
            && (ps[0].instead.None? ==> Collect(ps, index) == rest)
  {
    hide Utf16;
    var rest := Collect(ps[1..], index + |Utf16(ps[0].text)|);
    assert [] + rest == rest;
  }

  lemma OrderedHead(r: Replacement, rs: seq<Replacement>, from: nat, total: nat)
    requires from <= r.location && Ordered(rs, r.location + r.length, total)
    ensures Ordered([r] + rs, from, total)
  {
    assert ([r] + rs)[1..] == rs;
  }

  // The collected replacements are in order.
  lemma {:induction false} CollectOrdered(ps: seq<Piece>, index: nat)
    ensures Ordered(Collect(ps, index), index, index + |Utf16(Spelled(ps))|)
  {
    hide *;
    if |ps| > 0 {
      CollectOrdered(ps[1..], index + |Utf16(ps[0].text)|);
      CollectOrderedStep(ps, index);
    } else {
      NothingCollected(ps, index);
    }
  }

  lemma NothingCollected(ps: seq<Piece>, index: nat)
    requires |ps| == 0
    ensures Ordered(Collect(ps, index), index, index + |Utf16(Spelled(ps))|)
  {
  }

  lemma CollectOrderedStep(ps: seq<Piece>, index: nat)
    requires |ps| > 0
    requires var next := index + |Utf16(ps[0].text)|;
             Ordered(Collect(ps[1..], next), next, next + |Utf16(Spelled(ps[1..]))|)
    ensures Ordered(Collect(ps, index), index, index + |Utf16(Spelled(ps))|)
  {
    hide *;
    SpelledFirst(ps);
    CollectFirst(ps, index);
    var unit := |Utf16(ps[0].text)|;
    var rest := Collect(ps[1..], index + unit);
    if ps[0].instead.Some? {
      OrderedHead(Replacement(index, unit, ps[0].instead.value), rest, index, index + |Utf16(Spelled(ps))|);
    } else {
      OrderedFromEarlier(rest, index + unit, index, index + |Utf16(Spelled(ps))|);
    }
  }

  lemma OrderedFromEarlier(rs: seq<Replacement>, from: nat, earlier: nat, total: nat)
    requires Ordered(rs, from, total) && earlier <= from
    ensures Ordered(rs, earlier, total)
  {
  }

  lemma ApplyFromEarlier(units: seq<nat>, rs: seq<Replacement>, from: nat, earlier: nat)
    requires Ordered(rs, from, |units|) && earlier <= from
    ensures Ordered(rs, earlier, |units|) && ApplyReversed(units, rs, from) == ApplyReversed(units, rs, earlier)
  {
  }

  ghost predicate Becomes(units: seq<nat>, rs: seq<Replacement>, from: nat, result: seq<nat>) {
    Ordered(rs, from, |units|) && ApplyReversed(units, rs, from) == result
  }

  // One more replacement in front of those already applied.
  lemma EditHead(before: seq<nat>, unit: seq<nat>, tail: seq<nat>, edited: seq<nat>, later: seq<Replacement>,
                 s: string)
    requires Becomes((before + unit) + tail, later, |before + unit|, (before + unit) + edited)
    ensures Becomes(before + (unit + tail), [Replacement(|before|, |unit|, s)] + later, |before|,
                    before + (Utf16(s) + edited))
  {
    hide Utf16;
    var rs := [Replacement(|before|, |unit|, s)] + later;
    assert rs[1..] == later;
    AppendAssociative(before, unit, tail);
    var applied := before + unit + edited;
    assert applied[..|before|] == before && applied[|before| + |unit|..] == edited;
    AppendAssociative(before, Utf16(s), edited);
  }

  // A piece that stays.
  lemma KeepHead(before: seq<nat>, unit: seq<nat>, tail: seq<nat>, edited: seq<nat>, later: seq<Replacement>)
    requires Becomes((before + unit) + tail, later, |before + unit|, (before + unit) + edited)
    ensures Becomes(before + (unit + tail), later, |before|, before + (unit + edited))
  {
    AppendAssociative(before, unit, tail);
    AppendAssociative(before, unit, edited);
    ApplyFromEarlier(before + unit + tail, later, |before + unit|, |before|);
  }

  lemma ReversedEditsStep(before: seq<nat>, ps: seq<Piece>)
    requires |ps| > 0
    requires var next := before + Utf16(ps[0].text);
             Becomes(next + Utf16(Spelled(ps[1..])), Collect(ps[1..], |next|), |next|,
                     next + Utf16(Expanded(ps[1..])))
    ensures Becomes(before + Utf16(Spelled(ps)), Collect(ps, |before|), |before|, before + Utf16(Expanded(ps)))
  {
    hide *;
    var unit, tail, edited := Utf16(ps[0].text), Utf16(Spelled(ps[1..])), Utf16(Expanded(ps[1..]));
    var later := Collect(ps[1..], |before + unit|);
    SpelledFirst(ps);
    CollectFirst(ps, |before|);
    ShownIs(ps[0]);
    assert |before + unit| == |before| + |unit|;
    if ps[0].instead.Some? {
      EditHead(before, unit, tail, edited, later, ps[0].instead.value);
    } else {
      KeepHead(before, unit, tail, edited, later);
    }
  }

  lemma ShownIs(p: Piece)
    ensures p.Shown() == if p.instead.Some? then p.instead.value else p.text
  {
  }

  // Editing in reverse order is expanding from left to right.
  lemma {:induction false} ReversedEditsExpand(before: seq<nat>, ps: seq<Piece>)
    ensures Becomes(before + Utf16(Spelled(ps)), Collect(ps, |before|), |before|, before + Utf16(Expanded(ps)))
    decreases |ps|
  {
    if |ps| > 0 {
      hide *;
      ReversedEditsExpand(before + Utf16(ps[0].text), ps[1..]);
      ReversedEditsStep(before, ps);
    }
  }

  // All the replacements of a pass, applied in place.
  method Replace(debug: MutableString, replacements: seq<Replacement>, ghost ps: seq<Piece>)
    requires debug.units == Utf16(Spelled(ps)) && replacements == Collect(ps, 0)
    modifies debug
    ensures debug.units == Utf16(Expanded(ps))
  {
    hide Utf16, Spelled, Expanded, Edit;
    CollectOrdered(ps, 0);
    ReversedEditsExpand([], ps);
    assert [] + Utf16(Spelled(ps)) == Utf16(Spelled(ps)) && [] + Utf16(Expanded(ps)) == Utf16(Expanded(ps));
    ApplyInPlace(debug, replacements);
  }

  method ApplyInPlace(debug: MutableString, replacements: seq<Replacement>)
    requires Ordered(replacements, 0, |debug.units|)
    modifies debug
    ensures debug.units == ApplyReversed(old(debug.units), replacements, 0)
  {
    hide Utf16;
    ghost var was := debug.units;
    var k := |replacements|;
    OrderedStart(replacements, k, 0, |was|);
    while k > 0
      invariant 0 <= k <= |replacements|
      invariant Ordered(replacements[k..], StartOf(replacements, k, 0), |was|)
      invariant debug.units == ApplyReversed(was, replacements[k..], StartOf(replacements, k, 0))
    {
      k := k - 1;
      OrderedStart(replacements, k, 0, |was|);
      var replacement := replacements[k];
      assert replacements[k..][0] == replacement && replacements[k..][1..] == replacements[k + 1..];
      debug.ReplaceCharacters(replacement.location, replacement.length, replacement.written);
    }
    assert replacements[0..] == replacements;
  }

  // The end of the replacement before the k-th.
  function StartOf(rs: seq<Replacement>, k: nat, from: nat): nat
    requires k <= |rs|
  {
    if k == 0 then from else rs[k - 1].location + rs[k - 1].length
  }

  lemma {:induction false} OrderedStart(rs: seq<Replacement>, k: nat, from: nat, total: nat)
    requires k <= |rs| && Ordered(rs, from, total)
    ensures Ordered(rs[k..], StartOf(rs, k, from), total)
    decreases k
  {
    if k == 0 {
      assert rs[0..] == rs;
    } else {
      OrderedStart(rs[1..], k - 1, rs[0].location + rs[0].length, total);
      assert rs[1..][k - 1..] == rs[k..];
    }
  }
  // ---- The first pass ----

  // What is written for a scalar, if it is replaced. `imageAt` gives the formatted size of
  // the image attached at a code unit, if there is one.
  function MarkFor(c: char, index: nat, imageAt: nat -> Option<string>): Option<string> {
    match FromScalar(c)
    case None => None
    case Some(Space) => None
    case Some(ObjectReplacementCharacter) =>
      Some(if imageAt(index).Some? then "image size='" + imageAt(index).value + "'"
          else Name(ObjectReplacementCharacter))
    case Some(special) => Some(Name(special))
  }

  function Tag(mark: string): string {
    "<BON:" + mark + "/>"
  }

  // The left-to-right expansion of every scalar.
  function Expand(text: string, index: nat, imageAt: nat -> Option<string>): string {
    if text == "" then ""
    else
      var mark := MarkFor(text[0], index, imageAt);
      (if mark.Some? then Tag(mark.value) else [text[0]]) + Expand(text[1..], index + |Units(text[0])|, imageAt)
  }

  lemma {:induction false} ExpandConcat(a: string, b: string, index: nat, imageAt: nat -> Option<string>)
    ensures Expand(a + b, index, imageAt) == Expand(a, index, imageAt) + Expand(b, index + |Utf16(a)|, imageAt)
  {
    hide MarkFor, Units, Tag;
    if |a| == 0 {
      assert a + b == b;
    } else {
      assert (a + b)[0] == a[0] && (a + b)[1..] == a[1..] + b;
      ExpandConcat(a[1..], b, index + |Units(a[0])|, imageAt);
    }
  }

  // What is printed for one scalar: the size of an image instead of the character it is
  // attached to, the name of any other special character but the space, and everything else
  // as it is.
  lemma ScalarIsPrinted(c: char, index: nat, imageAt: nat -> Option<string>)
    ensures var printed := Expand([c], index, imageAt);
            match FromScalar(c)
            case None => printed == [c]
            case Some(s) =>
              && (s == Space ==> printed == [c])
              && (s == ObjectReplacementCharacter && imageAt(index).Some? ==>
                    printed == "<BON:image size='" + imageAt(index).value + "'/>")
              && (s == ObjectReplacementCharacter && imageAt(index).None? ==>
                    printed == "<BON:objectReplacementCharacter/>")
              && (s != Space && s != ObjectReplacementCharacter ==> printed == "<BON:" + Name(s) + "/>")
  {
    hide FromScalar, Units, Name, Tag;
    OneScalarExpands(c, index, imageAt);
    if imageAt(index).Some? {
      TagIs("image size='" + imageAt(index).value + "'");
      ImageTagIs(imageAt(index).value);
    }
    if FromScalar(c).Some? {
      TagIs(Name(FromScalar(c).value));
    }
    NameOfObject();
    hide Expand;
  }

  lemma NameOfObject()
    ensures "<BON:" + Name(ObjectReplacementCharacter) + "/>" == "<BON:objectReplacementCharacter/>"
  {
  }

  lemma OneScalarExpands(c: char, index: nat, imageAt: nat -> Option<string>)
    ensures var mark := MarkFor(c, index, imageAt);
            Expand([c], index, imageAt) == if mark.Some? then Tag(mark.value) else [c]
  {
    hide MarkFor, Units, Tag;
    assert [c][1..] == "" && Expand("", index + |Units(c)|, imageAt) == "";
  }

  lemma TagIs(mark: string)
    ensures Tag(mark) == "<BON:" + mark + "/>"
  {
  }

  lemma ImageTagIs(size: string)
    ensures "<BON:" + ("image size='" + size + "'") + "/>" == "<BON:image size='" + size + "'/>"
  {
  }

  // An image in the middle of a text is looked up at the code units before it.
  lemma ImageIsPrinted(a: string, b: string, imageAt: nat -> Option<string>)
    requires imageAt(|Utf16(a)|).Some?
    ensures Expand(a + "\U{FFFC}" + b, 0, imageAt) ==
            Expand(a, 0, imageAt) + ("<BON:image size='" + imageAt(|Utf16(a)|).value + "'/>")
            + Expand(b, |Utf16(a)| + 1, imageAt)
  {
    var c := '\U{FFFC}';
    FromScalarExactly(c, ObjectReplacementCharacter);
    hide FromScalar, Expand;
    OneScalar(c);
    UnitsAre(c);
    hide Units, Utf16;
    ScalarIsPrinted(c, |Utf16(a)|, imageAt);
    ExpandConcat(a + [c], b, 0, imageAt);
    ExpandConcat(a, [c], 0, imageAt);
    Utf16Concat(a, [c]);
  }

  // The scalars of the text from a code unit on.
  function ScalarPieces(text: string, index: nat, imageAt: nat -> Option<string>): seq<Piece> {
    if text == "" then []
    else
      var mark := MarkFor(text[0], index, imageAt);
      [Piece([text[0]], if mark.Some? then Some(Tag(mark.value)) else None)]
      + ScalarPieces(text[1..], index + |Units(text[0])|, imageAt)
  }

  lemma {:induction false} ScalarsExpand(text: string, index: nat, imageAt: nat -> Option<string>)
    ensures Spelled(ScalarPieces(text, index, imageAt)) == text
    ensures Expanded(ScalarPieces(text, index, imageAt)) == Expand(text, index, imageAt)
  {
    hide MarkFor, Units, Tag;
    if |text| > 0 {
      ScalarsExpand(text[1..], index + |Units(text[0])|, imageAt);
      assert ScalarPieces(text, index, imageAt)[1..] == ScalarPieces(text[1..], index + |Units(text[0])|, imageAt);
    }
  }

  lemma OneScalar(c: char)
    ensures Utf16([c]) == Units(c)
  {
    assert Utf16([c]) == Units(c) + [];
  }

  lemma ScalarsFirst(text: string, index: nat, imageAt: nat -> Option<string>)
    requires |text| > 0
    ensures var mark := MarkFor(text[0], index, imageAt);
            var next := index + |Units(text[0])|;
            var rest := Collect(ScalarPieces(text[1..], next, imageAt), next);
            && (mark.Some? ==> Collect(ScalarPieces(text, index, imageAt), index) ==
                               [Replacement(index, |Units(text[0])|, Tag(mark.value))] + rest)
            && (mark.None? ==> Collect(ScalarPieces(text, index, imageAt), index) == rest)
  {
    hide MarkFor, Units, Tag, Utf16, Collect;
    OneScalar(text[0]);
    CollectFirst(ScalarPieces(text, index, imageAt), index);
    assert ScalarPieces(text, index, imageAt)[1..] == ScalarPieces(text[1..], index + |Units(text[0])|, imageAt);
  }

  method FirstPass(debug: MutableString, text: string, imageAt: nat -> Option<string>)
    requires debug.units == Utf16(text)
    modifies debug
    ensures debug.units == Utf16(Expand(text, 0, imageAt))
  {
    hide MarkFor, Units, Expand, Tag, Utf16, Collect, ScalarPieces, Spelled, Expanded;
    var replacements: seq<Replacement> := [];
    var index: nat, i: nat := 0, 0;
    assert text[0..] == text;
    while i < |text|
      invariant 0 <= i <= |text|
      invariant debug.units == Utf16(text)
      invariant replacements + Collect(ScalarPieces(text[i..], index, imageAt), index) ==
                Collect(ScalarPieces(text, 0, imageAt), 0)
    {
      var mark := MarkFor(text[i], index, imageAt);
      var utf16Length := |Units(text[i])|;
      assert text[i..][0] == text[i] && text[i..][1..] == text[i + 1..];
      ScalarsFirst(text[i..], index, imageAt);
      if mark.Some? {
        var replacement := Replacement(index, utf16Length, Tag(mark.value));
        AppendAssociative(replacements, [replacement],
                          Collect(ScalarPieces(text[i + 1..], index + utf16Length, imageAt), index + utf16Length));
        replacements := replacements + [replacement];
      }
      index := index + utf16Length;
      i := i + 1;
    }
    NoScalars(index, imageAt);
    assert text[i..] == "";
    ScalarsExpand(text, 0, imageAt);
    Replace(debug, replacements, ScalarPieces(text, 0, imageAt));
  }

  lemma NoScalars(index: nat, imageAt: nat -> Option<string>)
    ensures Collect(ScalarPieces("", index, imageAt), index) == []
  {
  }

  // ---- The second pass ----

  // What Unicode says: the characters, or grapheme clusters, of a string, and the name of a
  // scalar as the transform to names writes it.
  datatype Unicode = Unicode(characters: string -> seq<string>, name: char -> string) {
    // The characters make up the string.
    ghost predicate Segments() {
      forall s :: Joined(characters(s)) == s
    }
  }

  function UnicodeName(u: Unicode, s: string): string {
    if s == "" then "" else "\\N{" + u.name(s[0]) + "}" + UnicodeName(u, s[1..])
  }

  predicate HasPrefix(s: string, p: string) {
    |p| <= |s| && s[..|p|] == p
  }

  predicate HasSuffix(s: string, p: string) {
    |p| <= |s| && s[|s| - |p|..] == p
  }

  function ReplacingOccurrences(s: string, of: string, with: string): string
    requires |of| > 0
  {
    if |s| < |of| then s
    else if s[..|of|] == of then with + ReplacingOccurrences(s[|of|..], of, with)
    else [s[0]] + ReplacingOccurrences(s[1..], of, with)
  }

  const UNASSIGNED_PREFIX := "\\N{<unassigned-"
  const UNASSIGNED_PREFIX_REPLACEMENT := "<BON:unicode value='"
  const UNASSIGNED_SUFFIX := ">}"
  const UNASSIGNED_SUFFIX_REPLACEMENT := "'/>"

  // What is written for a character, if it is replaced.
  function Unassigned(u: Unicode, character: string): Option<string> {
    var transformed := UnicodeName(u, character);
    if HasPrefix(transformed, UNASSIGNED_PREFIX) && HasSuffix(transformed, UNASSIGNED_SUFFIX) then
      var newString := ReplacingOccurrences(transformed, UNASSIGNED_PREFIX, UNASSIGNED_PREFIX_REPLACEMENT);
      Some(ReplacingOccurrences(newString, UNASSIGNED_SUFFIX, UNASSIGNED_SUFFIX_REPLACEMENT))
    else
      None
  }

  function CharacterPieces(u: Unicode, characters: seq<string>): seq<Piece> {
    if |characters| == 0 then []
    else [Piece(characters[0], Unassigned(u, characters[0]))] + CharacterPieces(u, characters[1..])
  }

  // Both passes.
  function Printed(u: Unicode, text: string, imageAt: nat -> Option<string>): string {
    Expanded(CharacterPieces(u, u.characters(Expand(text, 0, imageAt))))
  }

  lemma {:induction false} CharactersSpell(u: Unicode, characters: seq<string>)
    ensures Spelled(CharacterPieces(u, characters)) == Joined(characters)
  {
    hide Unassigned;
    if |characters| > 0 {
      CharactersSpell(u, characters[1..]);
      assert CharacterPieces(u, characters)[1..] == CharacterPieces(u, characters[1..]);
    }
  }

  lemma CharactersFirst(u: Unicode, characters: seq<string>, index: nat)
    requires |characters| > 0
    ensures var mark := Unassigned(u, characters[0]);
            var next := index + |Utf16(characters[0])|;
            var rest := Collect(CharacterPieces(u, characters[1..]), next);
            && (mark.Some? ==> Collect(CharacterPieces(u, characters), index) ==
                               [Replacement(index, |Utf16(characters[0])|, mark.value)] + rest)
            && (mark.None? ==> Collect(CharacterPieces(u, characters), index) == rest)
  {
    hide Unassigned, Utf16, Collect;
    CollectFirst(CharacterPieces(u, characters), index);
    assert CharacterPieces(u, characters)[1..] == CharacterPieces(u, characters[1..]);
  }

  lemma NoCharacters(u: Unicode, index: nat)
    ensures Collect(CharacterPieces(u, []), index) == []
  {
  }

  method SecondPass(debug: MutableString, u: Unicode)
    requires Joined(u.characters(debug.String())) == debug.String() && Utf16(debug.String()) == debug.units
    modifies debug
    ensures debug.units == Utf16(Expanded(CharacterPieces(u, u.characters(old(debug.String())))))
  {
    hide Unassigned, Utf16, Collect, CharacterPieces, Spelled, Expanded, Decoded, Joined;
    var replacements: seq<Replacement> := [];
    var characters := u.characters(debug.String());
    var currentIndex: nat, i: nat := 0, 0;
    assert characters[0..] == characters;
    while i < |characters|
      invariant 0 <= i <= |characters|
      invariant debug.units == old(debug.units)
      invariant replacements + Collect(CharacterPieces(u, characters[i..]), currentIndex) ==
                Collect(CharacterPieces(u, characters), 0)
    {
      var newString := Unassigned(u, characters[i]);
      var utf16Length := |Utf16(characters[i])|;
      assert characters[i..][0] == characters[i] && characters[i..][1..] == characters[i + 1..];
      CharactersFirst(u, characters[i..], currentIndex);
      if newString.Some? {
        var replacement := Replacement(currentIndex, utf16Length, newString.value);
        AppendAssociative(replacements, [replacement],
                          Collect(CharacterPieces(u, characters[i + 1..]), currentIndex + utf16Length));
        replacements := replacements + [replacement];
      }
      currentIndex := currentIndex + utf16Length;
      i := i + 1;
    }
    NoCharacters(u, currentIndex);
    assert characters[i..] == [];
    CharactersSpell(u, characters);
    Replace(debug, replacements, CharacterPieces(u, characters));
  }

  method DebugString(text: string, imageAt: nat -> Option<string>, u: Unicode) returns (debug: MutableString)
    requires u.Segments()
    ensures fresh(debug) && debug.units == Utf16(Printed(u, text, imageAt))
    ensures debug.String() == Printed(u, text, imageAt)
  {
    hide Expand, Utf16, Expanded, CharacterPieces, Joined, Decoded;
    debug := new MutableString(text);
    FirstPass(debug, text, imageAt);
    DecodedUtf16(Expand(text, 0, imageAt));
    SecondPass(debug, u);
    DecodedUtf16(Printed(u, text, imageAt));
  }
}
