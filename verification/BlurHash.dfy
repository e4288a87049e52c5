// The BlurHash text format: a printer and an offset-based parser of integer fields, and the
// integer packing of colours into those fields.
module BlurHash {
  import opened Options
  import opened Base83

  // The integer fields of a hash.
  datatype Hash = Hash(numX: nat, numY: nat, maximum: nat, dc: nat, ac: seq<nat>)

  function Components(numX: nat, numY: nat): (n: nat)
    ensures numX >= 1 && numY >= 1 ==> n >= 1
  {
    numX * numY
  }

  function PrintAC(ac: seq<nat>): string {
    if |ac| == 0 then "" else PrintAC(ac[..|ac| - 1]) + Encode83(ac[|ac| - 1], 2)
  }

  function SizeFlag(h: Hash): int {
    (h.numX - 1) + (h.numY - 1) * 9
  }

  // One AC factor for each component but the first; at least one component each way.
  predicate Shaped(h: Hash) {
    h.numX >= 1 && h.numY >= 1 && |h.ac| == Components(h.numX, h.numY) - 1
  }

  function Print(h: Hash): string
    requires Shaped(h)
  {
    Encode83(SizeFlag(h), 1) + Encode83(h.maximum, 1) + Encode83(h.dc, 4) + PrintAC(h.ac)
  }

  function ParseAC(s: string, count: nat): (ac: seq<nat>)
    requires |s| == 6 + 2 * count
    ensures |ac| == count
  {
    seq(count, i requires 0 <= i < count => Decode83(s[6 + 2 * i..8 + 2 * i]))
  }

  // The guards and the reads of the decoder.
  function Parse(s: string): Option<Hash> {
    if |s| < 6 then None
    else
      var sizeFlag := Decode83(s[..1]);
      var numY, numX := sizeFlag / 9 + 1, sizeFlag % 9 + 1;
      if |s| != 4 + 2 * Components(numX, numY) then None
      else Some(Hash(numX, numY, Decode83(s[1..2]), Decode83(s[2..6]), ParseAC(s, Components(numX, numY) - 1)))
  }

  // Every field within its place in the text.
  predicate Fits(h: Hash) {
    && Shaped(h)
    && h.numX <= 9 && SizeFlag(h) < 83
    && h.maximum < 83 && h.dc < 83 * 83 * 83 * 83
    && forall i :: 0 <= i < |h.ac| ==> h.ac[i] < 83 * 83
  }

  lemma Powers()
    ensures Power83(0) == 1 && Power83(1) == 83 && Power83(2) == 83 * 83 && Power83(4) == 83 * 83 * 83 * 83
  {
    assert Power83(3) == 83 * Power83(2);
  }

  lemma {:induction false} PrintACLength(ac: seq<nat>)
    ensures |PrintAC(ac)| == 2 * |ac|
  {
    if |ac| > 0 {
      PrintACLength(ac[..|ac| - 1]);
    }
  }

  // A printed hash is 4 + 2 numX numY characters of the alphabet long.
  lemma PrintedLength(h: Hash)
    requires Shaped(h)
    ensures |Print(h)| == 4 + 2 * (h.numX * h.numY)
  {
    PrintACLength(h.ac);
  }

  // The i-th pair of characters is the i-th factor.
  lemma {:induction false} PrintACAt(ac: seq<nat>, i: nat)
    requires i < |ac|
    ensures 2 * i + 2 <= |PrintAC(ac)| && PrintAC(ac)[2 * i..2 * i + 2] == Encode83(ac[i], 2)
  {
    hide Encode83;
    var front := ac[..|ac| - 1];
    PrintACLength(ac);
    PrintACLength(front);
    if i < |ac| - 1 {
      PrintACAt(front, i);
      assert PrintAC(ac)[2 * i..2 * i + 2] == PrintAC(front)[2 * i..2 * i + 2];
    }
  }

  lemma PrintedFields(h: Hash)
    requires Shaped(h)
    ensures var s := Print(h);
            && |s| == 6 + 2 * |h.ac|
            && s[..1] == Encode83(SizeFlag(h), 1) && s[1..2] == Encode83(h.maximum, 1) && s[2..6] == Encode83(h.dc, 4)
            && forall i :: 0 <= i < |h.ac| ==> s[6 + 2 * i..8 + 2 * i] == Encode83(h.ac[i], 2)
  {
    hide Encode83, PrintAC, SizeFlag;
    var s := Print(h);
    PrintACLength(h.ac);
    forall i | 0 <= i < |h.ac|
      ensures s[6 + 2 * i..8 + 2 * i] == Encode83(h.ac[i], 2)
    {
      PrintACAt(h.ac, i);
      assert s[6 + 2 * i..8 + 2 * i] == PrintAC(h.ac)[2 * i..2 * i + 2];
    }
  }

  lemma DecodeFitting(n: nat, length: nat)
    requires n < Power83(length)
    ensures Decode83(Encode83(n, length)) == n
  {
    hide Encode83, Decode83, Power83;
    DecodeEncode(n, length);
  }

  // Reading a printed hash gives every field that fits its place.
  lemma ParsePrinted(h: Hash)
    requires Shaped(h)
    ensures var s := Print(h);
            && |s| == 6 + 2 * |h.ac|
            && (SizeFlag(h) < 83 ==> Decode83(s[..1]) == SizeFlag(h))
            && (h.maximum < 83 ==> Decode83(s[1..2]) == h.maximum)
            && (h.dc < 83 * 83 * 83 * 83 ==> Decode83(s[2..6]) == h.dc)
            && forall i :: 0 <= i < |h.ac| && h.ac[i] < 83 * 83 ==> ParseAC(s, |h.ac|)[i] == h.ac[i]
  {
    hide Encode83, Decode83, Print, SizeFlag, Components;
    PrintedFields(h);
    Powers();
    if SizeFlag(h) < 83 {
      DecodeFitting(SizeFlagNat(h), 1);
    }
    if h.maximum < 83 {
      DecodeFitting(h.maximum, 1);
    }
    if h.dc < 83 * 83 * 83 * 83 {
      DecodeFitting(h.dc, 4);
    }
    forall i | 0 <= i < |h.ac| && h.ac[i] < 83 * 83
      ensures ParseAC(Print(h), |h.ac|)[i] == h.ac[i]
    {
      DecodeFitting(h.ac[i], 2);
    }
  }

  function SizeFlagNat(h: Hash): (n: nat)
    requires Shaped(h)
    ensures n == SizeFlag(h)
  {
    SizeFlag(h)
  }

  lemma FlagSplits(h: Hash)
    requires Shaped(h) && h.numX <= 9
    ensures SizeFlag(h) / 9 + 1 == h.numY && SizeFlag(h) % 9 + 1 == h.numX
  {
  }

  lemma ParsePrintFitting(h: Hash)
    requires Fits(h)
    ensures Parse(Print(h)) == Some(h)
  {
    hide Print, ParseAC, Decode83, SizeFlag, Components;
    ParsePrinted(h);
    FlagSplits(h);
    assert ParseAC(Print(h), |h.ac|) == h.ac;
  }

  // Printing loses nothing exactly when every field fits its place.
  lemma ParsePrint(h: Hash)
    requires Shaped(h)
    ensures Parse(Print(h)) == Some(h) <==> Fits(h)
  {
    hide *;
    if Fits(h) {
      ParsePrintFitting(h);
    }
    ParsedFits(Print(h));
  }

  // A hash ten components wide is printed, and not read at all.
  lemma TenWideIsRejected(h: Hash)
    requires h.numX == 10 && h.numY == 1 && Shaped(h)
    ensures Parse(Print(h)) == None
  {
    hide Print, ParseAC, Decode83;
    ParsePrinted(h);
  }

  // What the parser accepts fits.
  lemma ParsedFits(s: string)
    ensures Parse(s).Some? ==> Fits(Parse(s).value)
  {
    hide Decode83;
    Powers();
    if Parse(s).Some? {
      var h := Parse(s).value;
      DecodeBound(s[..1]);
      DecodeBound(s[1..2]);
      DecodeBound(s[2..6]);
      forall i | 0 <= i < |h.ac|
        ensures h.ac[i] < 83 * 83
      {
        DecodeBound(s[6 + 2 * i..8 + 2 * i]);
      }
    }
  }

  lemma {:induction false} PrintedACIsNumeral(ac: seq<nat>)
    ensures Numeral(PrintAC(ac))
  {
    hide DigitOf, Encode83;
    if |ac| > 0 {
      PrintedACIsNumeral(ac[..|ac| - 1]);
      EncodedIsNumeral(ac[|ac| - 1], 2);
    }
  }

  // Only characters of the alphabet are printed.
  lemma PrintedIsNumeral(h: Hash)
    requires Shaped(h)
    ensures Numeral(Print(h))
  {
    hide DigitOf, Encode83, SizeFlag, PrintAC;
    EncodedIsNumeral(SizeFlagNat(h), 1);
    EncodedIsNumeral(h.maximum, 1);
    EncodedIsNumeral(h.dc, 4);
    PrintedACIsNumeral(h.ac);
  }

  lemma {:induction false} PrintParsedAC(s: string, count: nat)
    requires |s| == 6 + 2 * count && Numeral(s)
    ensures PrintAC(ParseAC(s, count)) == s[6..]
  {
    hide DigitOf, Encode83, Decode83;
    var ac := ParseAC(s, count);
    if count > 0 {
      var front, pair := s[..|s| - 2], s[|s| - 2..];
      PrintParsedAC(front, count - 1);
      assert ac[..count - 1] == ParseAC(front, count - 1) by {
        assert forall i :: 0 <= i < count - 1 ==> front[6 + 2 * i..8 + 2 * i] == s[6 + 2 * i..8 + 2 * i];
      }
      assert s[6 + 2 * (count - 1)..8 + 2 * (count - 1)] == pair;
      EncodeDecode(pair);
      assert s[6..] == front[6..] + pair;
    }
  }

  // Re-encoding the parsed integers reproduces an accepted string exactly when all of its
  // characters are in the alphabet.
  lemma PrintParse(s: string)
    requires Parse(s).Some?
    ensures Print(Parse(s).value) == s <==> Numeral(s)
  {
    hide DigitOf, Encode83, Decode83, PrintAC, ParseAC;
    var h := Parse(s).value;
    PrintedIsNumeral(h);
    if Numeral(s) {
      EncodeDecode(s[..1]);
      EncodeDecode(s[1..2]);
      EncodeDecode(s[2..6]);
      PrintParsedAC(s, |h.ac|);
      assert SizeFlag(h) == Decode83(s[..1]);
      assert s == s[..1] + s[1..2] + s[2..6] + s[6..];
    }
  }

  // ---- Where the fields are ----

  // The number that an alphabet character stands for.
  function Digit(s: string, i: nat): nat
    requires i < |s| && Numeral(s)
  {
    DigitOf(s[i]).value
  }

  lemma OneDigit(s: string)
    requires |s| == 1 && Numeral(s)
    ensures Decode83(s) == Digit(s, 0)
  {
    assert s[..0] == "";
  }

  lemma TwoDigits(s: string)
    requires |s| == 2 && Numeral(s)
    ensures Decode83(s) == 83 * Digit(s, 0) + Digit(s, 1)
  {
    hide DigitOf;
    OneDigit(s[..1]);
  }

  lemma FourDigits(s: string)
    requires |s| == 4 && Numeral(s)
    ensures Decode83(s) == 571787 * Digit(s, 0) + 6889 * Digit(s, 1) + 83 * Digit(s, 2) + Digit(s, 3)
  {
    hide DigitOf;
    TwoDigits(s[..2]);
    assert s[..3][..2] == s[..2] && s[..3][2] == s[2];
    assert Decode83(s[..3]) == Decode83(s[..2]) * 83 + Digit(s, 2);
  }

  // Digit by digit: the first holds the numbers of components, the second the maximum, the
  // next four the average colour, most significant first, and then two each the factors.
  lemma ParsedDigits(s: string)
    requires Numeral(s) && Parse(s).Some?
    ensures var h := Parse(s).value;
            && 1 <= h.numX <= 9 && h.numY >= 1 && (h.numX - 1) + 9 * (h.numY - 1) == Digit(s, 0)
            && |s| == 4 + 2 * (h.numX * h.numY) && |h.ac| == h.numX * h.numY - 1
            && h.maximum == Digit(s, 1)
            && h.dc == 571787 * Digit(s, 2) + 6889 * Digit(s, 3) + 83 * Digit(s, 4) + Digit(s, 5)
            && forall i :: 0 <= i < |h.ac| ==> h.ac[i] == 83 * Digit(s, 6 + 2 * i) + Digit(s, 7 + 2 * i)
  {
    hide DigitOf, Decode83;
    var h := Parse(s).value;
    OneDigit(s[..1]);
    OneDigit(s[1..2]);
    FourDigits(s[2..6]);
    forall i | 0 <= i < |h.ac|
      ensures h.ac[i] == 83 * Digit(s, 6 + 2 * i) + Digit(s, 7 + 2 * i)
    {
      TwoDigits(s[6 + 2 * i..8 + 2 * i]);
    }
  }

  // ---- Colours ----

  datatype Colour = Colour(r: nat, g: nat, b: nat)

  // encodeDC, from the three rounded components
  function PackDC(c: Colour): nat {
    c.r * 65536 + c.g * 256 + c.b
  }

  // decodeDC, up to the three integers
  function UnpackDC(value: nat): Colour {
    Colour(value / 65536, value / 256 % 256, value % 256)
  }

  // encodeAC, from the three quantised components
  function PackAC(c: Colour): nat {
    c.r * 19 * 19 + c.g * 19 + c.b
  }

  // decodeAC, up to the three integers
  function UnpackAC(value: nat): Colour {
    Colour(value / (19 * 19), value / 19 % 19, value % 19)
  }

  lemma UnpackPackDC(c: Colour)
    ensures UnpackDC(PackDC(c)) == c <==> c.g < 256 && c.b < 256
  {
    if c.g < 256 && c.b < 256 {
      var v := PackDC(c);
      QuotientIs(v, 256, c.r * 256 + c.g, c.b);
      QuotientIs(c.r * 256 + c.g, 256, c.r, c.g);
      QuotientIs(v, 65536, c.r, c.g * 256 + c.b);
    }
  }

  lemma PackUnpackDC(value: nat)
    ensures PackDC(UnpackDC(value)) == value
  {
    var upper := value / 256;
    QuotientIs(value, 65536, upper / 256, upper % 256 * 256 + value % 256);
  }

  lemma UnpackPackAC(c: Colour)
    ensures UnpackAC(PackAC(c)) == c <==> c.g < 19 && c.b < 19
  {
    if c.g < 19 && c.b < 19 {
      var v := PackAC(c);
      QuotientIs(v, 19, c.r * 19 + c.g, c.b);
      QuotientIs(c.r * 19 + c.g, 19, c.r, c.g);
      QuotientIs(v, 361, c.r, c.g * 19 + c.b);
    }
  }

  lemma PackUnpackAC(value: nat)
    ensures PackAC(UnpackAC(value)) == value
  {
    var upper := value / 19;
    QuotientIs(value, 361, upper / 19, upper % 19 * 19 + value % 19);
  }

  // Red is the most significant part of both, blue the least.
  lemma ColourPlaces()
    ensures PackDC(Colour(0xAB, 0xCD, 0xEF)) == 0xABCDEF && PackAC(Colour(18, 9, 1)) == 18 * 361 + 9 * 19 + 1
    ensures UnpackDC(0xABCDEF) == Colour(0xAB, 0xCD, 0xEF) && UnpackAC(6670) == Colour(18, 9, 1)
  {
  }

  // Every byte triple fits four digits and every one of the 19^3 factors fits two.
  lemma ColoursFit(c: Colour)
    ensures c.r < 256 && c.g < 256 && c.b < 256 ==> PackDC(c) < 83 * 83 * 83 * 83
    ensures c.r < 19 && c.g < 19 && c.b < 19 ==> PackAC(c) < 83 * 83
  {
  }

  // A picture's quantised components.
  datatype Picture = Picture(numX: nat, numY: nat, maximum: nat, dc: Colour, ac: seq<Colour>)

  predicate Complete(p: Picture) {
    p.numX >= 1 && p.numY >= 1 && |p.ac| == Components(p.numX, p.numY) - 1
  }

  function PackAll(ac: seq<Colour>): (r: seq<nat>)
    ensures |r| == |ac|
  {
    seq(|ac|, i requires 0 <= i < |ac| => PackAC(ac[i]))
  }

  function UnpackAll(ac: seq<nat>): (r: seq<Colour>)
    ensures |r| == |ac|
  {
    seq(|ac|, i requires 0 <= i < |ac| => UnpackAC(ac[i]))
  }

  // The encoder writes no maximum for a picture of one component.
  function Pack(p: Picture): Hash {
    Hash(p.numX, p.numY, if |p.ac| > 0 then p.maximum else 0, PackDC(p.dc), PackAll(p.ac))
  }

  function Unpack(h: Hash): Picture {
    Picture(h.numX, h.numY, h.maximum, UnpackDC(h.dc), UnpackAll(h.ac))
  }

  function Decoded(s: string): Option<Picture> {
    match Parse(s)
    case None => None
    case Some(h) => Some(Unpack(h))
  }

  // Components in range and packed values within their places.
  predicate Encodable(p: Picture) {
    && Complete(p)
    && p.numX <= 9 && (p.numX - 1) + (p.numY - 1) * 9 < 83
    && p.maximum < 83 && (|p.ac| == 0 ==> p.maximum == 0)
    && p.dc.g < 256 && p.dc.b < 256 && PackDC(p.dc) < 83 * 83 * 83 * 83
    && forall i :: 0 <= i < |p.ac| ==> p.ac[i].g < 19 && p.ac[i].b < 19 && PackAC(p.ac[i]) < 83 * 83
  }

  // What the encoder quantises to: one to nine components each way, bytes and factors in range.
  predicate Quantised(p: Picture) {
    && Complete(p) && p.numX <= 9 && p.numY <= 9
    && p.maximum <= 82 && (|p.ac| == 0 ==> p.maximum == 0)
    && p.dc.r < 256 && p.dc.g < 256 && p.dc.b < 256
    && forall i :: 0 <= i < |p.ac| ==> p.ac[i].r < 19 && p.ac[i].g < 19 && p.ac[i].b < 19
  }

  lemma QuantisedIsEncodable(p: Picture)
    requires Quantised(p)
    ensures Encodable(p)
  {
    ColoursFit(p.dc);
    forall i | 0 <= i < |p.ac|
      ensures PackAC(p.ac[i]) < 83 * 83
    {
      ColoursFit(p.ac[i]);
    }
  }

  // Packing then unpacking, on all fields at once.
  lemma UnpackPack(p: Picture)
    ensures Unpack(Pack(p)) == p <==>
            && (|p.ac| == 0 ==> p.maximum == 0) && p.dc.g < 256 && p.dc.b < 256
            && forall i :: 0 <= i < |p.ac| ==> p.ac[i].g < 19 && p.ac[i].b < 19
  {
    hide PackDC, UnpackDC, PackAC, UnpackAC;
    var q := Unpack(Pack(p));
    UnpackPackDC(p.dc);
    forall i | 0 <= i < |p.ac|
      ensures q.ac[i] == UnpackAC(PackAC(p.ac[i]))
      ensures q.ac[i] == p.ac[i] <==> p.ac[i].g < 19 && p.ac[i].b < 19
    {
      UnpackPackAC(p.ac[i]);
    }
    assert q.ac == p.ac <==> forall i :: 0 <= i < |p.ac| ==> q.ac[i] == p.ac[i];
  }

  lemma PackUnpack(h: Hash)
    requires |h.ac| == 0 ==> h.maximum == 0
    ensures Pack(Unpack(h)) == h
  {
    hide PackDC, UnpackDC, PackAC, UnpackAC;
    var c := Pack(Unpack(h));
    PackUnpackDC(h.dc);
    forall i | 0 <= i < |h.ac|
      ensures c.ac[i] == h.ac[i]
    {
      PackUnpackAC(h.ac[i]);
    }
    assert c.ac == h.ac;
  }

  lemma EncodableFits(p: Picture)
    requires Complete(p) && Unpack(Pack(p)) == p
    ensures Encodable(p) <==> Fits(Pack(p))
  {
    hide PackDC, PackAC, Unpack;
    var h := Pack(p);
    UnpackPack(p);
    assert forall i :: 0 <= i < |p.ac| ==> h.ac[i] == PackAC(p.ac[i]);
  }

  // A picture survives printing and parsing exactly if it is encodable, as everything that
  // the encoder quantises is.
  lemma PictureRoundTrip(p: Picture)
    requires Complete(p)
    ensures Decoded(Print(Pack(p))) == Some(p) <==> Encodable(p)
    ensures Quantised(p) ==> Decoded(Print(Pack(p))) == Some(p)
  {
    hide Print, Parse, Unpack, PackDC, PackAC, Fits;
    var h := Pack(p);
    ParsePrint(h);
    UnpackPack(p);
    ParsedAgain(p);
    if Unpack(h) == p {
      EncodableFits(p);
    }
    if Quantised(p) {
      QuantisedIsEncodable(p);
    }
  }

  // Decoding to the picture that was packed means parsing the very fields that were printed.
  lemma ParsedAgain(p: Picture)
    requires Complete(p)
    ensures Decoded(Print(Pack(p))) == Some(p) ==> Parse(Print(Pack(p))) == Some(Pack(p)) && Unpack(Pack(p)) == p
  {
    hide Print, Parse, PackDC, PackAC, UnpackDC, UnpackAC;
    var h := Pack(p);
    if Decoded(Print(h)) == Some(p) {
      ParsedMaximum(h);
      PackUnpack(Parse(Print(h)).value);
    }
  }

  lemma ParsedMaximum(h: Hash)
    requires Shaped(h)
    ensures Parse(Print(h)).Some? && h.maximum == 0 ==> Parse(Print(h)).value.maximum == 0
  {
    hide Print, Decode83, ParseAC;
    ParsePrinted(h);
  }

  // ---- The encoder's loop ----

  // blurHash(numberOfComponents:), from the quantised components on.
  method BlurHashString(p: Picture) returns (hash: string)
    requires Complete(p)
    ensures hash == Print(Pack(p))
  {
    hide Encode83, PackDC, PackAC;
    var sizeFlag := (p.numX - 1) + (p.numY - 1) * 9;
    hash := EncodeBase83(sizeFlag, 1);
    var field: string;
    if |p.ac| > 0 {
      field := EncodeBase83(p.maximum, 1);
    } else {
      field := EncodeBase83(0, 1);
    }
    hash := hash + field;
    field := EncodeBase83(PackDC(p.dc), 4);
    hash := hash + field;
    ghost var ac := Pack(p).ac;
    ghost var head := hash;
    for i := 0 to |p.ac|
      invariant hash == head + PrintAC(ac[..i])
    {
      field := EncodeBase83(PackAC(p.ac[i]), 2);
      hash := hash + field;
      assert ac[..i + 1][..i] == ac[..i] && ac[..i + 1][i] == PackAC(p.ac[i]);
    }
    assert ac[..|p.ac|] == ac;
  }
}
