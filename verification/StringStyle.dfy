// BonMot's style container and how styles combine.
module StringStyles {
  import opened Options

  // Swift's `new ?? old`.
  function Coalesce<T>(newer: Option<T>, older: Option<T>): Option<T> {
    if newer.Some? then newer else older
  }

  // Attribute values, font feature providers, adaptations and the like are opaque tokens.
  type Value = nat

  // References to transforms and to XMLStyler objects.
  type TransformId = nat
  type StylerId = nat

  // Every optional field that a newer style simply overrides.
  datatype Field =
    | Font | Link | BackgroundColor | Color | Underline | Strikethrough | BaselineOffset | Ligatures
    | SpeaksPunctuation | SpeakingLanguage | SpeakingPitch | SpeakingPronunciation
    | ShouldQueueSpeechAnnouncement | HeadingLevel
    | LineSpacing | ParagraphSpacingAfter | Alignment | FirstLineHeadIndent | HeadIndent | TailIndent | LineBreakMode
    | MinimumLineHeight | MaximumLineHeight | BaseWritingDirection | LineHeightMultiple | ParagraphSpacingBefore
    | HyphenationFactor | AllowsDefaultTighteningForTruncation
    | NumberCase | NumberSpacing | Fractions | Superscript | Subscript | Ordinals | ScientificInferiors | Tracking

  // The value of a StringStyle. `fields` holds the optional fields that are set; the two
  // kinds of alternates are themselves records of optional switches.
  datatype Style = Style(
    extraAttributes: map<string, Value>,
    fields: map<Field, Value>,
    fontFeatureProviders: seq<Value>,
    smallCaps: set<Value>,
    stylisticAlternates: map<nat, bool>,
    contextualAlternates: map<nat, bool>,
    adaptations: seq<Value>,
    emphasis: Option<set<Value>>,
    xmlStyler: Option<StylerId>,
    transform: Option<TransformId>
  )

  // StringStyle()
  const PLAIN := Style(map[], map[], [], {}, map[], map[], [], None, None, None)

  // Emphasis is an option set: two settings are united.
  function Unite(older: Option<set<Value>>, newer: Option<set<Value>>): Option<set<Value>> {
    if older.Some? && newer.Some? then Some(older.value + newer.value) else Coalesce(newer, older)
  }

  // The older style updated with the newer one, field policy by field policy: dictionary
  // merge, override, append, replace-if-nonempty, switch-wise override, union.
  function Combine(older: Style, newer: Style): Style {
    Style(
      older.extraAttributes + newer.extraAttributes,
      older.fields + newer.fields,
      older.fontFeatureProviders + newer.fontFeatureProviders,
      if newer.smallCaps == {} then older.smallCaps else newer.smallCaps,
      older.stylisticAlternates + newer.stylisticAlternates,
      older.contextualAlternates + newer.contextualAlternates,
      older.adaptations + newer.adaptations,
      Unite(older.emphasis, newer.emphasis),
      Coalesce(newer.xmlStyler, older.xmlStyler),
      Coalesce(newer.transform, older.transform)
    )
  }

  // Field by field.
  lemma CombineIs(older: Style, newer: Style, r: Style)
    requires r.extraAttributes == older.extraAttributes + newer.extraAttributes
             && r.fields == older.fields + newer.fields
    requires r.fontFeatureProviders == older.fontFeatureProviders + newer.fontFeatureProviders
    requires r.smallCaps == if newer.smallCaps == {} then older.smallCaps else newer.smallCaps
    requires r.stylisticAlternates == older.stylisticAlternates + newer.stylisticAlternates
    requires r.contextualAlternates == older.contextualAlternates + newer.contextualAlternates
    requires r.adaptations == older.adaptations + newer.adaptations
             && r.emphasis == Unite(older.emphasis, newer.emphasis)
    requires r.xmlStyler == Coalesce(newer.xmlStyler, older.xmlStyler)
             && r.transform == Coalesce(newer.transform, older.transform)
    ensures r == Combine(older, newer)
  {
  }

  function Strip(s: Style): Style {
    s.(xmlStyler := None)
  }

  lemma MergeAssociative<K, V>(a: map<K, V>, b: map<K, V>, c: map<K, V>)
    ensures (a + b) + c == a + (b + c)
  {
  }

  lemma AppendAssociative<T>(a: seq<T>, b: seq<T>, c: seq<T>)
    ensures (a + b) + c == a + (b + c)
  {
  }

  lemma UniteAssociative(a: Option<set<Value>>, b: Option<set<Value>>, c: Option<set<Value>>)
    ensures Unite(Unite(a, b), c) == Unite(a, Unite(b, c))
  {
    if a.Some? && b.Some? && c.Some? {
      assert (a.value + b.value) + c.value == a.value + (b.value + c.value);
    }
  }

  // Styles form a monoid under Combine.
  lemma CombineAssociative(a: Style, b: Style, c: Style)
    ensures Combine(Combine(a, b), c) == Combine(a, Combine(b, c))
  {
    hide Unite;
    MergeAssociative(a.extraAttributes, b.extraAttributes, c.extraAttributes);
    MergeAssociative(a.fields, b.fields, c.fields);
    MergeAssociative(a.stylisticAlternates, b.stylisticAlternates, c.stylisticAlternates);
    MergeAssociative(a.contextualAlternates, b.contextualAlternates, c.contextualAlternates);
    AppendAssociative(a.fontFeatureProviders, b.fontFeatureProviders, c.fontFeatureProviders);
    AppendAssociative(a.adaptations, b.adaptations, c.adaptations);
    UniteAssociative(a.emphasis, b.emphasis, c.emphasis);
  }

  lemma CombineIdentity(s: Style)
    ensures Combine(PLAIN, s) == s && Combine(s, PLAIN) == s
  {
    assert map[] + s.extraAttributes == s.extraAttributes && s.extraAttributes + map[] == s.extraAttributes;
    assert map[] + s.fields == s.fields && s.fields + map[] == s.fields;
    assert map[] + s.stylisticAlternates == s.stylisticAlternates
           && s.stylisticAlternates + map[] == s.stylisticAlternates;
    assert map[] + s.contextualAlternates == s.contextualAlternates
           && s.contextualAlternates + map[] == s.contextualAlternates;
  }

  // The policies themselves: the newer style wins wherever it is set, and what it leaves
  // unset is inherited.
  lemma NewerWins(older: Style, newer: Style, f: Field)
    ensures var c := Combine(older, newer);
            && (f in newer.fields ==> f in c.fields && c.fields[f] == newer.fields[f])
            && (f !in newer.fields && f in older.fields ==> f in c.fields && c.fields[f] == older.fields[f])
            && (f !in newer.fields && f !in older.fields ==> f !in c.fields)
  {
  }

  // The same policy by policy for everything that is not a plain field.
  lemma Policies(older: Style, newer: Style)
    ensures var c := Combine(older, newer);
            && Merges(older.extraAttributes, newer.extraAttributes, c.extraAttributes)
            && Merges(older.stylisticAlternates, newer.stylisticAlternates, c.stylisticAlternates)
            && Merges(older.contextualAlternates, newer.contextualAlternates, c.contextualAlternates)
            && Follows(older.fontFeatureProviders, newer.fontFeatureProviders, c.fontFeatureProviders)
            && Follows(older.adaptations, newer.adaptations, c.adaptations)
            && (newer.smallCaps != {} ==> c.smallCaps == newer.smallCaps)
            && (newer.smallCaps == {} ==> c.smallCaps == older.smallCaps)
            && Overrides(older.xmlStyler, newer.xmlStyler, c.xmlStyler)
            && Overrides(older.transform, newer.transform, c.transform)
    ensures var c := Combine(older, newer);
            && (c.emphasis.Some? <==> older.emphasis.Some? || newer.emphasis.Some?)
            && forall v :: Emphasised(c, v) <==> Emphasised(older, v) || Emphasised(newer, v)
  {
  }

  predicate Emphasised(s: Style, v: Value) {
    s.emphasis.Some? && v in s.emphasis.value
  }

  // Every key has its newer value, or the older one if it has no newer one.
  ghost predicate Merges<K(!new), V>(older: map<K, V>, newer: map<K, V>, c: map<K, V>) {
    forall k :: (k in c <==> k in older || k in newer)
                && (k in newer ==> c[k] == newer[k]) && (k in older && k !in newer ==> c[k] == older[k])
  }

  // The newer values come after the older ones.
  predicate Follows(older: seq<Value>, newer: seq<Value>, c: seq<Value>) {
    && |c| == |older| + |newer|
    && (forall i :: 0 <= i < |older| ==> c[i] == older[i])
    && forall i :: 0 <= i < |newer| ==> c[|older| + i] == newer[i]
  }

  predicate Overrides(older: Option<nat>, newer: Option<nat>, c: Option<nat>) {
    (newer.Some? ==> c == newer) && (newer.None? ==> c == older)
  }

  // Removing the XML styler commutes with combining.
  lemma StripCombine(a: Style, b: Style)
    ensures Strip(Combine(a, b)) == Combine(Strip(a), Strip(b))
  {
  }

  // The styles of a list, oldest first, combined into one.
  function CombineAll(styles: seq<Style>): Style {
    if styles == [] then PLAIN else Combine(CombineAll(styles[..|styles| - 1]), styles[|styles| - 1])
  }

  // The mutable struct.
  class StringStyle {
    var extraAttributes: map<string, Value>
    var fields: map<Field, Value>
    var fontFeatureProviders: seq<Value>
    var smallCaps: set<Value>
    var stylisticAlternates: map<nat, bool>
    var contextualAlternates: map<nat, bool>
    var adaptations: seq<Value>
    var emphasis: Option<set<Value>>
    var xmlStyler: Option<StylerId>
    var transform: Option<TransformId>

    function Snapshot(): Style
      reads this
    {
      Style(extraAttributes, fields, fontFeatureProviders, smallCaps, stylisticAlternates, contextualAlternates,
            adaptations, emphasis, xmlStyler, transform)
    }

    constructor ()
      ensures Snapshot() == PLAIN
    {
      extraAttributes, fields, fontFeatureProviders, smallCaps := map[], map[], [], {};
      stylisticAlternates, contextualAlternates, adaptations := map[], map[], [];
      emphasis, xmlStyler, transform := None, None, None;
    }

    constructor Copy(s: Style)
      ensures Snapshot() == s
    {
      extraAttributes, fields, fontFeatureProviders, smallCaps := s.extraAttributes, s.fields, s.fontFeatureProviders,
          s.smallCaps;
      stylisticAlternates, contextualAlternates, adaptations := s.stylisticAlternates, s.contextualAlternates,
          s.adaptations;
      emphasis, xmlStyler, transform := s.emphasis, s.xmlStyler, s.transform;
    }

    // add(extraAttributes:), one entry at a time and in no particular order.
    method AddExtraAttributes(attributes: map<string, Value>)
      modifies this`extraAttributes
      ensures extraAttributes == old(extraAttributes) + attributes
    {
      var keys := attributes.Keys;
      ghost var was := extraAttributes;
      while keys != {}
        invariant keys <= attributes.Keys
        invariant extraAttributes.Keys == was.Keys + (attributes.Keys - keys)
        invariant forall k :: k in extraAttributes ==>
                    extraAttributes[k] == if k in attributes && k !in keys then attributes[k] else was[k]
        decreases |keys|
      {
        var key :| key in keys;
        extraAttributes := extraAttributes[key := attributes[key]];
        keys := keys - {key};
      }
    }

    // Emphasis is united with what is there.
    method AddEmphasis(newer: Option<set<Value>>)
      modifies this`emphasis
      ensures emphasis == Unite(old(emphasis), newer)
    {
      if newer.Some? && emphasis.Some? {
        emphasis := Some(emphasis.value + newer.value);
      } else if newer.Some? {
        emphasis := newer;
      }
    }

    // Providers are appended, small caps replaced if there are any, alternates merged switch by switch.
    method AddFontFeatures(s: Style)
      modifies this`fontFeatureProviders, this`smallCaps, this`stylisticAlternates, this`contextualAlternates
      ensures fontFeatureProviders == old(fontFeatureProviders) + s.fontFeatureProviders
      ensures smallCaps == if s.smallCaps == {} then old(smallCaps) else s.smallCaps
      ensures stylisticAlternates == old(stylisticAlternates) + s.stylisticAlternates
      ensures contextualAlternates == old(contextualAlternates) + s.contextualAlternates
    {
      fontFeatureProviders := fontFeatureProviders + s.fontFeatureProviders;
      smallCaps := if s.smallCaps == {} then smallCaps else s.smallCaps;
      stylisticAlternates := stylisticAlternates + s.stylisticAlternates;
      contextualAlternates := contextualAlternates + s.contextualAlternates;
    }

    // add(stringStyle:)
    method AddStringStyle(s: Style)
      modifies this
      ensures Snapshot() == Combine(old(Snapshot()), s)
    {
      hide Unite, Coalesce, Combine;
      ghost var was := Snapshot();
      AddExtraAttributes(s.extraAttributes);
      fields := fields + s.fields;
      AddFontFeatures(s);
      AddEmphasis(s.emphasis);
      adaptations := adaptations + s.adaptations;
      xmlStyler := Coalesce(s.xmlStyler, xmlStyler);
      transform := Coalesce(s.transform, transform);
      CombineIs(was, s, Snapshot());
    }

    // byAdding(stringStyle:) leaves the receiver alone.
    method ByAdding(s: Style) returns (r: StringStyle)
      ensures fresh(r) && r.Snapshot() == Combine(Snapshot(), s)
    {
      r := new StringStyle.Copy(Snapshot());
      r.AddStringStyle(s);
    }
  }
}
