// The symbol numbering shared by the compiler and the runtime: attribute
// keys, keywords and property values are one integer space, laid out by
// consecutive enumerations.

/** Attribute keys, 0 up to AttributeCount (43), then the two compound keys. */
module AttributeKey {
  const PositionWithin: int := 0
  const TitleText: int := 1
  const Text: int := 2
  const Font: int := 3
  const ImagePath: int := 4
  const FontSize: int := 5
  const TranslationO: int := 6
  const TranslationA: int := 7
  const MarginOppOut: int := 8
  const MarginOppIn: int := 9
  const MarginAdjIn: int := 10
  const MarginAdjOut: int := 11
  const PaddingOppOut: int := 12
  const PaddingOppIn: int := 13
  const PaddingAdjIn: int := 14
  const PaddingAdjOut: int := 15
  const SizeO: int := 16
  const SizeA: int := 17
  const Orientation: int := 18
  const WindowState: int := 19
  const Visibility: int := 20
  const AlignAdjacent: int := 21
  const AlignOpposite: int := 22
  const OverrideFillPrecedenceAdjacent: int := 23
  const OverrideFillPrecedenceOpposite: int := 24
  const Justify: int := 25
  const WindowSizeStrategy: int := 26
  const ImageSizeProperty: int := 27
  const Borderless: int := 28
  const Resizable: int := 29
  const ModelOrder: int := 30
  const ElementColor: int := 31
  const FontColor: int := 32
  const BorderColor: int := 33
  const Triggers: int := 34
  const InduceState: int := 35
  const BindState: int := 36
  const ToggleState: int := 37
  const UnsetState: int := 38
  const TriggerState: int := 39
  const RadioState: int := 40
  const Layout: int := 41
  const CellNames: int := 42
  const Margins: int := 43
  const Padding: int := 44
  const FirstScalarAttribute: int := FontSize
  const LastScalarAttribute: int := SizeA
  const FirstPropertyAttribute: int := Orientation
  const LastPropertyAttribute: int := ModelOrder
  const FirstColorTypeAttr: int := ElementColor
  const LastColorTypeAttr: int := BorderColor
  const FirstStateKeyAttr: int := Triggers
  const LastStateKeyAttr: int := RadioState
  const AttributeCount: int := 43
  const UnnaturalAttributesStart: int := AttributeCount
  const LastAttribute: int := Padding
  /** The keyword enumeration starts AT the last attribute, not after it. */
  const KeywordsStart: int := LastAttribute
}

/** Keywords, starting at KeywordsStart, so SchoolOperator shares Padding's value. */
module Keyword {
  import AttributeKey
  const SchoolOperator: int := AttributeKey.KeywordsStart
  const Dot: int := AttributeKey.KeywordsStart + 1
  const Pound: int := AttributeKey.KeywordsStart + 2
  const Arrow: int := AttributeKey.KeywordsStart + 3
  const Colon: int := AttributeKey.KeywordsStart + 4
  const Comma: int := AttributeKey.KeywordsStart + 5
  const Semicolon: int := AttributeKey.KeywordsStart + 6
  const OpenBracket: int := AttributeKey.KeywordsStart + 7
  const CloseBracket: int := AttributeKey.KeywordsStart + 8
  const OpenSquare: int := AttributeKey.KeywordsStart + 9
  const CloseSquare: int := AttributeKey.KeywordsStart + 10
  const OpenParen: int := AttributeKey.KeywordsStart + 11
  const CloseParen: int := AttributeKey.KeywordsStart + 12
  const Pass: int := AttributeKey.KeywordsStart + 13
  const Clear: int := AttributeKey.KeywordsStart + 14
  const Delay: int := AttributeKey.KeywordsStart + 15
  const EaseIn: int := AttributeKey.KeywordsStart + 16
  const EaseOut: int := AttributeKey.KeywordsStart + 17
  const Model: int := AttributeKey.KeywordsStart + 18
  const State: int := AttributeKey.KeywordsStart + 19
  const This: int := AttributeKey.KeywordsStart + 20
  const Material: int := AttributeKey.KeywordsStart + 21
  const Start: int := AttributeKey.KeywordsStart + 22
  const Min: int := AttributeKey.KeywordsStart + 23
  const Max: int := AttributeKey.KeywordsStart + 24
  const Or: int := AttributeKey.KeywordsStart + 25
  const And: int := AttributeKey.KeywordsStart + 26
  const Xor: int := AttributeKey.KeywordsStart + 27
  const Not: int := AttributeKey.KeywordsStart + 28
  const ScalarType: int := AttributeKey.KeywordsStart + 29
  const FloatType: int := AttributeKey.KeywordsStart + 30
  const ScopedValueKey: int := AttributeKey.KeywordsStart + 31
  const AttributeProperty: int := AttributeKey.KeywordsStart + 32
  const UserToken: int := AttributeKey.KeywordsStart + 33
  const UserString: int := AttributeKey.KeywordsStart + 34
  const ColorLiteral: int := AttributeKey.KeywordsStart + 35
  const EqualSign: int := AttributeKey.KeywordsStart + 36
  const UnitPercent: int := AttributeKey.KeywordsStart + 37
  const UnitStandard: int := AttributeKey.KeywordsStart + 38
  const UnitMilliseconds: int := AttributeKey.KeywordsStart + 39
  const UnitSeconds: int := AttributeKey.KeywordsStart + 40
  const OperatorPlus: int := AttributeKey.KeywordsStart + 41
  const OperatorMinus: int := AttributeKey.KeywordsStart + 42
  const OperatorTimes: int := AttributeKey.KeywordsStart + 43
  const OperatorDivide: int := AttributeKey.KeywordsStart + 44
  const Expression: int := AttributeKey.KeywordsStart + 45
  const Graph: int := AttributeKey.KeywordsStart + 46
  const ScalarKeyword: int := AttributeKey.KeywordsStart + 47
  const Normalize: int := AttributeKey.KeywordsStart + 48
  const Linear: int := AttributeKey.KeywordsStart + 49
  const Smooth: int := AttributeKey.KeywordsStart + 50
  const Declare: int := AttributeKey.KeywordsStart + 51
  const Set: int := AttributeKey.KeywordsStart + 52
  const PropertiesStart: int := AttributeKey.KeywordsStart + 53
}

module Property {
  import Keyword
  const Vbox: int := Keyword.PropertiesStart
  const Hbox: int := Keyword.PropertiesStart + 1
  const Inline: int := Keyword.PropertiesStart + 2
  const FreeLayout: int := Keyword.PropertiesStart + 3
  const StackLayout: int := Keyword.PropertiesStart + 4
  const Standard: int := Keyword.PropertiesStart + 5
  const ImageMaterial: int := Keyword.PropertiesStart + 6
  const AdjacentIsHorizontal: int := Keyword.PropertiesStart + 7
  const AdjacentIsVertical: int := Keyword.PropertiesStart + 8
  const Greedy: int := Keyword.PropertiesStart + 9
  const Shrinky: int := Keyword.PropertiesStart + 10
  const Maximized: int := Keyword.PropertiesStart + 11
  const Minimized: int := Keyword.PropertiesStart + 12
  const Fullscreen: int := Keyword.PropertiesStart + 13
  const FullscreenTrue: int := Keyword.PropertiesStart + 14
  const TopDown: int := Keyword.PropertiesStart + 15
  const BottomUp: int := Keyword.PropertiesStart + 16
  const Inner: int := Keyword.PropertiesStart + 17
  const Center: int := Keyword.PropertiesStart + 18
  const Outer: int := Keyword.PropertiesStart + 19
  const FontSans: int := Keyword.PropertiesStart + 20
  const FontSansBold: int := Keyword.PropertiesStart + 21
  const FontSansItalic: int := Keyword.PropertiesStart + 22
  const FontSansBoldItalic: int := Keyword.PropertiesStart + 23
  const FontSerif: int := Keyword.PropertiesStart + 24
  const FontSerifBold: int := Keyword.PropertiesStart + 25
  const FontSerifItalic: int := Keyword.PropertiesStart + 26
  const FontSerifBoldItalic: int := Keyword.PropertiesStart + 27
  const FontMono: int := Keyword.PropertiesStart + 28
  const FontMonoBold: int := Keyword.PropertiesStart + 29
  const FontMonoItalic: int := Keyword.PropertiesStart + 30
  const FontMonoBoldItalic: int := Keyword.PropertiesStart + 31
  const OneToUnit: int := Keyword.PropertiesStart + 32
  const Native: int := Keyword.PropertiesStart + 33
  const Stretch: int := Keyword.PropertiesStart + 34
  const BestFit: int := Keyword.PropertiesStart + 35
  const Enable: int := Keyword.PropertiesStart + 36
  const Disable: int := Keyword.PropertiesStart + 37
  const PropertiesEnd: int := Keyword.PropertiesStart + 38
  /** `Custom` aliases `Keyword::UserToken`. */
  const Custom: int := Keyword.UserToken
  const SpecSpec: int := PropertiesEnd
  const SpecBleeding: int := PropertiesEnd + 1
}

/** The literal table and the classifiers over the symbol space. */
module Keywords {
  import opened Wrappers
  import AttributeKey
  import Keyword
  import Property

  type SymbolTable = seq<(string, int)>

  /** Punctuation and brackets. */
  const PunctuationPairs: SymbolTable := [
    ("@", Keyword.SchoolOperator),
    (".", Keyword.Dot),
    ("#", Keyword.Pound),
    ("->", Keyword.Arrow),
    (":", Keyword.Colon),
    (",", Keyword.Comma),
    (";", Keyword.Semicolon),
    ("{", Keyword.OpenBracket),
    ("}", Keyword.CloseBracket),
    ("[", Keyword.OpenSquare),
    ("]", Keyword.CloseSquare),
    ("(", Keyword.OpenParen),
    (")", Keyword.CloseParen)
  ]

  /** Units and arithmetic operators. */
  const UnitAndOperatorPairs: SymbolTable := [
    ("=", Keyword.EqualSign),
    ("%", Keyword.UnitPercent),
    ("u", Keyword.UnitStandard),
    ("ms", Keyword.UnitMilliseconds),
    ("milliseconds", Keyword.UnitMilliseconds),
    ("sec", Keyword.UnitSeconds),
    ("seconds", Keyword.UnitSeconds),
    ("+", Keyword.OperatorPlus),
    ("-", Keyword.OperatorMinus),
    ("*", Keyword.OperatorTimes),
    ("/", Keyword.OperatorDivide)
  ]

  /** Keywords spelled as words. */
  const WordPairs: SymbolTable := [
    ("expression", Keyword.Expression),
    ("graph", Keyword.Graph),
    ("scalar", Keyword.ScalarKeyword),
    ("linear", Keyword.Linear),
    ("smooth", Keyword.Smooth),
    ("declare", Keyword.Declare),
    ("set", Keyword.Set),
    ("normalize", Keyword.Normalize),
    ("pass", Keyword.Pass),
    ("clear", Keyword.Clear),
    ("delay", Keyword.Delay),
    ("ease-in", Keyword.EaseIn),
    ("ease-out", Keyword.EaseOut),
    ("model", Keyword.Model),
    ("state", Keyword.State),
    ("this", Keyword.This),
    ("material", Keyword.Material),
    ("start", Keyword.Start),
    ("min", Keyword.Min),
    ("max", Keyword.Max)
  ]

  /** Boolean operators of compound state keys, each with a symbolic alias. */
  const BooleanOperatorPairs: SymbolTable := [
    ("or", Keyword.Or),
    ("|", Keyword.Or),
    ("and", Keyword.And),
    ("&", Keyword.And),
    ("xor", Keyword.Xor),
    ("!=", Keyword.Xor),
    ("not", Keyword.Not),
    ("!", Keyword.Not)
  ]

  /** Text, font, translation and size attributes, with their x/y aliases. */
  const TextAndSizeAttributePairs: SymbolTable := [
    ("position-within", AttributeKey.PositionWithin),
    ("title-text", AttributeKey.TitleText),
    ("text", AttributeKey.Text),
    ("font", AttributeKey.Font),
    ("image-path", AttributeKey.ImagePath),
    ("font-size", AttributeKey.FontSize),
    ("orientation", AttributeKey.Orientation),
    ("trans-o", AttributeKey.TranslationO),
    ("trans-a", AttributeKey.TranslationA),
    ("trans-y", AttributeKey.TranslationO),
    ("trans-x", AttributeKey.TranslationA),
    ("size-o", AttributeKey.SizeO),
    ("size-a", AttributeKey.SizeA),
    ("size-y", AttributeKey.SizeO),
    ("size-x", AttributeKey.SizeA),
    ("height", AttributeKey.SizeO),
    ("width", AttributeKey.SizeA)
  ]

  /** The eight natural margin and padding keys, with side-named aliases. */
  const MarginAndPaddingAttributePairs: SymbolTable := [
    ("margin-o-out", AttributeKey.MarginOppOut),
    ("margin-o-in", AttributeKey.MarginOppIn),
    ("margin-a-in", AttributeKey.MarginAdjIn),
    ("margin-a-out", AttributeKey.MarginAdjOut),
    ("margin-bottom", AttributeKey.MarginOppOut),
    ("margin-top", AttributeKey.MarginOppIn),
    ("margin-left", AttributeKey.MarginAdjIn),
    ("margin-right", AttributeKey.MarginAdjOut),
    ("padding-o-out", AttributeKey.PaddingOppOut),
    ("padding-o-in", AttributeKey.PaddingOppIn),
    ("padding-a-in", AttributeKey.PaddingAdjIn),
    ("padding-a-out", AttributeKey.PaddingAdjOut),
    ("padding-bottom", AttributeKey.PaddingOppOut),
    ("padding-top", AttributeKey.PaddingOppIn),
    ("padding-left", AttributeKey.PaddingAdjIn),
    ("padding-right", AttributeKey.PaddingAdjOut)
  ]

  /** Window, alignment, fill-precedence and ordering attributes. */
  const WindowAndAlignmentAttributePairs: SymbolTable := [
    ("window-state", AttributeKey.WindowState),
    ("visibility", AttributeKey.Visibility),
    ("align-a", AttributeKey.AlignAdjacent),
    ("align-o", AttributeKey.AlignOpposite),
    ("align-x", AttributeKey.AlignAdjacent),
    ("align-y", AttributeKey.AlignOpposite),
    ("fill-precedence-adjacent", AttributeKey.OverrideFillPrecedenceAdjacent),
    ("fill-precedence-opposite", AttributeKey.OverrideFillPrecedenceOpposite),
    ("fill-precedence-a", AttributeKey.OverrideFillPrecedenceAdjacent),
    ("fill-precedence-o", AttributeKey.OverrideFillPrecedenceOpposite),
    ("fill-precedence-x", AttributeKey.OverrideFillPrecedenceAdjacent),
    ("fill-precedence-y", AttributeKey.OverrideFillPrecedenceOpposite),
    ("justify", AttributeKey.Justify),
    ("window-size-strategy", AttributeKey.WindowSizeStrategy),
    ("borderless", AttributeKey.Borderless),
    ("resizable", AttributeKey.Resizable),
    ("model-order", AttributeKey.ModelOrder)
  ]

  /** Colour, state-changer, trigger, layout and cell-name attributes. */
  const ColorAndStateAttributePairs: SymbolTable := [
    ("color", AttributeKey.ElementColor),
    ("font-color", AttributeKey.FontColor),
    ("border-color", AttributeKey.BorderColor),
    ("induce-state", AttributeKey.InduceState),
    ("bind-state", AttributeKey.BindState),
    ("toggle-state", AttributeKey.ToggleState),
    ("unset-state", AttributeKey.UnsetState),
    ("trigger-state", AttributeKey.TriggerState),
    ("radio-state", AttributeKey.RadioState),
    ("trigger", AttributeKey.Triggers),
    ("layout", AttributeKey.Layout),
    ("cell-names", AttributeKey.CellNames)
  ]

  /** The compound attributes. */
  const UnnaturalAttributePairs: SymbolTable := [
    ("margin", AttributeKey.Margins),
    ("padding", AttributeKey.Padding)
  ]

  /** Property values for layouts, orientation, fill precedence, windows and alignment. */
  const LayoutPropertyPairs: SymbolTable := [
    ("vbox", Property.Vbox),
    ("hbox", Property.Hbox),
    ("inline", Property.Inline),
    ("free-layout", Property.FreeLayout),
    ("stack", Property.StackLayout),
    ("standard", Property.Standard),
    ("image-material", Property.ImageMaterial),
    ("adjacent-is-horizontal", Property.AdjacentIsHorizontal),
    ("adjacent-is-vertical", Property.AdjacentIsVertical),
    ("greedy", Property.Greedy),
    ("shrinky", Property.Shrinky),
    ("maximize", Property.Maximized),
    ("minimize", Property.Minimized),
    ("fullscreen", Property.Fullscreen),
    ("fullscreen-true", Property.FullscreenTrue),
    ("top-down", Property.TopDown),
    ("bottom-up", Property.BottomUp),
    ("align-inner", Property.Inner),
    ("align-center", Property.Center),
    ("align-outer", Property.Outer),
    ("align-left", Property.Inner),
    ("align-right", Property.Outer),
    ("align-top", Property.Inner),
    ("align-bottom", Property.Outer)
  ]

  /** Font, image-size and enable/disable property values. */
  const FontAndImagePropertyPairs: SymbolTable := [
    ("sans", Property.FontSans),
    ("sans-bold", Property.FontSansBold),
    ("sans-italic", Property.FontSansItalic),
    ("sans-bold-italic", Property.FontSansBoldItalic),
    ("sans-italic-bold", Property.FontSansBoldItalic),
    ("serif", Property.FontSerif),
    ("serif-bold", Property.FontSerifBold),
    ("serif-italic", Property.FontSerifItalic),
    ("serif-bold-italic", Property.FontSerifBoldItalic),
    ("serif-italic-bold", Property.FontSerifBoldItalic),
    ("mono", Property.FontMono),
    ("mono-bold", Property.FontMonoBold),
    ("mono-italic", Property.FontMonoItalic),
    ("mono-bold-italic", Property.FontMonoBoldItalic),
    ("mono-italic-bold", Property.FontMonoBoldItalic),
    ("one-to-unit", Property.OneToUnit),
    ("native", Property.Native),
    ("stretch", Property.Stretch),
    ("best-fit", Property.BestFit),
    ("enable", Property.Enable),
    ("disable", Property.Disable)
  ]

  /** Specification markers. */
  const SpecPairs: SymbolTable := [
    ("spec", Property.SpecSpec),
    ("bleeding", Property.SpecBleeding)
  ]

  /** `getSymbolValuePairs`, in the source's order: every spelling with its symbol. */
  const SymbolValuePairs: SymbolTable :=
    PunctuationPairs +
    UnitAndOperatorPairs +
    WordPairs +
    BooleanOperatorPairs +
    TextAndSizeAttributePairs +
    MarginAndPaddingAttributePairs +
    WindowAndAlignmentAttributePairs +
    ColorAndStateAttributePairs +
    UnnaturalAttributePairs +
    LayoutPropertyPairs +
    FontAndImagePropertyPairs +
    SpecPairs

  // ---- classifiers ----

  /** Keys whose body is an expression: FontSize..SizeA and the compound Margins/Padding. */
  predicate IsExpressionBodyType(key: int)
  {
    key == AttributeKey.Margins || key == AttributeKey.Padding ||
    (AttributeKey.FirstScalarAttribute <= key <= AttributeKey.LastScalarAttribute)
  }

  /** Keys whose body is a property word: Orientation..ModelOrder, Font and Layout. */
  predicate IsPropertyBodyType(key: int)
  {
    (AttributeKey.FirstPropertyAttribute <= key <= AttributeKey.LastPropertyAttribute) ||
    key == AttributeKey.Font || key == AttributeKey.Layout
  }

  predicate IsStringLiteralType(key: int)
  {
    key == AttributeKey.TitleText || key == AttributeKey.Text ||
    key == AttributeKey.Font || key == AttributeKey.ImagePath
  }

  predicate IsUserTokenType(key: int) { key == AttributeKey.Layout }

  predicate IsUserTokenList(key: int) { key == AttributeKey.CellNames }

  predicate IsStateKeyListType(key: int)
  {
    AttributeKey.FirstStateKeyAttr <= key <= AttributeKey.LastStateKeyAttr
  }

  predicate IsSingleScopedValueKeyType(key: int)
  {
    key == AttributeKey.TitleText || key == AttributeKey.Text
  }

  predicate IsColorType(key: int)
  {
    AttributeKey.FirstColorTypeAttr <= key <= AttributeKey.LastColorTypeAttr
  }

  predicate IsUnnaturalType(key: int)
  {
    AttributeKey.UnnaturalAttributesStart <= key <= AttributeKey.LastAttribute
  }

  /** A natural key is one that has a slot in an attribute set. */
  predicate IsNaturalKey(key: int) { 0 <= key < AttributeKey.AttributeCount }

  /** The numeric ranges behind the named classifiers. */
  lemma ClassifierRanges(key: int)
    ensures IsExpressionBodyType(key) <==> (5 <= key <= 17 || key == 43 || key == 44)
    ensures IsPropertyBodyType(key) <==> (18 <= key <= 30 || key == 3 || key == 41)
    ensures IsStateKeyListType(key) <==> 34 <= key <= 40
    ensures IsColorType(key) <==> 31 <= key <= 33
    ensures IsUnnaturalType(key) <==> key == 43 || key == 44
  {
  }

  /** Expression, property, colour and state-list keys are disjoint kinds,
      except that Font takes both a property word and a string literal. */
  lemma ClassifiersDisjoint(key: int)
    ensures !(IsExpressionBodyType(key) && IsPropertyBodyType(key))
    ensures !(IsExpressionBodyType(key) && (IsColorType(key) || IsStateKeyListType(key)))
    ensures !(IsPropertyBodyType(key) && (IsColorType(key) || IsStateKeyListType(key)))
    ensures IsPropertyBodyType(key) && IsStringLiteralType(key) <==> key == AttributeKey.Font
    ensures IsUnnaturalType(key) ==> !IsNaturalKey(key)
  {
  }

  /** `getNaturalKeysForUnnaturalKey`; any other key fails the source's assertion. */
  function NaturalKeysForUnnaturalKey(key: int): (r: Option<seq<int>>)
    ensures r.Some? <==> IsUnnaturalType(key)
    ensures r.Some? ==> |r.value| == 4
    ensures r.Some? ==> forall i :: 0 <= i < 4 ==> IsNaturalKey(r.value[i]) && IsExpressionBodyType(r.value[i])
  {
    if key == AttributeKey.Margins then
      Some([AttributeKey.MarginOppOut, AttributeKey.MarginOppIn, AttributeKey.MarginAdjIn, AttributeKey.MarginAdjOut])
    else if key == AttributeKey.Padding then
      Some([AttributeKey.PaddingOppOut, AttributeKey.PaddingOppIn, AttributeKey.PaddingAdjIn, AttributeKey.PaddingAdjOut])
    else None
  }

  /** The two compound keys expand to disjoint quadruples, in out/in/in/out order. */
  lemma NaturalKeysLayout()
    ensures NaturalKeysForUnnaturalKey(AttributeKey.Margins) == Some([8, 9, 10, 11])
    ensures NaturalKeysForUnnaturalKey(AttributeKey.Padding) == Some([12, 13, 14, 15])
  {
  }

  // ---- literal lookup ----

  /** Linear search from index i: the symbol of the first entry spelled `lit`. */
  function FindSymbol(t: SymbolTable, lit: string, i: nat): (r: Option<int>)
    requires i <= |t|
    ensures r.Some? <==> exists k :: i <= k < |t| && t[k].0 == lit
    ensures r.Some? ==> exists k :: i <= k < |t| && t[k] == (lit, r.value) &&
                                    forall j :: i <= j < k ==> t[j].0 != lit
    decreases |t| - i
  {
    if i == |t| then None
    else if t[i].0 == lit then Some(t[i].1)
    else FindSymbol(t, lit, i + 1)
  }

  /** Linear search from index i: the spelling of the first entry for `sym`. */
  function FindLiteral(t: SymbolTable, sym: int, i: nat): (r: Option<string>)
    requires i <= |t|
    ensures r.Some? <==> exists k :: i <= k < |t| && t[k].1 == sym
    ensures r.Some? ==> exists k :: i <= k < |t| && t[k] == (r.value, sym) &&
                                    forall j :: i <= j < k ==> t[j].1 != sym
    decreases |t| - i
  {
    if i == |t| then None
    else if t[i].1 == sym then Some(t[i].0)
    else FindLiteral(t, sym, i + 1)
  }

  /** `getSymbolForLiteral`: the first matching pair, or none. */
  function SymbolForLiteral(lit: string): Option<int>
  {
    FindSymbol(SymbolValuePairs, lit, 0)
  }

  /** `getLiteralForSymbol`; a symbol missing from the table fails an assertion there. */
  function LiteralForSymbol(sym: int): Option<string>
  {
    FindLiteral(SymbolValuePairs, sym, 0)
  }

  predicate LiteralsDistinct(t: SymbolTable)
  {
    forall j, k :: 0 <= j < k < |t| ==> t[j].0 != t[k].0
  }

  /** Printing a symbol and reading the spelling back gives the symbol, in
      any table where no spelling repeats. */
  lemma {:induction false} LiteralRoundTrip(t: SymbolTable, k: nat)
    requires LiteralsDistinct(t)
    requires k < |t|
    ensures FindLiteral(t, t[k].1, 0).Some?
    ensures FindSymbol(t, FindLiteral(t, t[k].1, 0).value, 0) == Some(t[k].1)
  {
    var lit := FindLiteral(t, t[k].1, 0).value;
    var i :| 0 <= i < |t| && t[i] == (lit, t[k].1) && forall j :: 0 <= j < i ==> t[j].1 != t[k].1;
    FindSymbolAt(t, lit, i);
  }

  /** With distinct spellings, the entry at i is the one found for its spelling. */
  lemma FindSymbolAt(t: SymbolTable, lit: string, i: nat)
    requires LiteralsDistinct(t)
    requires i < |t| && t[i].0 == lit
    ensures FindSymbol(t, lit, 0) == Some(t[i].1)
  {
    var r := FindSymbol(t, lit, 0);
    var k :| 0 <= k < |t| && t[k] == (lit, r.value) && forall j :: 0 <= j < k ==> t[j].0 != lit;
    assert k == i;
  }

  /** Aliases print canonically: every spelling of a symbol prints as the
      symbol's first spelling in the table. */
  lemma AliasesPrintCanonically(t: SymbolTable, j: nat, k: nat)
    requires j <= k < |t| && t[j].1 == t[k].1
    requires forall i :: 0 <= i < j ==> t[i].1 != t[j].1
    ensures FindLiteral(t, t[k].1, 0) == Some(t[j].0)
  {
    var r := FindLiteral(t, t[k].1, 0);
    var i :| 0 <= i < |t| && t[i] == (r.value, t[k].1) && forall m :: 0 <= m < i ==> t[m].1 != t[k].1;
    assert i == j;
  }

  /** Padding and the school operator `@` share one value, and the table's
      first entry is `@`, so `Padding` prints as "@". */
  lemma PaddingIsSchoolOperator()
    ensures AttributeKey.Padding == Keyword.SchoolOperator
    ensures LiteralForSymbol(AttributeKey.Padding) == Some("@")
    ensures SymbolForLiteral("@") == Some(AttributeKey.Padding)
  {
    assert SymbolValuePairs[0] == ("@", Keyword.SchoolOperator);
  }

  // ---- delimiters ----

  /** The fourteen delimiting symbols. */
  const DelimitingSymbols: set<int> := {
    Keyword.SchoolOperator, Keyword.Dot, Keyword.Pound, Keyword.Arrow, Keyword.Colon,
    Keyword.Comma, Keyword.Semicolon, Keyword.OpenBracket, Keyword.CloseBracket,
    Keyword.OpenSquare, Keyword.CloseSquare, Keyword.OpenParen, Keyword.CloseParen,
    Keyword.Not }

  /** `checkIsDelimitingSymbol(int)`. */
  predicate IsDelimitingSymbol(sym: int) { sym in DelimitingSymbols }

  /** The delimiters are SchoolOperator..CloseParen plus Not; since the school
      operator is also Padding, the Padding key counts as delimiting. */
  lemma DelimitingSymbolsExactly(sym: int)
    ensures IsDelimitingSymbol(sym) <==> (44 <= sym <= 56 || sym == 72)
    ensures IsDelimitingSymbol(AttributeKey.Padding)
  {
  }

  /** `checkIsDelimitingSymbol(char)`: the one-character spelling must name a delimiter. */
  predicate IsDelimitingChar(c: char)
  {
    var s := SymbolForLiteral([c]);
    s.Some? && IsDelimitingSymbol(s.value)
  }

  lemma DelimitingCharHasEntry(c: char)
    ensures IsDelimitingChar(c) <==>
              exists k :: 0 <= k < |SymbolValuePairs| && SymbolValuePairs[k].0 == [c] &&
                          IsDelimitingSymbol(SymbolForLiteral([c]).value)
  {
  }
}
