/**
 * The pure parts of the side view in app/grid/ExplodedView.tsx: the items
 * stacked by start height, the tallest top, the search highlight and the
 * border colour derived from an item's `rgba(...)` colour.
 */
module ExplodedView {
  import opened Prelude
  import opened JsText
  import opened JsNumber
  import opened Records
  import opened ColorPicker

  /** Non-decreasing by start height. */
  predicate SortedByStart(s: seq<Item>) {
    forall i, j :: 0 <= i < j < |s| ==> s[i].startHeight <= s[j].startHeight
  }

  /** Puts `x` before the first item of `s` that does not start lower. */
  function InsertByStart(x: Item, s: seq<Item>): (r: seq<Item>)
    requires SortedByStart(s)
    ensures SortedByStart(r)
    ensures multiset(r) == multiset(s) + multiset{x}
  {
    if s == [] || x.startHeight <= s[0].startHeight then
      [x] + s
    else
      var rest := InsertByStart(x, s[1..]);
      LowestStaysFirst(x, s, rest);
      [s[0]] + rest
  }

  /** The first item of `s`, lower than `x`, stays ahead of `x` inserted into the rest. */
  lemma LowestStaysFirst(x: Item, s: seq<Item>, rest: seq<Item>)
    requires s != [] && SortedByStart(s) && s[0].startHeight < x.startHeight
    requires SortedByStart(rest) && multiset(rest) == multiset(s[1..]) + multiset{x}
    ensures SortedByStart([s[0]] + rest)
    ensures multiset([s[0]] + rest) == multiset(s) + multiset{x}
  {
    assert s == [s[0]] + s[1..];
    forall j | 0 <= j < |rest| ensures s[0].startHeight <= rest[j].startHeight {
      assert rest[j] in multiset(rest);
      if rest[j] != x {
        assert rest[j] in multiset(s[1..]);
        assert rest[j] in s[1..];
      }
    }
    var r := [s[0]] + rest;
    forall i, j | 0 <= i < j < |r| ensures r[i].startHeight <= r[j].startHeight {
      assert r[j] == rest[j - 1];
      if i > 0 {
        assert r[i] == rest[i - 1];
      }
    }
  }

  /**
   * `sortedItems`: `[...items].sort((a, b) => a.startHeight - b.startHeight)`.
   * The sort works on a copy, so the view's `items` keep their order; the
   * sort itself is stable.
   */
  function SortedItems(items: seq<Item>): (r: seq<Item>)
    ensures SortedByStart(r)
    ensures multiset(r) == multiset(items)
  {
    if items == [] then []
    else
      assert items == [items[0]] + items[1..];
      InsertByStart(items[0], SortedItems(items[1..]))
  }

  /** The items of `s` that start at height `h`, in order. */
  function StartingAt(s: seq<Item>, h: int): seq<Item> {
    if s == [] then []
    else (if s[0].startHeight == h then [s[0]] else []) + StartingAt(s[1..], h)
  }

  /** `StartingAt` of a sequence with a known first item. */
  lemma StartingAtCons(y: Item, s: seq<Item>, h: int)
    ensures StartingAt([y] + s, h) == (if y.startHeight == h then [y] else []) + StartingAt(s, h)
  {
    assert ([y] + s)[1..] == s;
  }

  /** Inserting `x` adds it to the items of its own start height, ahead of the equal ones. */
  lemma {:induction false} InsertKeepsTies(x: Item, s: seq<Item>, h: int)
    requires SortedByStart(s)
    ensures StartingAt(InsertByStart(x, s), h)
         == (if x.startHeight == h then [x] else []) + StartingAt(s, h)
  {
    if s == [] || x.startHeight <= s[0].startHeight {
      StartingAtCons(x, s, h);
    } else {
      var rest := InsertByStart(x, s[1..]);
      assert InsertByStart(x, s) == [s[0]] + rest;
      InsertKeepsTies(x, s[1..], h);
      TiesBehindLowerHead(x, s[0], s[1..], rest, h);
      assert [s[0]] + s[1..] == s;
    }
  }

  /** Putting a lower item `y` in front of both sides keeps `x` ahead of the ties it joined. */
  lemma TiesBehindLowerHead(x: Item, y: Item, t: seq<Item>, rest: seq<Item>, h: int)
    requires y.startHeight < x.startHeight
    requires StartingAt(rest, h) == (if x.startHeight == h then [x] else []) + StartingAt(t, h)
    ensures StartingAt([y] + rest, h) == (if x.startHeight == h then [x] else []) + StartingAt([y] + t, h)
  {
    StartingAtCons(y, rest, h);
    StartingAtCons(y, t, h);
    if y.startHeight == h {
      assert [y] + ([] + StartingAt(t, h)) == [] + ([y] + StartingAt(t, h));
    }
  }

  /** The sort is stable: items with equal start heights keep their input order. */
  lemma {:induction false} SortIsStable(items: seq<Item>, h: int)
    ensures StartingAt(SortedItems(items), h) == StartingAt(items, h)
  {
    if items != [] {
      SortIsStable(items[1..], h);
      InsertKeepsTies(items[0], SortedItems(items[1..]), h);
    }
  }

  /** The height of an item's top edge. */
  function Top(item: Item): int {
    item.startHeight + item.itemHeight
  }

  /** `Math.max(...items.map(item => item.startHeight + item.itemHeight))`. */
  function MaxTop(items: seq<Item>): (m: int)
    requires items != []
    ensures forall x :: x in items ==> Top(x) <= m
    ensures exists x :: x in items && Top(x) == m
  {
    if |items| == 1 then Top(items[0])
    else
      var m := MaxTop(items[1..]);
      assert items == [items[0]] + items[1..];
      if Top(items[0]) >= m then Top(items[0]) else m
  }

  /** `maxHeight`: 1 for an empty drawer, otherwise the tallest top. */
  function MaxHeight(items: seq<Item>): (m: int)
    ensures items == [] ==> m == 1
    ensures items != [] ==> (forall x :: x in items ==> Top(x) <= m) && (exists x :: x in items && Top(x) == m)
  {
    if items == [] then 1 else MaxTop(items)
  }

  /** `isHighlighted`: a non-empty term that the item's name contains, ignoring case. */
  predicate IsHighlighted(item: Item, searchTerm: string)
    ensures IsHighlighted(item, searchTerm) <==>
              searchTerm != "" && exists i :: OccursAt(ToLower(item.name), ToLower(searchTerm), i)
  {
    if searchTerm != "" then
      assert MatchesSearch(item.name, searchTerm) == Includes(ToLower(item.name), ToLower(searchTerm));
      MatchesSearch(item.name, searchTerm)
    else false
  }

  /** Lower-casing the term first does not change what is highlighted. */
  lemma HighlightIgnoresTermCase(item: Item, searchTerm: string)
    ensures IsHighlighted(item, ToLower(searchTerm)) <==> IsHighlighted(item, searchTerm)
  {
    ToLowerIdempotent(searchTerm);
  }

  /** The colour of an item without one. */
  const DefaultItemColor := RgbaText("59", "130", "246", "0.2")

  /** The border colour when the item's colour has no `rgba(...)` in it. */
  const DefaultBorder := RgbaText("59", "130", "246", "0.4")

  /** `item.color || "rgba(59, 130, 246, 0.2)"`. */
  function ItemColor(item: Item): (c: string)
    ensures c != ""
    ensures c == DefaultItemColor || item.color == Some(c)
  {
    if item.color.Some? && item.color.value != "" then item.color.value else DefaultItemColor
  }

  /** The character classes of the border pattern: `\d`, `\s` and `[\d.]`. */
  datatype CharClass = Digits | Spaces | DigitsOrDots

  predicate InClass(c: char, cls: CharClass) {
    match cls
    case Digits => IsDigit(c)
    case Spaces => IsWhiteSpace(c)
    case DigitsOrDots => IsDigit(c) || c == '.'
  }

  /** The length of the longest prefix of `s` in the class. */
  function RunLength(s: string, cls: CharClass): (n: nat)
    ensures n <= |s|
    ensures forall i :: 0 <= i < n ==> InClass(s[i], cls)
    ensures n == |s| || !InClass(s[n], cls)
  {
    if s == [] || !InClass(s[0], cls) then 0 else 1 + RunLength(s[1..], cls)
  }

  /** A run of the class followed by a character outside it is exactly that run. */
  lemma RunLengthOf(x: string, y: string, cls: CharClass)
    requires forall i :: 0 <= i < |x| ==> InClass(x[i], cls)
    requires y == [] || !InClass(y[0], cls)
    ensures RunLength(x + y, cls) == |x|
  {
    assert forall i :: 0 <= i < |x| ==> (x + y)[i] == x[i];
    assert |x| < |x + y| ==> (x + y)[|x|] == y[0];
  }

  /**
   * One element of the border pattern.  Each run is taken greedily and never
   * given back: in this pattern every run is followed by a character its
   * class excludes, so backtracking could not find another match.
   */
  datatype Token =
    | Word(w: string)                        // literal text
    | Skip(cls: CharClass, atLeastOne: bool) // `\s*` or `[\d.]+`, not captured
    | CaptureDigits                          // `(\d+)`

  /** `rgba\((\d+),\s*(\d+),\s*(\d+),\s*[\d.]+\)`, token by token. */
  const BorderPattern: seq<Token> := [
    Word("rgba("), CaptureDigits, Word(","), Skip(Spaces, false),
    CaptureDigits, Word(","), Skip(Spaces, false),
    CaptureDigits, Word(","), Skip(Spaces, false), Skip(DigitsOrDots, true), Word(")")
  ]

  function CaptureCount(p: seq<Token>): nat {
    if p == [] then 0 else (if p[0] == CaptureDigits then 1 else 0) + CaptureCount(p[1..])
  }

  predicate IsDigitRun(s: string) {
    s != [] && AllDigits(s)
  }

  /** The pattern `p` anchored at the start of `s`: the captured texts, or `None`. */
  function Match(p: seq<Token>, s: string): (m: Option<seq<string>>)
    ensures m.Some? ==> |m.value| == CaptureCount(p)
    ensures m.Some? ==> forall i :: 0 <= i < |m.value| ==> IsDigitRun(m.value[i])
  {
    if p == [] then Some([])
    else
      match p[0]
      case Word(w) => if w <= s then Match(p[1..], s[|w|..]) else None
      case Skip(cls, atLeastOne) =>
        var n := RunLength(s, cls);
        if atLeastOne && n == 0 then None else Match(p[1..], s[n..])
      case CaptureDigits =>
        var n := RunLength(s, Digits);
        if n == 0 then None
        else
          match Match(p[1..], s[n..])
          case None => None
          case Some(rest) => Some([s[..n]] + rest)
  }

  /** The three captured channels of a match. */
  datatype Channels = Channels(r: string, g: string, b: string)

  /** The border pattern has three capture groups. */
  lemma BorderPatternCaptures()
    ensures CaptureCount(BorderPattern) == 3
  {
  }

  /** The border pattern anchored at the start of `s`. */
  function MatchHere(s: string): (m: Option<Channels>)
    ensures m.Some? ==> IsDigitRun(m.value.r) && IsDigitRun(m.value.g) && IsDigitRun(m.value.b)
  {
    BorderPatternCaptures();
    match Match(BorderPattern, s)
    case None => None
    case Some(caps) => Some(Channels(caps[0], caps[1], caps[2]))
  }

  /** `color.match(pattern)`: the match at the leftmost position where the pattern matches. */
  function FirstMatch(s: string): (m: Option<Channels>)
    ensures m.Some? ==> IsDigitRun(m.value.r) && IsDigitRun(m.value.g) && IsDigitRun(m.value.b)
  {
    if MatchHere(s).Some? then MatchHere(s)
    else if s == [] then None
    else FirstMatch(s[1..])
  }

  /**
   * There is no match exactly when the pattern matches at no position, and a
   * match is the one at the first position where the pattern matches.
   */
  lemma {:induction false} FirstMatchIsLeftmost(s: string)
    ensures FirstMatch(s).None? <==> forall k :: 0 <= k <= |s| ==> MatchHere(s[k..]).None?
    ensures FirstMatch(s).Some? ==>
              exists k :: && 0 <= k <= |s| && MatchHere(s[k..]) == FirstMatch(s)
                          && forall j :: 0 <= j < k ==> MatchHere(s[j..]).None?
  {
    assert s[0..] == s;
    if MatchHere(s).Some? {
      assert MatchHere(s[0..]) == FirstMatch(s);
    } else if s != [] {
      FirstMatchIsLeftmost(s[1..]);
      var m := FirstMatch(s[1..]);
      if m.Some? {
        var k :| && 0 <= k <= |s[1..]| && MatchHere(s[1..][k..]) == m
                 && forall j :: 0 <= j < k ==> MatchHere(s[1..][j..]).None?;
        NoMatchBeforeShift(s, k + 1);
        assert s[k + 1..] == s[1..][k..];
        assert MatchHere(s[k + 1..]) == FirstMatch(s);
      } else {
        NoMatchBeforeShift(s, |s| + 1);
      }
    }
  }

  /** No match in the first `n - 1` positions of the tail and none at the head: none in the first `n`. */
  lemma NoMatchBeforeShift(s: string, n: nat)
    requires s != [] && n <= |s| + 1 && MatchHere(s).None?
    requires forall j :: 0 <= j < n - 1 ==> MatchHere(s[1..][j..]).None?
    ensures forall j :: 0 <= j < n ==> MatchHere(s[j..]).None?
  {
    assert s[0..] == s;
    forall j | 0 <= j < n ensures MatchHere(s[j..]).None? {
      if j > 0 {
        assert s[j..] == s[1..][j - 1..];
      }
    }
  }

  /** `getBorderColor`: the captured channels at opacity 0.4, or the default border. */
  function BorderColor(color: string): (border: string)
    ensures exists r, g, b :: IsDigitRun(r) && IsDigitRun(g) && IsDigitRun(b) && border == RgbaText(r, g, b, "0.4")
    ensures FirstMatch(color).None? ==> border == DefaultBorder
  {
    match FirstMatch(color)
    case Some(c) => RgbaText(c.r, c.g, c.b, "0.4")
    case None =>
      assert IsDigitRun("59") && IsDigitRun("130") && IsDigitRun("246");
      DefaultBorder
  }

  /** The border drawn around an item in the side view. */
  function ItemBorder(item: Item): string {
    BorderColor(ItemColor(item))
  }

  predicate IsAlphaText(s: string) {
    s != [] && forall i :: 0 <= i < |s| ==> InClass(s[i], DigitsOrDots)
  }

  /** A literal token consumes its text. */
  lemma WordStep(k: nat, w: string, t: string)
    requires k < |BorderPattern| && BorderPattern[k] == Word(w)
    ensures Match(BorderPattern[k..], w + t) == Match(BorderPattern[k + 1..], t)
  {
    assert BorderPattern[k..][1..] == BorderPattern[k + 1..];
    assert (w + t)[..|w|] == w;
    assert (w + t)[|w|..] == t;
  }

  /** A skipped run consumes exactly the run when the next character is outside its class. */
  lemma SkipStep(k: nat, x: string, y: string)
    requires k < |BorderPattern| && BorderPattern[k].Skip?
    requires forall i :: 0 <= i < |x| ==> InClass(x[i], BorderPattern[k].cls)
    requires y == [] || !InClass(y[0], BorderPattern[k].cls)
    requires BorderPattern[k].atLeastOne ==> x != []
    ensures Match(BorderPattern[k..], x + y) == Match(BorderPattern[k + 1..], y)
  {
    assert BorderPattern[k..][1..] == BorderPattern[k + 1..];
    RunLengthOf(x, y, BorderPattern[k].cls);
    assert (x + y)[|x|..] == y;
  }

  /** A captured run of digits is captured whole when no digit follows it. */
  lemma CaptureStep(k: nat, x: string, y: string, rest: seq<string>)
    requires k < |BorderPattern| && BorderPattern[k] == CaptureDigits
    requires IsDigitRun(x) && (y == [] || !IsDigit(y[0]))
    requires Match(BorderPattern[k + 1..], y) == Some(rest)
    ensures Match(BorderPattern[k..], x + y) == Some([x] + rest)
  {
    assert BorderPattern[k..][1..] == BorderPattern[k + 1..];
    RunLengthOf(x, y, Digits);
    assert (x + y)[..|x|] == x;
    assert (x + y)[|x|..] == y;
  }

  /** A channel token, its comma and the white space after it read one channel. */
  lemma ChannelStep(k: nat, x: string, sp: string, y: string, rest: seq<string>)
    requires k + 2 < |BorderPattern| && BorderPattern[k] == CaptureDigits
    requires BorderPattern[k + 1] == Word(",") && BorderPattern[k + 2] == Skip(Spaces, false)
    requires IsDigitRun(x) && AllWhiteSpace(sp) && y != [] && !IsWhiteSpace(y[0])
    requires Match(BorderPattern[k + 3..], y) == Some(rest)
    ensures Match(BorderPattern[k..], x + ("," + (sp + y))) == Some([x] + rest)
  {
    SkipStep(k + 2, sp, y);
    WordStep(k + 1, ",", sp + y);
    CaptureStep(k, x, "," + (sp + y), rest);
  }

  /** The alpha and the closing parenthesis end the match, whatever follows. */
  lemma AlphaStep(a: string, rest: string)
    requires IsAlphaText(a)
    ensures Match(BorderPattern[10..], a + (")" + rest)) == Some([])
  {
    assert BorderPattern[12..] == [];
    WordStep(11, ")", rest);
    SkipStep(10, a, ")" + rest);
  }

  /** The text the border pattern reads as channels `r`, `g`, `b` with alpha `a`, followed by `rest`. */
  function RgbaLike(r: string, g: string, b: string, a: string,
                    sp1: string, sp2: string, sp3: string, rest: string): string {
    "rgba(" + r + "," + sp1 + g + "," + sp2 + b + "," + sp3 + a + ")" + rest
  }

  lemma RgbaLikeNested(r: string, g: string, b: string, a: string,
                       sp1: string, sp2: string, sp3: string, rest: string)
    ensures RgbaLike(r, g, b, a, sp1, sp2, sp3, rest)
         == "rgba(" + (r + ("," + (sp1 + (g + ("," + (sp2 + (b + ("," + (sp3 + (a + (")" + rest)))))))))))
  {
  }

  /** The blue channel, the alpha and the closing parenthesis. */
  lemma MatchBlue(b: string, a: string, sp3: string, rest: string)
    requires IsDigitRun(b) && IsAlphaText(a) && AllWhiteSpace(sp3)
    ensures Match(BorderPattern[7..], b + ("," + (sp3 + (a + (")" + rest))))) == Some([b])
  {
    var e10 := a + (")" + rest);
    AlphaStep(a, rest);
    assert e10[0] == a[0];
    ChannelStep(7, b, sp3, e10, []);
    assert [b] + [] == [b];
  }

  /** The green channel and what follows it. */
  lemma MatchGreen(g: string, b: string, a: string, sp2: string, sp3: string, rest: string)
    requires IsDigitRun(g) && IsDigitRun(b) && IsAlphaText(a) && AllWhiteSpace(sp2) && AllWhiteSpace(sp3)
    ensures Match(BorderPattern[4..], g + ("," + (sp2 + (b + ("," + (sp3 + (a + (")" + rest))))))))
         == Some([g, b])
  {
    var e7 := b + ("," + (sp3 + (a + (")" + rest))));
    MatchBlue(b, a, sp3, rest);
    assert e7[0] == b[0];
    ChannelStep(4, g, sp2, e7, [b]);
    assert [g] + [b] == [g, b];
  }

  /** The three channels, from the first one on. */
  lemma MatchChannels(r: string, g: string, b: string, a: string,
                      sp1: string, sp2: string, sp3: string, rest: string)
    requires IsDigitRun(r) && IsDigitRun(g) && IsDigitRun(b) && IsAlphaText(a)
    requires AllWhiteSpace(sp1) && AllWhiteSpace(sp2) && AllWhiteSpace(sp3)
    ensures Match(BorderPattern[1..], r + ("," + (sp1 + (g + ("," + (sp2 + (b + ("," + (sp3 + (a + (")" + rest)))))))))))
         == Some([r, g, b])
  {
    var e4 := g + ("," + (sp2 + (b + ("," + (sp3 + (a + (")" + rest)))))));
    MatchGreen(g, b, a, sp2, sp3, rest);
    assert e4[0] == g[0];
    ChannelStep(1, r, sp1, e4, [g, b]);
    assert [r] + [g, b] == [r, g, b];
  }

  /** The pattern reads `r`, `g` and `b` back from a text of that shape. */
  lemma MatchRgbaLike(r: string, g: string, b: string, a: string,
                      sp1: string, sp2: string, sp3: string, rest: string)
    requires IsDigitRun(r) && IsDigitRun(g) && IsDigitRun(b) && IsAlphaText(a)
    requires AllWhiteSpace(sp1) && AllWhiteSpace(sp2) && AllWhiteSpace(sp3)
    ensures MatchHere(RgbaLike(r, g, b, a, sp1, sp2, sp3, rest)) == Some(Channels(r, g, b))
  {
    var e1 := r + ("," + (sp1 + (g + ("," + (sp2 + (b + ("," + (sp3 + (a + (")" + rest))))))))));
    MatchChannels(r, g, b, a, sp1, sp2, sp3, rest);
    assert BorderPattern[0..] == BorderPattern;
    WordStep(0, "rgba(", e1);
    RgbaLikeNested(r, g, b, a, sp1, sp2, sp3, rest);
  }

  /** A match at the very start decides the border. */
  lemma BorderOfMatchHere(s: string)
    requires MatchHere(s).Some?
    ensures BorderColor(s) == RgbaText(MatchHere(s).value.r, MatchHere(s).value.g, MatchHere(s).value.b, "0.4")
  {
    assert s[0..] == s;
  }

  /**
   * A colour that starts with `rgba(r,<ws>g,<ws>b,<ws>a)` gets the border
   * `rgba(r, g, b, 0.4)`: the same channel digits, whatever the white space,
   * the alpha and the text after it.
   */
  lemma BorderOfRgba(r: string, g: string, b: string, a: string,
                     sp1: string, sp2: string, sp3: string, rest: string)
    requires IsDigitRun(r) && IsDigitRun(g) && IsDigitRun(b) && IsAlphaText(a)
    requires AllWhiteSpace(sp1) && AllWhiteSpace(sp2) && AllWhiteSpace(sp3)
    ensures BorderColor(RgbaLike(r, g, b, a, sp1, sp2, sp3, rest)) == RgbaText(r, g, b, "0.4")
  {
    MatchRgbaLike(r, g, b, a, sp1, sp2, sp3, rest);
    BorderOfMatchHere(RgbaLike(r, g, b, a, sp1, sp2, sp3, rest));
  }

  lemma RgbaTextIsRgbaLike(r: string, g: string, b: string, a: string)
    ensures RgbaText(r, g, b, a) == RgbaLike(r, g, b, a, " ", " ", " ", "")
  {
    assert RgbaText(r, g, b, a) == "rgba(" + r + "," + " " + g + "," + " " + b + "," + " " + a + ")" + "";
  }

  /** A colour written as `rgba(r, g, b, a)` keeps its channels in its border. */
  lemma BorderOfRgbaText(r: string, g: string, b: string, a: string)
    requires IsDigitRun(r) && IsDigitRun(g) && IsDigitRun(b) && IsAlphaText(a)
    ensures BorderColor(RgbaText(r, g, b, a)) == RgbaText(r, g, b, "0.4")
  {
    RgbaTextIsRgbaLike(r, g, b, a);
    BorderOfRgba(r, g, b, a, " ", " ", " ", "");
  }

  /** `BorderOfRgbaText` for a colour known only to equal such a text. */
  lemma BorderOfEqual(color: string, r: string, g: string, b: string, a: string)
    requires IsDigitRun(r) && IsDigitRun(g) && IsDigitRun(b) && IsAlphaText(a)
    requires color == RgbaText(r, g, b, a)
    ensures BorderColor(color) == RgbaText(r, g, b, "0.4")
  {
    BorderOfRgbaText(r, g, b, a);
  }

  /** An item without a colour is drawn with the default border. */
  lemma UncolouredItemBorder(item: Item)
    requires item.color.None? || item.color.value == ""
    ensures ItemBorder(item) == DefaultBorder
  {
    BorderOfEqual(ItemColor(item), "59", "130", "246", "0.2");
  }

  /** A colour set from a custom hex text keeps its channels in the border. */
  lemma HexColouredBorder(hex: string)
    requires ParseHex(hex).Some?
    ensures var c := ParseHex(hex).value;
            (HexToRgba(hex, DefaultOpacity)
             == Some(RgbaText(NatToString(c.r), NatToString(c.g), NatToString(c.b), DefaultOpacity)))
    ensures var c := ParseHex(hex).value;
            (BorderColor(HexToRgba(hex, DefaultOpacity).value)
             == RgbaText(NatToString(c.r), NatToString(c.g), NatToString(c.b), "0.4"))
  {
    var c := ParseHex(hex).value;
    BorderOfRgbaText(NatToString(c.r), NatToString(c.g), NatToString(c.b), DefaultOpacity);
  }

  /** The channels of the twelve preset colours, in order. */
  const PresetChannels: seq<Channels> := [
    Channels("248", "113", "113"), Channels("251", "146", "60"), Channels("250", "204", "21"),
    Channels("163", "230", "53"), Channels("52", "211", "153"), Channels("45", "212", "191"),
    Channels("56", "189", "248"), Channels("59", "130", "246"), Channels("129", "140", "248"),
    Channels("168", "85", "247"), Channels("236", "72", "153"), Channels("244", "114", "182")
  ]

  lemma PresetIsRgbaText(k: nat)
    requires k < |PresetColors|
    ensures k < |PresetChannels|
    ensures IsDigitRun(PresetChannels[k].r) && IsDigitRun(PresetChannels[k].g) && IsDigitRun(PresetChannels[k].b)
    ensures PresetColors[k] == RgbaText(PresetChannels[k].r, PresetChannels[k].g, PresetChannels[k].b, "0.2")
  {
    if k < 4 {
      PresetsRedToLime(k);
    } else if k < 8 {
      PresetsGreenToBlue(k);
    } else {
      PresetsIndigoToRose(k);
    }
  }

  /** The presets red, orange, yellow and lime. */
  lemma PresetsRedToLime(k: nat)
    requires 0 <= k < 4
    ensures k < |PresetColors| && k < |PresetChannels|
    ensures IsDigitRun(PresetChannels[k].r) && IsDigitRun(PresetChannels[k].g) && IsDigitRun(PresetChannels[k].b)
    ensures PresetColors[k] == RgbaText(PresetChannels[k].r, PresetChannels[k].g, PresetChannels[k].b, "0.2")
  {
    match k
    case 0 => case 1 => case 2 => case 3 =>
  }

  /** The presets green, teal, light blue and blue. */
  lemma PresetsGreenToBlue(k: nat)
    requires 4 <= k < 8
    ensures k < |PresetColors| && k < |PresetChannels|
    ensures IsDigitRun(PresetChannels[k].r) && IsDigitRun(PresetChannels[k].g) && IsDigitRun(PresetChannels[k].b)
    ensures PresetColors[k] == RgbaText(PresetChannels[k].r, PresetChannels[k].g, PresetChannels[k].b, "0.2")
  {
    match k
    case 4 => case 5 => case 6 => case 7 =>
  }

  /** The presets indigo, purple, pink and rose. */
  lemma PresetsIndigoToRose(k: nat)
    requires 8 <= k < 12
    ensures k < |PresetColors| && k < |PresetChannels|
    ensures IsDigitRun(PresetChannels[k].r) && IsDigitRun(PresetChannels[k].g) && IsDigitRun(PresetChannels[k].b)
    ensures PresetColors[k] == RgbaText(PresetChannels[k].r, PresetChannels[k].g, PresetChannels[k].b, "0.2")
  {
    match k
    case 8 => case 9 => case 10 => case 11 =>
  }

  /** Every preset colour is drawn with a border of its own channels at opacity 0.4. */
  lemma PresetBorder(k: nat)
    requires k < |PresetColors|
    ensures k < |PresetChannels|
    ensures BorderColor(PresetColors[k])
         == RgbaText(PresetChannels[k].r, PresetChannels[k].g, PresetChannels[k].b, "0.4")
  {
    PresetIsRgbaText(k);
    var c := PresetChannels[k];
    BorderOfEqual(PresetColors[k], c.r, c.g, c.b, "0.2");
  }
}
