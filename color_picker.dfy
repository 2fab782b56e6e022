/**
 * The colour picker of app/components/ColorPicker.tsx: twelve preset
 * colours, a custom `#rrggbb` entry converted to CSS `rgba(...)` text by
 * `hexToRgba`, and a clear button.
 */
module ColorPicker {
  import opened Prelude
  import opened JsText
  import opened JsNumber

  /** The CSS colour text `rgba(r, g, b, a)` with one space after each comma. */
  function RgbaText(r: string, g: string, b: string, a: string): string {
    "rgba(" + r + ", " + g + ", " + b + ", " + a + ")"
  }

  /** The preset colours, red to rose, all at opacity 0.2. */
  const PresetColors: seq<string> := [
    RgbaText("248", "113", "113", "0.2"),
    RgbaText("251", "146", "60", "0.2"),
    RgbaText("250", "204", "21", "0.2"),
    RgbaText("163", "230", "53", "0.2"),
    RgbaText("52", "211", "153", "0.2"),
    RgbaText("45", "212", "191", "0.2"),
    RgbaText("56", "189", "248", "0.2"),
    RgbaText("59", "130", "246", "0.2"),
    RgbaText("129", "140", "248", "0.2"),
    RgbaText("168", "85", "247", "0.2"),
    RgbaText("236", "72", "153", "0.2"),
    RgbaText("244", "114", "182", "0.2")
  ]

  /** The opacity `hexToRgba` uses when it is given none, as the template prints it. */
  const DefaultOpacity := "0.2"

  /** `[a-f\d]` under the `i` flag. */
  predicate IsHexDigit(c: char) {
    '0' <= c <= '9' || 'a' <= c <= 'f' || 'A' <= c <= 'F'
  }

  predicate AllHex(s: string) {
    forall i :: 0 <= i < |s| ==> IsHexDigit(s[i])
  }

  /** The value `parseInt(_, 16)` gives one hex digit. */
  function HexValue(c: char): (d: nat)
    requires IsHexDigit(c)
    ensures d < 16
  {
    if '0' <= c <= '9' then c as nat - '0' as nat
    else if 'a' <= c <= 'f' then c as nat - 'a' as nat + 10
    else c as nat - 'A' as nat + 10
  }

  /** The lower-case hex digit of a value below 16. */
  function HexChar(d: nat): (c: char)
    requires d < 16
    ensures IsHexDigit(c) && HexValue(c) == d
  {
    if d < 10 then ('0' as nat + d) as char else ('a' as nat + d - 10) as char
  }

  /** A hex digit written back by `HexChar` comes out in lower case. */
  lemma HexCharOfValue(c: char)
    requires IsHexDigit(c)
    ensures HexChar(HexValue(c)) == LowerChar(c)
  {
  }

  /** What remains for the three digit pairs after the optional leading `#`. */
  function HexDigitsOf(hex: string): string {
    if hex != [] && hex[0] == '#' then hex[1..] else hex
  }

  /** Three channel values. */
  datatype Rgb = Rgb(r: nat, g: nat, b: nat)

  predicate IsChannelTriple(c: Rgb) {
    c.r < 256 && c.g < 256 && c.b < 256
  }

  /** `parseInt(pair, 16)` of a two-digit pair. */
  function PairValue(hi: char, lo: char): (v: nat)
    requires IsHexDigit(hi) && IsHexDigit(lo)
    ensures v < 256
    ensures v / 16 == HexValue(hi) && v % 16 == HexValue(lo)
  {
    16 * HexValue(hi) + HexValue(lo)
  }

  /**
   * The match of `/^#?([a-f\d]{2})([a-f\d]{2})([a-f\d]{2})$/i` and the three
   * `parseInt` calls: the channels, or `None` when the pattern does not match.
   */
  function ParseHex(hex: string): (c: Option<Rgb>)
    ensures c.Some? <==> |HexDigitsOf(hex)| == 6 && AllHex(HexDigitsOf(hex))
    ensures c.Some? ==> IsChannelTriple(c.value)
  {
    var d := HexDigitsOf(hex);
    if |d| == 6 && AllHex(d) then
      Some(Rgb(PairValue(d[0], d[1]), PairValue(d[2], d[3]), PairValue(d[4], d[5])))
    else
      None
  }

  /** `hexToRgba(hex, opacity)`, with the opacity as the template prints it. */
  function HexToRgba(hex: string, opacity: string): (rgba: Option<string>)
    ensures rgba.Some? <==> |HexDigitsOf(hex)| == 6 && AllHex(HexDigitsOf(hex))
    ensures rgba.Some? ==>
              exists c :: && IsChannelTriple(c) && ToHex(c) == ToLower(HexDigitsOf(hex))
                          && rgba.value == RgbaText(NatToString(c.r), NatToString(c.g), NatToString(c.b), opacity)
  {
    match ParseHex(hex)
    case None => None
    case Some(c) =>
      ParseHexCanonical(hex);
      Some(RgbaText(NatToString(c.r), NatToString(c.g), NatToString(c.b), opacity))
  }

  /** The six lower-case hex digits of three channel values. */
  function ToHex(c: Rgb): (h: string)
    requires IsChannelTriple(c)
    ensures |h| == 6 && AllHex(h)
  {
    [HexChar(c.r / 16), HexChar(c.r % 16), HexChar(c.g / 16), HexChar(c.g % 16),
     HexChar(c.b / 16), HexChar(c.b % 16)]
  }

  /** Every triple of channels survives writing it in hex, with or without the `#`. */
  lemma HexRoundTrip(c: Rgb)
    requires IsChannelTriple(c)
    ensures ParseHex(ToHex(c)) == Some(c)
    ensures ParseHex("#" + ToHex(c)) == Some(c)
  {
    var h := ToHex(c);
    assert HexDigitsOf(h) == h;
    assert HexDigitsOf("#" + h) == h;
  }

  /** Conversely, an accepted text is the hex form of its channels, up to letter case and the `#`. */
  lemma ParseHexCanonical(hex: string)
    requires ParseHex(hex).Some?
    ensures ToHex(ParseHex(hex).value) == ToLower(HexDigitsOf(hex))
  {
    var d := HexDigitsOf(hex);
    forall i | 0 <= i < 6 {
      HexCharOfValue(d[i]);
    }
  }

  /** The leading `#` is optional: adding one to a text that has none changes nothing. */
  lemma HashOptional(s: string)
    requires s == [] || s[0] != '#'
    ensures ParseHex("#" + s) == ParseHex(s)
  {
    assert HexDigitsOf("#" + s) == s;
  }

  /** The guard of the Set button: `/^#[0-9A-F]{6}$/i`, where the `#` is required. */
  predicate IsHashHex(s: string) {
    |s| == 7 && s[0] == '#' && AllHex(s[1..])
  }

  /**
   * The guard admits exactly the texts `hexToRgba` accepts that start with
   * `#`, so the inner null check of the Set handler never fails.
   */
  lemma HashHexIffParses(s: string)
    ensures IsHashHex(s) <==> s != [] && s[0] == '#' && ParseHex(s).Some?
    ensures IsHashHex(s) ==> HexToRgba(s, DefaultOpacity).Some?
  {
  }

  /** What a handler passes to `onChange`, if anything. */
  datatype Change = NoChange | Changed(value: Option<string>)

  /** The values of the picker's state variables at one moment. */
  datatype Fields = Fields(isOpen: bool, customColor: string)

  class PickerState {
    var isOpen: bool
    var customColor: string

    /** `customColor` starts as the current value, or empty when there is none. */
    constructor (value: Option<string>)
      ensures State() == Fields(false, if value.Some? then value.value else "")
    {
      isOpen := false;
      customColor := if value.Some? then value.value else "";
    }

    function State(): Fields
      reads this
    {
      Fields(isOpen, customColor)
    }

    /** The swatch button opens and closes the dropdown. */
    method Toggle()
      modifies this
      ensures State() == old(State()).(isOpen := !old(isOpen))
    {
      isOpen := !isOpen;
    }

    /** Typing into the custom colour input. */
    method EditCustom(text: string)
      modifies this
      ensures State() == old(State()).(customColor := text)
    {
      customColor := text;
    }

    /** A preset click passes that preset unchanged and closes the dropdown. */
    method PresetClick(k: nat) returns (change: Change)
      requires k < |PresetColors|
      modifies this
      ensures change == Changed(Some(PresetColors[k]))
      ensures State() == old(State()).(isOpen := false)
    {
      change := Changed(Some(PresetColors[k]));
      isOpen := false;
    }

    /**
     * The Set button: a custom text of `#` and six hex digits is passed on
     * as its `rgba(...)` form at opacity 0.2 and the dropdown closes; any
     * other text changes nothing.
     */
    method SetClick() returns (change: Change)
      modifies this
      ensures IsHashHex(old(customColor)) ==>
                && change.Changed? && change.value.Some?
                && Some(change.value.value) == HexToRgba(old(customColor), DefaultOpacity)
                && State() == old(State()).(isOpen := false)
      ensures !IsHashHex(old(customColor)) ==> change == NoChange && State() == old(State())
    {
      change := NoChange;
      if IsHashHex(customColor) {
        var rgbaColor := HexToRgba(customColor, DefaultOpacity);
        HashHexIffParses(customColor);
        if rgbaColor.Some? {
          change := Changed(rgbaColor);
          isOpen := false;
        }
      }
    }

    /** The Clear button, shown while a colour is set, passes no colour and closes the dropdown. */
    method ClearClick() returns (change: Change)
      modifies this
      ensures change == Changed(None)
      ensures State() == old(State()).(isOpen := false)
    {
      change := Changed(None);
      isOpen := false;
    }
  }
}
