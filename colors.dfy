/** lightenColor / darkenColor: scale each channel by (100 ± percent)/100, round down, and clamp. */
module Colors {

  datatype Rgb = Rgb(r: int, g: int, b: int)

  /** A colour as the helpers classify it: "#rrggbb" (channels already read as hex), an
      "rgb(...)" text (its first three decimal runs), or any other text, returned unchanged. */
  datatype Color = Hex(hex: Rgb) | RgbText(channels: Rgb) | Unrecognized(text: string)

  /** The helpers' result: an "rgb(r, g, b)" colour, or the original text. */
  datatype Output = RgbOut(rgb: Rgb) | Unchanged(text: string)

  predicate InRange(c: int) { 0 <= c <= 255 }

  /** min(255, floor(c * (100 + percent) / 100)). */
  function LightenChannel(c: int, percent: int): (v: int)
    ensures v <= 255
    ensures InRange(c) && percent >= 0 ==> c <= v && InRange(v)
  {
    var scaled := c * (100 + percent) / 100;
    assert InRange(c) && percent >= 0 ==> c * (100 + percent) >= c * 100;
    if scaled < 255 then scaled else 255
  }

  /** max(0, floor(c * (100 - percent) / 100)). */
  function DarkenChannel(c: int, percent: int): (v: int)
    ensures v >= 0
    ensures c >= 0 && percent >= 0 ==> v <= c
    ensures InRange(c) && percent >= 0 ==> InRange(v)
  {
    var scaled := c * (100 - percent) / 100;
    assert c >= 0 && percent >= 0 ==> c * (100 - percent) <= c * 100;
    if scaled > 0 then scaled else 0
  }

  function Channels(color: Color): Rgb
    requires !color.Unrecognized?
  {
    if color.Hex? then color.hex else color.channels
  }

  function LightenColor(color: Color, percent: int): (out: Output)
    ensures color.Unrecognized? ==> out == Unchanged(color.text)
    ensures !color.Unrecognized? ==> (out.RgbOut? &&
      out.rgb == Rgb(LightenChannel(Channels(color).r, percent), LightenChannel(Channels(color).g, percent),
                     LightenChannel(Channels(color).b, percent)))
  {
    match color
    case Unrecognized(text) => Unchanged(text)
    case _ =>
      var c := Channels(color);
      RgbOut(Rgb(LightenChannel(c.r, percent), LightenChannel(c.g, percent), LightenChannel(c.b, percent)))
  }

  function DarkenColor(color: Color, percent: int): (out: Output)
    ensures color.Unrecognized? ==> out == Unchanged(color.text)
    ensures !color.Unrecognized? ==> (out.RgbOut? &&
      out.rgb == Rgb(DarkenChannel(Channels(color).r, percent), DarkenChannel(Channels(color).g, percent),
                     DarkenChannel(Channels(color).b, percent)))
  {
    match color
    case Unrecognized(text) => Unchanged(text)
    case _ =>
      var c := Channels(color);
      RgbOut(Rgb(DarkenChannel(c.r, percent), DarkenChannel(c.g, percent), DarkenChannel(c.b, percent)))
  }

  predicate ValidRgb(c: Rgb) { InRange(c.r) && InRange(c.g) && InRange(c.b) }

  /** Lightening then darkening a valid colour keeps every channel in [0, 255]; lightening
      never lowers a channel and darkening never raises one. */
  lemma LightenDarkenOrder(color: Color, percent: int)
    requires !color.Unrecognized? && ValidRgb(Channels(color)) && percent >= 0
    ensures var c := Channels(color); var l := LightenColor(color, percent).rgb; var d := DarkenColor(color, percent).rgb;
      ValidRgb(l) && ValidRgb(d) &&
      d.r <= c.r <= l.r && d.g <= c.g <= l.g && d.b <= c.b <= l.b
  {}

  /** With percent 0 both helpers reproduce a valid colour's channels. */
  lemma ZeroPercentIsIdentity(color: Color)
    requires !color.Unrecognized? && ValidRgb(Channels(color))
    ensures LightenColor(color, 0) == RgbOut(Channels(color))
    ensures DarkenColor(color, 0) == RgbOut(Channels(color))
  {}
}
