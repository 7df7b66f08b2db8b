/**
 * The colour-group palette: `_colorGroups` (slot g holds the colour of group g),
 * `getColorGroupColor`, and the 64-entry colour array handed to the shader.
 * Group 0 is reserved for the selection colour.
 */
module ColorPalette {
  import opened Wrappers
  import opened SplatStateCodec

  /** A `Color` with red, green, blue and alpha components. */
  datatype Color = Color(red: real, green: real, blue: real, alpha: real)

  /** Magenta at 50% opacity: the initial selection colour and the padding of unset palette slots. */
  const Magenta: Color := Color(1.0, 0.0, 1.0, 0.5)

  /** Grey at 30% opacity: the initial lock colour. */
  const LockGrey: Color := Color(0.5, 0.5, 0.5, 0.3)

  /**
   * `getColorGroupColor(g)`: nothing outside [0, 63], the selection colour for
   * group 0, otherwise slot g of the palette, which is missing past its end.
   */
  function GroupColor(groups: seq<Color>, selectedColor: Color, g: int): (c: Option<Color>)
    ensures c.None? <==> g < 0 || g >= MaxColorGroups || (g != 0 && g >= |groups|)
    ensures g == 0 ==> c == Some(selectedColor)
    ensures 0 < g < MaxColorGroups && g < |groups| ==> c == Some(groups[g])
  {
    if g < 0 || g >= MaxColorGroups then None
    else if g == 0 then Some(selectedColor)
    else if g < |groups| then Some(groups[g])
    else None
  }

  /** The palette after `setColorGroupColor(g, c)` with a valid g: padded with magenta up to slot g, then slot g set. */
  function WithGroupColor(groups: seq<Color>, g: nat, c: Color): seq<Color>
  {
    var padded := if |groups| <= g then groups + seq(g + 1 - |groups|, _ => Magenta) else groups;
    padded[g := c]
  }

  /**
   * After setting group g (1 <= g <= 63) to c: group g reads back as c, every
   * slot that already existed keeps its colour, the new slots below g are
   * magenta, and the palette grows only as far as g.
   */
  lemma {:induction false} SetThenGetGroupColor(groups: seq<Color>, selectedColor: Color, g: nat, c: Color, h: int)
    requires 1 <= g < MaxColorGroups
    ensures GroupColor(WithGroupColor(groups, g, c), selectedColor, g) == Some(c)
    ensures |WithGroupColor(groups, g, c)| == if |groups| <= g then g + 1 else |groups|
    ensures h != g ==> h < |groups| ==>
              GroupColor(WithGroupColor(groups, g, c), selectedColor, h) == GroupColor(groups, selectedColor, h)
    ensures 0 < h && |groups| <= h < g ==> GroupColor(WithGroupColor(groups, g, c), selectedColor, h) == Some(Magenta)
    ensures GroupColor(WithGroupColor(groups, g, c), selectedColor, 0) == Some(selectedColor)
  {
    var r := WithGroupColor(groups, g, c);
    if 0 <= h < |groups| && h != g {
      assert r[h] == groups[h];
    }
    if |groups| <= h < g {
      assert r[h] == Magenta;
    }
  }

  /**
   * The `u_colorGroupColors` uniform: 64 colours, slot 0 the selection colour,
   * slot i the palette's colour where one is set and the selection colour
   * where the palette has none. It agrees with `getColorGroupColor` on every
   * group that has a colour.
   */
  method ColorGroupColors(groups: seq<Color>, selectedColor: Color) returns (colors: seq<Color>)
    ensures |colors| == MaxColorGroups
    ensures colors[0] == selectedColor
    ensures forall i :: 0 < i < MaxColorGroups ==> colors[i] == (if i < |groups| then groups[i] else selectedColor)
    ensures forall i :: 0 <= i < MaxColorGroups ==>
              colors[i] == (match GroupColor(groups, selectedColor, i) case Some(c) => c case None => selectedColor)
  {
    var a := new Color[MaxColorGroups](_ => selectedColor);
    a[0] := selectedColor;
    var i := 1;
    while i < MaxColorGroups
      invariant 1 <= i <= MaxColorGroups
      invariant a[0] == selectedColor
      invariant forall j :: 0 < j < i ==> a[j] == (if j < |groups| then groups[j] else selectedColor)
    {
      if i < |groups| {
        a[i] := groups[i];
      } else {
        a[i] := selectedColor;
      }
      i := i + 1;
    }
    colors := a[..];
  }
}
