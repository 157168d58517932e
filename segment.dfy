/**
 * What every segment builder produces: the text of a prompt fragment and
 * the terminal style it is drawn in.
 */
module SegmentModel {
  import opened Wrappers
  import opened Text
  import opened StyleModel

  datatype Segment = Segment(content: string, style: AnsiStyle)

  /**
   * An optional part of a template: nothing when the icon is empty,
   * otherwise one space followed by the icon.
   */
  function Spaced(icon: string): (r: string)
    ensures r == [] <==> icon == []
    ensures r != [] ==> r[0] == ' ' && r[1..] == icon
  {
    if icon == [] then [] else " " + icon
  }

  /**
   * A counter part of a template: nothing unless the count is positive,
   * otherwise one space, the icon and the count in decimal.
   */
  function Counted(icon: string, n: int): (r: string)
    ensures r == [] <==> n <= 0
    ensures n > 0 ==> IsPrefix(" " + icon, r) && ParseInt(r[|icon| + 1..]) == Some(n)
  {
    if n > 0 then
      var r := " " + icon + IntToString(n);
      assert r[|icon| + 1..] == IntToString(n);
      IntToStringRoundTrip(n);
      r
    else []
  }
}
