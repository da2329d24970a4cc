/**
 * `LabelItem.formatText` of `TimelineLabel`: the text of one label field,
 * truncated to the field's width (and its maximum length, if it has one)
 * and padded with spaces to exactly the field's width, on the side its
 * alignment asks for.
 */
module TimelineLabelModel {
  import opened Wrappers

  datatype LabelItemAlignment = Left | Center | Right

  /** The layout of one label field. */
  datatype LabelItem = LabelItem(width: int, alignment: Option<LabelItemAlignment>, defaultValue: Option<string>, maxLength: Option<int>)

  function Spaces(n: nat): (s: string)
    ensures |s| == n && forall i | 0 <= i < n :: s[i] == ' '
  {
    if n == 0 then "" else Spaces(n - 1) + " "
  }

  /** `padStart(length)`: spaces before `s` up to `length` characters; a longer `s` is kept as it is. */
  function PadStart(s: string, length: nat): (r: string)
    ensures |r| == if |s| >= length then |s| else length
  {
    if |s| >= length then s else Spaces(length - |s|) + s
  }

  /** `padEnd(length)`: spaces after `s` up to `length` characters. */
  function PadEnd(s: string, length: nat): (r: string)
    ensures |r| == if |s| >= length then |s| else length
  {
    if |s| >= length then s else s + Spaces(length - |s|)
  }

  /** `width.coerceAtMost(maxLength ?: Int.MAX_VALUE)`: an absent maximum length does not limit. */
  function MaxCharacters(item: LabelItem): int
  {
    if item.maxLength.Some? && item.maxLength.value < item.width then item.maxLength.value else item.width
  }

  /**
   * `formatText`. A negative width or maximum length makes `substring` or the
   * padding throw; that is None here.
   */
  function FormatText(item: LabelItem, value: Option<string>): (r: Option<string>)
    ensures r.None? <==> MaxCharacters(item) < 0
    ensures r.Some? ==> |r.value| == item.width
  {
    var original := if value.Some? then value.value else item.defaultValue.GetOr("");
    var maxCharacters := MaxCharacters(item);
    if maxCharacters < 0 then None
    else
      var truncated := if |original| > maxCharacters then original[..maxCharacters] else original;
      var width := item.width;
      match item.alignment
      case None => Some(PadEnd(truncated, width))
      case Some(Left) => Some(PadEnd(truncated, width))
      case Some(Center) => Some(PadEnd(PadStart(truncated, (width - |truncated|) / 2 + |truncated|), width))
      case Some(Right) => Some(PadStart(truncated, width))
  }

  /** The text the field shows before padding: the value, else the default, else nothing, cut to the limit. */
  function Shown(item: LabelItem, value: Option<string>): (s: string)
    requires MaxCharacters(item) >= 0
    ensures |s| <= MaxCharacters(item)
  {
    var original := if value.Some? then value.value else item.defaultValue.GetOr("");
    if |original| > MaxCharacters(item) then original[..MaxCharacters(item)] else original
  }

  /** `s` sits at position `at` of `r`, with spaces everywhere else. */
  predicate Placed(r: string, at: int, s: string)
  {
    && 0 <= at && at + |s| <= |r|
    && r[at..at + |s|] == s
    && (forall i | 0 <= i < at :: r[i] == ' ')
    && (forall i | at + |s| <= i < |r| :: r[i] == ' ')
  }

  lemma {:induction false} SpacesAround(a: nat, s: string, b: nat)
    ensures Placed(Spaces(a) + s + Spaces(b), a, s)
  {
    var r := Spaces(a) + s + Spaces(b);
    assert r[a..a + |s|] == s;
    forall i | 0 <= i < a ensures r[i] == ' ' {
      assert r[i] == Spaces(a)[i];
    }
    forall i | a + |s| <= i < |r| ensures r[i] == ' ' {
      assert r[i] == Spaces(b)[i - a - |s|];
    }
  }

  /** Where the shown text sits in the field, for each alignment. */
  function Offset(item: LabelItem, shown: string): int
  {
    match item.alignment
    case None => 0
    case Some(Left) => 0
    case Some(Center) => (item.width - |shown|) / 2
    case Some(Right) => item.width - |shown|
  }

  /**
   * The field holds the shown text and spaces only: the text comes first for
   * left (or no) alignment, last for right alignment, and after half the
   * spare room (rounded down) when centred.
   */
  lemma {:induction false} FormatTextPlacesText(item: LabelItem, value: Option<string>)
    requires MaxCharacters(item) >= 0
    ensures Placed(FormatText(item, value).value, Offset(item, Shown(item, value)), Shown(item, value))
  {
    var s := Shown(item, value);
    var w := item.width;
    FormatTextShown(item, value);
    match item.alignment {
      case None => LeftPadded(s, w);
      case Some(Left) => LeftPadded(s, w);
      case Some(Center) => CenterPadded(s, w);
      case Some(Right) => RightPadded(s, w);
    }
  }

  /** The padding `formatText` applies, to the shown text. */
  lemma {:induction false} FormatTextShown(item: LabelItem, value: Option<string>)
    requires MaxCharacters(item) >= 0
    ensures var s, w := Shown(item, value), item.width;
            FormatText(item, value) == Some(match item.alignment
                                              case Some(Center) => PadEnd(PadStart(s, (w - |s|) / 2 + |s|), w)
                                              case Some(Right) => PadStart(s, w)
                                              case _ => PadEnd(s, w))
  {
  }

  lemma {:induction false} LeftPadded(s: string, w: nat)
    requires |s| <= w
    ensures Placed(PadEnd(s, w), 0, s)
  {
    assert PadEnd(s, w) == Spaces(0) + s + Spaces(w - |s|);
    SpacesAround(0, s, w - |s|);
  }

  lemma {:induction false} RightPadded(s: string, w: nat)
    requires |s| <= w
    ensures Placed(PadStart(s, w), w - |s|, s)
  {
    assert PadStart(s, w) == Spaces(w - |s|) + s + Spaces(0);
    SpacesAround(w - |s|, s, 0);
  }

  lemma {:induction false} CenterPadded(s: string, w: nat)
    requires |s| <= w
    ensures Placed(PadEnd(PadStart(s, (w - |s|) / 2 + |s|), w), (w - |s|) / 2, s)
  {
    var at := (w - |s|) / 2;
    assert PadStart(s, at + |s|) == Spaces(at) + s;
    assert PadEnd(Spaces(at) + s, w) == Spaces(at) + s + Spaces(w - at - |s|);
    SpacesAround(at, s, w - at - |s|);
  }

  /** The value wins over the default, and a missing default shows nothing. */
  lemma {:induction false} ShownSource(item: LabelItem, value: Option<string>)
    requires MaxCharacters(item) >= 0
    ensures value.Some? ==> Shown(item, value) == value.value[..if |value.value| > MaxCharacters(item) then MaxCharacters(item) else |value.value|]
    ensures value.None? && item.defaultValue.None? ==> Shown(item, value) == ""
  {
  }
}
