/** The string helpers of src/utils/utils.ts that do not depend on the clock
    or the locale. */
module Utils {
  import opened Wrappers
  import opened Text
  import opened Decimal

  /** Where `text.slice(0, end)` stops: a negative end counts back from the
      length, and the result is clamped to the string. */
  function SliceEnd(len: nat, end: int): (k: nat)
    ensures k <= len
    ensures 0 <= end <= len ==> k == end
    ensures end < 0 ==> k == if len + end < 0 then 0 else len + end
  {
    if end < 0 then (if len + end < 0 then 0 else len + end)
    else if end > len then len
    else end
  }

  /** `sliceTextContent`: text longer than `numChars` is cut and marked with
      an ellipsis; anything else is returned as it is. */
  function SliceTextContent(text: string, numChars: int): (r: string)
    ensures |text| <= numChars ==> r == text
    ensures 0 <= numChars < |text| ==> r == text[..numChars] + "..." && |r| == numChars + 3
    ensures numChars < 0 ==> r == text[..SliceEnd(|text|, numChars)] + "..." && |r| == SliceEnd(|text|, numChars) + 3
  {
    if |text| > numChars then text[..SliceEnd(|text|, numChars)] + "..." else text
  }

  /** For a non-negative limit the result starts with the first
      min(|text|, numChars) characters of the text. */
  lemma SliceTextContentKeepsPrefix(text: string, numChars: nat)
    ensures var k := if |text| < numChars then |text| else numChars;
            |SliceTextContent(text, numChars)| >= k && SliceTextContent(text, numChars)[..k] == text[..k]
  {
  }

  /** For a non-negative limit, slicing a sliced text changes nothing more. */
  lemma SliceTextContentIdempotent(text: string, numChars: nat)
    ensures SliceTextContent(SliceTextContent(text, numChars), numChars) == SliceTextContent(text, numChars)
  {
    var r := SliceTextContent(text, numChars);
    if |text| > numChars {
      assert r[..numChars] == text[..numChars];
    }
  }

  /** Clipping twice at a limit of -3 or below: the second call cuts
      another -numChars - 3 characters of the text, so -3 is a fixed point
      for every text of at least three characters, and a lower limit
      shrinks the kept text on every call. */
  lemma SliceTextContentNegativeTwice(text: string, numChars: int)
    requires numChars <= -3 && |text| + 2 * numChars + 3 >= 0
    ensures SliceTextContent(SliceTextContent(text, numChars), numChars) == text[..|text| + 2 * numChars + 3] + "..."
    ensures numChars == -3 ==> SliceTextContent(SliceTextContent(text, numChars), numChars) == SliceTextContent(text, numChars)
  {
    var r := SliceTextContent(text, numChars);
    var k := |text| + 2 * numChars + 3;
    assert r[..k] == text[..k];
  }

  /** `isUtcIsoDate`: the date ends with "Z" or carries a "+00:00" offset,
      stated by positions: its last character is 'Z', or "+00:00" occurs
      at some index. */
  predicate IsUtcIsoDate(isoDate: string)
    ensures IsUtcIsoDate(isoDate) <==>
              (|isoDate| > 0 && isoDate[|isoDate| - 1] == 'Z') || exists i :: OccursAt(isoDate, "+00:00", i)
  {
    IncludesIff(isoDate, "+00:00");
    assert |isoDate| > 0 ==> isoDate[|isoDate| - 1..] == [isoDate[|isoDate| - 1]];
    EndsWith(isoDate, "Z") || Includes(isoDate, "+00:00")
  }

  /** The pair of image attributes `srcset` returns. */
  datatype ImageSource = ImageSource(src: string, srcSet: string)

  /** The suffix that turns `src` into the 2x entry of `srcSet`. */
  const DprSuffix: string := "&dpr=2 2x"

  /** `srcset(image, size, rows = 1, cols = 1)`: the width is size * cols, the
      height size * rows; an omitted rows or cols counts as 1. */
  function Srcset(image: string, size: int, rows: Option<int>, cols: Option<int>): (r: ImageSource)
    ensures r.srcSet == r.src + DprSuffix
    ensures StartsWith(r.src, image + "?w=") && EndsWith(r.src, "&fit=crop&auto=format")
  {
    var w := size * Nullish(cols, 1);
    var h := size * Nullish(rows, 1);
    var src := image + "?w=" + IntToString(w) + "&h=" + IntToString(h) + "&fit=crop&auto=format";
    assert (src + DprSuffix) == image + "?w=" + IntToString(w) + "&h=" + IntToString(h) + "&fit=crop&auto=format&dpr=2 2x";
    ImageSource(src, src + DprSuffix)
  }

  /** The parameters of an image query, one per `&`-separated piece. */
  lemma ImageQueryPieces(w: string, h: string)
    requires '&' !in w && '&' !in h
    ensures Split("w=" + w + "&h=" + h + "&fit=crop&auto=format", '&') == ["w=" + w, "h=" + h, "fit=crop", "auto=format"]
  {
    var parts := ["w=" + w, "h=" + h, "fit=crop", "auto=format"];
    assert Join(parts[3..], '&') == "auto=format";
    assert Join(parts[2..], '&') == "fit=crop&auto=format" by {
      assert parts[2..][1..] == parts[3..];
    }
    assert Join(parts[1..], '&') == "h=" + h + "&" + "fit=crop&auto=format" by {
      assert parts[1..][1..] == parts[2..];
    }
    assert Join(parts, '&') == "w=" + w + "&h=" + h + "&fit=crop&auto=format";
    SplitJoin(parts, '&');
  }

  /** The query of `src` holds exactly the four parameters w, h, fit and
      auto, and w and h read back as size * cols and size * rows. */
  lemma SrcsetParameters(image: string, size: int, rows: Option<int>, cols: Option<int>)
    ensures var r := Srcset(image, size, rows, cols);
            var w := IntToString(size * Nullish(cols, 1));
            var h := IntToString(size * Nullish(rows, 1));
            |r.src| > |image| &&
            Split(r.src[|image| + 1..], '&') == ["w=" + w, "h=" + h, "fit=crop", "auto=format"] &&
            ParseInt(w) == Some(size * Nullish(cols, 1)) &&
            ParseInt(h) == Some(size * Nullish(rows, 1))
  {
    var width := size * Nullish(cols, 1);
    var height := size * Nullish(rows, 1);
    var w := IntToString(width);
    var h := IntToString(height);
    var r := Srcset(image, size, rows, cols);
    assert r.src[|image| + 1..] == "w=" + w + "&h=" + h + "&fit=crop&auto=format";
    ImageQueryPieces(w, h);
    ParseIntToString(width);
    ParseIntToString(height);
  }

  /** The label of one day: `${monthName} ${i}`. */
  function DayLabel(monthName: string, day: nat): string {
    monthName + " " + NatToString(day)
  }

  /** The loop of `getDaysInMonth`, given the month's short name and its
      number of days (both come from `Date` and the locale in the source). */
  method DaysInMonth(monthName: string, daysInMonth: nat) returns (days: seq<string>)
    ensures |days| == daysInMonth
    ensures forall k :: 0 <= k < |days| ==> days[k] == DayLabel(monthName, k + 1)
  {
    days := [];
    var i := 1;
    while |days| < daysInMonth
      invariant i == |days| + 1
      invariant |days| <= daysInMonth
      invariant forall k :: 0 <= k < |days| ==> days[k] == DayLabel(monthName, k + 1)
    {
      days := days + [DayLabel(monthName, i)];
      i := i + 1;
    }
  }

  /** Different days of the same month get different labels. */
  lemma DayLabelsDistinct(monthName: string, d1: nat, d2: nat)
    requires d1 != d2
    ensures DayLabel(monthName, d1) != DayLabel(monthName, d2)
  {
    var prefix := monthName + " ";
    if DayLabel(monthName, d1) == DayLabel(monthName, d2) {
      assert DayLabel(monthName, d1)[|prefix|..] == NatToString(d1);
      assert DayLabel(monthName, d2)[|prefix|..] == NatToString(d2);
      NatToStringInjective(d1, d2);
    }
  }
}
