/**
 * The index arithmetic of the wheel picker. The wheel is a list of `count * 100`
 * items that repeats the value range, so it scrolls as if it were endless; the
 * value at the centre of the five visible items is the selection.
 */
module WheelPicker {
  import KotlinMath

  /** An inclusive range of values, `first..last`. */
  datatype ValueRange = ValueRange(first: int, last: int)

  /** Every call site passes a non-empty range; an empty one would divide by zero. */
  predicate NonEmpty(range: ValueRange) {
    range.first <= range.last
  }

  function Count(range: ValueRange): int {
    range.last - range.first + 1
  }

  predicate InRange(range: ValueRange, v: int) {
    range.first <= v <= range.last
  }

  const VisibleItemsCount := 5
  const HalfVisibleItems := VisibleItemsCount / 2
  const Repetitions := 100
  /** Half the item height, 56 dp / 2; the picker compares it with a scroll offset measured in pixels. */
  const HalfItemHeight := 28

  function TotalItems(range: ValueRange): (n: int)
    requires NonEmpty(range)
    ensures n > 0
  {
    Count(range) * Repetitions
  }

  /** The value the list shows at a non-negative index. */
  function ValueAt(range: ValueRange, index: int): (v: int)
    requires NonEmpty(range) && index >= 0
    ensures InRange(range, v)
    ensures v - range.first == index % Count(range)
  {
    (index % Count(range)) + range.first
  }

  /** The index the list opens at: the copy of the selected value in the middle of the list. */
  function StartIndex(range: ValueRange, selected: int): (i: int)
    requires NonEmpty(range)
    ensures InRange(range, selected) ==> 0 <= i < TotalItems(range) && ValueAt(range, i) == selected
  {
    var c := Count(range);
    var half := TotalItems(range) / 2;
    assert half == 50 * c;
    KotlinMath.EuclidUnique(half, c, 50, 0);
    var i := half - half % c + selected - range.first;
    assert InRange(range, selected) ==> i % c == selected - range.first by {
      if InRange(range, selected) {
        KotlinMath.EuclidUnique(i, c, 50, selected - range.first);
      }
    }
    i
  }

  /** The list opens with `startIndex - 2` as its first visible item, which puts `startIndex` in the centre. */
  function InitialFirstVisible(range: ValueRange, selected: int): (i: int)
    requires NonEmpty(range)
    ensures i + HalfVisibleItems == StartIndex(range, selected)
  {
    StartIndex(range, selected) - HalfVisibleItems
  }

  /** The index of the centre item, one further when the first item is scrolled past the threshold. */
  function CenterIndex(firstVisible: int, offset: int): (i: int)
    ensures offset > HalfItemHeight ==> i == firstVisible + 3
    ensures offset <= HalfItemHeight ==> i == firstVisible + 2
  {
    if offset > HalfItemHeight then firstVisible + HalfVisibleItems + 1
    else firstVisible + HalfVisibleItems
  }

  /**
   * The value at any index, negative ones included: the truncating remainder is moved
   * into `[0, count)` before the range's first value is added.
   */
  function NormalizedValue(range: ValueRange, index: int): (v: int)
    requires NonEmpty(range)
    ensures InRange(range, v)
    ensures v - range.first == index % Count(range)
  {
    var r := KotlinMath.Rem(index, Count(range));
    assert (if r < 0 then r + Count(range) else r) == index % Count(range) by {
      RemNormalized(index, Count(range));
    }
    (if r < 0 then r + Count(range) else r) + range.first
  }

  /** Lifting a negative truncating remainder by the divisor gives the Euclidean remainder. */
  lemma RemNormalized(a: int, b: int)
    requires b > 0
    ensures var r := KotlinMath.Rem(a, b); (if r < 0 then r + b else r) == a % b
  {
    var r := KotlinMath.Rem(a, b);
    var q := KotlinMath.Div(a, b);
    assert a == q * b + r;
    if r < 0 {
      assert a == (q - 1) * b + (r + b);
      KotlinMath.EuclidUnique(a, b, q - 1, r + b);
    } else {
      KotlinMath.EuclidUnique(a, b, q, r);
    }
  }


  /** The value shown at the centre, what the picker reports as selected. */
  function CenterValue(range: ValueRange, firstVisible: int, offset: int): (v: int)
    requires NonEmpty(range)
    ensures InRange(range, v)
  {
    NormalizedValue(range, CenterIndex(firstVisible, offset))
  }

  /** Where the list snaps after scrolling stops: the nearer of the first two visible items. */
  function SnapTarget(firstVisible: int, offset: int): (i: int)
    ensures offset > HalfItemHeight ==> i == firstVisible + 1
    ensures offset <= HalfItemHeight ==> i == firstVisible
    ensures CenterIndex(firstVisible, offset) == i + HalfVisibleItems
  {
    if offset > HalfItemHeight then firstVisible + 1 else firstVisible
  }

  /** `scrollToCenter`: the first visible index that brings the tapped value to the centre. */
  function ScrollToCenterTarget(range: ValueRange, firstVisible: int, target: int): (i: int)
    requires NonEmpty(range)
    ensures InRange(range, target) ==> CenterValue(range, i, 0) == target
  {
    var currentCenterValue := NormalizedValue(range, firstVisible + HalfVisibleItems);
    var i := firstVisible + (target - currentCenterValue);
    assert InRange(range, target) ==> NormalizedValue(range, i + HalfVisibleItems) == target by {
      if InRange(range, target) {
        ShiftResidue(firstVisible + HalfVisibleItems, target - range.first, Count(range));
      }
    }
    i
  }

  /** Moving an index by `d - (a mod c)` lands on residue `d`. */
  lemma ShiftResidue(a: int, d: int, c: int)
    requires c > 0 && 0 <= d < c
    ensures (a + (d - a % c)) % c == d
  {
    assert a + (d - a % c) == (a / c) * c + d;
    KotlinMath.EuclidUnique(a + (d - a % c), c, a / c, d);
  }

  /** On a non-negative index the centre normalisation and the list's own mapping agree. */
  lemma NormalizedAgreesWithList(range: ValueRange, index: int)
    requires NonEmpty(range) && index >= 0
    ensures NormalizedValue(range, index) == ValueAt(range, index)
  {
  }

  const HourRange := ValueRange(0, 23)
  const MinuteRange := ValueRange(0, 59)
  const SecondRange := ValueRange(0, 59)
}
