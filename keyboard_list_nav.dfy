/**
 * `useKeyboardListNav` of src/hooks/useKeyboardListNav.ts: the highlighted
 * row of a list, moved by the arrow keys with wrap-around, and the
 * selection reported on Enter or Escape.
 */
module KeyboardListNav {

  /** `clampIndex`: an index that ran off either end of a list of `length`
      rows wraps to the other end. */
  function ClampIndex(index: int, length: nat): (r: int)
    ensures length == 0 ==> r == 0
    ensures length > 0 ==> 0 <= r < length
    ensures length > 0 && 0 <= index < length ==> r == index
  {
    if length == 0 then 0
    else if index < 0 then length - 1
    else if index >= length then 0
    else index
  }

  /** From a row in range, ArrowDown moves to the next row modulo the
      length and ArrowUp to the previous one. */
  lemma ArrowsAreModular(h: int, length: nat)
    requires 0 <= h < length
    ensures ClampIndex(h + 1, length) == (h + 1) % length
    ensures ClampIndex(h - 1, length) == (h - 1 + length) % length
  {
    if h + 1 == length {
      assert (h + 1) % length == 0;
    } else {
      assert (h + 1) % length == h + 1;
    }
    if h == 0 {
      assert (h - 1 + length) % length == length - 1;
    } else {
      assert (h - 1 + length) % length == h - 1;
    }
  }

  /** An index past the end becomes the first row, one before the start
      the last row; with no rows it is always 0. */
  lemma WrapAround(index: int, length: nat)
    ensures length > 0 && index >= length ==> ClampIndex(index, length) == 0
    ensures length > 0 && index < 0 ==> ClampIndex(index, length) == length - 1
    ensures length == 0 ==> ClampIndex(index, length) == 0
  {
  }

  /** ArrowUp undoes ArrowDown and the other way round. */
  lemma ArrowsUndoEachOther(h: int, length: nat)
    requires 0 <= h < length
    ensures ClampIndex(ClampIndex(h + 1, length) - 1, length) == h
    ensures ClampIndex(ClampIndex(h - 1, length) + 1, length) == h
  {
  }

  class ListNav {
    /** The `length` argument of the latest render. */
    var length: nat
    var highlightedIndex: int
    /** The arguments `onSelect` was called with, oldest first. */
    var selections: seq<int>

    constructor(length: nat)
      ensures this.length == length && highlightedIndex == 0 && selections == []
    {
      this.length := length;
      highlightedIndex := 0;
      selections := [];
    }

    /** A render with a different list length. */
    method SetLength(length: nat)
      modifies this
      ensures this.length == length
      ensures highlightedIndex == old(highlightedIndex) && selections == old(selections)
    {
      this.length := length;
    }

    /** The `setHighlightedIndex` the hook hands out. */
    method SetHighlightedIndex(index: int)
      modifies this
      ensures highlightedIndex == index
      ensures length == old(length) && selections == old(selections)
    {
      highlightedIndex := index;
    }

    /** `handleKeyDown`; `prevented` tells whether `preventDefault` was
        called. */
    method HandleKeyDown(key: string) returns (prevented: bool)
      modifies this
      ensures length == old(length)
      ensures prevented <==> key in {"ArrowDown", "ArrowUp", "Enter", "Escape"}
      ensures key == "ArrowDown" ==>
        highlightedIndex == ClampIndex(old(highlightedIndex) + 1, length) && selections == old(selections)
      ensures key == "ArrowUp" ==>
        highlightedIndex == ClampIndex(old(highlightedIndex) - 1, length) && selections == old(selections)
      ensures key == "Enter" ==>
        highlightedIndex == old(highlightedIndex) && selections == old(selections) + [old(highlightedIndex)]
      ensures key == "Escape" ==>
        highlightedIndex == old(highlightedIndex) && selections == old(selections) + [-1]
      ensures !prevented ==>
        highlightedIndex == old(highlightedIndex) && selections == old(selections)
      ensures length > 0 && 0 <= old(highlightedIndex) < length ==> 0 <= highlightedIndex < length
    {
      if key == "ArrowDown" {
        highlightedIndex := ClampIndex(highlightedIndex + 1, length);
        prevented := true;
      } else if key == "ArrowUp" {
        highlightedIndex := ClampIndex(highlightedIndex - 1, length);
        prevented := true;
      } else if key == "Enter" {
        selections := selections + [highlightedIndex];
        prevented := true;
      } else if key == "Escape" {
        selections := selections + [-1];
        prevented := true;
      } else {
        prevented := false;
      }
    }
  }
}
