/**
  The slide strip of the carousel: the container's children moved into one strip element,
  padded with a copy of the last slide in front and a copy of the first slide behind.
 */
module Slides {

  /** A slide in the strip: one of the container's own children (moved, keeping its identity),
      or a deep copy made by `cloneNode`, which has an identity of its own. */
  datatype Slide<T> = Original(item: T) | Duplicate(item: T)

  /** A deep copy of a slide: same content, new identity. */
  function Clone<T>(x: Slide<T>): (c: Slide<T>)
  {
    Duplicate(x.item)
  }

  /** The strip after the container's children have been moved into it, in order. */
  function Originals<T>(s: seq<T>): (r: seq<Slide<T>>)
    ensures |r| == |s|
    ensures forall i :: 0 <= i < |s| ==> r[i] == Original(s[i])
  {
    if s == [] then [] else [Original(s[0])] + Originals(s[1..])
  }

  /** The extended sequence `[copy of slide N, slide 1, ..., slide N, copy of slide 1]`. */
  function Padded<T>(s: seq<T>): (r: seq<Slide<T>>)
    requires |s| >= 1
    ensures |r| == |s| + 2
    ensures r[0] == Duplicate(s[|s| - 1]) && r[|s| + 1] == Duplicate(s[0])
    ensures forall i :: 1 <= i <= |s| ==> r[i] == Original(s[i - 1])
  {
    [Clone(Original(s[|s| - 1]))] + Originals(s) + [Clone(Original(s[0]))]
  }

  /** The real slide (1..n) that strip position `index` shows: position 0 stands in for slide n,
      position n + 1 for slide 1. */
  function Logical(n: nat, index: int): (r: int)
    requires n >= 1
    ensures 1 <= r <= n
    ensures 1 <= index <= n ==> r == index
    ensures index == 0 ==> r == n
    ensures index == n + 1 ==> r == 1
  {
    (index - 1) % n + 1
  }

  /** Every position of the padded strip shows the content of its logical slide, and exactly
      the positions 1..n hold original slides. */
  lemma PaddedShowsLogical<T>(s: seq<T>, index: int)
    requires |s| >= 1 && 0 <= index <= |s| + 1
    ensures Padded(s)[index].item == s[Logical(|s|, index) - 1]
    ensures Padded(s)[index].Original? <==> 1 <= index <= |s|
  {
  }

  /** The strip element: its children, and the two style properties the widget writes,
      `transform: translateX(offset%)` and whether `transition` animates the change. */
  class Strip<T> {
    var children: seq<Slide<T>>
    var offset: int
    var animated: bool

    constructor ()
      ensures children == [] && offset == 0 && !animated
    {
      children := [];
      offset := 0;
      animated := false;
    }

    /** `appendChild`: the new child goes last. */
    method AppendChild(x: Slide<T>)
      modifies this`children
      ensures children == old(children) + [x]
    {
      children := children + [x];
    }

    /** `insertBefore(x, first)` where `first` is the current first child: the new child goes first. */
    method InsertBeforeFirst(x: Slide<T>)
      requires |children| >= 1
      modifies this`children
      ensures children == [x] + old(children)
    {
      children := [x] + children;
    }
  }
}
