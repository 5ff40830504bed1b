/**
 * The layer strip: one pill per layer along the footer, the active one
 * starred; clicking a pill or pressing left/right asks the store to make
 * another layer active.
 */
module LayerStrip {
  import opened Wrappers

  /** `_Segment`: the columns `start..end` the pill of layer `index` occupies. */
  datatype Segment = Segment(index: nat, start: nat, end: nat)

  /** The two spaces after each pill. */
  const Spacer: string := "  "

  /** The text after the last pill. */
  const Footer: string := "   + Layer ▾    Inspector ▸"

  /** The layer rendered as active: the selected one, or none (-1) when nothing is selected. */
  function Active(selectedLayer: int): int {
    if selectedLayer >= 0 then selectedLayer else -1
  }

  /** `_format_pill`: the name in brackets, followed by a star when active and a space otherwise. */
  function Pill(name: string, active: bool): (r: string)
    ensures |r| == |name| + 5
    ensures r[..2] == "[ " && r[2..|name| + 2] == name && r[|name| + 3..] == " ]"
    ensures r[|name| + 2] == (if active then '*' else ' ')
  {
    "[ " + name + (if active then "*" else " ") + " ]"
  }

  /** The text of the first `count` pills, each followed by the spacer. */
  function Pills(names: seq<string>, active: int, count: nat): (r: string)
    requires count <= |names|
    decreases count
  {
    if count == 0 then ""
    else Pills(names, active, count - 1) + Pill(names[count - 1], count - 1 == active) + Spacer
  }

  /** The segments of the first `count` pills: each starts where the text before it ends. */
  function Segments(names: seq<string>, active: int, count: nat): (r: seq<Segment>)
    requires count <= |names|
    ensures |r| == count
    decreases count
  {
    if count == 0 then []
    else
      var start := |Pills(names, active, count - 1)|;
      Segments(names, active, count - 1) + [Segment(count - 1, start, start + |Pill(names[count - 1], count - 1 == active)|)]
  }

  /** `render`'s text: every pill, then the footer. */
  function RenderedText(names: seq<string>, selectedLayer: int): string {
    Pills(names, Active(selectedLayer), |names|) + Footer
  }

  /** The layer of the first segment holding column `x`, if any. */
  function HitSegment(segments: seq<Segment>, x: int): Option<nat> {
    if segments == [] then None
    else if segments[0].start <= x < segments[0].end then Some(segments[0].index)
    else HitSegment(segments[1..], x)
  }

  /** `(current + delta) % n`, where `current` is the selected layer or 0 when none is; Python's modulo. */
  function Stepped(selectedLayer: int, delta: int, n: nat): (r: nat)
    requires n > 0
    ensures r < n
  {
    ((if selectedLayer >= 0 then selectedLayer else 0) + delta) % n
  }

  /** Each segment is the one for its position, and spans exactly its pill. */
  lemma {:induction false} SegmentsShape(names: seq<string>, active: int, count: nat, i: nat)
    requires count <= |names| && i < count
    ensures var s := Segments(names, active, count)[i];
      s.index == i && s.start == |Pills(names, active, i)| && s.end == s.start + |Pill(names[i], i == active)|
    decreases count
  {
    if i < count - 1 {
      SegmentsShape(names, active, count - 1, i);
      assert Segments(names, active, count)[i] == Segments(names, active, count - 1)[i];
    }
  }

  /** The text of fewer pills is a prefix of the text of more. */
  lemma {:induction false} PillsPrefix(names: seq<string>, active: int, i: nat, n: nat)
    requires i <= n <= |names|
    ensures |Pills(names, active, i)| <= |Pills(names, active, n)|
    ensures Pills(names, active, n)[..|Pills(names, active, i)|] == Pills(names, active, i)
    decreases n
  {
    if i < n {
      PillsPrefix(names, active, i, n - 1);
      var p := Pills(names, active, n - 1);
      var q := Pills(names, active, i);
      assert Pills(names, active, n)[..|p|] == p;
      assert p[..|q|] == q;
    }
  }

  /** Within the text of all the pills, the segment of layer `i` spans exactly its pill. */
  lemma SegmentInPills(names: seq<string>, active: int, i: nat)
    requires i < |names|
    ensures var s := Segments(names, active, |names|)[i];
      var all := Pills(names, active, |names|);
      s.start <= s.end <= |all| && all[s.start..s.end] == Pill(names[i], i == active)
  {
    var before := Pills(names, active, i);
    var pill := Pill(names[i], i == active);
    SegmentsShape(names, active, |names|, i);
    PillsPrefix(names, active, i + 1, |names|);
    var upTo := Pills(names, active, i + 1);
    assert upTo == before + pill + Spacer;
    MiddleSlice(before, pill, Spacer);
    PrefixSlice(Pills(names, active, |names|), upTo, |before|, |before| + |pill|);
  }

  /**
   * In the rendered text, the segment of layer `i` spans exactly that
   * layer's pill, and the pill is starred exactly when the layer is the
   * selected one.
   */
  lemma SegmentSpansPill(names: seq<string>, selectedLayer: int, i: nat)
    requires i < |names|
    ensures var s := Segments(names, Active(selectedLayer), |names|)[i];
      var text := RenderedText(names, selectedLayer);
      && s.index == i && s.start + 5 <= s.end <= |text|
      && text[s.start..s.end] == Pill(names[i], i == selectedLayer)
      && text[s.end - 3] == (if i == selectedLayer then '*' else ' ')
  {
    var active := Active(selectedLayer);
    var s := Segments(names, active, |names|)[i];
    var all := Pills(names, active, |names|);
    var pill := Pill(names[i], i == active);
    SegmentsShape(names, active, |names|, i);
    SegmentInPills(names, active, i);
    PrefixSlice(RenderedText(names, selectedLayer), all, s.start, s.end);
    assert (i == active) == (i == selectedLayer);
    assert pill[|pill| - 3] == (if i == active then '*' else ' ');
  }

  /** The middle part of a concatenation, sliced back out. */
  lemma MiddleSlice(a: string, b: string, c: string)
    ensures (a + b + c)[|a|..|a| + |b|] == b
  {
    assert (a + b + c)[|a|..|a| + |b|] == b by {
      forall k | 0 <= k < |b|
        ensures (a + b + c)[|a| + k] == b[k]
      {
      }
    }
  }

  /** A slice within a prefix is the same slice of the whole. */
  lemma PrefixSlice(whole: string, part: string, lo: nat, hi: nat)
    requires |part| <= |whole| && whole[..|part|] == part
    requires lo <= hi <= |part|
    ensures whole[lo..hi] == part[lo..hi]
  {
    forall k | 0 <= k < hi - lo
      ensures whole[lo..hi][k] == part[lo..hi][k]
    {
      assert whole[lo + k] == whole[..|part|][lo + k];
    }
  }

  /** The segments are in column order: each ends two columns before the next starts, and the first starts at 0. */
  lemma SegmentsApart(names: seq<string>, active: int, i: nat)
    requires i + 1 < |names|
    ensures var segs := Segments(names, active, |names|);
      segs[0].start == 0 && segs[i].end + |Spacer| == segs[i + 1].start
  {
    SegmentsShape(names, active, |names|, 0);
    SegmentsShape(names, active, |names|, i);
    SegmentsShape(names, active, |names|, i + 1);
  }

  /** A segment ends before every later segment starts. */
  lemma {:induction false} SegmentBefore(names: seq<string>, active: int, j: nat, i: nat)
    requires j < i < |names|
    ensures var segs := Segments(names, active, |names|);
      segs[j].end < segs[i].start
  {
    SegmentsShape(names, active, |names|, j);
    SegmentsShape(names, active, |names|, i);
    PillsPrefix(names, active, j + 1, i);
  }

  /** The first segment holding `x` is found when no earlier one holds it. */
  lemma {:induction false} HitFirst(segments: seq<Segment>, x: int, i: nat)
    requires i < |segments| && segments[i].start <= x < segments[i].end
    requires forall j :: 0 <= j < i ==> !(segments[j].start <= x < segments[j].end)
    ensures HitSegment(segments, x) == Some(segments[i].index)
    decreases i
  {
    if i > 0 {
      HitFirst(segments[1..], x, i - 1);
    }
  }

  /** Clicking inside the pill of layer `i` selects layer `i`. */
  lemma ClickSelectsPill(names: seq<string>, active: int, i: nat, x: int)
    requires i < |names|
    requires var s := Segments(names, active, |names|)[i]; s.start <= x < s.end
    ensures HitSegment(Segments(names, active, |names|), x) == Some(i)
  {
    var segs := Segments(names, active, |names|);
    forall j | 0 <= j < i
      ensures !(segs[j].start <= x < segs[j].end)
    {
      SegmentBefore(names, active, j, i);
    }
    SegmentsShape(names, active, |names|, i);
    HitFirst(segs, x, i);
  }

  /** A click outside every pill selects nothing. */
  lemma {:induction false} MissNoHit(segments: seq<Segment>, x: int)
    requires forall j :: 0 <= j < |segments| ==> !(segments[j].start <= x < segments[j].end)
    ensures HitSegment(segments, x) == None
    decreases |segments|
  {
    if segments != [] {
      assert forall j :: 0 <= j < |segments| - 1 ==> segments[1..][j] == segments[j + 1];
      MissNoHit(segments[1..], x);
    }
  }

  /** An index already in range is left alone by wrapping, so `_activate` does not move the index the keys computed. */
  lemma ModOfInRange(x: int, n: nat)
    requires 0 <= x < n
    ensures x % n == x
  {
  }

  /** From a selected layer, the right key and then the left key come back to it. */
  lemma NextThenPrev(selectedLayer: int, n: nat)
    requires 0 <= selectedLayer < n
    ensures Stepped(Stepped(selectedLayer, 1, n), -1, n) == selectedLayer
  {
    ModOfInRange(selectedLayer, n);
    if selectedLayer < n - 1 {
      ModOfInRange(selectedLayer + 1, n);
    } else {
      ModOfWrapped(n, n);
    }
  }

  /** An index up to one turn past the range wraps back by one turn. */
  lemma ModOfWrapped(x: int, n: nat)
    requires n <= x < 2 * n
    ensures x % n == x - n
  {
  }

  /** With nothing selected, the keys step from the first layer: right goes to the second, left wraps to the last. */
  lemma SteppingFromNothing(selectedLayer: int, n: nat)
    requires selectedLayer < 0 && n > 0
    ensures Stepped(selectedLayer, 1, n) == (if n == 1 then 0 else 1)
    ensures Stepped(selectedLayer, -1, n) == n - 1
  {
  }

  /**
   * The strip's state: the segments of the last render, the layer indices
   * it asked the store to make active, and how many `StoreUpdated`
   * messages it posted.
   */
  class LayerStrip {
    var segments: seq<Segment>
    var activations: seq<nat>
    var updates: nat

    constructor ()
      ensures segments == [] && activations == [] && updates == 0
    {
      segments := [];
      activations := [];
      updates := 0;
    }

    /** `render`: the pills of the store's layers, then the footer; the segments are recorded as it goes. */
    method Render(layerNames: seq<string>, selectedLayer: int) returns (text: string)
      modifies this
      ensures text == RenderedText(layerNames, selectedLayer)
      ensures segments == Segments(layerNames, Active(selectedLayer), |layerNames|)
      ensures activations == old(activations) && updates == old(updates)
    {
      var active := Active(selectedLayer);
      text := "";
      segments := [];
      var cursor := 0;
      var idx := 0;
      while idx < |layerNames|
        invariant 0 <= idx <= |layerNames|
        invariant text == Pills(layerNames, active, idx)
        invariant segments == Segments(layerNames, active, idx)
        invariant cursor == |text|
        invariant activations == old(activations) && updates == old(updates)
      {
        var pill := Pill(layerNames[idx], idx == active);
        text := text + pill;
        segments := segments + [Segment(idx, cursor, cursor + |pill|)];
        cursor := cursor + |pill|;
        text := text + Spacer;
        cursor := cursor + |Spacer|;
        idx := idx + 1;
      }
      text := text + Footer;
    }

    /** `_activate`: nothing without layers; else the index, wrapped into range, is made active and an update posted. */
    method Activate(index: int, layerCount: nat)
      modifies this
      ensures segments == old(segments)
      ensures layerCount == 0 ==> activations == old(activations) && updates == old(updates)
      ensures layerCount > 0 ==> activations == old(activations) + [index % layerCount] && updates == old(updates) + 1
    {
      if layerCount == 0 {
        return;
      }
      activations := activations + [index % layerCount];
      updates := updates + 1;
    }

    /** `action_prev_layer` (left): the layer before the selected one, wrapping to the last. */
    method PrevLayer(selectedLayer: int, layerCount: nat)
      modifies this
      ensures segments == old(segments)
      ensures layerCount == 0 ==> activations == old(activations) && updates == old(updates)
      ensures layerCount > 0 ==> activations == old(activations) + [Stepped(selectedLayer, -1, layerCount)] && updates == old(updates) + 1
    {
      if layerCount == 0 {
        return;
      }
      var current := if selectedLayer >= 0 then selectedLayer else 0;
      var target := (current - 1) % layerCount;
      ModOfInRange(target, layerCount);
      Activate(target, layerCount);
    }

    /** `action_next_layer` (right): the layer after the selected one, wrapping to the first. */
    method NextLayer(selectedLayer: int, layerCount: nat)
      modifies this
      ensures segments == old(segments)
      ensures layerCount == 0 ==> activations == old(activations) && updates == old(updates)
      ensures layerCount > 0 ==> activations == old(activations) + [Stepped(selectedLayer, 1, layerCount)] && updates == old(updates) + 1
    {
      if layerCount == 0 {
        return;
      }
      var current := if selectedLayer >= 0 then selectedLayer else 0;
      var target := (current + 1) % layerCount;
      ModOfInRange(target, layerCount);
      Activate(target, layerCount);
    }

    /**
     * `on_mouse_up`: a left click (button 1) at column `x` of the content
     * activates the layer of the first segment holding it; other buttons,
     * clicks outside the content (`x` absent) and clicks between pills do
     * nothing.
     */
    method OnMouseUp(button: int, x: Option<int>, layerCount: nat)
      modifies this
      ensures segments == old(segments)
      ensures var hit := if button == 1 && x.Some? then HitSegment(segments, x.value) else None;
        && (hit.Some? && layerCount > 0 ==> activations == old(activations) + [hit.value % layerCount] && updates == old(updates) + 1)
        && (hit.None? || layerCount == 0 ==> activations == old(activations) && updates == old(updates))
    {
      if button != 1 || segments == [] {
        return;
      }
      if x.None? {
        return;
      }
      var i := 0;
      while i < |segments|
        invariant 0 <= i <= |segments|
        invariant HitSegment(segments, x.value) == HitSegment(segments[i..], x.value)
        invariant activations == old(activations) && updates == old(updates) && segments == old(segments)
      {
        var segment := segments[i];
        if segment.start <= x.value < segment.end {
          Activate(segment.index, layerCount);
          return;
        }
        assert segments[i..][1..] == segments[i + 1..];
        i := i + 1;
      }
    }
  }
}
