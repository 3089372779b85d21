// A sprite animation: a list of frames, each a sheet rectangle drawn at an
// offset for some time, with the two measures the animator asks of it.

module Animations {

  /** An integer rectangle: its top-left corner and its size. */
  datatype Rect = Rect(x: int, y: int, width: int, height: int)

  /** One frame: where it is on the sheet, how far it is shifted when drawn,
    * and how long it stays (seconds; a float in the program). */
  datatype Frame = Frame(rect: Rect, offsetX: int, offsetY: int, time: real)

  /** The drawn edges of a frame: its sheet rectangle moved back by its offset. */
  function Left(f: Frame): int { f.rect.x - f.offsetX }
  function Top(f: Frame): int { f.rect.y - f.offsetY }
  function Right(f: Frame): int { Left(f) + f.rect.width }
  function Bottom(f: Frame): int { Top(f) + f.rect.height }

  /** The frame's rectangle as drawn. */
  function Shifted(f: Frame): Rect
  {
    Rect(Left(f), Top(f), f.rect.width, f.rect.height)
  }

  function Min(a: int, b: int): int { if a <= b then a else b }
  function Max(a: int, b: int): int { if a >= b then a else b }

  /** The sum of the frame times, added from the first frame on. */
  function TotalTime(fs: seq<Frame>): real
  {
    if |fs| == 0 then 0.0 else TotalTime(fs[..|fs| - 1]) + fs[|fs| - 1].time
  }

  /** The extreme drawn edges over a non-empty list of frames. */
  function MinLeft(fs: seq<Frame>): int
    requires |fs| > 0
  {
    if |fs| == 1 then Left(fs[0]) else Min(MinLeft(fs[..|fs| - 1]), Left(fs[|fs| - 1]))
  }

  function MinTop(fs: seq<Frame>): int
    requires |fs| > 0
  {
    if |fs| == 1 then Top(fs[0]) else Min(MinTop(fs[..|fs| - 1]), Top(fs[|fs| - 1]))
  }

  function MaxRight(fs: seq<Frame>): int
    requires |fs| > 0
  {
    if |fs| == 1 then Right(fs[0]) else Max(MaxRight(fs[..|fs| - 1]), Right(fs[|fs| - 1]))
  }

  function MaxBottom(fs: seq<Frame>): int
    requires |fs| > 0
  {
    if |fs| == 1 then Bottom(fs[0]) else Max(MaxBottom(fs[..|fs| - 1]), Bottom(fs[|fs| - 1]))
  }

  /** The rectangle every drawn frame fits in; all zero for no frames. */
  function BoundsOf(fs: seq<Frame>): Rect
  {
    if |fs| == 0 then Rect(0, 0, 0, 0)
    else Rect(MinLeft(fs), MinTop(fs), MaxRight(fs) - MinLeft(fs), MaxBottom(fs) - MinTop(fs))
  }

  /** A rectangle holds a drawn frame when no edge of the frame lies outside it. */
  predicate Contains(r: Rect, f: Frame)
  {
    r.x <= Left(f) && r.y <= Top(f) && Right(f) <= r.x + r.width && Bottom(f) <= r.y + r.height
  }

  /** Every drawn frame lies inside the bounds. */
  lemma {:induction false} BoundsContainFrames(fs: seq<Frame>, k: int)
    requires 0 <= k < |fs|
    ensures Contains(BoundsOf(fs), fs[k])
  {
    if |fs| > 1 && k < |fs| - 1 {
      var init := fs[..|fs| - 1];
      BoundsContainFrames(init, k);
      assert init[k] == fs[k];
    }
  }

  /** Each edge of the bounds is the edge of some drawn frame, so no smaller
    * rectangle holds them all. */
  lemma {:induction false} BoundsAttained(fs: seq<Frame>)
    requires |fs| > 0
    ensures exists k :: 0 <= k < |fs| && Left(fs[k]) == BoundsOf(fs).x
    ensures exists k :: 0 <= k < |fs| && Top(fs[k]) == BoundsOf(fs).y
    ensures exists k :: 0 <= k < |fs| && Right(fs[k]) == BoundsOf(fs).x + BoundsOf(fs).width
    ensures exists k :: 0 <= k < |fs| && Bottom(fs[k]) == BoundsOf(fs).y + BoundsOf(fs).height
  {
    var n := |fs| - 1;
    if n == 0 {
      assert Left(fs[0]) == BoundsOf(fs).x && Top(fs[0]) == BoundsOf(fs).y;
      assert Right(fs[0]) == BoundsOf(fs).x + BoundsOf(fs).width;
      assert Bottom(fs[0]) == BoundsOf(fs).y + BoundsOf(fs).height;
    } else {
      var init := fs[..n];
      BoundsAttained(init);
      var a :| 0 <= a < n && Left(init[a]) == BoundsOf(init).x;
      var b :| 0 <= b < n && Top(init[b]) == BoundsOf(init).y;
      var c :| 0 <= c < n && Right(init[c]) == BoundsOf(init).x + BoundsOf(init).width;
      var d :| 0 <= d < n && Bottom(init[d]) == BoundsOf(init).y + BoundsOf(init).height;
      assert init[a] == fs[a] && init[b] == fs[b] && init[c] == fs[c] && init[d] == fs[d];
      var l := if MinLeft(init) <= Left(fs[n]) then a else n;
      var t := if MinTop(init) <= Top(fs[n]) then b else n;
      var r := if MaxRight(init) >= Right(fs[n]) then c else n;
      var u := if MaxBottom(init) >= Bottom(fs[n]) then d else n;
      assert Left(fs[l]) == BoundsOf(fs).x && Top(fs[t]) == BoundsOf(fs).y;
      assert Right(fs[r]) == BoundsOf(fs).x + BoundsOf(fs).width;
      assert Bottom(fs[u]) == BoundsOf(fs).y + BoundsOf(fs).height;
    }
  }

  /** The bounds are the smallest rectangle holding every drawn frame. */
  lemma BoundsSmallest(fs: seq<Frame>, r: Rect)
    requires |fs| > 0
    requires forall k :: 0 <= k < |fs| ==> Contains(r, fs[k])
    ensures r.x <= BoundsOf(fs).x && r.y <= BoundsOf(fs).y
    ensures BoundsOf(fs).x + BoundsOf(fs).width <= r.x + r.width
    ensures BoundsOf(fs).y + BoundsOf(fs).height <= r.y + r.height
  {
    BoundsAttained(fs);
  }

  /** The total time of two runs of frames played one after the other. */
  lemma {:induction false} TotalTimeConcat(a: seq<Frame>, b: seq<Frame>)
    ensures TotalTime(a + b) == TotalTime(a) + TotalTime(b)
  {
    if |b| > 0 {
      var n := |b| - 1;
      assert (a + b)[..|a + b| - 1] == a + b[..n];
      TotalTimeConcat(a, b[..n]);
    } else {
      assert a + b == a;
    }
  }

  /** With no negative frame time, no frame outlasts the whole animation. */
  lemma {:induction false} TotalTimeBounds(fs: seq<Frame>, k: int)
    requires forall i :: 0 <= i < |fs| ==> fs[i].time >= 0.0
    requires 0 <= k < |fs|
    ensures fs[k].time <= TotalTime(fs)
  {
    var n := |fs| - 1;
    if k < n {
      TotalTimeBounds(fs[..n], k);
      TotalTimeNonNegative(fs[n..]);
      TotalTimeConcat(fs[..n], fs[n..]);
      assert fs[..n] + fs[n..] == fs;
    } else {
      TotalTimeNonNegative(fs[..n]);
    }
  }

  lemma {:induction false} TotalTimeNonNegative(fs: seq<Frame>)
    requires forall i :: 0 <= i < |fs| ==> fs[i].time >= 0.0
    ensures TotalTime(fs) >= 0.0
  {
    if |fs| > 0 {
      TotalTimeNonNegative(fs[..|fs| - 1]);
    }
  }

  /** `Animation`: a frame list that the editor grows and shrinks in place,
    * and whether it loops. */
  class Animation {
    var frames: seq<Frame>
    var loop: bool

    constructor (loop: bool := false)
      ensures frames == [] && this.loop == loop
    {
      frames := [];
      this.loop := loop;
    }

    method PushBack(f: Frame)
      modifies this
      ensures frames == old(frames) + [f] && loop == old(loop)
    {
      frames := frames + [f];
    }

    method PopBack()
      requires |frames| > 0
      modifies this
      ensures frames == old(frames)[..|old(frames)| - 1] && loop == old(loop)
    {
      frames := frames[..|frames| - 1];
    }

    /** `duration`: the frame times added up in order. */
    method Duration() returns (time: real)
      ensures time == TotalTime(frames)
      ensures (forall i :: 0 <= i < |frames| ==> frames[i].time >= 0.0) ==>
                time >= 0.0 && forall i :: 0 <= i < |frames| ==> frames[i].time <= time
    {
      time := 0.0;
      for i := 0 to |frames|
        invariant time == TotalTime(frames[..i])
      {
        assert frames[..i + 1][..i] == frames[..i];
        time := time + frames[i].time;
      }
      assert frames[..|frames|] == frames;
      if forall i :: 0 <= i < |frames| ==> frames[i].time >= 0.0 {
        TotalTimeNonNegative(frames);
        forall i | 0 <= i < |frames|
          ensures frames[i].time <= time
        {
          TotalTimeBounds(frames, i);
        }
      }
    }

    /** `bounds`: starts from the first drawn frame and widens the rectangle
      * by every frame in turn, the first one included. */
    method Bounds() returns (r: Rect)
      ensures r == BoundsOf(frames)
      ensures |frames| == 0 ==> r == Rect(0, 0, 0, 0)
      ensures |frames| == 1 ==> r == Shifted(frames[0])
      ensures forall k :: 0 <= k < |frames| ==> Contains(r, frames[k])
    {
      if |frames| == 0 {
        return Rect(0, 0, 0, 0);
      }
      r := Shifted(frames[0]);
      assert frames[..1] == [frames[0]];
      for i := 0 to |frames|
        invariant r == BoundsOf(frames[..Max(i, 1)])
      {
        var f := frames[i];
        var maxX := Max(r.x + r.width, Left(f) + f.rect.width);
        var maxY := Max(r.y + r.height, Top(f) + f.rect.height);
        var x := Min(r.x, Left(f));
        var y := Min(r.y, Top(f));
        r := Rect(x, y, maxX - x, maxY - y);
        assert frames[..i + 1][..i] == frames[..i];
      }
      assert frames[..|frames|] == frames;
      forall k | 0 <= k < |frames|
        ensures Contains(r, frames[k])
      {
        BoundsContainFrames(frames, k);
      }
    }
  }
}
