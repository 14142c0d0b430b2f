/**
  The planes of a frame: carving them out of one mapped buffer by the plane offsets, and copying
  them back to back into one owned buffer.
*/
module FramePlanes {
  import opened Arithmetic
  import opened Wrappers
  import opened Frames

  // ---------- Carving ----------

  /** A plane as a stretch of the mapped buffer. */
  datatype Carved = Carved(stride: nat, offset: nat, size: nat)

  /** The smallest offset above `offset`, or the end of the buffer. */
  ghost predicate IsNext(next: nat, offsets: seq<nat>, mapped: nat, offset: nat) {
    && offset < next <= mapped
    && (next == mapped || next in offsets)
    && forall o :: o in offsets && offset < o ==> next <= o
  }

  ghost predicate CarveOk(planes: seq<Carved>, offsets: seq<nat>, strides: seq<nat>, mapped: nat)
    requires |strides| == |offsets|
  {
    && |planes| == |offsets|
    && forall i :: 0 <= i < |planes| ==>
         && planes[i].stride == strides[i] && planes[i].offset == offsets[i]
         && IsNext(planes[i].offset + planes[i].size, offsets, mapped, offsets[i])
  }

  /**
    Each plane reaches from its offset to the next larger one. Carving fails exactly when there
    is no plane or an offset is outside the buffer; the later size checks never fire.
  */
  method CarvePlanes(offsets: seq<nat>, strides: seq<nat>, mapped: nat) returns (planes: Option<seq<Carved>>)
    requires |strides| == |offsets|
    ensures planes.Some? <==> offsets != [] && forall i :: 0 <= i < |offsets| ==> offsets[i] < mapped
    ensures planes.Some? ==> CarveOk(planes.value, offsets, strides, mapped)
  {
    var count := |offsets|;
    if count == 0 {
      return None;
    }
    if mapped == 0 {
      assert offsets[0] >= mapped;
      return None;
    }
    var carved: seq<Carved> := [];
    for i := 0 to count
      invariant |carved| == i
      invariant forall k :: 0 <= k < i ==> offsets[k] < mapped
      invariant forall k :: 0 <= k < i ==>
                  && carved[k].stride == strides[k] && carved[k].offset == offsets[k]
                  && IsNext(carved[k].offset + carved[k].size, offsets, mapped, offsets[k])
    {
      var offset := offsets[i];
      if offset >= mapped {
        return None;
      }
      var end := mapped;
      for j := 0 to count
        invariant offset < end <= mapped
        invariant end == mapped || end in offsets
        invariant forall k :: 0 <= k < j && offset < offsets[k] ==> end <= offsets[k]
      {
        if offsets[j] > offset && offsets[j] < end {
          end := offsets[j];
        }
      }
      if end <= offset {
        assert false;
      }
      var size := end - offset;
      if size == 0 || offset + size > mapped {
        assert false;
      }
      carved := carved + [Carved(strides[i], offset, size)];
    }
    return Some(carved);
  }

  ghost predicate Covers(p: Carved, b: nat) {
    p.offset <= b < p.offset + p.size
  }

  /** No plane is empty, and two planes are disjoint unless they start at the same offset; then they are equal stretches. */
  lemma PlanesAreDisjoint(planes: seq<Carved>, offsets: seq<nat>, strides: seq<nat>, mapped: nat, i: nat, j: nat)
    requires |strides| == |offsets| && CarveOk(planes, offsets, strides, mapped)
    requires i < |planes| && j < |planes|
    ensures planes[i].size > 0
    ensures offsets[i] != offsets[j] ==> forall b: nat :: !(Covers(planes[i], b) && Covers(planes[j], b))
    ensures offsets[i] == offsets[j] ==> planes[i].size == planes[j].size
  {
    var p, q := planes[i], planes[j];
    assert IsNext(p.offset + p.size, offsets, mapped, p.offset);
    assert IsNext(q.offset + q.size, offsets, mapped, q.offset);
    assert p.offset in offsets && q.offset in offsets;
  }

  /** The largest of the offsets that do not exceed `b`. */
  lemma {:induction false} GreatestOffsetBelow(offsets: seq<nat>, b: nat) returns (i: nat)
    requires exists k :: 0 <= k < |offsets| && offsets[k] <= b
    ensures i < |offsets| && offsets[i] <= b
    ensures forall k :: 0 <= k < |offsets| && offsets[k] <= b ==> offsets[k] <= offsets[i]
  {
    var m := |offsets| - 1;
    if exists k :: 0 <= k < m && offsets[k] <= b {
      var k :| 0 <= k < m && offsets[k] <= b;
      assert offsets[..m][k] <= b;
      i := GreatestOffsetBelow(offsets[..m], b);
      assert forall k :: 0 <= k < m && offsets[k] <= b ==> offsets[..m][k] <= offsets[i];
      if offsets[m] <= b && offsets[i] < offsets[m] {
        i := m;
      }
    } else {
      i := m;
    }
  }

  lemma CoveredIsInside(planes: seq<Carved>, offsets: seq<nat>, strides: seq<nat>, mapped: nat, i: nat, b: nat)
    requires |strides| == |offsets| && CarveOk(planes, offsets, strides, mapped)
    requires i < |planes| && Covers(planes[i], b)
    ensures offsets[i] <= b < mapped
  {
    assert IsNext(planes[i].offset + planes[i].size, offsets, mapped, offsets[i]);
  }

  lemma InsideIsCovered(planes: seq<Carved>, offsets: seq<nat>, strides: seq<nat>, mapped: nat, b: nat) returns (i: nat)
    requires |strides| == |offsets| && CarveOk(planes, offsets, strides, mapped)
    requires b < mapped && exists k :: 0 <= k < |offsets| && offsets[k] <= b
    ensures i < |planes| && Covers(planes[i], b)
  {
    i := GreatestOffsetBelow(offsets, b);
    assert IsNext(planes[i].offset + planes[i].size, offsets, mapped, offsets[i]);
  }

  /** Together the planes cover exactly the bytes from the smallest offset to the end of the buffer. */
  lemma PlanesCover(planes: seq<Carved>, offsets: seq<nat>, strides: seq<nat>, mapped: nat, b: nat)
    requires |strides| == |offsets| && CarveOk(planes, offsets, strides, mapped)
    ensures (exists i :: 0 <= i < |planes| && Covers(planes[i], b))
       <==> b < mapped && exists i :: 0 <= i < |offsets| && offsets[i] <= b
  {
    if exists i :: 0 <= i < |planes| && Covers(planes[i], b) {
      var i :| 0 <= i < |planes| && Covers(planes[i], b);
      CoveredIsInside(planes, offsets, strides, mapped, i, b);
    }
    if b < mapped && exists i :: 0 <= i < |offsets| && offsets[i] <= b {
      var i := InsideIsCovered(planes, offsets, strides, mapped, b);
    }
  }

  // ---------- Materializing ----------

  /** A plane's data pointer, when there is one, reaches its whole size. */
  ghost predicate Readable(p: Plane) {
    p.data.Some? ==> |p.data.value| >= p.size
  }

  ghost predicate AllReadable(planes: seq<Plane>) {
    forall i :: 0 <= i < |planes| ==> Readable(planes[i])
  }

  function TotalSize(planes: seq<Plane>): nat {
    if planes == [] then 0 else TotalSize(planes[..|planes| - 1]) + planes[|planes| - 1].size
  }

  /** The bytes a plane stands for: its own, or zeros without data. */
  function Content(p: Plane): seq<Byte>
    requires Readable(p)
  {
    if p.data.Some? then p.data.value[..p.size] else seq(p.size, _ => 0)
  }

  function Contents(planes: seq<Plane>): seq<Byte>
    requires AllReadable(planes)
  {
    if planes == [] then []
    else Contents(planes[..|planes| - 1]) + Content(planes[|planes| - 1])
  }

  lemma {:induction false} ContentsSize(planes: seq<Plane>)
    requires AllReadable(planes)
    ensures |Contents(planes)| == TotalSize(planes)
  {
    if planes == [] {
    } else {
      ContentsSize(planes[..|planes| - 1]);
    }
  }

  lemma {:induction false} SizeUpTo(planes: seq<Plane>, i: nat)
    requires i < |planes|
    ensures TotalSize(planes[..i + 1]) == TotalSize(planes[..i]) + planes[i].size
    ensures TotalSize(planes[..i + 1]) <= TotalSize(planes)
    decreases |planes| - i
  {
    assert planes[..i + 1][..i] == planes[..i];
    if i + 1 < |planes| {
      SizeUpTo(planes, i + 1);
    } else {
      assert planes[..i + 1] == planes;
    }
  }

  lemma ContentsUpTo(planes: seq<Plane>, i: nat)
    requires AllReadable(planes) && i < |planes|
    ensures AllReadable(planes[..i]) && AllReadable(planes[..i + 1])
    ensures Contents(planes[..i + 1]) == Contents(planes[..i]) + Content(planes[i])
  {
    assert planes[..i + 1][..i] == planes[..i];
  }

  lemma OneMoreLaidOut(carved: seq<Carved>, planes: seq<Plane>, next: Carved)
    requires |carved| < |planes| && LaidOut(carved, planes)
    requires next == Carved(planes[|carved|].stride, TotalSize(planes[..|carved|]), planes[|carved|].size)
    ensures LaidOut(carved + [next], planes)
  {
  }

  method SumSizes(planes: seq<Plane>) returns (total: nat)
    ensures total == TotalSize(planes)
  {
    total := 0;
    for i := 0 to |planes|
      invariant total == TotalSize(planes[..i])
    {
      SizeUpTo(planes, i);
      total := total + planes[i].size;
    }
    assert planes[..|planes|] == planes;
  }

  /** Where each of the first planes lies in the copy. */
  ghost predicate LaidOut(carved: seq<Carved>, planes: seq<Plane>) {
    && |carved| <= |planes|
    && forall k :: 0 <= k < |carved| ==> carved[k] == Carved(planes[k].stride, TotalSize(planes[..k]), planes[k].size)
  }

  /** The copying loop, into a buffer of zeros. */
  method CopyPlanes(buf: array<Byte>, planes: seq<Plane>) returns (carved: seq<Carved>)
    requires AllReadable(planes) && buf.Length == TotalSize(planes)
    requires forall k :: 0 <= k < buf.Length ==> buf[k] == 0
    modifies buf
    ensures buf[..] == Contents(planes)
    ensures |carved| == |planes| && LaidOut(carved, planes)
  {
    carved := [];
    var offset := 0;
    for i := 0 to |planes|
      invariant offset == TotalSize(planes[..i]) <= buf.Length
      invariant |carved| == i && LaidOut(carved, planes)
      invariant AllReadable(planes[..i]) && buf[..offset] == Contents(planes[..i])
      invariant forall k :: offset <= k < buf.Length ==> buf[k] == 0
    {
      var plane := planes[i];
      SizeUpTo(planes, i);
      ContentsUpTo(planes, i);
      CopyPlane(buf, offset, plane);
      OneMoreLaidOut(carved, planes, Carved(plane.stride, offset, plane.size));
      carved := carved + [Carved(plane.stride, offset, plane.size)];
      offset := offset + plane.size;
    }
    assert planes[..|planes|] == planes;
    assert buf[..] == buf[..offset];
  }

  /** One plane into its place, which is still all zeros; a plane without data leaves it so. */
  method CopyPlane(buf: array<Byte>, offset: nat, plane: Plane)
    requires Readable(plane) && offset + plane.size <= buf.Length
    requires forall k :: offset <= k < buf.Length ==> buf[k] == 0
    modifies buf
    ensures buf[..offset + plane.size] == old(buf[..offset]) + Content(plane)
    ensures forall k :: offset + plane.size <= k < buf.Length ==> buf[k] == 0
  {
    if plane.size > 0 && plane.data.Some? {
      CopyBytes(buf, offset, plane.data.value, plane.size);
    }
  }

  /** `memcpy` of the first `count` bytes. */
  method CopyBytes(buf: array<Byte>, offset: nat, data: seq<Byte>, count: nat)
    requires offset + count <= buf.Length && count <= |data|
    modifies buf
    ensures forall i :: 0 <= i < buf.Length ==>
              buf[i] == if offset <= i < offset + count then data[i - offset] else old(buf[i])
  {
    for k := 0 to count
      invariant forall i :: 0 <= i < buf.Length ==>
                  buf[i] == if offset <= i < offset + k then data[i - offset] else old(buf[i])
    {
      buf[offset + k] := data[k];
    }
  }

  lemma {:induction false} PrefixOfContents(planes: seq<Plane>, i: nat)
    requires AllReadable(planes) && i <= |planes|
    ensures AllReadable(planes[..i]) && Contents(planes[..i]) <= Contents(planes)
  {
    if i == |planes| {
      assert planes[..i] == planes;
    } else {
      var m := |planes| - 1;
      PrefixOfContents(planes[..m], i);
      assert planes[..m][..i] == planes[..i];
    }
  }

  lemma SliceAfter(a: seq<Byte>, b: seq<Byte>, whole: seq<Byte>)
    requires a + b <= whole
    ensures |a| + |b| <= |whole| && whole[|a|..|a| + |b|] == b
  {
    assert whole[..|a| + |b|] == a + b;
    assert whole[..|a| + |b|][|a|..] == whole[|a|..|a| + |b|];
  }

  lemma PlaceOfPlane(planes: seq<Plane>, i: nat)
    requires AllReadable(planes) && i < |planes|
    ensures AllReadable(planes[..i])
    ensures Contents(planes[..i]) + Content(planes[i]) <= Contents(planes)
  {
    ContentsUpTo(planes, i);
    PrefixOfContents(planes, i + 1);
  }

  /** The bytes at a plane's place in the copy are the plane's own. */
  lemma PlaneBytesAreKept(planes: seq<Plane>, i: nat)
    requires AllReadable(planes) && i < |planes|
    ensures TotalSize(planes[..i]) + planes[i].size <= |Contents(planes)|
    ensures Contents(planes)[TotalSize(planes[..i])..TotalSize(planes[..i]) + planes[i].size] == Content(planes[i])
  {
    PlaceOfPlane(planes, i);
    ContentsSize(planes[..i]);
    SliceAfter(Contents(planes[..i]), Content(planes[i]), Contents(planes));
  }

  /** The planes as pointers into one buffer. */
  function Pointed(carved: seq<Carved>, buffer: seq<Byte>): seq<Plane>
    requires forall k :: 0 <= k < |carved| ==> carved[k].offset <= |buffer|
  {
    seq(|carved|, k requires 0 <= k < |carved| =>
      Plane(carved[k].stride, Some(buffer[carved[k].offset..]), carved[k].size))
  }

  /** `copy` shows the bytes of `plane`, or zeros where that has none, from memory of its own. */
  ghost predicate Shows(copy: Plane, plane: Plane) {
    && Readable(copy) && Readable(plane)
    && copy.data.Some? && copy.stride == plane.stride && copy.size == plane.size
    && forall b: nat | b < plane.size ::
         copy.data.value[b] == if plane.data.Some? then plane.data.value[b] else 0
  }

  lemma CopyShowsPlane(planes: seq<Plane>, k: nat, from: nat)
    requires AllReadable(planes) && k < |planes| && from == TotalSize(planes[..k])
    ensures from <= |Contents(planes)|
    ensures Shows(Plane(planes[k].stride, Some(Contents(planes)[from..]), planes[k].size), planes[k])
  {
    PlaneBytesAreKept(planes, k);
    SliceOfTail(Contents(planes), from, planes[k].size);
    SameContentShows(Plane(planes[k].stride, Some(Contents(planes)[from..]), planes[k].size), planes[k]);
  }

  lemma SameContentShows(copy: Plane, plane: Plane)
    requires Readable(copy) && Readable(plane) && copy.data.Some? && copy.stride == plane.stride && copy.size == plane.size
    requires Content(copy) == Content(plane)
    ensures Shows(copy, plane)
  {
    forall b: nat | b < plane.size
      ensures copy.data.value[b] == if plane.data.Some? then plane.data.value[b] else 0
    {
      assert Content(copy)[b] == Content(plane)[b];
    }
  }

  lemma SliceOfTail(a: seq<Byte>, from: nat, size: nat)
    requires from + size <= |a|
    ensures a[from..][..size] == a[from..from + size]
  {
  }

  lemma CopiesShowPlanes(planes: seq<Plane>, carved: seq<Carved>)
    requires AllReadable(planes) && LaidOut(carved, planes) && |carved| == |planes|
    ensures forall k :: 0 <= k < |carved| ==> carved[k].offset <= |Contents(planes)|
    ensures forall k :: 0 <= k < |planes| ==> Shows(Pointed(carved, Contents(planes))[k], planes[k])
  {
    forall k | 0 <= k < |planes|
      ensures carved[k].offset <= |Contents(planes)|
      ensures Shows(Plane(carved[k].stride, Some(Contents(planes)[carved[k].offset..]), carved[k].size), planes[k])
    {
      CopyShowsPlane(planes, k, carved[k].offset);
    }
  }

  /**
    Copies every plane into one buffer, back to back: `owner` is the planes' contents in order,
    every plane points into it and shows what it showed, and the metadata are the source's.
  */
  method MaterializeFrame(src: Frame) returns (out: Frame, owner: seq<Byte>)
    requires AllReadable(src.planes)
    ensures owner == Contents(src.planes)
    ensures out == src.(planes := out.planes) && |out.planes| == |src.planes|
    ensures forall k :: 0 <= k < |src.planes| ==> Shows(out.planes[k], src.planes[k])
    ensures forall k :: 0 <= k < |src.planes| ==>
              var from := TotalSize(src.planes[..k]);
              from <= |owner| && out.planes[k].data == Some(owner[from..])
  {
    var total := SumSizes(src.planes);
    var buf := new Byte[total](_ => 0);
    var carved := CopyPlanes(buf, src.planes);
    owner := buf[..];
    CopiesShowPlanes(src.planes, carved);
    out := src.(planes := Pointed(carved, owner));
  }

  /** A carved plane as a source of bytes: a stretch of the mapped buffer. */
  function Stretch(mappedData: seq<Byte>, p: Carved): Plane
    requires p.offset + p.size <= |mappedData|
  {
    Plane(p.stride, Some(mappedData[p.offset..p.offset + p.size]), p.size)
  }

  function Stretches(mappedData: seq<Byte>, planes: seq<Carved>): seq<Plane>
    requires forall i :: 0 <= i < |planes| ==> planes[i].offset + planes[i].size <= |mappedData|
  {
    seq(|planes|, i requires 0 <= i < |planes| => Stretch(mappedData, planes[i]))
  }

  /** With increasing offsets the smallest offset above one is the one behind it. */
  lemma NextIsBehind(offsets: seq<nat>, mapped: nat, i: nat, next: nat)
    requires forall j, k :: 0 <= j < k < |offsets| ==> offsets[j] < offsets[k]
    requires i < |offsets| && IsNext(next, offsets, mapped, offsets[i])
    requires i + 1 < |offsets| ==> offsets[i + 1] < mapped
    ensures next == if i + 1 < |offsets| then offsets[i + 1] else mapped
  {
    if i + 1 < |offsets| {
      assert offsets[i + 1] in offsets && offsets[i] < offsets[i + 1];
    }
    if next in offsets {
      var k :| 0 <= k < |offsets| && offsets[k] == next;
      LargerIsLater(offsets, i, k);
    }
  }

  /** With increasing offsets each carved plane ends where the next one starts. */
  lemma IncreasingOffsetsAreConsecutive(planes: seq<Carved>, offsets: seq<nat>, strides: seq<nat>, mapped: nat, i: nat)
    requires |strides| == |offsets| && CarveOk(planes, offsets, strides, mapped) && i < |planes|
    requires forall j, k :: 0 <= j < k < |offsets| ==> offsets[j] < offsets[k]
    ensures planes[i].offset + planes[i].size == if i + 1 < |planes| then planes[i + 1].offset else mapped
  {
    assert i + 1 < |planes| ==> planes[i + 1].offset == offsets[i + 1];
    NextIsBehind(offsets, mapped, i, planes[i].offset + planes[i].size);
  }

  lemma LargerIsLater(offsets: seq<nat>, i: nat, k: nat)
    requires forall j, k :: 0 <= j < k < |offsets| ==> offsets[j] < offsets[k]
    requires i < |offsets| && k < |offsets| && offsets[i] < offsets[k]
    ensures i < k
  {
  }

  /** The first `n` planes lie back to back in the mapped buffer, so their contents are one stretch of it. */
  ghost predicate BackToBack(data: seq<Byte>, planes: seq<Carved>) {
    && (forall i :: 0 <= i < |planes| ==> planes[i].offset + planes[i].size <= |data|)
    && (forall i, j :: 0 <= i && j == i + 1 < |planes| ==> planes[i].offset + planes[i].size == planes[j].offset)
  }

  lemma StretchesAreReadable(data: seq<Byte>, planes: seq<Carved>)
    requires BackToBack(data, planes)
    ensures AllReadable(Stretches(data, planes))
  {
  }

  lemma JoinStretches(data: seq<Byte>, from: nat, mid: nat, to: nat)
    requires from <= mid <= to <= |data|
    ensures data[from..mid] + data[mid..to] == data[from..to]
  {
  }

  /** The last plane is one more stretch behind the others. */
  lemma LastStretch(data: seq<Byte>, planes: seq<Carved>)
    requires planes != [] && BackToBack(data, planes)
    ensures var last := planes[|planes| - 1];
            && AllReadable(Stretches(data, planes)) && AllReadable(Stretches(data, planes[..|planes| - 1]))
            && Contents(Stretches(data, planes))
               == Contents(Stretches(data, planes[..|planes| - 1])) + data[last.offset..last.offset + last.size]
  {
    var m := |planes| - 1;
    StretchesAreReadable(data, planes);
    StretchesAreReadable(data, planes[..m]);
    assert Stretches(data, planes)[..m] == Stretches(data, planes[..m]);
    assert Stretches(data, planes)[m] == Stretch(data, planes[m]);
  }

  lemma WithoutLastIsBackToBack(data: seq<Byte>, planes: seq<Carved>)
    requires |planes| > 1 && BackToBack(data, planes)
    ensures var m := |planes| - 1;
            && BackToBack(data, planes[..m]) && planes[..m][0] == planes[0]
            && planes[..m][m - 1].offset + planes[..m][m - 1].size == planes[m].offset
  {
  }

  lemma {:induction false} BackToBackContents(data: seq<Byte>, planes: seq<Carved>)
    requires planes != [] && BackToBack(data, planes)
    ensures AllReadable(Stretches(data, planes))
    ensures planes[0].offset <= planes[|planes| - 1].offset
    ensures Contents(Stretches(data, planes))
         == data[planes[0].offset..planes[|planes| - 1].offset + planes[|planes| - 1].size]
  {
    var m := |planes| - 1;
    var init, last := planes[..m], planes[m];
    LastStretch(data, planes);
    if m > 0 {
      WithoutLastIsBackToBack(data, planes);
      BackToBackContents(data, init);
      JoinStretches(data, planes[0].offset, last.offset, last.offset + last.size);
    } else {
      assert Stretches(data, init) == [];
    }
  }

  lemma CarvedIsInside(planes: seq<Carved>, offsets: seq<nat>, strides: seq<nat>, mapped: nat)
    requires |strides| == |offsets| && CarveOk(planes, offsets, strides, mapped)
    ensures forall i :: 0 <= i < |planes| ==> planes[i].offset + planes[i].size <= mapped
  {
    forall i | 0 <= i < |planes|
      ensures planes[i].offset + planes[i].size <= mapped
    {
      assert IsNext(planes[i].offset + planes[i].size, offsets, mapped, offsets[i]);
    }
  }

  /**
    Carving and then materializing, for offsets in any order, equal ones included: each plane's
    place in the owned buffer holds the mapped bytes from its offset up to the next larger one.
  */
  lemma CarvedBytesAreKept(data: seq<Byte>, planes: seq<Carved>, offsets: seq<nat>, strides: seq<nat>, i: nat)
    requires |strides| == |offsets| && CarveOk(planes, offsets, strides, |data|) && i < |planes|
    ensures forall k :: 0 <= k < |planes| ==> planes[k].offset + planes[k].size <= |data|
    ensures AllReadable(Stretches(data, planes))
    ensures var from, next := TotalSize(Stretches(data, planes)[..i]), planes[i].offset + planes[i].size;
            && IsNext(next, offsets, |data|, offsets[i])
            && from + planes[i].size <= |Contents(Stretches(data, planes))|
            && Contents(Stretches(data, planes))[from..from + planes[i].size] == data[offsets[i]..next]
  {
    CarvedIsInside(planes, offsets, strides, |data|);
    PlaneBytesAreKept(Stretches(data, planes), i);
    assert Content(Stretch(data, planes[i])) == data[offsets[i]..planes[i].offset + planes[i].size];
  }

  /**
    Carving and then materializing: with increasing offsets the owned buffer is the mapped buffer
    from the first offset on, byte for byte.
  */
  lemma CarveThenMaterialize(data: seq<Byte>, planes: seq<Carved>, offsets: seq<nat>, strides: seq<nat>)
    requires |strides| == |offsets| > 0 && CarveOk(planes, offsets, strides, |data|)
    requires forall i, j :: 0 <= i < j < |offsets| ==> offsets[i] < offsets[j]
    ensures BackToBack(data, planes) && AllReadable(Stretches(data, planes))
    ensures offsets[0] <= |data| && Contents(Stretches(data, planes)) == data[offsets[0]..]
  {
    forall i | 0 <= i < |planes|
      ensures planes[i].offset + planes[i].size == if i + 1 < |planes| then planes[i + 1].offset else |data|
    {
      IncreasingOffsetsAreConsecutive(planes, offsets, strides, |data|, i);
    }
    CarvedIsInside(planes, offsets, strides, |data|);
    BackToBackContents(data, planes);
  }
}
