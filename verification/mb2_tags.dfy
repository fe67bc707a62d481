/** A Multiboot2 tag list as bytes and as a sequence of tags.

    Tags are 8-aligned records beginning with a 32-bit type and a 32-bit size; the last
    one is the end tag. What follows the end tag does not matter.
*/
module Mb2Tags {

  import opened LittleEndian

  const TAG_END: nat := 0
  const TAG_CMDLINE: nat := 1
  const TAG_MODULE: nat := 3

  datatype Tag = Tag(typ: nat, size: nat, data: seq<Byte>)

  const END_TAG: Tag := Tag(TAG_END, 8, [])

  function Align8(n: nat): nat {
    (n + 7) / 8 * 8
  }

  lemma AlignBounds(n: nat)
    ensures n <= Align8(n) < n + 8 && Align8(n) % 8 == 0
  {
  }

  lemma AlignMonotone(m: nat, n: nat)
    requires m <= n
    ensures Align8(m) <= Align8(n)
  {
  }

  function TypeOf(s: seq<Byte>): nat
    requires |s| >= 8
  {
    U32(s, 0)
  }

  function SizeOf(s: seq<Byte>): nat
    requires |s| >= 8
  {
    U32(s, 4)
  }

  function Stride(s: seq<Byte>): nat
    requires |s| >= 8
  {
    Align8(SizeOf(s))
  }

  ghost predicate WellFormed(s: seq<Byte>)
    decreases |s|
  {
    && |s| >= 8 && SizeOf(s) >= 8 && Stride(s) <= |s|
    && (if TypeOf(s) == TAG_END then SizeOf(s) == 8 else WellFormed(s[Stride(s)..]))
  }

  ghost function TagOf(s: seq<Byte>): Tag
    requires |s| >= 8 && 8 <= SizeOf(s) <= |s|
  {
    Tag(TypeOf(s), SizeOf(s), s[8..SizeOf(s)])
  }

  ghost function Tags(s: seq<Byte>): (r: seq<Tag>)
    requires WellFormed(s)
    ensures |r| > 0
    decreases |s|
  {
    if TypeOf(s) == TAG_END then [END_TAG] else [TagOf(s)] + Tags(s[Stride(s)..])
  }

  // The length of the list up to the end of its end tag.
  ghost function Extent(s: seq<Byte>): (e: nat)
    requires WellFormed(s)
    ensures 8 <= e <= |s|
    decreases |s|
  {
    if TypeOf(s) == TAG_END then 8 else Stride(s) + Extent(s[Stride(s)..])
  }

  // Where tag k begins.
  ghost function Offset(s: seq<Byte>, k: nat): nat
    requires WellFormed(s) && k < |Tags(s)|
    decreases |s|
  {
    if k == 0 then 0 else Stride(s) + Offset(s[Stride(s)..], k - 1)
  }

  ghost function Strides(tags: seq<Tag>): nat {
    if tags == [] then 0 else Align8(tags[0].size) + Strides(tags[1..])
  }

  // The extent is the sum of the aligned sizes.
  lemma {:induction false} ExtentIsStrides(s: seq<Byte>)
    requires WellFormed(s)
    ensures Extent(s) == Strides(Tags(s))
    decreases |s|
  {
    if TypeOf(s) == TAG_END {
      assert Tags(s)[1..] == [];
      assert Strides(Tags(s)[1..]) == 0;
    } else {
      ExtentIsStrides(s[Stride(s)..]);
      assert Tags(s)[1..] == Tags(s[Stride(s)..]);
    }
  }

  // A tag in front of a list makes a list.
  lemma Cons(h: seq<Byte>, t: seq<Byte>)
    requires |h| >= 8 && SizeOf(h) >= 8 && Stride(h) == |h| && TypeOf(h) != TAG_END && WellFormed(t)
    ensures WellFormed(h + t)
    ensures Tags(h + t) == [TagOf(h)] + Tags(t)
    ensures Extent(h + t) == |h| + Extent(t)
    ensures forall k | 0 < k < 1 + |Tags(t)| :: Offset(h + t, k) == |h| + Offset(t, k - 1)
  {
    var s := h + t;
    assert s[..8] == h[..8];
    assert SizeOf(s) == SizeOf(h) && TypeOf(s) == TypeOf(h);
    assert s[Stride(s)..] == t;
    assert s[8..SizeOf(s)] == h[8..SizeOf(h)];
  }

  lemma AtStart(s: seq<Byte>)
    requires WellFormed(s)
    ensures Offset(s, 0) == 0
  {
  }

  // What a list looks like from tag k on.
  lemma {:induction false} AtOffset(s: seq<Byte>, k: nat)
    requires WellFormed(s) && k < |Tags(s)|
    ensures Offset(s, k) + 8 <= Extent(s) && Offset(s, k) % 8 == 0
    ensures WellFormed(s[Offset(s, k)..])
    ensures Tags(s[Offset(s, k)..]) == Tags(s)[k..]
    ensures Extent(s) == Offset(s, k) + Extent(s[Offset(s, k)..])
    decreases k
  {
    hide *;
    if k == 0 {
      AtStart(s);
      assert s[0..] == s;
    } else {
      Behind(s, k);
      var n := Stride(s);
      AtOffset(s[n..], k - 1);
      assert s[Offset(s, k)..] == s[n..][Offset(s[n..], k - 1)..];
      assert Tags(s)[k..] == Tags(s[n..])[k - 1..];
    }
  }

  // The head of a list is its first tag; the list ends exactly at an end tag.
  lemma AtHead(s: seq<Byte>)
    requires WellFormed(s)
    ensures 8 <= SizeOf(s) <= Stride(s) <= Extent(s) && Tags(s)[0] == TagOf(s)
    ensures TypeOf(s) == TAG_END <==> |Tags(s)| == 1
    ensures |Tags(s)| > 1 ==> Offset(s, 1) == Stride(s)
  {
    AlignBounds(SizeOf(s));
    if TypeOf(s) == TAG_END {
      assert s[8..8] == [];
    }
  }

  // Tag k, read at its offset.
  lemma AtTag(s: seq<Byte>, k: nat)
    requires WellFormed(s) && k < |Tags(s)|
    ensures var o := Offset(s, k); var t := Tags(s)[k];
            && 8 <= t.size <= Align8(t.size) && o + Align8(t.size) <= Extent(s)
            && t == Tag(U32(s, o), U32(s, o + 4), s[o + 8..o + t.size])
    ensures Tags(s)[k].typ == TAG_END <==> k == |Tags(s)| - 1
    ensures k + 1 < |Tags(s)| ==> Offset(s, k + 1) == Offset(s, k) + Align8(Tags(s)[k].size)
  {
    hide WellFormed, Tags, Extent, Offset, Align8;
    var o := Offset(s, k);
    AtOffset(s, k);
    AtHead(s[o..]);
    assert Tags(s)[k] == Tags(s)[k..][0] == TagOf(s[o..]);
    AlignBounds(Tags(s)[k].size);
    assert s[o..][8..Tags(s)[k].size] == s[o + 8..o + Tags(s)[k].size];
    if k + 1 < |Tags(s)| {
      OffsetSum(s, k);
    }
  }

  lemma {:induction false} OffsetSum(s: seq<Byte>, k: nat)
    requires WellFormed(s) && k + 1 < |Tags(s)|
    ensures Offset(s, k) <= |s| && |s[Offset(s, k)..]| >= 8
    ensures Offset(s, k + 1) == Offset(s, k) + Stride(s[Offset(s, k)..])
    decreases k
  {
    hide TagOf, U32, Align8;
    if k == 0 {
      assert s[0..] == s;
      AtHead(s);
    } else {
      var rest := s[Stride(s)..];
      OffsetSum(rest, k - 1);
      assert s[Offset(s, k)..] == rest[Offset(rest, k - 1)..];
    }
  }

  // The list behind its first tag.
  lemma Behind(s: seq<Byte>, k: nat)
    requires WellFormed(s) && 0 < k < |Tags(s)|
    ensures Stride(s) <= |s| && WellFormed(s[Stride(s)..]) && k - 1 < |Tags(s[Stride(s)..])|
    ensures Offset(s, k) == Stride(s) + Offset(s[Stride(s)..], k - 1)
    ensures 8 <= SizeOf(s) <= |s| && Tags(s) == [TagOf(s)] + Tags(s[Stride(s)..])
    ensures Extent(s) == Stride(s) + Extent(s[Stride(s)..]) && Stride(s) % 8 == 0
  {
    AlignBounds(SizeOf(s));
  }

  // Replacing everything from tag k on by another list.
  lemma {:induction false} Splice(s: seq<Byte>, k: nat, t: seq<Byte>)
    requires WellFormed(s) && k < |Tags(s)| && Offset(s, k) <= |s| && WellFormed(t)
    ensures var u := s[..Offset(s, k)] + t;
            && WellFormed(u) && Tags(u) == Tags(s)[..k] + Tags(t)
            && Extent(u) == Offset(s, k) + Extent(t)
    decreases k
  {
    hide *;
    var o := Offset(s, k);
    if k == 0 {
      assert o == 0 by { AtStart(s); }
      assert s[..o] + t == t;
      assert Tags(s)[..0] + Tags(t) == Tags(t);
    } else {
      Behind(s, k);
      var n := Stride(s);
      AtOffset(s[n..], k - 1);
      Splice(s[n..], k - 1, t);
      SpliceStep(s, k, n, o, t, s[n..][..o - n] + t);
    }
  }

  lemma SpliceStep(s: seq<Byte>, k: nat, n: nat, o: nat, t: seq<Byte>, u: seq<Byte>)
    requires WellFormed(s) && 0 < k < |Tags(s)| && n == Stride(s) <= o <= |s| && WellFormed(t)
    requires 8 <= SizeOf(s) <= |s| && WellFormed(s[n..]) && Tags(s) == [TagOf(s)] + Tags(s[n..])
    requires u == s[n..][..o - n] + t && WellFormed(u) && Tags(u) == Tags(s[n..])[..k - 1] + Tags(t)
    requires Extent(u) == o - n + Extent(t)
    ensures WellFormed(s[..o] + t) && Tags(s[..o] + t) == Tags(s)[..k] + Tags(t)
    ensures Extent(s[..o] + t) == o + Extent(t)
  {
    hide *;
    SpliceHead(s, k, n, u);
    Chop(s, n, o, t);
    TakeBehind(TagOf(s), Tags(s[n..]), k, Tags(t));
  }

  lemma Chop(s: seq<Byte>, n: nat, o: nat, t: seq<Byte>)
    requires n <= o <= |s|
    ensures s[..o] + t == s[..n] + (s[n..][..o - n] + t)
  {
  }

  lemma TakeBehind(h: Tag, tail: seq<Tag>, k: nat, more: seq<Tag>)
    requires 0 < k <= 1 + |tail|
    ensures [h] + (tail[..k - 1] + more) == ([h] + tail)[..k] + more
  {
  }

  // Keeping the first tag and replacing the rest.
  lemma SpliceHead(s: seq<Byte>, k: nat, n: nat, t: seq<Byte>)
    requires WellFormed(s) && 0 < k < |Tags(s)| && n == Stride(s) && WellFormed(t)
    ensures TypeOf(s) != TAG_END && 8 <= SizeOf(s) <= n <= |s|
    ensures WellFormed(s[..n] + t) && Tags(s[..n] + t) == [TagOf(s)] + Tags(t)
    ensures Extent(s[..n] + t) == n + Extent(t)
  {
    hide U32, Align8;
    AlignBounds(SizeOf(s));
    HeadOf(s, n);
    Cons(s[..n], t);
  }

  lemma HeadOf(s: seq<Byte>, n: nat)
    requires 8 <= n <= |s| && 8 <= SizeOf(s) <= n
    ensures TypeOf(s[..n]) == TypeOf(s) && SizeOf(s[..n]) == SizeOf(s) && TagOf(s[..n]) == TagOf(s)
  {
    assert s[..n][8..SizeOf(s)] == s[8..SizeOf(s)];
  }

  // Only the bytes up to the extent matter.
  lemma {:induction false} SameBytes(s: seq<Byte>, t: seq<Byte>)
    requires WellFormed(s) && Extent(s) <= |t| && t[..Extent(s)] == s[..Extent(s)]
    ensures WellFormed(t) && Tags(t) == Tags(s) && Extent(t) == Extent(s)
    decreases |s|
  {
    var e := Extent(s);
    AtHead(s);
    HeadOf(s, e);
    HeadOf(t, e);
    if TypeOf(s) != TAG_END {
      var n := Stride(s);
      assert t[n..][..e - n] == t[..e][n..];
      assert s[n..][..e - n] == s[..e][n..];
      SameBytes(s[n..], t[n..]);
    }
  }

  // Deleting the bytes of tag k deletes that tag and nothing else.
  lemma RemoveBytes(s: seq<Byte>, k: nat, t: seq<Byte>)
    requires WellFormed(s) && k + 1 < |Tags(s)|
    requires var o := Offset(s, k); var n := Align8(Tags(s)[k].size); var e := Extent(s);
             o + n <= e && |t| >= e - n && t[..e - n] == s[..o] + s[o + n..e]
    ensures WellFormed(t) && Tags(t) == Tags(s)[..k] + Tags(s)[k + 1..]
    ensures Extent(t) == Extent(s) - Align8(Tags(s)[k].size)
  {
    hide WellFormed, Tags, Extent, Offset, U32, Align8;
    AtTag(s, k);
    AtOffset(s, k + 1);
    AtOffset(s, k);
    var o := Offset(s, k);
    var p := Offset(s, k + 1);
    Splice(s, k, s[p..]);
    var u := s[..o] + s[p..];
    assert u[..Extent(u)] == s[..o] + s[p..Extent(s)];
    SameBytes(u, t);
  }

  // Rewriting tag k in place as the bytes h, with the tags after it moved to follow h.
  lemma ReplaceBytes(s: seq<Byte>, k: nat, h: seq<Byte>, t: seq<Byte>)
    requires WellFormed(s) && k + 1 < |Tags(s)|
    requires |h| >= 8 && 8 <= SizeOf(h) <= |h| == Stride(h) && TypeOf(h) != TAG_END
    requires var o := Offset(s, k); var n := Align8(Tags(s)[k].size); var e := Extent(s);
             o + n <= e && |t| >= e - n + |h| && t[..e - n + |h|] == s[..o] + h + s[o + n..e]
    ensures WellFormed(t) && Tags(t) == Tags(s)[k := TagOf(h)]
    ensures Extent(t) == Extent(s) - Align8(Tags(s)[k].size) + |h|
  {
    hide *;
    AtTag(s, k);
    AtOffset(s, k + 1);
    AtOffset(s, k);
    var o := Offset(s, k);
    var p := Offset(s, k + 1);
    Replace(s, k, h, o, p);
    var u := s[..o] + (h + s[p..]);
    assert u[..Extent(u)] == s[..o] + h + s[p..Extent(s)];
    SameBytes(u, t);
  }

  lemma Replace(s: seq<Byte>, k: nat, h: seq<Byte>, o: nat, p: nat)
    requires WellFormed(s) && k + 1 < |Tags(s)| && o == Offset(s, k) <= |s| && p == Offset(s, k + 1) <= |s|
    requires |h| >= 8 && 8 <= SizeOf(h) <= |h| == Stride(h) && TypeOf(h) != TAG_END
    requires WellFormed(s[p..]) && Tags(s[p..]) == Tags(s)[k + 1..]
    ensures WellFormed(s[..o] + (h + s[p..]))
    ensures Tags(s[..o] + (h + s[p..])) == Tags(s)[k := TagOf(h)]
    ensures Extent(s[..o] + (h + s[p..])) == o + |h| + Extent(s[p..])
  {
    hide *;
    Cons(h, s[p..]);
    Splice(s, k, h + s[p..]);
    var tags, tag := Tags(s), TagOf(h);
    assert tags[..k] + ([tag] + tags[k + 1..]) == tags[k := tag];
  }

  // Tag k given extra bytes and the tags after it moved from p to q.
  lemma GrowBytes(s: seq<Byte>, k: nat, extra: nat, t: seq<Byte>, tag: Tag, o: nat, p: nat, q: nat, e: nat)
    requires WellFormed(s) && k + 1 < |Tags(s)| && tag == Tags(s)[k] && o == Offset(s, k) && e == Extent(s)
    requires p == o + Align8(tag.size) && q == o + Align8(tag.size + extra)
    requires 8 <= tag.size && o + tag.size <= p <= e && o + tag.size + extra <= q && p <= q
    requires e + q - p <= |s| == |t|
    requires t[..o] == s[..o] && U32(t, o) == tag.typ && U32(t, o + 4) == tag.size + extra
    requires t[o + 8..q] == s[o + 8..q] && t[q..e + q - p] == s[p..e]
    ensures WellFormed(t) && Extent(t) == e + q - p
    ensures Tags(t) == Tags(s)[k := Tag(tag.typ, tag.size + extra, s[o + 8..o + tag.size + extra])]
  {
    hide WellFormed, Tags, Extent, Offset, Align8;
    AtTag(s, k);
    var h, n := t[o..q], tag.size + extra;
    assert t[..e + q - p] == s[..o] + h + s[p..e] by {
      assert t[..e + q - p] == t[..o] + h + t[q..e + q - p];
    }
    GrownTag(s, t, o, q, tag.typ, n);
    ReplaceBytes(s, k, h, t);
  }

  // The tag at o of t, whose data is that of s.
  lemma GrownTag(s: seq<Byte>, t: seq<Byte>, o: nat, q: nat, typ: nat, n: nat)
    requires 8 <= n && o + n <= q <= |s| && q <= |t| && t[o + 8..q] == s[o + 8..q]
    requires U32(t, o) == typ && U32(t, o + 4) == n
    ensures TagOf(t[o..q]) == Tag(typ, n, s[o + 8..o + n])
  {
    var h := t[o..q];
    assert h[8..n] == t[o + 8..q][..n - 8] && s[o + 8..o + n] == s[o + 8..q][..n - 8];
  }

  // Writing w over the first bytes of tag k's data.
  lemma WriteBytes(s: seq<Byte>, k: nat, w: seq<Byte>, t: seq<Byte>, tag: Tag, o: nat)
    requires WellFormed(s) && k + 1 < |Tags(s)| && tag == Tags(s)[k] && o == Offset(s, k) && |w| <= |tag.data|
    requires o + 8 + |w| <= |s| && t == s[..o + 8] + w + s[o + 8 + |w|..]
    ensures WellFormed(t) && Extent(t) == Extent(s)
    ensures Tags(t) == Tags(s)[k := tag.(data := w + tag.data[|w|..])]
  {
    hide WellFormed, Tags, Extent, Offset, Align8;
    AtTag(s, k);
    var e, p := Extent(s), o + Align8(tag.size);
    Around(s, o, p, e, w, t);
    WrittenTag(s, w, t, tag, o, p);
    ReplaceBytes(s, k, t[o..p], t);
  }

  lemma WrittenTag(s: seq<Byte>, w: seq<Byte>, t: seq<Byte>, tag: Tag, o: nat, p: nat)
    requires 8 <= tag.size && o + tag.size <= p <= |s| == |t| && |w| <= |tag.data|
    requires tag == Tag(U32(s, o), U32(s, o + 4), s[o + 8..o + tag.size])
    requires t == s[..o + 8] + w + s[o + 8 + |w|..] && forall i :: o <= i < o + 8 ==> t[i] == s[i]
    ensures TagOf(t[o..p]) == tag.(data := w + tag.data[|w|..])
  {
    var h := t[o..p];
    Overwrite(s, o + 8, o + tag.size, w, t);
    assert h[8..tag.size] == t[o + 8..o + tag.size];
  }

  lemma Around(s: seq<Byte>, o: nat, p: nat, e: nat, w: seq<Byte>, t: seq<Byte>)
    requires o + 8 + |w| <= p <= e <= |s| && t == s[..o + 8] + w + s[o + 8 + |w|..]
    ensures t[..e] == s[..o] + t[o..p] + s[p..e]
    ensures forall i :: o <= i < o + 8 ==> t[i] == s[i]
  {
    assert t[..o] == s[..o] && t[p..e] == s[p..e];
    assert t[..e] == t[..o] + t[o..p] + t[p..e];
  }

  lemma Overwrite(s: seq<Byte>, a: nat, b: nat, w: seq<Byte>, t: seq<Byte>)
    requires a + |w| <= b <= |s| && t == s[..a] + w + s[a + |w|..]
    ensures t[a..b] == w + s[a..b][|w|..]
  {
    forall i | 0 <= i < b - a ensures t[a + i] == (w + s[a..b][|w|..])[i] {
    }
  }

  // The end tag ends the list.
  lemma EndOffset(s: seq<Byte>)
    requires WellFormed(s)
    ensures Offset(s, |Tags(s)| - 1) + 8 == Extent(s)
    ensures Tags(s)[|Tags(s)| - 1] == END_TAG
  {
    hide *;
    var k := |Tags(s)| - 1;
    AtOffset(s, k);
    EndAlone(s[Offset(s, k)..]);
    assert Tags(s)[k] == Tags(s)[k..][0];
  }

  lemma EndAlone(s: seq<Byte>)
    requires WellFormed(s) && |Tags(s)| == 1
    ensures Extent(s) == 8 && Tags(s) == [END_TAG]
  {
  }

  // Tags lie one after the other.
  lemma {:induction false} OffsetsOrdered(s: seq<Byte>, j: nat, k: nat)
    requires WellFormed(s) && j < k < |Tags(s)|
    ensures Offset(s, j) + Align8(Tags(s)[j].size) <= Offset(s, k)
    decreases k
  {
    hide *;
    AtTag(s, k - 1);
    AlignBounds(Tags(s)[k - 1].size);
    if j < k - 1 {
      OffsetsOrdered(s, j, k - 1);
    }
  }

  lemma StrideOfOne(h: Tag, t: seq<Tag>)
    ensures Strides([h] + t) == Align8(h.size) + Strides(t)
  {
    assert ([h] + t)[1..] == t;
  }

  // Where a tag begins depends only on the sizes of the tags before it.
  lemma {:induction false} OffsetIsStrides(s: seq<Byte>, k: nat)
    requires WellFormed(s) && k < |Tags(s)|
    ensures Offset(s, k) == Strides(Tags(s)[..k])
    decreases k
  {
    hide *;
    if k == 0 {
      AtStart(s);
      assert Strides(Tags(s)[..0]) == 0 by { NoStrides(Tags(s)[..0]); }
    } else {
      Behind(s, k);
      var rest := s[Stride(s)..];
      OffsetIsStrides(rest, k - 1);
      StrideOfOne(TagOf(s), Tags(rest)[..k - 1]);
      assert Tags(s)[..k] == [TagOf(s)] + Tags(rest)[..k - 1];
      assert Stride(s) == Align8(TagOf(s).size) by { HeadSize(s); }
    }
  }

  lemma NoStrides(tags: seq<Tag>)
    ensures tags == [] ==> Strides(tags) == 0
  {
  }

  lemma HeadSize(s: seq<Byte>)
    requires |s| >= 8 && 8 <= SizeOf(s) <= |s|
    ensures Stride(s) == Align8(TagOf(s).size)
  {
  }

  lemma {:induction false} SameStrides(a: seq<Tag>, b: seq<Tag>)
    requires |a| == |b| && forall i :: 0 <= i < |a| ==> a[i].size == b[i].size
    ensures Strides(a) == Strides(b)
  {
    if a != [] {
      SameStrides(a[1..], b[1..]);
    }
  }

  // Tags with the same sizes begin at the same places.
  lemma SameOffset(s: seq<Byte>, t: seq<Byte>, k: nat)
    requires WellFormed(s) && WellFormed(t) && k < |Tags(s)| == |Tags(t)|
    requires forall i :: 0 <= i < k ==> Tags(s)[i].size == Tags(t)[i].size
    ensures Offset(s, k) == Offset(t, k)
  {
    OffsetIsStrides(s, k);
    OffsetIsStrides(t, k);
    SameStrides(Tags(s)[..k], Tags(t)[..k]);
  }

  // ---- writing a tag list ---------------------------------------------------------

  function Zeros(n: nat): (z: seq<Byte>)
    ensures |z| == n
  {
    seq(n, _ => 0)
  }

  // A tag as a boot loader writes it: type, size, data, and zeros up to the next multiple of
  // eight bytes.
  function EncodeTag(t: Tag): seq<Byte> {
    Bytes32(t.typ) + Bytes32(t.size) + t.data + Zeros((8 - |t.data| % 8) % 8)
  }

  // The end tag closes the list.
  function Encode(tags: seq<Tag>): seq<Byte> {
    if tags == [] then Bytes32(TAG_END) + Bytes32(8)
    else EncodeTag(tags[0]) + Encode(tags[1..])
  }

  ghost predicate Writable(tags: seq<Tag>) {
    forall i :: 0 <= i < |tags| ==>
      tags[i].typ != TAG_END && tags[i].typ < 0x1_0000_0000 && tags[i].size == 8 + |tags[i].data| < 0x1_0000_0000
  }

  lemma HeadReads(typ: nat, size: nat, rest: seq<Byte>)
    requires typ < 0x1_0000_0000 && size < 0x1_0000_0000
    ensures var s := Bytes32(typ) + Bytes32(size) + rest; TypeOf(s) == typ && SizeOf(s) == size && s[8..] == rest
  {
    U32RoundTrip(typ);
    U32RoundTrip(size);
    var a, b := Bytes32(typ), Bytes32(size);
    hide Bytes32;
    var s := a + b + rest;
    assert U32(s, 0) == U32(a, 0) && U32(s, 4) == U32(b, 0);
  }

  lemma PadTo8(n: nat)
    ensures 8 + n + (8 - n % 8) % 8 == Align8(8 + n)
  {
    assert n == n / 8 * 8 + n % 8;
  }

  /** Writing tags and reading them gives them back, whatever follows. */
  lemma {:induction false} EncodeDecodes(tags: seq<Tag>, junk: seq<Byte>)
    requires Writable(tags)
    ensures WellFormed(Encode(tags) + junk) && Tags(Encode(tags) + junk) == tags + [END_TAG]
    decreases |tags|
  {
    if tags == [] {
      HeadReads(TAG_END, 8, junk);
      assert Bytes32(TAG_END) + Bytes32(8) + junk == Encode(tags) + junk;
    } else {
      var t, rest := tags[0], Encode(tags[1..]) + junk;
      EncodeDecodes(tags[1..], junk);
      TagDecodes(t, rest);
      hide Encode, Tags, WellFormed, EncodeTag;
      EncodeHead(tags, junk);
      assert [t] + (tags[1..] + [END_TAG]) == tags + [END_TAG];
    }
  }

  lemma EncodeHead(tags: seq<Tag>, junk: seq<Byte>)
    requires tags != []
    ensures Encode(tags) + junk == EncodeTag(tags[0]) + (Encode(tags[1..]) + junk)
  {
    hide Bytes32, Zeros;
    assert Encode(tags) == EncodeTag(tags[0]) + Encode(tags[1..]);
  }

  lemma TagDecodes(t: Tag, rest: seq<Byte>)
    requires Writable([t]) && WellFormed(rest)
    ensures WellFormed(EncodeTag(t) + rest) && Tags(EncodeTag(t) + rest) == [t] + Tags(rest)
  {
    assert [t][0] == t;
    var pad, h := Zeros((8 - |t.data| % 8) % 8), EncodeTag(t);
    HeadReads(t.typ, t.size, t.data + pad);
    PadTo8(|t.data|);
    HeadIs(t, pad, h);
    hide EncodeTag, WellFormed, Tags, TypeOf, SizeOf;
    Cons(h, rest);
  }

  lemma HeadIs(t: Tag, pad: seq<Byte>, h: seq<Byte>)
    requires h == Bytes32(t.typ) + Bytes32(t.size) + t.data + pad && t.size == 8 + |t.data|
    ensures h == Bytes32(t.typ) + Bytes32(t.size) + (t.data + pad)
    ensures |h| == t.size + |pad| && h[8..t.size] == t.data
  {
    hide Bytes32;
  }
}
