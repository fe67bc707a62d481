/** The loader's in-place edits of a Multiboot2 information structure.

    Addresses are indices into the buffer; 0 stands for the null pointer. The buffer has
    at least one byte after the structure, because the copying loops take one byte more
    than the tags.
*/
module Mb2Loader {
  import opened LittleEndian
  import opened Mb2Tags
  import opened Mb2Modules

  const MAX_LENGTH: nat := 0x1_0000_0000

  // What next_mb2_tag computes from the bytes.
  function Next(b: seq<Byte>, p: nat): nat
    requires p == 0 || p + 8 <= |b|
  {
    if p == 0 || U32(b, p) == TAG_END then 0 else p + Align8(U32(b, p + 4))
  }

  // The address of tag k of the structure b; past the last tag it is null.
  ghost function Address(b: seq<Byte>, k: nat): nat
    requires |b| >= 8 && WellFormed(b[8..]) && k <= |Tags(b[8..])|
  {
    if k < |Tags(b[8..])| then 8 + Offset(b[8..], k) else 0
  }

  // b is a structure of the length it says it has, with a spare byte.
  ghost predicate Structure(b: seq<Byte>) {
    && 16 < |b| <= MAX_LENGTH && WellFormed(b[8..])
    && 8 + Extent(b[8..]) < |b| && U32(b, 0) == 8 + Extent(b[8..])
  }

  lemma ReadTag(b: seq<Byte>, k: nat)
    requires Structure(b) && k < |Tags(b[8..])|
    ensures var p := Address(b, k); var t := Tags(b[8..])[k];
            && 8 <= p && p + 8 <= p + Align8(t.size) <= 8 + Extent(b[8..]) < |b|
            && 8 <= t.size <= Align8(t.size)
            && t == Tag(U32(b, p), U32(b, p + 4), b[p + 8..p + t.size])
    ensures Tags(b[8..])[k].typ == TAG_END <==> k == |Tags(b[8..])| - 1
    ensures Next(b, Address(b, k)) == Address(b, k + 1)
  {
    hide WellFormed, Tags, Extent, Offset, Align8;
    AtTag(b[8..], k);
    var o, t := Offset(b[8..], k), Tags(b[8..])[k];
    assert b[8..][o + 8..o + t.size] == b[8 + o + 8..8 + o + t.size];
  }

  lemma NullIsPast(b: seq<Byte>, k: nat)
    requires Structure(b) && k <= |Tags(b[8..])|
    ensures Address(b, k) == 0 <==> k == |Tags(b[8..])|
    ensures Address(b, k) == 0 || 8 <= Address(b, k) <= |b| - 8
  {
    if k < |Tags(b[8..])| {
      ReadTag(b, k);
    }
  }

  // The string w, with its NUL, is at p.
  ghost predicate StringHere(b: seq<Byte>, p: nat, w: seq<Byte>) {
    && p + |w| < |b| && b[p + |w|] == 0 && 0 !in w
    && (forall i :: 0 <= i < |w| ==> b[p + i] == w[i])
  }

  lemma CharAt(b: seq<Byte>, p: nat, w: seq<Byte>, n: nat)
    requires StringHere(b, p, w) && n <= |w|
    ensures p + n < |b| && (b[p + n] == 0 <==> n == |w|) && (n < |w| ==> b[p + n] == w[n])
  {
    if n < |w| {
      assert b[p + n] == w[n] && w[n] in w;
    }
  }

  class Loader {
    const buf: array<Byte>

    ghost predicate Valid()
      reads this, buf
    {
      Structure(buf[..])
    }

    ghost function TagList(): seq<Tag>
      requires Valid()
      reads this, buf
    {
      Tags(buf[..][8..])
    }

    // The total length field.
    function Length(): nat
      requires buf.Length >= 4
      reads this, buf
    {
      U32(buf[..], 0)
    }

    ghost function At(k: nat): nat
      requires Valid() && k <= |TagList()|
      reads this, buf
    {
      Address(buf[..], k)
    }

    method NextTag(p: nat) returns (r: nat)
      requires p == 0 || p + 8 <= buf.Length
      ensures r == Next(buf[..], p)
    {
      if p == 0 {
        return 0;
      }
      if U32(buf[..], p) == TAG_END {
        return 0;
      }
      r := p + Align8(U32(buf[..], p + 4));
    }

    // From tag k, the first tag of the type asked for.
    method FindTagType(start: nat, typ: nat, ghost k: nat) returns (r: nat)
      requires Valid() && k <= |TagList()| && start == At(k)
      ensures r == At(Find(TagList(), k, typ))
    {
      hide WellFormed, Tags, Extent, Offset, Align8, Structure;
      r := start;
      ghost var j := k;
      while r != 0
        invariant k <= j <= |TagList()| && r == At(j)
        invariant Find(TagList(), j, typ) == Find(TagList(), k, typ)
        decreases |TagList()| - j
      {
        NullIsPast(buf[..], j);
        ReadTag(buf[..], j);
        if U32(buf[..], r) == typ {
          return;
        }
        r := NextTag(r);
        j := j + 1;
      }
      NullIsPast(buf[..], j);
    }

    method PutLength(n: nat)
      requires buf.Length >= 4 && n < MAX_LENGTH
      modifies buf
      ensures U32(buf[..], 0) == n && forall i :: 4 <= i < buf.Length ==> buf[i] == old(buf[i])
    {
      U32RoundTrip(n);
      var b := Bytes32(n);
      buf[0], buf[1], buf[2], buf[3] := b[0], b[1], b[2], b[3];
    }

    // The copying loop of remove_mb2_tag, from s up to and including e.
    method CopyUp(d0: nat, s0: nat, e: nat)
      requires d0 <= s0 <= e < buf.Length
      modifies buf
      ensures forall i :: 0 <= i < buf.Length ==>
                buf[i] == if d0 <= i <= d0 + (e - s0) then old(buf[i + (s0 - d0)]) else old(buf[i])
    {
      var d, s := d0, s0;
      while s <= e
        invariant s0 <= s <= e + 1 && d == d0 + (s - s0)
        invariant forall i :: 0 <= i < d0 || d <= i < buf.Length ==> buf[i] == old(buf[i])
        invariant forall i :: d0 <= i < d ==> buf[i] == old(buf[i + (s0 - d0)])
      {
        buf[d] := buf[s];
        d, s := d + 1, s + 1;
      }
    }

    // The copying loop of grow_mb2_tag, from s down to and including next.
    method CopyDown(e: nat, next: nat, growth: nat)
      requires next <= e && e + growth < buf.Length
      modifies buf
      ensures forall i :: 0 <= i < buf.Length ==>
                buf[i] == if next + growth <= i <= e + growth then old(buf[i - growth]) else old(buf[i])
    {
      var s: int, d: int := e, e + growth;
      while s >= next
        invariant next - 1 <= s <= e && d == s + growth
        invariant forall i :: 0 <= i <= d || e + growth < i < buf.Length ==> buf[i] == old(buf[i])
        invariant forall i :: d < i <= e + growth ==> buf[i] == old(buf[i - growth])
      {
        buf[d] := buf[s];
        d, s := d - 1, s - 1;
      }
    }

    // Deletes the tag at cur; false only for the end tag.
    method RemoveTag(cur: nat, ghost k: nat) returns (ok: bool)
      requires Valid() && k < |TagList()| && cur == At(k)
      modifies buf
      ensures Valid()
      ensures ok <==> k + 1 < |old(TagList())|
      ensures ok ==> TagList() == old(TagList())[..k] + old(TagList())[k + 1..]
      ensures ok ==> Length() == old(Length()) - Align8(old(TagList())[k].size)
      ensures !ok ==> buf[..] == old(buf[..])
    {
      hide WellFormed, Tags, Extent, Offset, Align8, Structure, Address, U32;
      ghost var b := buf[..];
      RemovePlan(b, k);
      var next := NextTag(cur);
      if next == 0 {
        return false;
      }
      // The end tag is always found.
      var end := FindEnd();
      var e := end + U32(buf[..], end + 4);
      CopyUp(cur, next, e);
      assert Length() == old(Length()) by { SameLength(b, buf[..]); }
      PutLength(Length() - (next - cur));
      CopiedUp(b, buf[..], cur, next, e);
      Removed(b, buf[..], k, cur, next, e);
      ok := true;
    }

    method FindEnd() returns (end: nat)
      requires Valid()
      ensures end == At(|TagList()| - 1)
      ensures end >= 8 && end + 8 == Length() == 8 + Extent(buf[..][8..]) < buf.Length <= MAX_LENGTH
      ensures U32(buf[..], end + 4) == 8
    {
      hide WellFormed, Tags, Extent, Offset, Align8;
      ghost var last := |TagList()| - 1;
      FirstIs();
      end := FindTagType(8, TAG_END, 0);
      EndIsLast(buf[..]);
    }

    lemma FirstIs()
      requires Valid()
      ensures At(0) == 8
    {
    }

    // Makes the tag at which larger by howMuch bytes.
    method GrowTag(which: nat, howMuch: nat, ghost k: nat) returns (ok: bool)
      requires Valid() && k + 1 < |TagList()| && which == At(k)
      requires var n := TagList()[k].size;
               Length() - Align8(n) + Align8(n + howMuch) < buf.Length
      modifies buf
      ensures Valid() && ok
      ensures var t := old(TagList())[k];
              && Length() == old(Length()) - Align8(t.size) + Align8(t.size + howMuch)
              && |TagList()| == |old(TagList())|
              && TagList() == old(TagList())[k := Tag(t.typ, t.size + howMuch, TagList()[k].data)]
              && t.data <= TagList()[k].data && |TagList()[k].data| == |t.data| + howMuch
      ensures At(k) == which
    {
      hide WellFormed, Tags, Extent, Offset, Align8, Structure, Address, U32, ShiftedDown;
      ghost var b := buf[..];
      GrowPlan(b, k, howMuch);
      var next := NextTag(which);
      var end := FindEnd();
      PutSize(which, U32(buf[..], which + 4) + howMuch);
      var newNext := NextTag(which);
      var growth := newNext - next;
      var e := end + U32(buf[..], end + 4);
      MoveDown(e, next, growth);
      CopiedDown(b, buf[..], which, next, e, growth);
      Grown(b, buf[..], k, howMuch, which, next, e, growth);
      StaysAt(b, buf[..], k);
      ok := true;
    }

    // Copies the tail and adjusts the total length.
    method MoveDown(e: nat, next: nat, growth: nat)
      requires 8 <= next <= e && e + growth < buf.Length && Length() + growth < MAX_LENGTH
      modifies buf
      ensures Length() == old(Length()) + growth
      ensures forall q :: 8 <= q <= next + growth - 4 ==> U32(buf[..], q) == old(U32(buf[..], q))
      ensures forall i {:trigger buf[i]} :: 8 <= i < buf.Length ==>
                buf[i] == if next + growth <= i <= e + growth then old(buf[i - growth]) else old(buf[i])
    {
      CopyDown(e, next, growth);
      assert Length() == old(Length());
      PutLength(Length() + growth);
    }

    method PutSize(p: nat, n: nat)
      requires p + 8 <= buf.Length && n < MAX_LENGTH
      modifies buf
      ensures U32(buf[..], p + 4) == n && U32(buf[..], p) == old(U32(buf[..], p))
      ensures p >= 4 ==> Length() == old(Length())
      ensures forall q :: p + 8 <= q <= buf.Length - 4 ==> U32(buf[..], q) == old(U32(buf[..], q))
      ensures forall i :: 0 <= i < buf.Length && !(p + 4 <= i < p + 8) ==> buf[i] == old(buf[i])
    {
      U32RoundTrip(n);
      var b := Bytes32(n);
      buf[p + 4], buf[p + 5], buf[p + 6], buf[p + 7] := b[0], b[1], b[2], b[3];
    }

    method GetModuleCount() returns (count: nat)
      requires Valid()
      ensures count == |Modules(TagList())|
    {
      hide WellFormed, Tags, Extent, Offset, Align8, Structure;
      ghost var tags := TagList();
      count := 0;
      FirstIs();
      var start := FindTagType(8, TAG_MODULE, 0);
      ghost var j := Find(tags, 0, TAG_MODULE);
      ScanPast(tags, 0);
      while start != 0
        invariant j <= |tags| && start == At(j) && count == |Modules(tags[..j])|
        invariant j < |tags| ==> tags[j].typ == TAG_MODULE
        decreases |tags| - j
      {
        count := count + 1;
        NullIsPast(buf[..], j);
        ReadTag(buf[..], j);
        TakeNext(tags, j);
        ScanPast(tags, j + 1);
        start := NextTag(start);
        start := FindTagType(start, TAG_MODULE, j + 1);
        j := Find(tags, j + 1, TAG_MODULE);
      }
      NullIsPast(buf[..], j);
      assert tags[..j] == tags;
    }

    // The address of the fields of module i.
    method GetModule(i: nat) returns (m: nat, ghost k: nat)
      requires Valid() && i < |Modules(TagList())|
      ensures m == At(Nth(TagList(), i)) + 8
      ensures IsModule(TagList(), k, i) && m == At(k) + 8
    {
      hide WellFormed, Tags, Extent, Offset, Align8, Structure;
      ghost var tags := TagList();
      FirstIs();
      var start := FindTagType(8, TAG_MODULE, 0);
      k := Find(tags, 0, TAG_MODULE);
      ScanPast(tags, 0);
      assert tags[..0] == [];
      NotPast(tags, k, i);
      var ii := 1;
      while ii <= i
        invariant 1 <= ii <= i + 1 && IsModule(tags, k, ii - 1) && start == At(k)
      {
        ReadTag(buf[..], k);
        TakeNext(tags, k);
        ScanPast(tags, k + 1);
        start := NextTag(start);
        start := FindTagType(start, TAG_MODULE, k + 1);
        k := Find(tags, k + 1, TAG_MODULE);
        NotPast(tags, k, i);
        ii := ii + 1;
      }
      m := start + 8;
      NthIs(tags, k, i);
    }

    // Module chosen by the search at the head of remove_module.
    method ChooseModule(start: nat) returns (m: nat, ghost k: nat)
      requires Valid() && Modules(TagList()) != [] && AllSound(TagList())
      ensures ModulesReadable(Modules(TagList()))
      ensures m == At(Nth(TagList(), Chosen(Modules(TagList()), start, 0))) + 8
      ensures IsModule(TagList(), k, Chosen(Modules(TagList()), start, 0)) && m == At(k) + 8
    {
      hide WellFormed, Tags, Extent, Offset, Align8, Structure, Nth;
      ghost var tags := TagList();
      ghost var mods := Modules(tags);
      ModulesAreReadable(tags);
      var count := GetModuleCount();
      m, k := 0, 0;
      var i := 0;
      while i < count
        invariant i <= count == |mods|
        invariant i > 0 ==> IsModule(tags, k, i - 1) && m == At(k) + 8
        invariant i > 0 ==> start != 0 && StartOf(mods[i - 1]) != start
        invariant i > 0 ==> Chosen(mods, start, i - 1) == Chosen(mods, start, 0)
      {
        m, k := GetModule(i);
        ModuleField(buf[..], k, i);
        if start == 0 || U32(buf[..], m) == start {
          break;
        }
        i := i + 1;
      }
      NthIs(tags, k, Chosen(mods, start, 0));
    }

    method StringLength(a: array<Byte>, p: nat, ghost w: seq<Byte>) returns (n: nat)
      requires StringHere(a[..], p, w)
      ensures n == |w|
    {
      n := 0;
      CharAt(a[..], p, w, n);
      while a[p + n] != 0
        invariant n <= |w| && p + n < a.Length && (a[p + n] == 0 <==> n == |w|)
        decreases |w| - n
      {
        n := n + 1;
        CharAt(a[..], p, w, n);
      }
    }

    // Copies the string w from s0 of src to d0 of dst.
    method CopyString(src: array<Byte>, s0: nat, dst: array<Byte>, d0: nat, ghost w: seq<Byte>)
      requires StringHere(src[..], s0, w) && d0 + |w| < dst.Length
      requires src == dst ==> d0 + |w| < s0 || s0 + |w| < d0
      modifies dst
      ensures dst[..] == old(dst[..d0]) + (w + [0]) + old(dst[d0 + |w| + 1..])
    {
      var s, d := s0, d0;
      ghost var was := src[..];
      CharAt(was, s0, w, 0);
      while src[s] != 0
        invariant s0 <= s <= s0 + |w| && d == d0 + (s - s0)
        invariant was[s] == 0 <==> s == s0 + |w|
        invariant forall i :: s0 <= i <= s0 + |w| ==> src[i] == was[i]
        invariant forall i :: 0 <= i < dst.Length && !(d0 <= i < d) ==> dst[i] == old(dst[i])
        invariant forall i :: d0 <= i < d ==> dst[i] == w[i - d0]
        decreases s0 + |w| - s
      {
        CharAt(was, s0, w, s - s0);
        dst[d] := src[s];
        d, s := d + 1, s + 1;
        CharAt(was, s0, w, s - s0);
      }
      dst[d] := src[s];
    }

    // The command line part of remove_module: the first module's string goes over the
    // command line when it is not longer and into cmdbuf when it fits there.
    method TakeLine(m: nat, cmdbuf: array<Byte>, ghost k: nat) returns (found: bool)
      requires Valid() && AllSound(TagList()) && IsModule(TagList(), k, 0) && m == At(k) + 8
      requires cmdbuf != buf && cmdbuf.Length == CMDLINE_SIZE && cmdbuf[0] == 0
      modifies buf, cmdbuf
      ensures Valid() && Length() == old(Length())
      ensures found <==> Find(old(TagList()), 0, TAG_CMDLINE) < |old(TagList())|
      ensures !found ==> buf[..] == old(buf[..])
      ensures found ==> LineTaken(old(TagList()), k, TagList(), cmdbuf[..])
      ensures found ==> k < |TagList()| && At(k) + 8 == m
    {
      hide WellFormed, Tags, Extent, Offset, Align8, Structure, Str, StrLen, Modules, StringHere, Find;
      ghost var b := buf[..];
      ghost var tags := TagList();
      FirstIs();
      var start := FindTagType(8, TAG_CMDLINE, 0);
      ghost var c := Find(tags, 0, TAG_CMDLINE);
      NullIsPast(b, c);
      if start == 0 {
        return false;
      }
      found := true;
      var cmdline, modString := start + 8, m + 8;
      ghost var line, was := ModuleLine(tags[k]), Str(tags[c].data);
      StringsAt(b, k, c, line, was);
      var modLen := StringLength(buf, modString, line);
      var cmdLen := StringLength(buf, cmdline, was);
      if modLen > cmdLen {
        if modLen < CMDLINE_SIZE {
          CopyString(buf, modString, cmdbuf, 0, line);
          Saved(cmdbuf[..], line);
        }
      } else {
        CopyString(buf, modString, buf, cmdline, line);
        Written(b, c, line + [0], buf[..]);
        StaysAt(b, buf[..], k);
      }
    }

    method FindModuleTag(m: nat, ghost k: nat) returns (cur: nat)
      requires Valid() && k < |TagList()| && TagList()[k].typ == TAG_MODULE && m == At(k) + 8
      ensures cur == At(k)
    {
      hide WellFormed, Tags, Extent, Offset, Align8, Structure;
      ghost var tags := TagList();
      FirstIs();
      cur := FindTagType(8, TAG_MODULE, 0);
      ghost var j := Find(tags, 0, TAG_MODULE);
      while cur + 8 != m
        invariant j <= k && tags[j].typ == TAG_MODULE && cur == At(j)
        decreases k - j
      {
        ReadTag(buf[..], j);
        cur := NextTag(cur);
        cur := FindTagType(cur, TAG_MODULE, j + 1);
        j := Find(tags, j + 1, TAG_MODULE);
      }
      ReadTag(buf[..], j);
      ReadTag(buf[..], k);
      SameAddress(buf[..], j, k);
    }

    // Makes room in the command line tag c and stores the longer string.
    method GrowLine(cmdbuf: array<Byte>, ghost c: nat, ghost line: seq<Byte>)
      requires Valid() && c == Find(TagList(), 0, TAG_CMDLINE) < |TagList()| && Sound(TagList()[c])
      requires cmdbuf != buf && StringHere(cmdbuf[..], 0, line) && |Str(TagList()[c].data)| < |line|
      requires var n := TagList()[c].size; var more := |line| - |Str(TagList()[c].data)|;
               Length() - Align8(n) + Align8(n + more) < buf.Length
      modifies buf
      ensures Valid() && |TagList()| == |old(TagList())|
      ensures TagList() == old(TagList())[c := TagList()[c]]
      ensures var n := old(TagList())[c].size; var more := |line| - |Str(old(TagList())[c].data)|;
              && TagList()[c].typ == TAG_CMDLINE && TagList()[c].size == n + more
              && Sound(TagList()[c]) && Str(TagList()[c].data) == line
              && Length() == old(Length()) - Align8(n) + Align8(n + more)
    {
      hide WellFormed, Tags, Extent, Offset, Align8, Structure, StringHere, Find, U32, Str, StrLen, Address;
      ghost var was := Str(TagList()[c].data);
      FirstIs();
      var cur := FindTagType(8, TAG_CMDLINE, 0);
      LineAt(buf[..], c, was);
      var bufLen := StringLength(cmdbuf, 0, line);
      var cmdLen := StringLength(buf, cur + 8, was);
      var ok := GrowTag(cur, bufLen - cmdLen, c);
      StoreLine(cmdbuf, cur + 8, c, line);
    }

    method StoreLine(cmdbuf: array<Byte>, d: nat, ghost c: nat, ghost line: seq<Byte>)
      requires Valid() && c < |TagList()| && TagList()[c].typ == TAG_CMDLINE && |line| < |TagList()[c].data|
      requires cmdbuf != buf && StringHere(cmdbuf[..], 0, line) && d == At(c) + 8
      modifies buf
      ensures Valid() && Length() == old(Length()) && |TagList()| == |old(TagList())|
      ensures TagList() == old(TagList())[c := TagList()[c]]
      ensures var t, u := TagList()[c], old(TagList())[c];
              t.typ == u.typ && t.size == u.size && |t.data| == |u.data| && 0 in t.data && Str(t.data) == line
    {
      hide WellFormed, Tags, Extent, Offset, Align8, Structure, U32, Str, StrLen;
      ghost var b := buf[..];
      ghost var w := line + [0];
      ReadTag(b, c);
      CopyString(cmdbuf, 0, buf, d, line);
      Written(b, c, w, buf[..]);
      StrIs(w + TagList()[c].data[|w|..], |line|);
    }

    // Removes the module that starts at start. With no start it removes the first one
    // and makes its string the command line. Returns the start of the module removed.
    method RemoveModule(start: nat) returns (r: nat)
      requires Valid() && AllSound(TagList())
      modifies buf
      ensures Valid() && AllSound(TagList()) && Length() <= old(Length())
      ensures ModulesReadable(Modules(old(TagList())))
      ensures var tags := old(TagList()); var mods := Modules(tags);
              if mods == [] || (start == 0 && Find(tags, 0, TAG_CMDLINE) == |tags|) then
                r == 0 && buf[..] == old(buf[..])
              else if start != 0 then
                r == start && TagList() == Without(tags, Chosen(mods, start, 0))
              else
                r == StartOf(mods[0]) && FirstRemoved(tags, TagList())
    {
      hide WellFormed, Tags, Extent, Offset, Align8, Structure, Modules;
      ghost var tags := TagList();
      ModulesAreReadable(tags);
      var count := GetModuleCount();
      if count < 1 {
        return 0;
      }
      var m, k := ChooseModule(start);
      if start != 0 {
        r := start;
        WithoutAt(tags, k, Chosen(Modules(tags), start, 0));
        DropModuleTag(m, k);
      } else {
        r := RemoveFirst(m, k);
      }
    }

    method DropModuleTag(m: nat, ghost k: nat)
      requires Valid() && AllSound(TagList())
      requires k < |TagList()| && TagList()[k].typ == TAG_MODULE && m == At(k) + 8
      modifies buf
      ensures Valid() && AllSound(TagList())
      ensures TagList() == old(TagList())[..k] + old(TagList())[k + 1..]
      ensures Length() == old(Length()) - Align8(old(TagList())[k].size) && old(Length()) < buf.Length
    {
      hide WellFormed, Tags, Extent, Offset, Align8;
      ReadTag(buf[..], k);
      var cur := FindModuleTag(m, k);
      var ok := RemoveTag(cur, k);
    }

    // The rest of remove_module when no start was given.
    method RemoveFirst(m: nat, ghost k: nat) returns (r: nat)
      requires Valid() && AllSound(TagList()) && IsModule(TagList(), k, 0) && m == At(k) + 8
      modifies buf
      ensures Valid() && AllSound(TagList()) && Length() <= old(Length())
      ensures Modules(old(TagList())) != [] && ModulesReadable(Modules(old(TagList())))
      ensures var tags := old(TagList());
              if Find(tags, 0, TAG_CMDLINE) == |tags| then r == 0 && buf[..] == old(buf[..])
              else r == StartOf(Modules(tags)[0]) && FirstRemoved(tags, TagList())
    {
      hide WellFormed, Tags, Extent, Offset, Align8, Structure, Modules, Find, FirstRemoved, StringHere,
        AllSound, IsModule, LineTaken, LineToPut, U32, StartOf;
      ghost var tags := TagList();
      ModuleField(buf[..], k, 0);
      ModulesAreReadable(tags);
      var cmdbuf := new Byte[CMDLINE_SIZE];
      cmdbuf[0] := 0;
      var found := TakeLine(m, cmdbuf, k);
      if !found {
        return 0;
      }
      DropGives(tags, k, TagList(), cmdbuf[..]);
      ModuleField(buf[..], k, 0);
      r := U32(buf[..], m);
      DropModuleTag(m, k);
      PutLine(cmdbuf, tags, k);
    }

    // The last part of remove_module: the line saved in cmdbuf, if any, is stored.
    method PutLine(cmdbuf: array<Byte>, ghost tags: seq<Tag>, ghost k: nat)
      requires Valid() && AllSound(TagList())
      requires AllSound(tags) && IsModule(tags, k, 0) && Find(tags, 0, TAG_CMDLINE) < |tags|
      requires cmdbuf != buf && cmdbuf.Length == CMDLINE_SIZE
      requires Length() + Align8(tags[k].size) < buf.Length
      requires LineToPut(tags, k, TagList(), cmdbuf[..])
      modifies buf
      ensures Valid() && AllSound(TagList()) && Length() <= old(Length()) + Align8(tags[k].size)
      ensures Modules(tags) != [] && ModulesReadable(Modules(tags)) && FirstRemoved(tags, TagList())
    {
      hide WellFormed, Tags, Extent, Offset, Align8, Structure, Modules, Find, FirstRemoved, StringHere;
      ghost var c := Find(TagList(), 0, TAG_CMDLINE);
      if cmdbuf[0] != 0 {
        RoomForLine(tags, k, Find(tags, 0, TAG_CMDLINE));
        GrowLine(cmdbuf, c, ModuleLine(tags[k]));
      }
      FirstRemovedBy(tags, k, TagList());
    }

    // Removes the modules after the first that are SINIT modules by the test given.
    method RemoveTxtModules(isSinit: (nat, nat) -> bool) returns (ok: bool)
      requires Valid() && AllSound(TagList())
      requires ModulesReadable(Modules(TagList())) && DistinctStarts(Modules(TagList()))
      modifies buf
      ensures Valid() && AllSound(TagList()) && Length() <= old(Length())
      ensures ok <==> Modules(old(TagList())) != []
      ensures ModulesReadable(Modules(old(TagList())))
      ensures ok ==> Modules(TagList()) ==
                     [Modules(old(TagList()))[0]] + Refused(Modules(old(TagList()))[1..], isSinit)
      ensures Others(TagList()) == Others(old(TagList()))
    {
      assert buf.Length > 16;
      hide WellFormed, Tags, Extent, Offset, Align8, Structure, Modules, Others, U32, Chosen, Kept, IsModule, AllSound;
      ghost var mods := Modules(TagList());
      var count := GetModuleCount();
      if count == 0 {
        return false;
      }
      var i: nat := count - 1;
      KeptNone(mods, isSinit);
      while i > 0
        invariant i < |mods| && ModulesReadable(mods)
        invariant Valid() && AllSound(TagList()) && Length() <= old(Length())
        invariant Modules(TagList()) == mods[..i + 1] + Kept(mods[i + 1..], isSinit)
        invariant Others(TagList()) == Others(old(TagList()))
      {
        FilterNext(mods, i, isSinit, Modules(TagList()));
        RemoveIfSinit(i, isSinit, Modules(TagList()));
        i := i - 1;
      }
      KeptIsRefused(mods[1..], isSinit);
      ok := true;
    }

    // One round of the loop of remove_txt_modules.
    method RemoveIfSinit(i: nat, isSinit: (nat, nat) -> bool, ghost mods: seq<Tag>)
      requires Valid() && AllSound(TagList()) && mods == Modules(TagList())
      requires i < |mods| && ModulesReadable(mods)
      requires StartOf(mods[i]) != 0 && Chosen(mods, StartOf(mods[i]), 0) == i
      modifies buf
      ensures Valid() && AllSound(TagList()) && Length() <= old(Length())
      ensures Modules(TagList()) == if Drops(mods[i], isSinit) then mods[..i] + mods[i + 1..] else mods
      ensures Others(TagList()) == old(Others(TagList()))
    {
      assert buf.Length > 16;
      hide *;
      var m, k := GetModule(i);
      ModuleStarts(k, i, isSinit);
      var base, end := U32(buf[..], m), U32(buf[..], m + 4);
      if isSinit(base, Diff32(base, end)) {
        RemoveStarted(base, i, mods);
      }
    }

    // The two words of module i, and what the test is given.
    lemma ModuleStarts(k: nat, i: nat, isSinit: (nat, nat) -> bool)
      requires Valid() && AllSound(TagList()) && IsModule(TagList(), k, i)
      ensures i < |Modules(TagList())| && |Modules(TagList())[i].data| > 8
      ensures var m := At(k) + 8; var t := Modules(TagList())[i];
              && m + 8 <= |buf[..]| && U32(buf[..], m) == StartOf(t)
              && (Drops(t, isSinit) <==> isSinit(StartOf(t), Diff32(StartOf(t), U32(buf[..], m + 4))))
    {
      hide WellFormed, Tags, Extent, Offset, Align8, Structure, Modules, U32, AllSound, IsModule, Address, StartOf, EndOf;
      ModuleField(buf[..], k, i);
    }

    // remove_module with the start of module i.
    method RemoveStarted(base: nat, ghost i: nat, ghost mods: seq<Tag>)
      requires Valid() && AllSound(TagList()) && mods == Modules(TagList())
      requires i < |mods| && ModulesReadable(mods)
      requires base != 0 && Chosen(mods, base, 0) == i
      modifies buf
      ensures Valid() && AllSound(TagList()) && Length() <= old(Length())
      ensures Modules(TagList()) == mods[..i] + mods[i + 1..]
      ensures Others(TagList()) == old(Others(TagList()))
    {
      assert buf.Length > 16;
      hide *;
      WithoutModules(TagList(), i);
      var r := RemoveModule(base);
      // The caller's failure branch is for a null result.
      assert r != 0;
    }
  }

  lemma SameAddress(b: seq<Byte>, j: nat, k: nat)
    requires Structure(b) && j < |Tags(b[8..])| && k < |Tags(b[8..])|
    ensures Address(b, j) == Address(b, k) <==> j == k
  {
    hide WellFormed, Tags, Extent, Offset, Align8;
    ReadTag(b, j);
    ReadTag(b, k);
    if j != k {
      Apart(b, j, k);
    }
  }

  // What TakeLine leaves of the command line tag cmd and of the scratch buffer.
  ghost predicate TagSaved(mod: Tag, cmd: Tag, now: Tag, cmdbuf: seq<Byte>)
    requires Sound(mod) && mod.typ == TAG_MODULE && Sound(cmd) && cmd.typ == TAG_CMDLINE && |cmdbuf| > 0
  {
    var line, was := ModuleLine(mod), Str(cmd.data);
    if |line| <= |was| then
      && now == cmd.(data := line + [0] + cmd.data[|line| + 1..])
      && cmdbuf[0] == 0
    else
      && now == cmd
      && (if |line| < CMDLINE_SIZE then cmdbuf[0] != 0 && StringHere(cmdbuf, 0, line) else cmdbuf[0] == 0)
  }

  ghost predicate LineTaken(tags: seq<Tag>, k: nat, now: seq<Tag>, cmdbuf: seq<Byte>)
    requires AllSound(tags) && IsModule(tags, k, 0) && Find(tags, 0, TAG_CMDLINE) < |tags|
    requires |cmdbuf| > 0
  {
    var c := Find(tags, 0, TAG_CMDLINE);
    |now| == |tags| && now == tags[c := now[c]] && TagSaved(tags[k], tags[c], now[c], cmdbuf)
  }

  // The same after the module tag has gone.
  ghost predicate LineToPut(tags: seq<Tag>, k: nat, left: seq<Tag>, cmdbuf: seq<Byte>)
    requires AllSound(tags) && IsModule(tags, k, 0) && Find(tags, 0, TAG_CMDLINE) < |tags|
    requires |cmdbuf| > 0
  {
    var rest := tags[..k] + tags[k + 1..];
    var c := Find(rest, 0, TAG_CMDLINE);
    && |left| == |rest| && c < |rest| && rest[c] == tags[Find(tags, 0, TAG_CMDLINE)]
    && Find(left, 0, TAG_CMDLINE) == c && left == rest[c := left[c]]
    && TagSaved(tags[k], tags[Find(tags, 0, TAG_CMDLINE)], left[c], cmdbuf)
  }

  lemma DropGives(tags: seq<Tag>, k: nat, now: seq<Tag>, cmdbuf: seq<Byte>)
    requires AllSound(tags) && IsModule(tags, k, 0) && Find(tags, 0, TAG_CMDLINE) < |tags|
    requires |cmdbuf| > 0 && LineTaken(tags, k, now, cmdbuf)
    ensures AllSound(now) && IsModule(now, k, 0) && k < |now| == |tags| && now[k] == tags[k]
    ensures now[k].typ == TAG_MODULE
    ensures LineToPut(tags, k, now[..k] + now[k + 1..], cmdbuf)
  {
    hide *;
    IsTyped(tags, k);
    TakenKeeps(tags, k, now, cmdbuf);
    DropTaken(tags, k, now);
    DropSaved(tags, k, now, Find(tags, 0, TAG_CMDLINE), tags[..k] + tags[k + 1..], now[..k] + now[k + 1..], cmdbuf);
  }

  lemma IsTyped(tags: seq<Tag>, k: nat)
    requires IsModule(tags, k, 0)
    ensures k < |tags| && tags[k].typ == TAG_MODULE
  {
  }

  lemma DropSaved(tags: seq<Tag>, k: nat, now: seq<Tag>, c: nat, rest: seq<Tag>, left: seq<Tag>, cmdbuf: seq<Byte>)
    requires AllSound(tags) && IsModule(tags, k, 0) && c == Find(tags, 0, TAG_CMDLINE) < |tags|
    requires |cmdbuf| > 0 && LineTaken(tags, k, now, cmdbuf) && rest == tags[..k] + tags[k + 1..]
    requires var d := if c < k then c else c - 1;
             && d < |left| == |rest| && Find(left, 0, TAG_CMDLINE) == d == Find(rest, 0, TAG_CMDLINE)
             && left == rest[d := now[c]] && left[d] == now[c]
    ensures LineToPut(tags, k, left, cmdbuf)
  {
    hide Find, Modules, TagSaved, AllSound;
  }

  // Once the line is taken the module tag is where it was.
  lemma TakenKeeps(tags: seq<Tag>, k: nat, now: seq<Tag>, cmdbuf: seq<Byte>)
    requires AllSound(tags) && IsModule(tags, k, 0) && Find(tags, 0, TAG_CMDLINE) < |tags|
    requires |cmdbuf| > 0 && LineTaken(tags, k, now, cmdbuf)
    ensures AllSound(now) && IsModule(now, k, 0) && |now| == |tags| && now[k] == tags[k]
    ensures var c := Find(tags, 0, TAG_CMDLINE);
            now == tags[c := now[c]] && now[c].typ == TAG_CMDLINE && now[c].size == tags[c].size
  {
    hide Str, StrLen, Modules, Find, ModuleLine;
    var c := Find(tags, 0, TAG_CMDLINE);
    SavedSound(tags[k], tags[c], now[c], cmdbuf);
    SetOtherKeeps(tags, c, now[c], k, 0);
  }

  lemma SavedSound(mod: Tag, cmd: Tag, now: Tag, cmdbuf: seq<Byte>)
    requires Sound(mod) && mod.typ == TAG_MODULE && Sound(cmd) && cmd.typ == TAG_CMDLINE && |cmdbuf| > 0
    requires TagSaved(mod, cmd, now, cmdbuf)
    ensures Sound(now) && now.typ == TAG_CMDLINE && now.size == cmd.size
  {
    hide ModuleLine;
    var line, was := ModuleLine(mod), Str(cmd.data);
    assert |line| <= |was| ==> now.data[|line|] == 0;
  }

  lemma Saved(cmdbuf: seq<Byte>, line: seq<Byte>)
    requires line + [0] <= cmdbuf && 0 !in line && line != []
    ensures StringHere(cmdbuf, 0, line) && cmdbuf[0] != 0
  {
    assert line[0] in line;
    assert forall i | 0 <= i <= |line| :: cmdbuf[i] == (line + [0])[i];
  }

  // Dropping the module tag leaves the command line tag to be found again.
  lemma DropTaken(tags: seq<Tag>, k: nat, now: seq<Tag>)
    requires IsModule(tags, k, 0) && Find(tags, 0, TAG_CMDLINE) < |tags| == |now|
    requires var c := Find(tags, 0, TAG_CMDLINE); now == tags[c := now[c]] && now[c].typ == TAG_CMDLINE
    ensures var c := Find(tags, 0, TAG_CMDLINE); var d := if c < k then c else c - 1;
            var rest, left := tags[..k] + tags[k + 1..], now[..k] + now[k + 1..];
            && d < |left| == |rest| && Find(left, 0, TAG_CMDLINE) == d == Find(rest, 0, TAG_CMDLINE)
            && left == rest[d := now[c]] && left[d] == now[c]
  {
    hide Modules, Find;
    var c := Find(tags, 0, TAG_CMDLINE);
    var d := if c < k then c else c - 1;
    FindIs(tags[..k] + tags[k + 1..], 0, d, TAG_CMDLINE);
    FindIs(now[..k] + now[k + 1..], 0, d, TAG_CMDLINE);
  }

  // There is room for the longer line where the module was.
  lemma RoomForLine(tags: seq<Tag>, k: nat, c: nat)
    requires k < |tags| && c < |tags| && Sound(tags[k]) && Sound(tags[c])
    requires tags[k].typ == TAG_MODULE && tags[c].typ == TAG_CMDLINE
    requires |Str(tags[c].data)| < |ModuleLine(tags[k])|
    ensures var n := tags[c].size; var more := |ModuleLine(tags[k])| - |Str(tags[c].data)|;
            Align8(n + more) - Align8(n) <= Align8(tags[k].size)
  {
    hide Align8;
    NeverLonger(tags[k].size, tags[c].size, |ModuleLine(tags[k])|, |Str(tags[c].data)|);
  }

  lemma StringAt(b: seq<Byte>, k: nat, x: nat)
    requires Structure(b) && k < |Tags(b[8..])| && x <= |Tags(b[8..])[k].data| && 0 in Tags(b[8..])[k].data[x..]
    ensures var d := Tags(b[8..])[k].data;
            StringHere(b, Address(b, k) + 8 + x, Str(d[x..])) && x + |Str(d[x..])| < |d|
  {
    hide WellFormed, Tags, Extent, Offset, Align8, Str, StringHere, U32;
    ReadTag(b, k);
    SliceHere(b, Address(b, k) + 8, Tags(b[8..])[k].data, x);
  }

  // A string in the bytes d, which lie at p of b.
  lemma SliceHere(b: seq<Byte>, p: nat, d: seq<Byte>, x: nat)
    requires p + |d| <= |b| && d == b[p..p + |d|] && x <= |d| && 0 in d[x..]
    ensures StringHere(b, p + x, Str(d[x..])) && x + |Str(d[x..])| < |d|
  {
    var w := Str(d[x..]);
    forall i | 0 <= i < |d| - x ensures b[p + x + i] == d[x..][i] {
    }
  }

  lemma LineAt(b: seq<Byte>, c: nat, was: seq<Byte>)
    requires Structure(b) && c < |Tags(b[8..])| && Sound(Tags(b[8..])[c])
    requires Tags(b[8..])[c].typ == TAG_CMDLINE && was == Str(Tags(b[8..])[c].data)
    ensures StringHere(b, Address(b, c) + 8, was) && c + 1 < |Tags(b[8..])|
    ensures |was| < |Tags(b[8..])[c].data|
  {
    hide WellFormed, Tags, Extent, Offset, Align8, Str, StrLen, StringHere;
    var cmd := Tags(b[8..])[c].data;
    assert cmd[0..] == cmd;
    StringAt(b, c, 0);
    ReadTag(b, c);
  }

  // The module string and the command line, which do not overlap.
  lemma StringsAt(b: seq<Byte>, k: nat, c: nat, line: seq<Byte>, was: seq<Byte>)
    requires Structure(b) && k < |Tags(b[8..])| && c < |Tags(b[8..])|
    requires Sound(Tags(b[8..])[k]) && Sound(Tags(b[8..])[c])
    requires Tags(b[8..])[k].typ == TAG_MODULE && Tags(b[8..])[c].typ == TAG_CMDLINE
    requires line == ModuleLine(Tags(b[8..])[k]) && was == Str(Tags(b[8..])[c].data)
    ensures var s, d := Address(b, k) + 16, Address(b, c) + 8;
            && StringHere(b, s, line) && StringHere(b, d, was)
            && d + |was| < |b| && (d + |was| < s || s + |line| < d)
    ensures |was| < |Tags(b[8..])[c].data| && c + 1 < |Tags(b[8..])|
  {
    hide WellFormed, Tags, Extent, Offset, Align8, Str, StrLen, StringHere;
    StringAt(b, k, 8);
    LineAt(b, c, was);
    ReadTag(b, k);
    ReadTag(b, c);
    Apart(b, k, c);
  }

  lemma Apart(b: seq<Byte>, j: nat, k: nat)
    requires Structure(b) && j < |Tags(b[8..])| && k < |Tags(b[8..])| && j != k
    ensures var t, u := Tags(b[8..])[j], Tags(b[8..])[k];
            || Address(b, j) + t.size <= Address(b, k)
            || Address(b, k) + u.size <= Address(b, j)
  {
    hide WellFormed, Tags, Extent, Offset, Align8;
    ReadTag(b, j);
    ReadTag(b, k);
    if j < k { OffsetsOrdered(b[8..], j, k); } else { OffsetsOrdered(b[8..], k, j); }
  }

  lemma Written(b: seq<Byte>, c: nat, w: seq<Byte>, now: seq<Byte>)
    requires Structure(b) && c + 1 < |Tags(b[8..])| && |w| <= |Tags(b[8..])[c].data|
    requires var d := Address(b, c) + 8; d + |w| <= |b| && now == b[..d] + w + b[d + |w|..]
    ensures Structure(now) && U32(now, 0) == U32(b, 0)
    ensures var t := Tags(b[8..])[c]; Tags(now[8..]) == Tags(b[8..])[c := t.(data := w + t.data[|w|..])]
  {
    hide WellFormed, Tags, Extent, Offset, Align8;
    ReadTag(b, c);
    var o := Address(b, c) - 8;
    assert now[8..] == b[8..][..o + 8] + w + b[8..][o + 8 + |w|..];
    WriteBytes(b[8..], c, w, now[8..], Tags(b[8..])[c], o);
  }

  // The fields of module i, whose tag is tag k.
  lemma ModuleField(b: seq<Byte>, k: nat, i: nat)
    requires Structure(b) && IsModule(Tags(b[8..]), k, i) && AllSound(Tags(b[8..]))
    ensures var m := Address(b, k) + 8; var t := Tags(b[8..])[k];
            && i < |Modules(Tags(b[8..]))| && Modules(Tags(b[8..]))[i] == t
            && |t.data| > 8 && m + |t.data| < |b|
            && U32(b, m) == StartOf(t) && U32(b, m + 4) == EndOf(t)
  {
    hide WellFormed, Tags, Extent, Offset, Align8, Modules;
    ModuleIs(Tags(b[8..]), k, i);
    ReadTag(b, k);
  }

  // Fewer modules have been passed than there are, so the scan has not reached the end.
  lemma NotPast(tags: seq<Tag>, k: nat, i: nat)
    requires k <= |tags| && |Modules(tags[..k])| <= i < |Modules(tags)|
    ensures k < |tags|
  {
    assert tags[..|tags|] == tags;
  }

  lemma StaysAt(b: seq<Byte>, now: seq<Byte>, k: nat)
    requires Structure(b) && Structure(now) && k < |Tags(b[8..])| == |Tags(now[8..])|
    requires forall i :: 0 <= i < k ==> Tags(b[8..])[i].size == Tags(now[8..])[i].size
    ensures Address(now, k) == Address(b, k)
  {
    hide WellFormed, Tags, Extent, Offset, Align8;
    SameOffset(b[8..], now[8..], k);
  }

  lemma EndIsLast(b: seq<Byte>)
    requires Structure(b)
    ensures var n := |Tags(b[8..])|;
            && Find(Tags(b[8..]), 0, TAG_END) == n - 1
            && Address(b, n - 1) >= 8 && Address(b, n - 1) + 8 == 8 + Extent(b[8..])
            && U32(b, Address(b, n - 1) + 4) == 8
  {
    hide WellFormed, Tags, Extent, Offset, Align8;
    var tags := Tags(b[8..]);
    var n := |tags|;
    forall i | 0 <= i < n ensures tags[i].typ == TAG_END <==> i == n - 1 {
      ReadTag(b, i);
    }
    EndOffset(b[8..]);
    ReadTag(b, n - 1);
  }

  // t is s with the bytes from o + n up to and including x moved down by n.
  ghost predicate ShiftedUp(s: seq<Byte>, t: seq<Byte>, o: nat, n: nat, x: nat) {
    && o + n <= x < |s| == |t|
    && (forall i :: 0 <= i < o ==> t[i] == s[i])
    && (forall i {:trigger t[i]} :: o <= i <= x - n ==> t[i] == s[i + n])
  }

  lemma CopiedUp(b: seq<Byte>, now: seq<Byte>, cur: nat, next: nat, e: nat)
    requires 8 <= cur <= next <= e < |b| == |now|
    requires forall i {:trigger now[i]} :: 8 <= i < |b| ==>
               now[i] == if cur <= i <= cur + (e - next) then b[i + (next - cur)] else b[i]
    ensures ShiftedUp(b[8..], now[8..], cur - 8, next - cur, e - 8)
  {
  }

  lemma ShiftedBytes(s: seq<Byte>, t: seq<Byte>, o: nat, n: nat, x: nat)
    requires ShiftedUp(s, t, o, n, x)
    ensures t[..x - n] == s[..o] + s[o + n..x]
  {
    forall i | 0 <= i < x - n ensures t[i] == (s[..o] + s[o + n..x])[i] {
    }
  }

  lemma SameLength(b: seq<Byte>, now: seq<Byte>)
    requires 4 <= |b| == |now| && forall i {:trigger now[i]} :: 0 <= i < 4 ==> now[i] == b[i]
    ensures U32(now, 0) == U32(b, 0)
  {
  }

  // The numbers remove_mb2_tag works with.
  lemma RemovePlan(b: seq<Byte>, k: nat)
    requires Structure(b) && k < |Tags(b[8..])|
    ensures var p := Address(b, k);
            && 8 <= p && p + 8 <= |b| && Next(b, p) == Address(b, k + 1)
            && (Address(b, k + 1) == 0 <==> k + 1 == |Tags(b[8..])|)
            && (k + 1 < |Tags(b[8..])| ==> p + 8 <= Address(b, k + 1) < 8 + Extent(b[8..]))
  {
    hide WellFormed, Tags, Extent, Offset, Align8;
    ReadTag(b, k);
    if k + 1 < |Tags(b[8..])| {
      ReadTag(b, k + 1);
    }
  }

  lemma Removed(b: seq<Byte>, now: seq<Byte>, k: nat, cur: nat, next: nat, e: nat)
    requires Structure(b) && k + 1 < |Tags(b[8..])| && cur == Address(b, k) && next == Address(b, k + 1)
    requires 8 <= cur < next <= e == 8 + Extent(b[8..]) && |now| == |b|
    requires ShiftedUp(b[8..], now[8..], cur - 8, next - cur, e - 8)
    requires U32(now, 0) == U32(b, 0) - (next - cur)
    ensures Structure(now)
    ensures Tags(now[8..]) == Tags(b[8..])[..k] + Tags(b[8..])[k + 1..]
    ensures next - cur == Align8(Tags(b[8..])[k].size)
  {
    hide WellFormed, Tags, Extent, Offset, Align8, ShiftedUp;
    ReadTag(b, k);
    ShiftedBytes(b[8..], now[8..], cur - 8, next - cur, e - 8);
    RemoveBytes(b[8..], k, now[8..]);
  }

  // now is b with tag data from p on moved down by growth and the size field replaced.
  ghost predicate ShiftedDown(b: seq<Byte>, now: seq<Byte>, which: nat, next: nat, e: nat, growth: nat) {
    && 8 <= which && which + 8 <= next <= e && e + growth < |b| == |now|
    && now[8..which + 4] == b[8..which + 4]
    && now[which + 8..next + growth] == b[which + 8..next + growth]
    && now[next + growth..e + growth] == b[next..e]
  }

  lemma CopiedDown(b: seq<Byte>, now: seq<Byte>, which: nat, next: nat, e: nat, growth: nat)
    requires 8 <= which && which + 8 <= next <= e && e + growth < |b| == |now|
    requires forall i {:trigger now[i]} :: 8 <= i < |b| && !(which + 4 <= i < which + 8) ==>
               now[i] == if next + growth <= i <= e + growth then b[i - growth] else b[i]
    ensures ShiftedDown(b, now, which, next, e, growth)
  {
  }

  // The numbers grow_mb2_tag works with.
  lemma GrowPlan(b: seq<Byte>, k: nat, extra: nat)
    requires Structure(b) && k + 1 < |Tags(b[8..])|
    requires var n := Tags(b[8..])[k].size; U32(b, 0) - Align8(n) + Align8(n + extra) < |b|
    ensures var p := Address(b, k); var n := Tags(b[8..])[k].size;
            && 8 <= p && p + 8 <= |b| && p + 8 <= Address(b, k + 1) == Next(b, p) == p + Align8(n)
            && Address(b, k + 1) + 8 <= 8 + Extent(b[8..]) == U32(b, 0) <= |b| <= MAX_LENGTH
            && U32(b, p + 4) == n && U32(b, p) == Tags(b[8..])[k].typ != TAG_END
            && n + extra <= Align8(n + extra) < MAX_LENGTH && Align8(n) <= Align8(n + extra)
  {
    hide WellFormed, Tags, Extent, Offset, Align8;
    ReadTag(b, k);
    ReadTag(b, k + 1);
    var n := Tags(b[8..])[k].size;
    AlignBounds(n + extra);
    AlignMonotone(n, n + extra);
  }

  lemma Grown(b: seq<Byte>, now: seq<Byte>, k: nat, extra: nat, which: nat, next: nat, e: nat, growth: nat)
    requires Structure(b) && k + 1 < |Tags(b[8..])|
    requires which == Address(b, k) && next == Address(b, k + 1) && e == 8 + Extent(b[8..])
    requires ShiftedDown(b, now, which, next, e, growth)
    requires var n := Tags(b[8..])[k].size + extra;
             next + growth == which + Align8(n) && U32(now, which + 4) == n && U32(now, 0) == U32(b, 0) + growth
    ensures Structure(now)
    ensures var tag := Tags(b[8..])[k];
            && U32(now, 0) == U32(b, 0) - Align8(tag.size) + Align8(tag.size + extra)
            && |Tags(now[8..])| == |Tags(b[8..])|
            && Tags(now[8..]) == Tags(b[8..])[k := Tag(tag.typ, tag.size + extra, Tags(now[8..])[k].data)]
            && tag.data <= Tags(now[8..])[k].data && |Tags(now[8..])[k].data| == |tag.data| + extra
  {
    hide WellFormed, Tags, Extent, Offset, Align8, ShiftedDown, U32;
    ReadTag(b, k);
    var tag := Tags(b[8..])[k];
    AlignBounds(tag.size + extra);
    Moved(b, now, which, next, e, growth);
    GrowBytes(b[8..], k, extra, now[8..], tag, which - 8, next - 8, next - 8 + growth, e - 8);
    Slice(b, which + 8, which + tag.size + extra);
    assert b[which + 8..which + tag.size] == b[which + 8..which + tag.size + extra][..tag.size - 8];
  }

  lemma Moved(b: seq<Byte>, now: seq<Byte>, which: nat, next: nat, e: nat, growth: nat)
    requires ShiftedDown(b, now, which, next, e, growth)
    ensures var s, t, o := b[8..], now[8..], which - 8;
            && e + growth < |b| == |now| && 8 <= which && which + 8 <= next <= e
            && t[..o] == s[..o] && U32(t, o) == U32(b, which) && U32(t, o + 4) == U32(now, which + 4)
            && t[o + 8..next - 8 + growth] == s[o + 8..next - 8 + growth]
            && t[next - 8 + growth..e - 8 + growth] == s[next - 8..e - 8]
  {
    var s, t, o := b[8..], now[8..], which - 8;
    Slice(now, 8, which + 4);
    Slice(b, 8, which + 4);
    assert t[..o] == t[0..o + 4][..o] && s[..o] == s[0..o + 4][..o];
    forall i | o <= i < o + 4 ensures t[i] == s[i] {
      assert t[0..o + 4][i] == s[0..o + 4][i];
    }
    Slice(now, which + 8, next + growth);
    Slice(b, which + 8, next + growth);
    Slice(now, next + growth, e + growth);
    Slice(b, next, e);
  }

  lemma Slice(x: seq<Byte>, lo: nat, hi: nat)
    requires 8 <= lo <= hi <= |x|
    ensures x[8..][lo - 8..hi - 8] == x[lo..hi]
  {
  }
}
