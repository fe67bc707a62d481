/** The modules and the command line of a Multiboot2 tag list. */
module Mb2Modules {
  import opened LittleEndian
  import opened Mb2Tags

  // One above the longest string that fits the scratch buffer for the command line.
  const CMDLINE_SIZE: nat := 0x400

  // The first tag of a type from k on, or the length of the list.
  function Find(tags: seq<Tag>, k: nat, typ: nat): (j: nat)
    requires k <= |tags|
    ensures k <= j <= |tags| && (j < |tags| ==> tags[j].typ == typ)
    ensures forall i :: k <= i < j ==> tags[i].typ != typ
    decreases |tags| - k
  {
    if k == |tags| || tags[k].typ == typ then k else Find(tags, k + 1, typ)
  }

  function Modules(tags: seq<Tag>): seq<Tag> {
    if tags == [] then []
    else if tags[0].typ == TAG_MODULE then [tags[0]] + Modules(tags[1..])
    else Modules(tags[1..])
  }

  function Others(tags: seq<Tag>): seq<Tag> {
    if tags == [] then []
    else if tags[0].typ == TAG_MODULE then Others(tags[1..])
    else [tags[0]] + Others(tags[1..])
  }

  // Tag k is module number i.
  ghost predicate IsModule(tags: seq<Tag>, k: nat, i: nat) {
    k < |tags| && tags[k].typ == TAG_MODULE && |Modules(tags[..k])| == i
  }

  // The list without module number i.
  function Without(tags: seq<Tag>, i: nat): seq<Tag>
  {
    if tags == [] then []
    else if tags[0].typ != TAG_MODULE then [tags[0]] + Without(tags[1..], i)
    else if i == 0 then tags[1..]
    else [tags[0]] + Without(tags[1..], i - 1)
  }

  lemma Unfold(h: Tag, t: seq<Tag>)
    ensures Modules([h] + t) == if h.typ == TAG_MODULE then [h] + Modules(t) else Modules(t)
    ensures Others([h] + t) == if h.typ == TAG_MODULE then Others(t) else [h] + Others(t)
  {
    assert ([h] + t)[1..] == t;
  }

  lemma Assoc(a: seq<Tag>, b: seq<Tag>, c: seq<Tag>)
    ensures a + b + c == a + (b + c)
  {
  }

  lemma {:induction false} Concat(a: seq<Tag>, b: seq<Tag>)
    ensures Modules(a + b) == Modules(a) + Modules(b)
    ensures Others(a + b) == Others(a) + Others(b)
    decreases |a|, 0
  {
    if a == [] {
      assert a + b == b;
    } else {
      ConcatStep(a[0], a[1..], b);
      assert a == [a[0]] + a[1..];
    }
  }

  lemma {:induction false} ConcatStep(h: Tag, t: seq<Tag>, b: seq<Tag>)
    ensures Modules([h] + t + b) == Modules([h] + t) + Modules(b)
    ensures Others([h] + t + b) == Others([h] + t) + Others(b)
    decreases |t|, 1
  {
    hide *;
    Concat(t, b);
    Assoc([h], t, b);
    Unfold(h, t);
    Unfold(h, t + b);
    Assoc([h], Modules(t), Modules(b));
    Assoc([h], Others(t), Others(b));
  }

  lemma TakeNext(tags: seq<Tag>, k: nat)
    requires k < |tags|
    ensures Modules(tags[..k + 1]) ==
            if tags[k].typ == TAG_MODULE then Modules(tags[..k]) + [tags[k]] else Modules(tags[..k])
  {
    hide *;
    Concat(tags[..k], [tags[k]]);
    assert tags[..k] + [tags[k]] == tags[..k + 1];
    OneTag(tags[k]);
    assert Modules(tags[..k]) + [] == Modules(tags[..k]);
  }

  lemma SplitAt(tags: seq<Tag>, k: nat)
    requires k < |tags|
    ensures Modules(tags) == Modules(tags[..k + 1]) + Modules(tags[k + 1..])
  {
    hide *;
    var a, b := tags[..k + 1], tags[k + 1..];
    assert tags == a + b;
    Concat(a, b);
  }

  lemma OneTag(t: Tag)
    ensures Modules([t]) == if t.typ == TAG_MODULE then [t] else []
  {
  }

  lemma ModuleIs(tags: seq<Tag>, k: nat, i: nat)
    requires IsModule(tags, k, i)
    ensures i < |Modules(tags)| && Modules(tags)[i] == tags[k]
  {
    TakeNext(tags, k);
    SplitAt(tags, k);
  }

  // The tag that is module number i.
  function Nth(tags: seq<Tag>, i: nat): (k: nat)
    requires i < |Modules(tags)|
    ensures k < |tags|
  {
    if tags[0].typ != TAG_MODULE then 1 + Nth(tags[1..], i)
    else if i == 0 then 0
    else 1 + Nth(tags[1..], i - 1)
  }

  lemma {:induction false} NthIs(tags: seq<Tag>, k: nat, i: nat)
    requires IsModule(tags, k, i)
    ensures i < |Modules(tags)| && Nth(tags, i) == k
    decreases k
  {
    ModuleIs(tags, k, i);
    if k > 0 {
      assert tags[..k][1..] == tags[1..][..k - 1];
      NthIs(tags[1..], k - 1, if tags[0].typ == TAG_MODULE then i - 1 else i);
    } else {
      assert tags[..0] == [];
    }
  }

  // Scanning on to the next module tag adds nothing to the modules passed.
  lemma {:induction false} ScanPast(tags: seq<Tag>, k: nat)
    requires k <= |tags|
    ensures Modules(tags[..Find(tags, k, TAG_MODULE)]) == Modules(tags[..k])
    decreases |tags| - k
  {
    if k < |tags| && tags[k].typ != TAG_MODULE {
      TakeNext(tags, k);
      ScanPast(tags, k + 1);
    }
  }

  lemma {:induction false} WithoutAt(tags: seq<Tag>, k: nat, i: nat)
    requires IsModule(tags, k, i)
    ensures Without(tags, i) == tags[..k] + tags[k + 1..]
    decreases k
  {
    if k == 0 {
      assert tags[..0] == [];
    } else {
      var rest := tags[1..];
      assert tags[..k][1..] == rest[..k - 1];
      WithoutAt(rest, k - 1, if tags[0].typ == TAG_MODULE then i - 1 else i);
      assert [tags[0]] + (rest[..k - 1] + rest[k..]) == tags[..k] + tags[k + 1..];
    }
  }

  // Deleting a module leaves the other modules and everything else in order.
  lemma {:induction false} WithoutModules(tags: seq<Tag>, i: nat)
    requires i < |Modules(tags)|
    ensures Modules(Without(tags, i)) == Modules(tags)[..i] + Modules(tags)[i + 1..]
    ensures Others(Without(tags, i)) == Others(tags)
    ensures |Without(tags, i)| == |tags| - 1
  {
    if tags[0].typ == TAG_MODULE && i == 0 {
      assert Modules(tags)[..0] + Modules(tags)[1..] == Modules(tags[1..]);
    } else {
      var rest := tags[1..];
      var j := if tags[0].typ == TAG_MODULE then i - 1 else i;
      WithoutModules(rest, j);
      assert Without(tags, i)[1..] == Without(rest, j);
      if tags[0].typ == TAG_MODULE {
        assert [tags[0]] + (Modules(rest)[..j] + Modules(rest)[j + 1..]) == Modules(tags)[..i] + Modules(tags)[i + 1..];
      }
    }
  }

  // Strings: the bytes up to the first NUL.
  function StrLen(s: seq<Byte>): (n: nat)
    requires 0 in s
    ensures n < |s| && s[n] == 0 && forall i :: 0 <= i < n ==> s[i] != 0
  {
    if s[0] == 0 then 0 else 1 + StrLen(s[1..])
  }

  function Str(s: seq<Byte>): (r: seq<Byte>)
    requires 0 in s
    ensures 0 !in r
  {
    s[..StrLen(s)]
  }

  lemma StrIs(s: seq<Byte>, n: nat)
    requires n < |s| && s[n] == 0 && forall i :: 0 <= i < n ==> s[i] != 0
    ensures 0 in s && StrLen(s) == n && Str(s) == s[..n]
  {
    assert s[StrLen(s)] == 0;
  }

  // The tags hold what the loader reads from them.
  ghost predicate Sound(t: Tag) {
    && t.size == 8 + |t.data|
    && (t.typ == TAG_MODULE ==> |t.data| > 8 && 0 in t.data[8..])
    && (t.typ == TAG_CMDLINE ==> 0 in t.data)
  }

  ghost predicate AllSound(tags: seq<Tag>) {
    forall i :: 0 <= i < |tags| ==> Sound(tags[i])
  }

  function StartOf(t: Tag): nat
    requires |t.data| >= 4
  {
    U32(t.data, 0)
  }

  function EndOf(t: Tag): nat
    requires |t.data| >= 8
  {
    U32(t.data, 4)
  }

  function ModuleLine(t: Tag): seq<Byte>
    requires |t.data| > 8 && 0 in t.data[8..]
  {
    Str(t.data[8..])
  }

  lemma {:induction false} ModulesAreTags(tags: seq<Tag>, t: Tag)
    requires t in Modules(tags)
    ensures t in tags && t.typ == TAG_MODULE
  {
    if t != tags[0] || tags[0].typ != TAG_MODULE {
      ModulesAreTags(tags[1..], t);
    }
  }

  lemma ModulesAreReadable(tags: seq<Tag>)
    requires AllSound(tags)
    ensures ModulesReadable(Modules(tags)) && AllSound(Modules(tags))
  {
    forall i | 0 <= i < |Modules(tags)| ensures Sound(Modules(tags)[i]) && Modules(tags)[i].typ == TAG_MODULE {
      ModulesAreTags(tags, Modules(tags)[i]);
    }
  }

  ghost predicate ModulesReadable(mods: seq<Tag>) {
    forall i :: 0 <= i < |mods| ==> |mods[i].data| > 8 && 0 in mods[i].data[8..]
  }

  // Which module a start address removes: none given means the first one, and an
  // address that no module has means the last one.
  function Chosen(mods: seq<Tag>, start: nat, i: nat): (c: nat)
    requires i < |mods| && forall j :: 0 <= j < |mods| ==> |mods[j].data| >= 4
    ensures i <= c < |mods|
    decreases |mods| - i
  {
    if start == 0 || StartOf(mods[i]) == start || i == |mods| - 1 then i
    else Chosen(mods, start, i + 1)
  }

  // With distinct starts the module that has the address is the one chosen.
  lemma {:induction false} ChosenIs(mods: seq<Tag>, i: nat, j: nat)
    requires i <= j < |mods| && forall k :: 0 <= k < |mods| ==> |mods[k].data| >= 4
    requires StartOf(mods[j]) != 0
    requires forall k :: i <= k < j ==> StartOf(mods[k]) != StartOf(mods[j])
    ensures Chosen(mods, StartOf(mods[j]), i) == j
    decreases j - i
  {
    if i < j {
      ChosenIs(mods, i + 1, j);
    }
  }

  // The tag list after the first module went and its string became the command line:
  // every other tag stays, and the command line tag grows only if it must.
  ghost predicate FirstRemoved(tags: seq<Tag>, now: seq<Tag>)
    requires Modules(tags) != [] && ModulesReadable(Modules(tags))
    requires Find(tags, 0, TAG_CMDLINE) < |tags| && 0 in tags[Find(tags, 0, TAG_CMDLINE)].data
  {
    var rest := Without(tags, 0);
    var old' := tags[Find(tags, 0, TAG_CMDLINE)];
    var line := ModuleLine(Modules(tags)[0]);
    var was := Str(old'.data);
    var c := Find(rest, 0, TAG_CMDLINE);
    && |now| == |rest| && c < |rest| && rest[c] == old'
    && (forall i :: 0 <= i < |rest| && i != c ==> now[i] == rest[i])
    && now[c].typ == TAG_CMDLINE && Sound(now[c])
    && (if |line| <= |was| then now[c].data == line + [0] + old'.data[|line| + 1..]
        else if |line| >= CMDLINE_SIZE then now[c] == old'
        else now[c].size == old'.size + |line| - |was| && Str(now[c].data) == line)
  }

  // Removing the first module and growing the command line never needs more room.
  lemma NeverLonger(modSize: nat, cmdSize: nat, line: nat, was: nat)
    requires modSize >= 8 + 8 + line + 1 && was <= line
    ensures Align8(cmdSize + line - was) - Align8(cmdSize) <= Align8(modSize)
  {
    AlignBounds(modSize);
    AlignBounds(cmdSize);
    AlignBounds(cmdSize + line - was);
  }

  // The modules a predicate on start and size keeps.
  function Kept(mods: seq<Tag>, drop: (nat, nat) -> bool): seq<Tag>
    requires ModulesReadable(mods)
  {
    if mods == [] then []
    else if drop(StartOf(mods[0]), SizeOfModule(mods[0])) then Kept(mods[1..], drop)
    else [mods[0]] + Kept(mods[1..], drop)
  }

  function Diff32(start: nat, end: nat): nat {
    (end - start) % 0x1_0000_0000
  }

  function SizeOfModule(t: Tag): nat
    requires |t.data| >= 8
  {
    Diff32(StartOf(t), EndOf(t))
  }

  // An area of n bytes from start ends at end, on 32-bit addresses.
  ghost predicate Spans(start: nat, n: nat, end: nat) {
    n < 0x1_0000_0000 && exists wraps: int :: start + n == end + wraps * 0x1_0000_0000
  }

  lemma DiffSpans(start: nat, end: nat, n: nat)
    ensures Spans(start, n, end) <==> n == Diff32(start, end)
  {
    var d := Diff32(start, end);
    assert start + d == end + -((end - start) / 0x1_0000_0000) * 0x1_0000_0000;
    if Spans(start, n, end) {
      var wraps: int :| start + n == end + wraps * 0x1_0000_0000;
      assert end - start == n + -wraps * 0x1_0000_0000;
      OneRemainder(end - start, n, -wraps);
    }
  }

  lemma OneRemainder(x: int, n: nat, q: int)
    requires x == n + q * 0x1_0000_0000 && n < 0x1_0000_0000
    ensures x % 0x1_0000_0000 == n
  {
    var m, r := x / 0x1_0000_0000, x % 0x1_0000_0000;
    assert (q - m) * 0x1_0000_0000 == r - n;
  }

  // The modules whose start and size the test does not accept, in order.
  ghost function Refused(mods: seq<Tag>, test: (nat, nat) -> bool): seq<Tag>
    requires ModulesReadable(mods)
  {
    if mods == [] then []
    else
      (if exists n: nat :: Spans(StartOf(mods[0]), n, EndOf(mods[0])) && test(StartOf(mods[0]), n) then []
       else [mods[0]]) + Refused(mods[1..], test)
  }

  lemma {:induction false} KeptIsRefused(mods: seq<Tag>, test: (nat, nat) -> bool)
    requires ModulesReadable(mods)
    ensures Kept(mods, test) == Refused(mods, test)
  {
    if mods != [] {
      KeptIsRefused(mods[1..], test);
      var start, end := StartOf(mods[0]), EndOf(mods[0]);
      DiffSpans(start, end, Diff32(start, end));
      forall n: nat | Spans(start, n, end) ensures n == Diff32(start, end) {
        DiffSpans(start, end, n);
      }
    }
  }

  /** A module tag as a loader writes it: its start, its end n bytes on, its string. The start,
      the end and the string are read back, and n is the one size the test can be given. */
  lemma ModuleReads(t: Tag, start: nat, n: nat, line: seq<Byte>, pad: seq<Byte>)
    requires start < 0x1_0000_0000 && n < 0x1_0000_0000 && 0 !in line
    requires t.data == Bytes32(start) + Bytes32((start + n) % 0x1_0000_0000) + (line + [0] + pad)
    ensures |t.data| > 8 && 0 in t.data[8..]
    ensures StartOf(t) == start && EndOf(t) == (start + n) % 0x1_0000_0000 && ModuleLine(t) == line
    ensures forall k: nat :: Spans(StartOf(t), k, EndOf(t)) <==> k == n
  {
    var end := (start + n) % 0x1_0000_0000;
    U32RoundTrip(start);
    U32RoundTrip(end);
    WordsRead(t.data, Bytes32(start), Bytes32(end), line + [0] + pad);
    StrIs(line + [0] + pad, |line|);
    hide *;
    forall k: nat ensures Spans(start, k, end) <==> k == n {
      DiffSpans(start, end, k);
      DiffOf(start, n);
    }
  }

  lemma WordsRead(data: seq<Byte>, a: seq<Byte>, b: seq<Byte>, rest: seq<Byte>)
    requires |a| == 4 && |b| == 4 && data == a + b + rest
    ensures U32(data, 0) == U32(a, 0) && U32(data, 4) == U32(b, 0) && data[8..] == rest
  {
  }

  lemma DiffOf(start: nat, n: nat)
    requires n < 0x1_0000_0000
    ensures Diff32(start, (start + n) % 0x1_0000_0000) == n
  {
    var q := (start + n) / 0x1_0000_0000;
    OneRemainder((start + n) % 0x1_0000_0000 - start, n, -q);
  }

  // No start given means the first module, and a start that no module has means the last.
  lemma {:induction false} ChosenElse(mods: seq<Tag>, start: nat, i: nat)
    requires i < |mods| && forall j :: 0 <= j < |mods| ==> |mods[j].data| >= 4
    ensures start == 0 ==> Chosen(mods, start, i) == i
    ensures start != 0 && (forall j :: i <= j < |mods| ==> StartOf(mods[j]) != start) ==>
              Chosen(mods, start, i) == |mods| - 1
    decreases |mods| - i
  {
    if i < |mods| - 1 {
      ChosenElse(mods, start, i + 1);
    }
  }

  // Changing a tag that is no module changes no module.
  lemma SetOther(tags: seq<Tag>, c: nat, t: Tag)
    requires c < |tags| && tags[c].typ != TAG_MODULE && t.typ != TAG_MODULE
    ensures Modules(tags[c := t]) == Modules(tags)
  {
    hide *;
    var now := tags[c := t];
    TakeNext(tags, c);
    SplitAt(tags, c);
    TakeNext(now, c);
    SplitAt(now, c);
    assert now[..c] == tags[..c] && now[c + 1..] == tags[c + 1..];
  }

  lemma SetOtherKeeps(tags: seq<Tag>, c: nat, t: Tag, k: nat, i: nat)
    requires c < |tags| && tags[c].typ != TAG_MODULE && t.typ != TAG_MODULE && IsModule(tags, k, i)
    ensures IsModule(tags[c := t], k, i)
  {
    if c < k {
      SetOther(tags[..k], c, t);
      assert tags[c := t][..k] == tags[..k][c := t];
    } else {
      assert tags[c := t][..k] == tags[..k];
    }
  }

  // Where the command line is once module tag k is gone.
  lemma DropModule(tags: seq<Tag>, k: nat, i: nat)
    requires IsModule(tags, k, i) && Find(tags, 0, TAG_CMDLINE) < |tags|
    ensures var c := Find(tags, 0, TAG_CMDLINE); var rest := Without(tags, i);
            var now := if c < k then c else c - 1;
            rest == tags[..k] + tags[k + 1..] && now < |rest| && Find(rest, 0, TAG_CMDLINE) == now && rest[now] == tags[c]
  {
    hide Modules;
    WithoutAt(tags, k, i);
    var c := Find(tags, 0, TAG_CMDLINE);
    FindIs(tags[..k] + tags[k + 1..], 0, if c < k then c else c - 1, TAG_CMDLINE);
  }

  lemma {:induction false} FindIs(tags: seq<Tag>, k: nat, j: nat, typ: nat)
    requires k <= j < |tags| && tags[j].typ == typ && forall i :: k <= i < j ==> tags[i].typ != typ
    ensures Find(tags, k, typ) == j
    decreases j - k
  {
    if k < j {
      FindIs(tags, k + 1, j, typ);
    }
  }

  // Assembling FirstRemoved from the steps: the line written in place or not, the
  // module tag dropped, and the command line tag replaced by t.
  lemma FirstRemovedBy(tags: seq<Tag>, k: nat, now: seq<Tag>)
    requires AllSound(tags) && IsModule(tags, k, 0) && Find(tags, 0, TAG_CMDLINE) < |tags|
    requires var rest := tags[..k] + tags[k + 1..]; var c := Find(rest, 0, TAG_CMDLINE);
             var line, old' := ModuleLine(tags[k]), tags[Find(tags, 0, TAG_CMDLINE)];
             && c < |rest| && |now| == |rest| && now == rest[c := now[c]]
             && now[c].typ == TAG_CMDLINE && Sound(now[c])
             && (if |line| <= |Str(old'.data)| then now[c].data == line + [0] + old'.data[|line| + 1..]
                 else if |line| >= CMDLINE_SIZE then now[c] == old'
                 else now[c].size == old'.size + |line| - |Str(old'.data)| && Str(now[c].data) == line)
    ensures Modules(tags) != [] && ModulesReadable(Modules(tags)) && FirstRemoved(tags, now) && AllSound(now)
  {
    hide Str, StrLen, Modules, Without, Find;
    ModuleIs(tags, k, 0);
    ModulesAreReadable(tags);
    DropModule(tags, k, 0);
  }

  // Every module but the first can be named by its start address.
  ghost predicate DistinctStarts(mods: seq<Tag>)
    requires ModulesReadable(mods)
  {
    && (forall j :: 0 < j < |mods| ==> StartOf(mods[j]) != 0)
    && (forall j, k :: 0 <= k < j < |mods| ==> StartOf(mods[k]) != StartOf(mods[j]))
  }

  predicate Drops(t: Tag, drop: (nat, nat) -> bool)
    requires |t.data| >= 8
  {
    drop(StartOf(t), SizeOfModule(t))
  }

  lemma Readable(mods: seq<Tag>, i: nat)
    requires ModulesReadable(mods) && i < |mods|
    ensures |mods[i].data| > 8 && ModulesReadable(mods[i..]) && ModulesReadable(mods[i + 1..])
  {
  }

  // One round of the removal loop: modules i + 1 on have been filtered, module i is next.
  lemma FilterNext(mods: seq<Tag>, i: nat, drop: (nat, nat) -> bool, now: seq<Tag>)
    requires ModulesReadable(mods) && 0 < i < |mods| && DistinctStarts(mods)
    requires now == mods[..i + 1] + Kept(mods[i + 1..], drop)
    ensures i < |now| && now[i] == mods[i] && ModulesReadable(now)
    ensures |mods[i].data| > 8 && ModulesReadable(mods[i..])
    ensures StartOf(mods[i]) != 0 && Chosen(now, StartOf(mods[i]), 0) == i
    ensures Drops(mods[i], drop) ==> now[..i] + now[i + 1..] == mods[..i] + Kept(mods[i..], drop)
    ensures !Drops(mods[i], drop) ==> now == mods[..i] + Kept(mods[i..], drop)
  {
    hide *;
    Readable(mods, i);
    var rest := Kept(mods[i + 1..], drop);
    KeptReadable(mods[i + 1..], drop);
    ChosenNext(mods, i, rest);
    KeptFirst(mods, i, drop);
    FilterSeqs(mods, i, rest, now);
  }

  lemma KeptFirst(mods: seq<Tag>, i: nat, drop: (nat, nat) -> bool)
    requires ModulesReadable(mods) && i < |mods|
    ensures Drops(mods[i], drop) ==> Kept(mods[i..], drop) == Kept(mods[i + 1..], drop)
    ensures !Drops(mods[i], drop) ==> Kept(mods[i..], drop) == [mods[i]] + Kept(mods[i + 1..], drop)
  {
    assert mods[i..][1..] == mods[i + 1..];
  }

  lemma FilterSeqs(mods: seq<Tag>, i: nat, rest: seq<Tag>, now: seq<Tag>)
    requires i < |mods| && now == mods[..i + 1] + rest
    ensures now[i] == mods[i] && now[..i] + now[i + 1..] == mods[..i] + rest && now == mods[..i] + ([mods[i]] + rest)
  {
  }

  lemma ChosenNext(mods: seq<Tag>, i: nat, rest: seq<Tag>)
    requires ModulesReadable(mods) && ModulesReadable(rest) && 0 < i < |mods| && DistinctStarts(mods)
    ensures ModulesReadable(mods[..i + 1] + rest)
    ensures StartOf(mods[i]) != 0 && Chosen(mods[..i + 1] + rest, StartOf(mods[i]), 0) == i
  {
    var now := mods[..i + 1] + rest;
    assert forall k | 0 <= k <= i :: now[k] == mods[k];
    assert forall k | i < k < |now| :: now[k] == rest[k - i - 1];
    assert StartOf(mods[i]) != 0;
    assert forall k | 0 <= k < i :: StartOf(now[k]) == StartOf(mods[k]);
    ChosenIs(now, 0, i);
  }

  lemma KeptNone(mods: seq<Tag>, drop: (nat, nat) -> bool)
    requires ModulesReadable(mods) && mods != []
    ensures mods[..|mods|] + Kept(mods[|mods|..], drop) == mods
  {
  }

  lemma {:induction false} KeptReadable(mods: seq<Tag>, drop: (nat, nat) -> bool)
    requires ModulesReadable(mods)
    ensures ModulesReadable(Kept(mods, drop))
  {
    if mods != [] {
      KeptReadable(mods[1..], drop);
    }
  }
}
