/** The loader's module list in its first format: an array of records and a count. */
module Mb1Modules {

  datatype Module = Module(start: nat, end: nat, line: nat)

  // The first module with the start given; no start means the first module, and a start
  // that no module has means the last one.
  function Chosen(mods: seq<Module>, start: nat, i: nat): (c: nat)
    requires i < |mods|
    ensures i <= c < |mods|
    decreases |mods| - i
  {
    if start == 0 || mods[i].start == start || i == |mods| - 1 then i else Chosen(mods, start, i + 1)
  }

  lemma {:induction false} ChosenIs(mods: seq<Module>, i: nat, j: nat)
    requires i <= j < |mods| && mods[j].start != 0
    requires forall k :: i <= k < j ==> mods[k].start != mods[j].start
    ensures Chosen(mods, mods[j].start, i) == j
    decreases j - i
  {
    if i < j {
      ChosenIs(mods, i + 1, j);
    }
  }

  function Drop(mods: seq<Module>, i: nat): seq<Module>
    requires i < |mods|
  {
    mods[..i] + mods[i + 1..]
  }

  predicate IsSinit(m: Module, test: (nat, nat) -> bool) {
    test(m.start, (m.end - m.start) % 0x1_0000_0000)
  }

  function Kept(mods: seq<Module>, test: (nat, nat) -> bool): seq<Module> {
    if mods == [] then []
    else if IsSinit(mods[0], test) then Kept(mods[1..], test)
    else [mods[0]] + Kept(mods[1..], test)
  }

  // An area of n bytes from start ends at end, on 32-bit addresses.
  ghost predicate Spans(start: nat, n: nat, end: nat) {
    n < 0x1_0000_0000 && exists wraps: int :: start + n == end + wraps * 0x1_0000_0000
  }

  lemma SizeSpans(m: Module, n: nat)
    ensures Spans(m.start, n, m.end) <==> n == (m.end - m.start) % 0x1_0000_0000
  {
    var x := m.end - m.start;
    var q, d := x / 0x1_0000_0000, x % 0x1_0000_0000;
    assert m.start + d == m.end + -q * 0x1_0000_0000;
    if Spans(m.start, n, m.end) {
      var wraps: int :| m.start + n == m.end + wraps * 0x1_0000_0000;
      assert (-wraps - q) * 0x1_0000_0000 == d - n;
    }
  }

  /** The test is put to the start of a module and its size: for a module that ends n bytes
      behind its start, also past 2^32, the size is n. */
  lemma TestGetsSize(start: nat, n: nat, line: nat, test: (nat, nat) -> bool)
    requires n < 0x1_0000_0000
    ensures IsSinit(Module(start, (start + n) % 0x1_0000_0000, line), test) <==> test(start, n)
    ensures IsSinit(Module(start, start + n, line), test) <==> test(start, n)
  {
    var q := (start + n) / 0x1_0000_0000;
    var m := Module(start, (start + n) % 0x1_0000_0000, line);
    assert start + n == m.end + q * 0x1_0000_0000;
    SizeSpans(m, n);
  }

  // The modules whose start and size the test does not accept, in order.
  ghost function Refused(mods: seq<Module>, test: (nat, nat) -> bool): seq<Module> {
    if mods == [] then []
    else
      (if exists n: nat :: Spans(mods[0].start, n, mods[0].end) && test(mods[0].start, n) then [] else [mods[0]])
      + Refused(mods[1..], test)
  }

  lemma {:induction false} KeptIsRefused(mods: seq<Module>, test: (nat, nat) -> bool)
    ensures Kept(mods, test) == Refused(mods, test)
  {
    if mods != [] {
      KeptIsRefused(mods[1..], test);
      SizeSpans(mods[0], (mods[0].end - mods[0].start) % 0x1_0000_0000);
      forall n: nat | Spans(mods[0].start, n, mods[0].end) ensures n == (mods[0].end - mods[0].start) % 0x1_0000_0000 {
        SizeSpans(mods[0], n);
      }
    }
  }

  // No start given means the first module, and a start that no module has means the last.
  lemma {:induction false} ChosenElse(mods: seq<Module>, start: nat, i: nat)
    requires i < |mods|
    ensures start == 0 ==> Chosen(mods, start, i) == i
    ensures start != 0 && (forall j :: i <= j < |mods| ==> mods[j].start != start) ==>
              Chosen(mods, start, i) == |mods| - 1
    decreases |mods| - i
  {
    if i < |mods| - 1 {
      ChosenElse(mods, start, i + 1);
    }
  }

  predicate DistinctStarts(mods: seq<Module>) {
    && (forall j :: 0 < j < |mods| ==> mods[j].start != 0)
    && (forall j, k :: 0 <= k < j < |mods| ==> mods[k].start != mods[j].start)
  }

  // Modules 0 to i as they were, and of those above only the ones to keep.
  function Filtered(mods: seq<Module>, i: nat, test: (nat, nat) -> bool): seq<Module>
    requires i < |mods|
  {
    mods[..i + 1] + Kept(mods[i + 1..], test)
  }

  lemma FilteredLast(mods: seq<Module>, test: (nat, nat) -> bool)
    requires mods != []
    ensures Filtered(mods, |mods| - 1, test) == mods
  {
    KeptNone(mods, test);
  }

  lemma FilteredFirst(mods: seq<Module>, test: (nat, nat) -> bool)
    requires mods != []
    ensures Filtered(mods, 0, test) == [mods[0]] + Kept(mods[1..], test)
  {
  }

  // One round of the removal loop: modules i + 1 on have been filtered, module i is next.
  lemma FilterNext(mods: seq<Module>, i: nat, test: (nat, nat) -> bool, now: seq<Module>)
    requires 0 < i < |mods| && DistinctStarts(mods) && now == Filtered(mods, i, test)
    ensures mods[i].start != 0 && now[i] == mods[i] && Chosen(now, mods[i].start, 0) == i
    ensures i < |now| && (if IsSinit(mods[i], test) then Drop(now, i) else now) == Filtered(mods, i - 1, test)
  {
    var rest := Kept(mods[i + 1..], test);
    NowSeqs(mods, i, rest);
    assert now[i] == mods[i] && forall k :: 0 <= k < i ==> now[k].start != now[i].start;
    hide IsSinit, DistinctStarts, Chosen;
    ChosenIs(now, 0, i);
    hide Kept;
    KeptFirst(mods, i, test);
  }

  lemma NowSeqs(mods: seq<Module>, i: nat, rest: seq<Module>)
    requires i < |mods|
    ensures var now := mods[..i + 1] + rest;
            && now == mods[..i] + ([mods[i]] + rest) && now[..i] + now[i + 1..] == mods[..i] + rest
            && forall k :: 0 <= k <= i ==> now[k] == mods[k]
  {
  }

  lemma KeptFirst(mods: seq<Module>, i: nat, test: (nat, nat) -> bool)
    requires i < |mods|
    ensures Kept(mods[i..], test) ==
            if IsSinit(mods[i], test) then Kept(mods[i + 1..], test) else [mods[i]] + Kept(mods[i + 1..], test)
  {
    assert mods[i..][1..] == mods[i + 1..];
  }

  class Mbi {
    const mods: array<Module>
    var count: nat
    var cmdline: nat
    var hasCmdline: bool

    ghost predicate Valid()
      reads this
    {
      count <= mods.Length
    }

    function Modules(): seq<Module>
      requires Valid()
      reads this, mods
    {
      mods[..count]
    }

    // The search of remove_module.
    method ChooseModule(start: nat) returns (c: nat)
      requires Valid() && count > 0
      ensures c < count && c == Chosen(Modules(), start, 0) && (start == 0 ==> c == 0)
    {
      ghost var was := Modules();
      c := 0;
      var i := 0;
      while i < count
        invariant i <= count && (i > 0 ==> c == i - 1 && start != 0 && was[c].start != start)
        invariant i > 0 ==> Chosen(was, start, c) == Chosen(was, start, 0)
      {
        c := i;
        if start == 0 || mods[c].start == start {
          break;
        }
        i := i + 1;
      }
    }

    // Removes a module: the ones after it move down by one. Removing the first one makes
    // its string the command line. Null, that is 0, when there is no module.
    method RemoveModule(start: nat) returns (r: nat)
      requires Valid()
      modifies this, mods
      ensures Valid()
      ensures old(Modules()) == [] ==> r == 0 && Modules() == []
      ensures old(Modules()) != [] ==>
                var c := Chosen(old(Modules()), start, 0);
                Modules() == Drop(old(Modules()), c) && r == if start == 0 then old(Modules())[0].start else start
      ensures old(Modules()) != [] && start == 0 ==> cmdline == old(Modules())[0].line && hasCmdline
      ensures old(Modules()) == [] || start != 0 ==> cmdline == old(cmdline) && hasCmdline == old(hasCmdline)
    {
      if count < 1 {
        return 0;
      }
      hide Chosen;
      var c := ChooseModule(start);
      r := start;
      if start == 0 {
        cmdline, hasCmdline := mods[c].line, true;
        r := mods[c].start;
      }
      MoveDown(c);
      count := count - 1;
    }

    // The memmove over module c.
    method MoveDown(c: nat)
      requires Valid() && c < count
      modifies mods
      ensures mods[..count - 1] == old(mods[..c] + mods[c + 1..count])
    {
      var j := c;
      while j + 1 < count
        invariant c <= j < count
        invariant forall k :: 0 <= k < c || j <= k < count ==> mods[k] == old(mods[k])
        invariant forall k :: c <= k < j ==> mods[k] == old(mods[k + 1])
      {
        mods[j] := mods[j + 1];
        j := j + 1;
      }
    }

    // Removes the modules after the first that are SINIT modules by the test given.
    method RemoveTxtModules(test: (nat, nat) -> bool) returns (ok: bool)
      requires Valid() && DistinctStarts(Modules())
      modifies this, mods
      ensures Valid() && (ok <==> old(Modules()) != [])
      ensures ok ==> Modules() == [old(Modules())[0]] + Refused(old(Modules())[1..], test)
      ensures !ok ==> Modules() == []
      ensures cmdline == old(cmdline) && hasCmdline == old(hasCmdline)
    {
      if count == 0 {
        return false;
      }
      ghost var was := Modules();
      var i: nat := count - 1;
      assert i == |was| - 1;
      hide *;
      FilteredLast(was, test);
      while i > 0
        invariant Valid() && i < |was| && Modules() == Filtered(was, i, test)
        invariant cmdline == old(cmdline) && hasCmdline == old(hasCmdline)
      {
        FilterNext(was, i, test, Modules());
        RemoveIfSinit(i, test);
        i := i - 1;
      }
      FilteredFirst(was, test);
      KeptIsRefused(was[1..], test);
      ok := true;
    }

    // One round of the loop: the start of module i chooses module i.
    method RemoveIfSinit(i: nat, test: (nat, nat) -> bool)
      requires Valid() && 0 < i < |Modules()| && Modules()[i].start != 0 && Chosen(Modules(), Modules()[i].start, 0) == i
      modifies this, mods
      ensures Valid() && cmdline == old(cmdline) && hasCmdline == old(hasCmdline)
      ensures Modules() == if IsSinit(old(Modules()[i]), test) then Drop(old(Modules()), i) else old(Modules())
    {
      hide Chosen, IsSinit, Drop;
      var m := mods[i];
      if IsSinit(m, test) {
        var r := RemoveModule(m.start);
        // The caller's failure branch is for a null result.
        assert r != 0;
      }
    }
  }

  lemma KeptNone(mods: seq<Module>, test: (nat, nat) -> bool)
    ensures mods[..|mods|] + Kept(mods[|mods|..], test) == mods
  {
  }
}
