/** Restricting a PCR selection in place to the banks a TPM has. */
module PcrSelection {

  const SELECT_MAX: nat := 4

  // A bank: its hash algorithm, 0 for a removed entry, and a mask of size bytes in a
  // fixed array.
  datatype Selection = Selection(hash: nat, size: nat, mask: seq<bv8>)

  predicate Shaped(s: Selection) {
    |s.mask| == SELECT_MAX && s.size <= SELECT_MAX
  }

  predicate AllShaped(sels: seq<Selection>) {
    forall i :: 0 <= i < |sels| ==> Shaped(sels[i])
  }

  // The first assigned bank of an algorithm, or the length of the list.
  function FirstMatch(cap: seq<Selection>, hash: nat, j: nat): (r: nat)
    requires j <= |cap|
    ensures j <= r <= |cap| && (r < |cap| ==> cap[r].hash == hash)
    ensures forall i :: j <= i < r ==> cap[i].hash != hash
    decreases |cap| - j
  {
    if j == |cap| || cap[j].hash == hash then j else FirstMatch(cap, hash, j + 1)
  }

  // s with the first k bytes of its mask intersected with those of a.
  function Masked(s: Selection, a: Selection, k: nat): (r: Selection)
    requires Shaped(s) && Shaped(a) && k <= s.size
    ensures Shaped(r) && r.hash == s.hash
  {
    s.(mask := seq(SELECT_MAX, i requires 0 <= i < SELECT_MAX => if i < k then s.mask[i] & a.mask[i] else s.mask[i]))
  }

  // What becomes of one requested bank.
  function Restricted(s: Selection, cap: seq<Selection>): (r: Selection)
    requires Shaped(s) && AllShaped(cap)
    ensures Shaped(r)
  {
    var j := FirstMatch(cap, s.hash, 0);
    if j < |cap| then Masked(s, cap[j], s.size) else s.(hash := 0)
  }

  function AllRestricted(sels: seq<Selection>, cap: seq<Selection>): (r: seq<Selection>)
    requires AllShaped(sels) && AllShaped(cap)
    ensures |r| == |sels| && AllShaped(r) && forall i :: 0 <= i < |sels| ==> r[i] == Restricted(sels[i], cap)
  {
    seq(|sels|, i requires 0 <= i < |sels| => Restricted(sels[i], cap))
  }

  // The entries that are not removed, in order.
  function Live(sels: seq<Selection>): seq<Selection> {
    if sels == [] then []
    else
      var last := sels[|sels| - 1];
      Live(sels[..|sels| - 1]) + if last.hash != 0 then [last] else []
  }

  lemma LiveNext(sels: seq<Selection>, j: nat)
    requires j < |sels|
    ensures Live(sels[..j + 1]) == Live(sels[..j]) + if sels[j].hash != 0 then [sels[j]] else []
  {
    assert sels[..j + 1][..j] == sels[..j];
  }

  lemma {:induction false} LiveNone(sels: seq<Selection>, i: nat, j: nat)
    requires i <= j <= |sels| && forall k :: i <= k < j ==> sels[k].hash == 0
    ensures Live(sels[..j]) == Live(sels[..i])
    decreases j - i
  {
    if i < j {
      LiveNone(sels, i, j - 1);
      LiveNext(sels, j - 1);
    }
  }

  lemma {:induction false} LiveAll(sels: seq<Selection>)
    requires forall k :: 0 <= k < |sels| ==> sels[k].hash != 0
    ensures Live(sels) == sels
  {
    if sels != [] {
      LiveAll(sels[..|sels| - 1]);
    }
  }

  // The first j entries of was have been compacted into the first i; the entries from
  // there to j are removed ones.
  ghost predicate Compacting(was: seq<Selection>, i: nat, j: nat, now: seq<Selection>) {
    && i <= j <= |was| == |now| && now[..i] == Live(was[..j]) && now[j..] == was[j..]
    && forall k :: i <= k < j ==> now[k].hash == 0
  }

  lemma Started(was: seq<Selection>, i: nat)
    requires i < |was| && was[i].hash == 0 && forall k :: 0 <= k < i ==> was[k].hash != 0
    ensures Compacting(was, i, i + 1, was)
  {
    LiveAll(was[..i]);
    LiveNext(was, i);
  }

  lemma Empty(was: seq<Selection>, i: nat, j: nat, now: seq<Selection>)
    requires i < j <= |was| && Compacting(was, i, j, now)
    ensures now[i].hash == 0
  {
  }

  lemma Skipped(was: seq<Selection>, i: nat, from: nat, j: nat, now: seq<Selection>)
    requires Compacting(was, i, from, now) && from <= j <= |was|
    requires forall k :: from <= k < j ==> now[k].hash == 0
    ensures Compacting(was, i, j, now)
  {
    assert forall k | from <= k < |was| :: was[k] == was[from..][k - from] && now[k] == now[from..][k - from];
    LiveNone(was, from, j);
    assert now[j..] == was[j..];
  }

  lemma Moved(was: seq<Selection>, i: nat, j: nat, before: seq<Selection>, now: seq<Selection>)
    requires Compacting(was, i, j, before) && i < j < |was| && before[j].hash != 0
    requires now == before[i := before[j]][j := before[j].(hash := 0)]
    ensures Compacting(was, i + 1, j + 1, now)
  {
    assert was[j] == was[j..][0] == before[j..][0];
    LiveNext(was, j);
    assert now[..i + 1] == before[..i] + [before[j]];
    assert now[j + 1..] == before[j..][1..] && was[j + 1..] == was[j..][1..];
  }

  lemma Compacted(was: seq<Selection>, i: nat, now: seq<Selection>)
    requires Compacting(was, i, |was|, now)
    ensures i <= |now| && now[..i] == Live(was)
  {
    assert was[..|was|] == was;
  }

  class Request {
    const pcrSelections: array<Selection>
    var count: nat

    ghost predicate Valid()
      reads this
    {
      count <= pcrSelections.Length
    }

    function Banks(): seq<Selection>
      requires Valid()
      reads this, pcrSelections
    {
      pcrSelections[..count]
    }

    constructor (banks: array<Selection>, count: nat)
      requires count <= banks.Length
      ensures Valid() && pcrSelections == banks && this.count == count
    {
      this.pcrSelections, this.count := banks, count;
    }

    // The next entry from j on that is not removed.
    method NextLive(j: nat) returns (r: nat)
      requires Valid() && j <= count
      ensures j <= r <= count && (r < count ==> pcrSelections[r].hash != 0)
      ensures forall k :: j <= k < r ==> pcrSelections[k].hash == 0
    {
      r := j;
      while r < count && pcrSelections[r].hash == 0
        invariant j <= r <= count && forall k :: j <= k < r ==> pcrSelections[k].hash == 0
      {
        r := r + 1;
      }
    }

    // The first removed entry.
    method FirstRemoved() returns (i: nat)
      requires Valid()
      ensures i <= count && (i < count ==> pcrSelections[i].hash == 0)
      ensures forall k :: 0 <= k < i ==> pcrSelections[k].hash != 0
    {
      i := 0;
      while i < count && pcrSelections[i].hash != 0
        invariant i <= count && forall k :: 0 <= k < i ==> pcrSelections[k].hash != 0
      {
        i := i + 1;
      }
    }

    // Moves the remaining entries together.
    method Shrink()
      requires Valid()
      modifies this`count, pcrSelections
      ensures Valid() && Banks() == Live(old(Banks()))
    {
      hide Live, Compacting;
      ghost var was := pcrSelections[..count];
      var i := FirstRemoved();
      if i == count {
        LiveAll(was);
        return;
      }
      var j := i + 1;
      Started(was, i);
      while i < count
        invariant i < j && (i < count ==> j <= count) && Valid() && count == |was|
        invariant Compacting(was, i, if j < count then j else count, Banks())
      {
        Empty(was, i, j, Banks());
        if pcrSelections[i].hash == 0 {
          ghost var now, from := Banks(), j;
          j := NextLive(j);
          Skipped(was, i, from, j, now);
          if j >= count {
            break;
          }
          pcrSelections[i] := pcrSelections[j];
          pcrSelections[j] := pcrSelections[j].(hash := 0);
          Moved(was, i, j, now, Banks());
          j := j + 1;
        }
        i := i + 1;
      }
      Compacted(was, i, Banks());
      count := i;
    }

    // One round of the outer loop of pcr_check_pcr_selection.
    method Restrict(i: nat, cap: seq<Selection>)
      requires Valid() && i < count && AllShaped(cap) && Shaped(pcrSelections[i])
      modifies pcrSelections
      ensures forall k :: 0 <= k < pcrSelections.Length ==>
                pcrSelections[k] == if k == i then Restricted(old(pcrSelections[i]), cap) else old(pcrSelections[k])
    {
      ghost var s := pcrSelections[i];
      var j := 0;
      while j < |cap|
        invariant j <= |cap| && FirstMatch(cap, s.hash, j) == FirstMatch(cap, s.hash, 0)
        invariant forall k :: 0 <= k < pcrSelections.Length ==> pcrSelections[k] == old(pcrSelections[k])
      {
        if pcrSelections[i].hash == cap[j].hash {
          var k := 0;
          assert pcrSelections[i] == Masked(s, cap[j], 0);
          while k < pcrSelections[i].size
            invariant k <= s.size && pcrSelections[i] == Masked(s, cap[j], k)
            invariant forall m :: 0 <= m < pcrSelections.Length && m != i ==> pcrSelections[m] == old(pcrSelections[m])
            decreases s.size - k
          {
            var now := pcrSelections[i];
            pcrSelections[i] := now.(mask := now.mask[k := now.mask[k] & cap[j].mask[k]]);
            assert pcrSelections[i].mask == Masked(s, cap[j], k + 1).mask;
            k := k + 1;
          }
          return;
        }
        j := j + 1;
      }
      pcrSelections[i] := pcrSelections[i].(hash := 0);
    }

    // Leaves exactly the requested banks that are assigned, each restricted to the
    // first assigned mask; false when none is left.
    method CheckPcrSelection(cap: seq<Selection>) returns (ok: bool)
      requires Valid() && AllShaped(cap) && AllShaped(Banks())
      modifies this`count, pcrSelections
      ensures Valid() && Banks() == Live(AllRestricted(old(Banks()), cap))
      ensures ok <==> Banks() != []
    {
      ghost var was := Banks();
      var i := 0;
      while i < count
        invariant i <= count == |was|
        invariant forall k :: 0 <= k < count ==> pcrSelections[k] == if k < i then Restricted(was[k], cap) else was[k]
      {
        Restrict(i, cap);
        i := i + 1;
      }
      assert Banks() == AllRestricted(was, cap);
      Shrink();
      ok := count != 0;
    }
  }

  ghost predicate Assigned(s: Selection, cap: seq<Selection>) {
    s.hash != 0 && exists j :: 0 <= j < |cap| && cap[j].hash == s.hash
  }

  // The requested banks that the TPM has, as they were.
  ghost function Requested(sels: seq<Selection>, cap: seq<Selection>): seq<Selection> {
    if sels == [] then []
    else
      var last := sels[|sels| - 1];
      Requested(sels[..|sels| - 1], cap) + if Assigned(last, cap) then [last] else []
  }

  // The result, bank by bank: exactly the requested banks that are assigned, in order.
  lemma {:induction false} LiveIsRequested(sels: seq<Selection>, cap: seq<Selection>)
    requires AllShaped(sels) && AllShaped(cap)
    ensures AllShaped(Requested(sels, cap))
    ensures Live(AllRestricted(sels, cap)) == AllRestricted(Requested(sels, cap), cap)
  {
    if sels == [] {
      assert AllRestricted(sels, cap) == [];
    } else {
      var n, last := |sels| - 1, sels[|sels| - 1];
      LiveIsRequested(sels[..n], cap);
      hide Masked, FirstMatch;
      assert AllRestricted(sels, cap)[..n] == AllRestricted(sels[..n], cap);
      assert Shaped(last);
      var j := FirstMatch(cap, last.hash, 0);
      assert Restricted(last, cap).hash != 0 <==> Assigned(last, cap);
      var kept := Requested(sels[..n], cap);
      assert AllRestricted(kept + [last], cap) == AllRestricted(kept, cap) + [Restricted(last, cap)];
    }
  }

  // The mask of PCR number k of a byte.
  function PcrBit(k: nat): bv8
    requires k < 8
  {
    match k
    case 0 => 0x01
    case 1 => 0x02
    case 2 => 0x04
    case 3 => 0x08
    case 4 => 0x10
    case 5 => 0x20
    case 6 => 0x40
    case 7 => 0x80
  }

  // PCR p is set in the first bytes of a mask.
  predicate Selects(mask: seq<bv8>, size: nat, p: nat) {
    p / 8 < size <= |mask| && mask[p / 8] & PcrBit(p % 8) != 0
  }

  lemma BothBits(x: bv8, y: bv8, b: bv8)
    requires b in {0x01, 0x02, 0x04, 0x08, 0x10, 0x20, 0x40, 0x80}
    ensures (x & y) & b != 0 <==> x & b != 0 && y & b != 0
  {
  }

  /** PCR by PCR: a requested bank that is assigned keeps exactly the PCRs that were requested
      and are set in the mask of the first assigned bank of its algorithm. */
  lemma SelectedPcrs(s: Selection, cap: seq<Selection>, j: nat, p: nat)
    requires Shaped(s) && AllShaped(cap) && s.hash != 0
    requires j < |cap| && cap[j].hash == s.hash && forall i :: 0 <= i < j ==> cap[i].hash != s.hash
    ensures var r := Restricted(s, cap);
            && r.hash == s.hash && r.size == s.size
            && (Selects(r.mask, r.size, p) <==> Selects(s.mask, s.size, p) && Selects(cap[j].mask, SELECT_MAX, p))
  {
    assert FirstMatch(cap, s.hash, 0) == j;
    if p / 8 < s.size {
      BothBits(s.mask[p / 8], cap[j].mask[p / 8], PcrBit(p % 8));
    }
  }
}
