/** The secure launch resource table: a header and variable-size entries in one buffer,
    closed by an end marker.

    Pointers are indices into the buffer; 0 stands for null.
*/
module SlrTable {
  import opened LittleEndian

  const HEADER: nat := 16
  const MARKER: nat := 4
  const SLR_ENTRY_END: nat := 0xffff
  const SLR_TABLE_MAGIC: nat := 0x4452544d
  const SLR_TABLE_REVISION: nat := 1
  const WORD: nat := 0x1_0000_0000

  // An entry with its header: tag and size first.
  predicate IsEntry(e: seq<Byte>) {
    |e| >= MARKER && U16(e, 2) == |e| && U16(e, 0) != SLR_ENTRY_END
  }

  function EndMarker(): (m: seq<Byte>)
    ensures |m| == MARKER
  {
    Bytes16(SLR_ENTRY_END) + Bytes16(MARKER)
  }

  function Joined(entries: seq<seq<Byte>>): seq<Byte> {
    if entries == [] then [] else Joined(entries[..|entries| - 1]) + entries[|entries| - 1]
  }

  ghost predicate AllEntries(entries: seq<seq<Byte>>) {
    forall i :: 0 <= i < |entries| ==> IsEntry(entries[i])
  }

  // Where entry k begins, or the end marker for k past the last.
  function Position(entries: seq<seq<Byte>>, k: nat): nat
    requires k <= |entries|
  {
    HEADER + |Joined(entries[..k])|
  }

  // b holds the entries and nothing else up to its size field.
  ghost predicate Holds(b: seq<Byte>, entries: seq<seq<Byte>>) {
    && HEADER + MARKER <= |b| && AllEntries(entries)
    && (var n := Position(entries, |entries|);
        && U32(b, 8) == n + MARKER <= U32(b, 12) <= |b|
        && b[HEADER..n] == Joined(entries) && b[n..n + MARKER] == EndMarker())
  }

  lemma {:induction false} JoinedTake(entries: seq<seq<Byte>>, k: nat)
    requires k <= |entries|
    ensures |Joined(entries[..k])| <= |Joined(entries)| && Joined(entries)[..|Joined(entries[..k])|] == Joined(entries[..k])
    decreases |entries|
  {
    if k == |entries| {
      assert entries[..k] == entries;
    } else {
      var shorter := entries[..|entries| - 1];
      JoinedTake(shorter, k);
      assert shorter[..k] == entries[..k];
    }
  }

  // Entry k, read at its position.
  lemma AtEntry(b: seq<Byte>, entries: seq<seq<Byte>>, k: nat)
    requires Holds(b, entries) && k < |entries|
    ensures var p := Position(entries, k);
            && HEADER <= p && Position(entries, k + 1) == p + |entries[k]| <= U32(b, 8) - MARKER <= |b| - MARKER
            && b[p..p + |entries[k]|] == entries[k]
            && U16(b, p) == U16(entries[k], 0) && U16(b, p + 2) == |entries[k]|
  {
    var p, e := Position(entries, k), entries[k];
    var taken := Joined(entries[..k + 1]);
    JoinedTake(entries, k + 1);
    assert entries[..k + 1][..k] == entries[..k];
    assert taken == Joined(entries[..k]) + e;
    assert IsEntry(e);
    assert b[HEADER..HEADER + |taken|] == b[HEADER..Position(entries, |entries|)][..|taken|] by {
      assert entries[..|entries|] == entries;
    }
    assert b[p..p + |e|] == b[HEADER..HEADER + |taken|][p - HEADER..] == e;
    assert b[p] == e[0] && b[p + 1] == e[1] && b[p + 2] == e[2] && b[p + 3] == e[3];
  }

  lemma AtMarker(b: seq<Byte>, entries: seq<seq<Byte>>)
    requires Holds(b, entries)
    ensures var p := Position(entries, |entries|);
            HEADER <= p && p + MARKER == U32(b, 8) <= |b| && U16(b, p) == SLR_ENTRY_END && U16(b, p + 2) == MARKER
  {
    var p := Position(entries, |entries|);
    var m := b[p..p + MARKER];
    assert b[p] == m[0] && b[p + 1] == m[1] && b[p + 2] == m[2] && b[p + 3] == m[3];
    U16RoundTrip(SLR_ENTRY_END);
    U16RoundTrip(MARKER);
    assert EndMarker()[2..] == Bytes16(MARKER);
  }

  // The first entry with a tag from k on.
  function FirstTagged(entries: seq<seq<Byte>>, k: nat, tag: nat): (j: nat)
    requires k <= |entries| && forall i :: 0 <= i < |entries| ==> |entries[i]| >= 2
    ensures k <= j <= |entries| && (j < |entries| ==> U16(entries[j], 0) == tag)
    ensures forall i :: k <= i < j ==> U16(entries[i], 0) != tag
    decreases |entries| - k
  {
    if k == |entries| || U16(entries[k], 0) == tag then k else FirstTagged(entries, k + 1, tag)
  }

  // Adding appends when the sum of the sizes does not wrap and is within the limit.
  predicate Refused(size: nat, entrySize: nat, maxSize: nat) {
    (size + entrySize) % WORD > maxSize
  }

  // The 32-bit sum in the check is the true one exactly when it does not wrap.
  lemma RefusedExactly(size: nat, entrySize: nat, maxSize: nat)
    requires 0 < size <= maxSize < WORD && entrySize < 0x1_0000
    ensures (Refused(size, entrySize, maxSize) <==> size + entrySize > maxSize) <==> size + entrySize < WORD
  {
  }

  class Table {
    const buf: array<Byte>
    ghost var entries: seq<seq<Byte>>

    ghost predicate Valid()
      reads this, buf
    {
      buf.Length < WORD - 0xffff && Holds(buf[..], entries)
    }

    function Size(): nat
      requires buf.Length >= HEADER
      reads buf
    {
      U32(buf[..], 8)
    }

    function MaxSize(): nat
      requires buf.Length >= HEADER
      reads buf
    {
      U32(buf[..], 12)
    }

    constructor (buf: array<Byte>)
      requires buf.Length >= HEADER
      ensures this.buf == buf && entries == []
    {
      this.buf, entries := buf, [];
    }

    method Store(p: nat, field: seq<Byte>)
      requires p + |field| <= buf.Length
      modifies buf
      ensures forall i :: 0 <= i < buf.Length ==>
                buf[i] == if p <= i < p + |field| then field[i - p] else old(buf[i])
    {
      var k := 0;
      while k < |field|
        invariant k <= |field|
        invariant forall i :: 0 <= i < buf.Length ==> buf[i] == if p <= i < p + k then field[i - p] else old(buf[i])
      {
        buf[p + k] := field[k];
        k := k + 1;
      }
    }

    method InitTable(architecture: nat, maxSize: nat)
      requires HEADER + MARKER <= maxSize <= buf.Length < WORD - 0xffff && architecture < 0x1_0000
      modifies this`entries, buf
      ensures Valid() && entries == [] && MaxSize() == maxSize && Size() == HEADER + MARKER
      ensures U32(buf[..], 0) == 0x4452544d && U16(buf[..], 4) == 1 && U16(buf[..], 6) == architecture
    {
      hide U32, U16, Bytes32, Bytes16;
      Store(0, Bytes32(SLR_TABLE_MAGIC));
      Store(4, Bytes16(SLR_TABLE_REVISION));
      Store(6, Bytes16(architecture));
      Store(8, Bytes32(HEADER + MARKER));
      Store(12, Bytes32(maxSize));
      Store(HEADER, EndMarker());
      entries := [];
      FieldIs(buf[..], 0, SLR_TABLE_MAGIC);
      ShortFieldIs(buf[..], 4, SLR_TABLE_REVISION);
      ShortFieldIs(buf[..], 6, architecture);
      FieldIs(buf[..], 8, HEADER + MARKER);
      FieldIs(buf[..], 12, maxSize);
      assert buf[..][HEADER..HEADER + MARKER] == EndMarker();
    }

    // Appends an entry over the end marker and closes the table again; a refused entry
    // changes nothing.
    method AddEntry(entry: seq<Byte>) returns (ok: bool)
      requires Valid() && IsEntry(entry) && |entry| < 0x1_0000
      modifies this`entries, buf
      ensures Valid() && MaxSize() == old(MaxSize()) && buf[..8] == old(buf[..8])
      ensures ok <==> old(Size()) + |entry| <= MaxSize()
      ensures ok ==> entries == old(entries) + [entry] && Size() == old(Size()) + |entry|
      ensures !ok ==> entries == old(entries) && buf[..] == old(buf[..])
    {
      hide U32, U16, Bytes32, Bytes16, EndMarker;
      var size := Size();
      RefusedExactly(size, |entry|, MaxSize());
      if Refused(size, |entry|, MaxSize()) {
        return false;
      }
      ghost var b := buf[..];
      Store(size - MARKER, entry);
      Store(8, Bytes32(size + |entry|));
      Store(size + |entry| - MARKER, EndMarker());
      Appended(b, entries, entry, buf[..]);
      entries := entries + [entry];
      ok := true;
    }

    // The entry after entry k, or after the end marker of an empty table.
    method NextEntry(curr: nat, ghost k: nat) returns (next: nat)
      requires Valid() && k <= |entries| && curr == Position(entries, k)
      ensures next == if k + 1 < |entries| then Position(entries, k + 1) else 0
    {
      hide U32, U16, Position;
      WhatFollows(buf[..], entries, k);
      next := curr + U16(buf[..], curr + 2);
      if next >= Size() || U16(buf[..], next) == SLR_ENTRY_END {
        return 0;
      }
    }

    // The first entry with the tag from the one given on, or from the start.
    method NextEntryByTag(start: nat, tag: nat, ghost k: nat) returns (entry: nat)
      requires Valid() && tag != SLR_ENTRY_END
      requires start == 0 ==> k == 0
      requires start != 0 ==> k < |entries| && start == Position(entries, k)
      ensures forall i :: 0 <= i < |entries| ==> |entries[i]| >= 2
      ensures var j := FirstTagged(entries, k, tag);
              entry == if j < |entries| then Position(entries, j) else 0
    {
      assert forall i | 0 <= i < |entries| :: IsEntry(entries[i]);
      hide U32, U16, Holds;
      entry := if start == 0 then HEADER else start;
      ghost var j := k;
      while true
        invariant j <= |entries| && entry == Position(entries, j)
        invariant FirstTagged(entries, j, tag) == FirstTagged(entries, k, tag)
        decreases |entries| - j
      {
        TagAt(buf[..], entries, j);
        if U16(buf[..], entry) == tag {
          return;
        }
        entry := NextEntry(entry, j);
        if entry == 0 {
          Passed(buf[..], entries, j, tag);
          return;
        }
        j := j + 1;
      }
    }
  }

  // The tag and size found at position k, the end marker for k past the last entry.
  lemma TagAt(b: seq<Byte>, entries: seq<seq<Byte>>, k: nat)
    requires Holds(b, entries) && k <= |entries|
    ensures var p := Position(entries, k);
            && HEADER <= p && p + MARKER <= U32(b, 8) <= |b|
            && (k == |entries| ==> U16(b, p) == SLR_ENTRY_END && U16(b, p + 2) == MARKER && p + MARKER == U32(b, 8))
            && (k < |entries| ==> U16(b, p) == U16(entries[k], 0) != SLR_ENTRY_END && U16(b, p + 2) == |entries[k]|)
  {
    hide Holds, U16, U32, Position;
    if k < |entries| {
      AtEntry(b, entries, k);
      assert IsEntry(entries[k]) by { OneEntry(b, entries, k); }
    } else {
      AtMarker(b, entries);
    }
  }

  lemma OneEntry(b: seq<Byte>, entries: seq<seq<Byte>>, k: nat)
    requires Holds(b, entries) && k < |entries|
    ensures IsEntry(entries[k])
  {
  }

  // What slr_next_entry looks at.
  lemma WhatFollows(b: seq<Byte>, entries: seq<seq<Byte>>, k: nat)
    requires Holds(b, entries) && k <= |entries|
    ensures var p := Position(entries, k);
            && p + MARKER <= U32(b, 8) <= |b| && HEADER <= p
            && (k == |entries| ==> p + U16(b, p + 2) >= U32(b, 8))
            && (k < |entries| ==>
                  var q := p + U16(b, p + 2);
                  q == Position(entries, k + 1) && q + MARKER <= U32(b, 8)
                  && (U16(b, q) == SLR_ENTRY_END <==> k + 1 == |entries|))
  {
    hide Holds, U16, U32, Position;
    TagAt(b, entries, k);
    if k < |entries| {
      TagAt(b, entries, k + 1);
      AtEntry(b, entries, k);
    }
  }

  lemma Passed(b: seq<Byte>, entries: seq<seq<Byte>>, j: nat, tag: nat)
    requires Holds(b, entries) && j <= |entries| <= j + 1
    requires forall i :: 0 <= i < |entries| ==> |entries[i]| >= 2
    requires j < |entries| ==> U16(entries[j], 0) != tag
    ensures FirstTagged(entries, j, tag) == |entries|
  {
  }

  lemma JoinedOne(entries: seq<seq<Byte>>, e: seq<Byte>)
    ensures Joined(entries + [e]) == Joined(entries) + e
  {
    assert (entries + [e])[..|entries|] == entries;
  }

  // The effect of slr_add_entry on the bytes.
  lemma Appended(b: seq<Byte>, entries: seq<seq<Byte>>, e: seq<Byte>, now: seq<Byte>)
    requires Holds(b, entries) && IsEntry(e) && U32(b, 8) + |e| <= U32(b, 12) && |now| == |b|
    requires var n := U32(b, 8);
             forall i :: 0 <= i < |b| ==>
               now[i] == if n + |e| - MARKER <= i < n + |e| then EndMarker()[i - (n + |e| - MARKER)]
                         else if 8 <= i < 12 then Bytes32(n + |e|)[i - 8]
                         else if n - MARKER <= i < n - MARKER + |e| then e[i - (n - MARKER)]
                         else b[i]
    ensures Holds(now, entries + [e]) && U32(now, 8) == U32(b, 8) + |e| && U32(now, 12) == U32(b, 12)
  {
    hide Bytes32, EndMarker;
    var n := U32(b, 8);
    FieldIs(now, 8, n + |e|);
    JoinedOne(entries, e);
    assert entries[..|entries|] == entries && (entries + [e])[..|entries| + 1] == entries + [e];
    assert now[HEADER..n - MARKER + |e|] == b[HEADER..n - MARKER] + e;
    assert now[n + |e| - MARKER..n + |e|] == EndMarker();
  }

  lemma FieldIs(b: seq<Byte>, p: nat, x: nat)
    requires x < WORD && p + 4 <= |b| && forall i :: p <= i < p + 4 ==> b[i] == Bytes32(x)[i - p]
    ensures U32(b, p) == x
  {
    U32RoundTrip(x);
    assert b[p] == Bytes32(x)[0] && b[p + 1] == Bytes32(x)[1] && b[p + 2] == Bytes32(x)[2] && b[p + 3] == Bytes32(x)[3];
  }

  lemma ShortFieldIs(b: seq<Byte>, p: nat, x: nat)
    requires x < 0x1_0000 && p + 2 <= |b| && forall i :: p <= i < p + 2 ==> b[i] == Bytes16(x)[i - p]
    ensures U16(b, p) == x
  {
    U16RoundTrip(x);
    assert b[p] == Bytes16(x)[0] && b[p + 1] == Bytes16(x)[1];
  }
}
