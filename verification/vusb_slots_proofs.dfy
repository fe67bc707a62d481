/** What the operations on slots, grants and lists keep. */
module VusbSlots {
  import opened VusbDevice

  // ---- lists ----------------------------------------------------------------

  lemma {:induction false} WithoutCounts(s: seq<Ticket>, h: Ticket)
    ensures multiset(Without(s, h)) == multiset(s) - multiset{h}
  {
    if s != [] {
      assert s == [s[0]] + s[1..];
      if s[0] != h {
        WithoutCounts(s[1..], h);
      }
    }
  }

  lemma {:induction false} WithoutAbsent(s: seq<Ticket>, h: Ticket)
    requires h !in s
    ensures Without(s, h) == s
  {
    if s != [] {
      assert s[0] in s;
      forall x | x in s[1..] ensures x in s {}
      WithoutAbsent(s[1..], h);
    }
  }

  // ---- response ids of the finish list ----------------------------------------

  ghost function RspId(u: map<Ticket, Urbp>, h: Ticket): nat {
    if h in u then u[h].rspId else 0
  }

  ghost function FinishIds(u: map<Ticket, Urbp>, s: seq<Ticket>): (m: multiset<nat>)
    ensures |m| == |s|
  {
    if s == [] then multiset{} else multiset{RspId(u, s[0])} + FinishIds(u, s[1..])
  }

  lemma {:induction false} FinishIdsAppend(u: map<Ticket, Urbp>, s: seq<Ticket>, h: Ticket)
    ensures FinishIds(u, s + [h]) == FinishIds(u, s) + multiset{RspId(u, h)}
  {
    if s == [] {
      assert s + [h] == [h];
      assert FinishIds(u, [h][1..]) == multiset{};
    } else {
      assert (s + [h])[1..] == s[1..] + [h];
      FinishIdsAppend(u, s[1..], h);
    }
  }

  lemma {:induction false} FinishIdsFrame(u: map<Ticket, Urbp>, w: map<Ticket, Urbp>, s: seq<Ticket>)
    requires forall h :: h in s ==> RspId(u, h) == RspId(w, h)
    ensures FinishIds(u, s) == FinishIds(w, s)
  {
    if s != [] {
      assert s[0] in s;
      forall h | h in s[1..] ensures h in s {}
      FinishIdsFrame(u, w, s[1..]);
    }
  }

  lemma {:induction false} FinishIdsWithout(u: map<Ticket, Urbp>, s: seq<Ticket>, h: Ticket)
    requires h in s
    ensures FinishIds(u, s) == FinishIds(u, Without(s, h)) + multiset{RspId(u, h)}
  {
    if s[0] != h {
      var rest := s[1..];
      assert s == [s[0]] + rest;
      FinishIdsWithout(u, rest, h);
      var w := Without(rest, h);
      assert Without(s, h) == [s[0]] + w && ([s[0]] + w)[1..] == w;
      assert FinishIds(u, Without(s, h)) == multiset{RspId(u, s[0])} + FinishIds(u, w);
    }
  }

  // ---- grants -----------------------------------------------------------------

  ghost function GrantsOf(x: Shadow): multiset<Gref> {
    if x.inUse && !x.directData then multiset(x.grefs) else multiset{}
  }

  ghost function AllGrants(shadows: seq<Shadow>): multiset<Gref> {
    if shadows == [] then multiset{} else GrantsOf(shadows[0]) + AllGrants(shadows[1..])
  }

  lemma AddBefore<T>(a: multiset<T>, r: multiset<T>, x: multiset<T>, r1: multiset<T>, x1: multiset<T>)
    requires r1 + x1 == r + x
    ensures (a + r1) + x1 == (a + r) + x
  {
    assert (a + r1) + x1 == a + (r1 + x1);
    assert (a + r) + x == a + (r + x);
  }

  lemma {:induction false} AllGrantsUpdate(shadows: seq<Shadow>, i: nat, x: Shadow)
    requires i < |shadows|
    ensures AllGrants(shadows[i := x]) + GrantsOf(shadows[i]) == AllGrants(shadows) + GrantsOf(x)
  {
    var first, rest := shadows[0], shadows[1..];
    if i == 0 {
      assert shadows[i := x][1..] == rest;
      assert AllGrants(shadows[i := x]) == GrantsOf(x) + AllGrants(rest);
    } else {
      AllGrantsUpdate(rest, i - 1, x);
      assert shadows[i := x][1..] == rest[i - 1 := x] && shadows[i := x][0] == first;
      AddBefore(GrantsOf(first), AllGrants(rest), GrantsOf(x), AllGrants(rest[i - 1 := x]), GrantsOf(shadows[i]));
    }
  }

  lemma {:induction false} GrantsWithin(shadows: seq<Shadow>, i: nat)
    requires i < |shadows|
    ensures GrantsOf(shadows[i]) <= AllGrants(shadows)
  {
    if i > 0 {
      GrantsWithin(shadows[1..], i - 1);
    }
  }

  // Every reference is in the pool or active, never both and never twice.
  ghost predicate GrantInv(s: Slots) {
    && s.grants.active == AllGrants(s.shadows)
    && forall g :: (multiset(s.grants.pool) + s.grants.active)[g] <= 1
  }

  lemma ClaimConserves(g: Grants, n: nat)
    ensures var (g1, refs) := Claim(g, n);
            && (refs.Some? <==> |g.pool| >= n)
            && (refs.None? ==> g1 == g)
            && (refs.Some? ==> && |refs.value| == n
                               && g1.active == g.active + multiset(refs.value)
                               && multiset(g.pool) == multiset(refs.value) + multiset(g1.pool))
  {
    if |g.pool| >= n {
      assert g.pool == g.pool[..n] + g.pool[n..];
    }
  }

  lemma EndConserves(g: Grants, refs: seq<Gref>)
    requires multiset(refs) <= g.active
    ensures var g1 := EndGrants(g, refs);
            && g1.active + multiset(refs) == g.active
            && multiset(g1.pool) + g1.active == multiset(g.pool) + g.active
  {
  }

  ghost predicate Conserves(g: Grants, a: Attached) {
    && a.grants.active == g.active + multiset(a.refs)
    && multiset(g.pool) == multiset(a.refs) + multiset(a.grants.pool)
  }

  lemma AttachIndirectConserves(env: Env, g: Grants, pages: nat, iso: bool)
    requires pages > 0
    ensures Conserves(g, AttachIndirect(env, g, pages, iso))
  {
    ClaimConserves(g, IndirectPages(env, pages));
    if env.memory && !env.indirect && Claim(g, IndirectPages(env, pages)).1.Some? {
      var (g1, refs) := Claim(g, IndirectPages(env, pages));
      EndConserves(g1, refs.value);
    }
  }

  lemma AttachDataConserves(env: Env, g: Grants, urb: Urb)
    ensures Conserves(g, AttachData(env, g, urb))
  {
    if urb.length > 0 {
      var pages := SpanPages(urb.addr, urb.length);
      if pages > env.maxSegments {
        AttachIndirectConserves(env, g, pages, false);
      } else {
        ClaimConserves(g, pages);
      }
    }
  }

  lemma ClaimTwiceConserves(g: Grants, n: nat, m: nat)
    ensures var (g1, first) := Claim(g, n);
            var (g2, rest) := Claim(g1, m);
            first.Some? ==>
              && Conserves(g, Attached(g1, first.value, true, SendBusy))
              && (rest.None? ==> g2 == g1)
              && (rest.Some? ==> Conserves(g, Attached(g2, first.value + rest.value, true, SendOk)))
  {
    ClaimConserves(g, n);
    var (g1, first) := Claim(g, n);
    ClaimConserves(g1, m);
    var (g2, rest) := Claim(g1, m);
    if first.Some? && rest.Some? {
      assert multiset(first.value + rest.value) == multiset(first.value) + multiset(rest.value);
    }
  }

  lemma AttachIsochronousConserves(env: Env, g: Grants, urb: Urb)
    ensures Conserves(g, AttachIsochronous(env, g, urb))
    ensures AttachIsochronous(env, g, urb).result.SendOk? ==> AttachIsochronous(env, g, urb).iso
  {
    var pages := SpanPages(urb.addr, urb.length);
    if env.memory && pages > 0 {
      if pages > env.maxIsoSegments {
        AttachIndirectConserves(env, g, pages + 1, true);
      } else {
        ClaimConserves(g, 1);
        ClaimTwiceConserves(g, 1, pages);
      }
    }
  }

  lemma AttachConserves(env: Env, g: Grants, urb: Urb)
    ensures Conserves(g, Attach(env, g, urb))
    ensures Attach(env, g, urb).result.SendOk? && urb.pipe.Isochronous? ==> Attach(env, g, urb).iso
    ensures !Attach(env, g, urb).result.SendAgain?
  {
    if urb.pipe.Isochronous? {
      AttachIsochronousConserves(env, g, urb);
    } else {
      AttachDataConserves(env, g, urb);
    }
  }
}
