/** What the masks and counts mean in terms of what the CPUs report. */
module CpuReports {
  import opened CpuGroups
  import opened CpuTopology
  import opened CpuHotplug

  // Two CPUs that are set up share a sibling mask exactly when they are one CPU, or, with
  // several threads a core, agree in package, core and node. With the extended topology a
  // shared cache is asked for too, and a shared compute unit does for a shared core.
  lemma SiblingMask(m: Machine, a: nat, b: nat)
    requires m.Valid() && m.MasksRight() && a in m.setup && b in m.setup
    ensures var c, o := m.info[a], m.info[b];
            b in m.sibling[a] <==>
              || a == b
              || (&& m.cfg.siblings > 1 && c.phys == o.phys && c.node == o.node
                  && if m.cfg.topoExt then c.llc == o.llc && (c.core == o.core || (c.unit == o.unit && c.unit != 0xff))
                     else c.core == o.core)
  {
  }

  // The cache mask: one CPU, or the same known cache on the same node.
  lemma CacheMask(m: Machine, a: nat, b: nat)
    requires m.Valid() && m.MasksRight() && a in m.setup && b in m.setup
    ensures var c, o := m.info[a], m.info[b];
            b in m.llc[a] <==>
              || a == b
              || (&& (m.cfg.siblings > 1 || m.cfg.maxCores > 1)
                  && c.llc == o.llc && c.llc != m.cfg.badApicId && c.node == o.node)
  {
  }

  // The package mask: one CPU, or the same package.
  lemma PackageMask(m: Machine, a: nat, b: nat)
    requires m.Valid() && m.MasksRight() && a in m.setup && b in m.setup
    ensures b in m.core[a] <==>
              a == b || ((m.cfg.siblings > 1 || m.cfg.maxCores > 1) && m.info[a].phys == m.info[b].phys)
  {
  }

  // Siblings are the CPUs with the same key, and the key names the package.
  ghost predicate KeyedBy<K(!new)>(smt: Rel, die: Rel, s: set<nat>, key: nat -> K) {
    && (forall a, b :: a in s && b in s ==> (smt(a, b) <==> key(a) == key(b)))
    && (forall a, b :: a in s && b in s && key(a) == key(b) ==> die(a, b))
  }

  // There are as many sibling groups in a package as there are distinct keys in it.
  lemma GroupsAreKeys<K(!new)>(smt: Rel, die: Rel, s: set<nat>, a: nat, key: nat -> K)
    requires KeyedBy(smt, die, s, key) && Equivalence(die, s) && a in s
    ensures |Groups(smt, die, s, a)| == |set b | b in s && die(a, b) :: key(b)|
  {
    var keys := set b | b in s && die(a, b) :: key(b);
    var groups := Groups(smt, die, s, a);
    var f := k => set b | b in s && key(b) == k;
    forall b | b in s ensures f(key(b)) == Class(smt, s, b) {
    }
    forall k | k in keys ensures f(k) in groups {
      var b :| b in s && die(a, b) && key(b) == k;
      assert b in Class(die, s, a) && f(k) == Class(smt, s, b);
    }
    forall k, l | k in keys && l in keys && f(k) == f(l) ensures k == l {
      var b :| b in s && die(a, b) && key(b) == k;
      assert b in f(l);
    }
    forall g | g in groups ensures exists k :: k in keys && f(k) == g {
      var b :| b in Class(die, s, a) && Class(smt, s, b) == g;
      assert key(b) in keys && f(key(b)) == g;
    }
    SameCard(keys, groups, f);
  }

  // The same on what is reported.
  lemma KeysCounted<K(!new)>(m: Machine, a: nat, key: Cpu -> K)
    requires m.Valid() && m.CountsRight() && a in m.setup && m.cfg.siblings > 1
    requires forall b, c :: b in m.setup && c in m.setup ==>
               ((b == c || MatchSmt(m.cfg, m.info[b], m.info[c])) <==> key(m.info[b]) == key(m.info[c]))
    requires forall b, c :: b in m.setup && c in m.setup && key(m.info[b]) == key(m.info[c]) ==>
               m.info[b].phys == m.info[c].phys
    ensures m.booted[a] == |set b | b in m.setup && m.info[b].phys == m.info[a].phys :: key(m.info[b])|
  {
    hide MatchSmt;
    var s, info := m.setup, m.info[..];
    var smt, die := Smt(m.cfg, info), Die(m.cfg, info);
    var none: K := key(m.info[a]);
    var ofCpu := (b: nat) => if b < |info| then key(info[b]) else none;
    assert Equivalence(die, s) by { Relations(m.cfg, info, s); }
    assert KeyedBy(smt, die, s, ofCpu);
    GroupsAreKeys(smt, die, s, a, ofCpu);
    assert forall b :: b in s ==> (die(a, b) <==> info[b].phys == info[a].phys) && ofCpu(b) == key(m.info[b]);
    hide *;
    assert (set b | b in s && die(a, b) :: ofCpu(b)) ==
           (set b | b in m.setup && m.info[b].phys == m.info[a].phys :: key(m.info[b]));
  }

  // Without the extended topology: the distinct core and node ids reported in the package.
  lemma BootedCores(m: Machine, a: nat)
    requires m.Valid() && m.CountsRight() && a in m.setup && m.cfg.siblings > 1
    requires !m.cfg.topoExt
    ensures m.booted[a] ==
            |set b | b in m.setup && m.info[b].phys == m.info[a].phys ::
               (m.info[b].phys, m.info[b].core, m.info[b].node)|
  {
    var key := (c: Cpu) => (c.phys, c.core, c.node);
    KeysCounted(m, a, key) by { hide CountsAre; }
    hide *;
    assert (set b | b in m.setup && m.info[b].phys == m.info[a].phys :: key(m.info[b])) ==
           (set b | b in m.setup && m.info[b].phys == m.info[a].phys ::
              (m.info[b].phys, m.info[b].core, m.info[b].node));
  }

  // With the extended topology and no compute units the cache id counts as well.
  lemma BootedCoresExtended(m: Machine, a: nat)
    requires m.Valid() && m.CountsRight() && a in m.setup && m.cfg.siblings > 1
    requires m.cfg.topoExt && forall b :: b in m.setup ==> m.info[b].unit == 0xff
    ensures m.booted[a] ==
            |set b | b in m.setup && m.info[b].phys == m.info[a].phys ::
               (m.info[b].phys, m.info[b].llc, m.info[b].core, m.info[b].node)|
  {
    var key := (c: Cpu) => (c.phys, c.llc, c.core, c.node);
    KeysCounted(m, a, key) by { hide CountsAre; }
    hide *;
    assert (set b | b in m.setup && m.info[b].phys == m.info[a].phys :: key(m.info[b])) ==
           (set b | b in m.setup && m.info[b].phys == m.info[a].phys ::
              (m.info[b].phys, m.info[b].llc, m.info[b].core, m.info[b].node));
  }

  ghost predicate SameCore(c: Cpu, o: Cpu) {
    c.phys == o.phys && c.llc == o.llc && c.core == o.core && c.node == o.node
  }

  // With compute units that are unions of cores the units count.
  lemma BootedUnits(m: Machine, a: nat)
    requires m.Valid() && m.CountsRight() && a in m.setup && m.cfg.siblings > 1
    requires m.cfg.topoExt && forall b :: b in m.setup ==> m.info[b].unit != 0xff
    requires forall b, c :: b in m.setup && c in m.setup && SameCore(m.info[b], m.info[c]) ==>
                              m.info[b].unit == m.info[c].unit
    ensures m.booted[a] ==
            |set b | b in m.setup && m.info[b].phys == m.info[a].phys ::
               (m.info[b].phys, m.info[b].llc, m.info[b].unit, m.info[b].node)|
  {
    var key := (c: Cpu) => (c.phys, c.llc, c.unit, c.node);
    KeysCounted(m, a, key) by { hide CountsAre; }
    hide *;
    assert (set b | b in m.setup && m.info[b].phys == m.info[a].phys :: key(m.info[b])) ==
           (set b | b in m.setup && m.info[b].phys == m.info[a].phys ::
              (m.info[b].phys, m.info[b].llc, m.info[b].unit, m.info[b].node));
  }

  // With one thread a core every CPU of the package is a core of its own, and with one core
  // a package too.
  lemma BootedAlone(m: Machine, a: nat)
    requires m.Valid() && m.CountsRight() && a in m.setup && m.cfg.siblings <= 1
    ensures m.booted[a] ==
            if m.cfg.maxCores > 1 then |set b | b in m.setup && m.info[b].phys == m.info[a].phys| else 1
  {
    var s, info := m.setup, m.info[..];
    Relations(m.cfg, info, s);
    var key, die := (b: nat) => b, Die(m.cfg, info);
    GroupsAreKeys(Smt(m.cfg, info), die, s, a, key);
    var keys := set b | b in s && die(a, b) :: key(b);
    assert forall k :: k in keys <==> k in Class(die, s, a) by {
      forall k | k in Class(die, s, a) ensures k in keys {
        assert key(k) == k;
      }
    }
    assert keys == Class(die, s, a);
    if m.cfg.maxCores > 1 {
      assert Class(die, s, a) == set b | b in s && m.info[b].phys == m.info[a].phys;
    } else {
      assert Class(die, s, a) == {a};
    }
  }
}
