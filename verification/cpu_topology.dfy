/** Sibling, cache and package masks of CPUs that come and go, and the count of booted
    cores each CPU keeps for its package. */
module CpuTopology {
  import opened CpuGroups

  const NO_UNIT: nat := 0xff

  // What a CPU reports of itself. node is the NUMA node of its index.
  datatype Cpu = Cpu(phys: nat, core: nat, unit: nat, llc: nat, node: nat)

  // Facts of the boot CPU; badApicId is the id that stands for an unknown cache.
  datatype Config = Config(topoExt: bool, siblings: nat, maxCores: nat, snc: bool, badApicId: nat)

  predicate HasSmt(cfg: Config) {
    cfg.siblings > 1
  }

  predicate HasMp(cfg: Config) {
    HasSmt(cfg) || cfg.maxCores > 1
  }

  predicate SameNode(c: Cpu, o: Cpu) {
    c.node == o.node
  }

  predicate MatchSmt(cfg: Config, c: Cpu, o: Cpu) {
    if cfg.topoExt then
      && c.phys == o.phys && c.llc == o.llc
      && (c.core == o.core || (c.unit != NO_UNIT && o.unit != NO_UNIT && c.unit == o.unit))
      && SameNode(c, o)
    else
      c.phys == o.phys && c.core == o.core && SameNode(c, o)
  }

  predicate MatchLlc(cfg: Config, c: Cpu, o: Cpu) {
    && c.llc != cfg.badApicId && c.llc == o.llc
    && (SameNode(c, o) || !cfg.snc) && SameNode(c, o)
  }

  predicate MatchDie(c: Cpu, o: Cpu) {
    c.phys == o.phys
  }

  // The relations the masks are built from, on CPU numbers.
  function Smt(cfg: Config, info: seq<Cpu>): Rel {
    (a: nat, b: nat) => a < |info| && b < |info| && (a == b || (HasSmt(cfg) && MatchSmt(cfg, info[a], info[b])))
  }

  function Llc(cfg: Config, info: seq<Cpu>): Rel {
    (a: nat, b: nat) => a < |info| && b < |info| && (a == b || (HasMp(cfg) && MatchLlc(cfg, info[a], info[b])))
  }

  function Die(cfg: Config, info: seq<Cpu>): Rel {
    (a: nat, b: nat) => a < |info| && b < |info| && (a == b || (HasMp(cfg) && MatchDie(info[a], info[b])))
  }

  ghost predicate Numbers(s: set<nat>, n: nat) {
    forall a :: a in s ==> a < n
  }

  ghost predicate Transitive(r: Rel, s: set<nat>) {
    forall a, b, c :: a in s && b in s && c in s && r(a, b) && r(b, c) ==> r(a, c)
  }

  // All that has to be asked of the CPUs is that being siblings is transitive.
  lemma Relations(cfg: Config, info: seq<Cpu>, s: set<nat>)
    requires Numbers(s, |info|)
    ensures Equivalence(Die(cfg, info), s) && Within(Smt(cfg, info), Die(cfg, info), s)
    ensures Equivalence(Smt(cfg, info), s) <==> Transitive(Smt(cfg, info), s)
    ensures !cfg.topoExt ==> Transitive(Smt(cfg, info), s)
  {
  }

  // With the extended topology siblings share a core id or a compute unit id, and that
  // need not be transitive.
  lemma SharedUnitNotTransitive(cfg: Config)
    requires cfg.topoExt && HasSmt(cfg)
    ensures var info := [Cpu(0, 0, 0, 0, 0), Cpu(0, 1, 0, 0, 0), Cpu(0, 1, 1, 0, 0)];
            !Transitive(Smt(cfg, info), {0, 1, 2})
  {
    var info := [Cpu(0, 0, 0, 0, 0), Cpu(0, 1, 0, 0, 0), Cpu(0, 1, 1, 0, 0)];
    var r := Smt(cfg, info);
    assert r(0, 1) && r(1, 2) && !r(0, 2);
  }

  // Masks hold exactly the related CPUs that are set up.
  ghost predicate MasksAre(r: Rel, s: set<nat>, masks: seq<set<nat>>) {
    forall a :: 0 <= a < |masks| ==> masks[a] == if a in s then Class(r, s, a) else {}
  }

  // Counts are the numbers of distinct sibling groups in the package.
  ghost predicate CountsAre(smt: Rel, die: Rel, s: set<nat>, booted: seq<int>) {
    forall a :: 0 <= a < |booted| ==> booted[a] == if a in s then |Groups(smt, die, s, a)| else 0
  }

  // Masks with the links of cpu to the CPUs below i added.
  ghost predicate Linked(r: Rel, s: set<nat>, cpu: nat, i: nat, was: seq<set<nat>>, masks: seq<set<nat>>) {
    && |masks| == |was|
    && forall a :: 0 <= a < |was| ==>
         masks[a] == if a == cpu then was[a] + (set b | b in s && b < i && r(cpu, b))
                     else if a < i && a in s && r(cpu, a) then was[a] + {cpu} else was[a]
  }

  lemma LinkedAll(r: Rel, s: set<nat>, cpu: nat, was: seq<set<nat>>, masks: seq<set<nat>>)
    requires cpu !in s && Numbers(s + {cpu}, |was|) && Linked(r, s + {cpu}, cpu, |was|, was, masks)
    requires MasksAre(r, s, was) && forall a, b :: r(a, b) ==> r(b, a)
    ensures MasksAre(r, s + {cpu}, masks)
  {
    forall a | 0 <= a < |masks| ensures masks[a] == if a in s + {cpu} then Class(r, s + {cpu}, a) else {} {
      ClassGrows(r, s, cpu, a);
    }
  }

  // The masks any two CPUs that are set up have are symmetric and hold the CPU itself.
  lemma MasksSymmetric(cfg: Config, info: seq<Cpu>, s: set<nat>, r: Rel, masks: seq<set<nat>>, a: nat, b: nat)
    requires Numbers(s, |info|) && |masks| == |info| && MasksAre(r, s, masks) && a in s && b in s
    requires r == Smt(cfg, info) || r == Llc(cfg, info) || r == Die(cfg, info)
    ensures a in masks[a] && (a in masks[b] <==> b in masks[a])
  {
    assert r(a, a) && (r(a, b) <==> r(b, a));
  }

  // One step of the links.
  // The masks with a and b linked to each other.
  function WithLink(masks: seq<set<nat>>, a: nat, b: nat): seq<set<nat>>
    requires a < |masks| && b < |masks|
  {
    var m := masks[b := masks[b] + {a}];
    m[a := m[a] + {b}]
  }

  lemma LinkStep(r: Rel, s: set<nat>, cpu: nat, i: nat, was: seq<set<nat>>, masks: seq<set<nat>>, now: seq<set<nat>>)
    requires i < |was| && cpu < |was| && Linked(r, s, cpu, i, was, masks) && r(cpu, cpu)
    requires |now| == |masks|
    requires if i in s && r(cpu, i) then
               now == WithLink(masks, cpu, i)
             else now == masks
    requires cpu in s
    ensures Linked(r, s, cpu, i + 1, was, now)
  {
    assert (set b | b in s && b < i + 1 && r(cpu, b)) ==
           (set b | b in s && b < i && r(cpu, b)) + (if i in s && r(cpu, i) then {i} else {});
  }

  // Relations that agree on the CPUs set up give the same masks and counts.
  ghost predicate Agree(r: Rel, q: Rel, s: set<nat>) {
    forall a, b :: a in s && b in s ==> r(a, b) == q(a, b)
  }

  lemma SameMasks(r: Rel, q: Rel, s: set<nat>, masks: seq<set<nat>>)
    requires MasksAre(r, s, masks) && Agree(r, q, s)
    ensures MasksAre(q, s, masks)
  {
    forall a | a in s ensures Class(r, s, a) == Class(q, s, a) {
    }
  }

  lemma SameCounts(smt: Rel, die: Rel, smt': Rel, die': Rel, s: set<nat>, booted: seq<int>)
    requires CountsAre(smt, die, s, booted) && Agree(smt, smt', s) && Agree(die, die', s)
    ensures CountsAre(smt', die', s, booted)
  {
    forall a | a in s ensures Groups(smt, die, s, a) == Groups(smt', die', s, a) {
      forall b | b in s ensures Class(smt, s, b) == Class(smt', s, b) && Class(die, s, b) == Class(die', s, b) {
      }
    }
  }

  lemma SamePackage(smt: Rel, die: Rel, s: set<nat>, a: nat, b: nat)
    requires Equivalence(die, s) && a in s && b in s && die(a, b)
    ensures Groups(smt, die, s, a) == Groups(smt, die, s, b)
  {
    SameClass(die, s, a, b);
  }

  lemma SomeGroup(smt: Rel, die: Rel, s: set<nat>, a: nat)
    requires a in s && die(a, a)
    ensures |Groups(smt, die, s, a)| >= 1
  {
    assert a in Class(die, s, a);
    assert Class(smt, s, a) in Groups(smt, die, s, a);
  }

  // The counts while a new CPU alone in its group looks through its package.
  ghost predicate CountedAlone(smt: Rel, die: Rel, s: set<nat>, cpu: nat, i: nat, was: seq<int>, booted: seq<int>) {
    && |booted| == |was| && cpu < |was|
    && (forall a :: 0 <= a < |was| && a != cpu ==>
          booted[a] == was[a] + if a < i && a in s && die(cpu, a) then 1 else 0)
    && booted[cpu] == |set b | b in Leaders(smt, s, Class(die, s, cpu)) && b < i|
  }

  // The counts while a new CPU that joins a group looks for a CPU to copy from.
  ghost predicate CountedJoining(die: Rel, s: set<nat>, cpu: nat, i: nat, was: seq<int>, booted: seq<int>) {
    && |booted| == |was| && cpu < |was|
    && (forall a :: 0 <= a < |was| && a != cpu ==> booted[a] == was[a])
    && (forall b :: 0 <= b < |was| && b in s && b < i && b != cpu && die(cpu, b) ==> booted[cpu] == was[b])
    && (booted[cpu] != 0 ==> exists b :: 0 <= b < i && b in s && b != cpu && die(cpu, b))
  }

  ghost predicate Counted(smt: Rel, die: Rel, s: set<nat>, cpu: nat, i: nat, was: seq<int>, booted: seq<int>) {
    if Class(smt, s, cpu) == {cpu} then CountedAlone(smt, die, s, cpu, i, was, booted)
    else CountedJoining(die, s, cpu, i, was, booted)
  }

  lemma StepAlone(smt: Rel, die: Rel, s: set<nat>, cpu: nat, i: nat, was: seq<int>, booted: seq<int>, now: seq<int>)
    requires CountedAlone(smt, die, s, cpu, i, was, booted) && i < |was| && |now| == |was|
    requires if i !in s || !die(cpu, i) then now == booted
             else forall a :: 0 <= a < |now| ==>
                    now[a] == if a == cpu then booted[a] + (if IsLeast(Class(smt, s, i), i) then 1 else 0)
                              else if a == i then booted[a] + 1 else booted[a]
    ensures CountedAlone(smt, die, s, cpu, i + 1, was, now)
  {
    var leaders := Leaders(smt, s, Class(die, s, cpu));
    var before, after := set b | b in leaders && b < i, set b | b in leaders && b < i + 1;
    assert after == before + if i in leaders then {i} else {};
  }

  lemma StepJoining(smt: Rel, die: Rel, s: set<nat>, cpu: nat, i: nat, was: seq<int>, booted: seq<int>, now: seq<int>)
    requires cpu !in s && Equivalence(die, s + {cpu}) && CountsAre(smt, die, s, was) && Numbers(s + {cpu}, |was|)
    requires CountedJoining(die, s + {cpu}, cpu, i, was, booted) && i < |was| && |now| == |was|
    requires if i in s && die(cpu, i) && booted[cpu] == 0 then now == booted[cpu := booted[i]] else now == booted
    ensures CountedJoining(die, s + {cpu}, cpu, i + 1, was, now)
  {
    if i in s && die(cpu, i) {
      SomeGroup(smt, die, s, i);
      forall b | b in s && b < i && die(cpu, b) ensures was[b] == was[i] {
        PackageMates(smt, die, s, cpu, b, i, was);
      }
    }
  }

  lemma PackageMates(smt: Rel, die: Rel, s: set<nat>, cpu: nat, a: nat, b: nat, was: seq<int>)
    requires cpu !in s && Equivalence(die, s + {cpu}) && CountsAre(smt, die, s, was) && Numbers(s, |was|)
    requires a in s && b in s && die(cpu, a) && die(cpu, b)
    ensures was[a] == was[b]
  {
    assert die(a, cpu);
    SamePackage(smt, die, s, a, b);
  }

  // After the whole package the counts are right for the CPUs set up now.
  lemma CountedAll(smt: Rel, die: Rel, s: set<nat>, cpu: nat, was: seq<int>, booted: seq<int>)
    requires cpu !in s && Equivalence(smt, s + {cpu}) && Equivalence(die, s + {cpu}) && Within(smt, die, s + {cpu})
    requires Numbers(s + {cpu}, |was|) && CountsAre(smt, die, s, was)
    requires Counted(smt, die, s + {cpu}, cpu, |was|, was, booted)
    ensures CountsAre(smt, die, s + {cpu}, booted)
  {
    var t := s + {cpu};
    forall a | 0 <= a < |booted| && a != cpu ensures booted[a] == if a in t then |Groups(smt, die, t, a)| else 0 {
      if a in s {
        if die(a, cpu) { GroupsGrow(smt, die, s, cpu, a); } else { OtherPackage(smt, die, s, cpu, a); }
        assert die(a, cpu) <==> die(cpu, a);
      }
    }
    NewCount(smt, die, s, cpu, was, booted);
  }

  lemma NewCount(smt: Rel, die: Rel, s: set<nat>, cpu: nat, was: seq<int>, booted: seq<int>)
    requires cpu !in s && Equivalence(smt, s + {cpu}) && Equivalence(die, s + {cpu}) && Within(smt, die, s + {cpu})
    requires Numbers(s + {cpu}, |was|) && CountsAre(smt, die, s, was)
    requires Counted(smt, die, s + {cpu}, cpu, |was|, was, booted)
    ensures booted[cpu] == |Groups(smt, die, s + {cpu}, cpu)|
  {
    var t := s + {cpu};
    var p := Class(die, t, cpu);
    if Class(smt, t, cpu) == {cpu} {
      var leaders := Leaders(smt, t, p);
      assert leaders == set b | b in leaders && b < |was|;
      LeadersCount(smt, t, p);
    } else {
      assert cpu in Class(smt, t, cpu);
      var mate :| mate in Class(smt, t, cpu) && mate != cpu;
      assert die(cpu, mate) && die(mate, cpu);
      GroupsGrow(smt, die, s, cpu, mate);
      SamePackage(smt, die, t, cpu, mate);
    }
  }

  // Taking a CPU out undoes the count its arrival made.
  lemma CountsRemoved(smt: Rel, die: Rel, s: set<nat>, cpu: nat, was: seq<int>, booted: seq<int>)
    requires cpu in s && Equivalence(smt, s) && Equivalence(die, s) && Within(smt, die, s)
    requires Numbers(s, |was|) && |booted| == |was| && CountsAre(smt, die, s, was)
    requires forall a :: 0 <= a < |was| ==>
               booted[a] == if a == cpu then 0
                            else was[a] - if Class(smt, s, cpu) == {cpu} && a in Class(die, s, cpu) then 1 else 0
    ensures CountsAre(smt, die, s - {cpu}, booted)
  {
    var rest := s - {cpu};
    assert rest + {cpu} == s;
    forall a | 0 <= a < |booted| && a in rest ensures booted[a] == |Groups(smt, die, rest, a)| {
      assert die(a, cpu) <==> die(cpu, a);
      if die(a, cpu) { GroupsGrow(smt, die, rest, cpu, a); } else { OtherPackage(smt, die, rest, cpu, a); }
    }
  }

  lemma MasksRemoved(r: Rel, s: set<nat>, cpu: nat, was: seq<set<nat>>, masks: seq<set<nat>>)
    requires cpu in s && MasksAre(r, s, was) && |masks| == |was|
    requires forall a :: 0 <= a < |was| ==> masks[a] == if a == cpu then {} else was[a] - {cpu}
    ensures MasksAre(r, s - {cpu}, masks)
  {
    forall a | 0 <= a < |masks| && a in s - {cpu} ensures masks[a] == Class(r, s - {cpu}, a) {
    }
  }
}
