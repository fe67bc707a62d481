/** The per-CPU masks and counts updated in place as CPUs come and go. */
module CpuHotplug {
  import opened CpuGroups
  import opened CpuTopology

  class Machine {
    const cfg: Config
    const n: nat
    const info: array<Cpu>
    const sibling: array<set<nat>>
    const llc: array<set<nat>>
    const core: array<set<nat>>
    const booted: array<int>
    var setup: set<nat>
    var numaInPackage: bool

    ghost predicate Valid()
      reads this
    {
      && info.Length == n && sibling.Length == n && llc.Length == n && core.Length == n && booted.Length == n
      && sibling != llc && sibling != core && llc != core
      && Numbers(setup, n)
    }

    ghost function SmtNow(): Rel
      reads this, info
    {
      Smt(cfg, info[..])
    }

    ghost function DieNow(): Rel
      reads this, info
    {
      Die(cfg, info[..])
    }

    // Masks are the match relations on the CPUs set up.
    ghost predicate MasksRight()
      reads this, info, sibling, llc, core
    {
      && MasksAre(SmtNow(), setup, sibling[..]) && MasksAre(Llc(cfg, info[..]), setup, llc[..])
      && MasksAre(DieNow(), setup, core[..])
    }

    // Every count is the number of distinct sibling groups in the package.
    ghost predicate CountsRight()
      reads this, info, booted
    {
      CountsAre(SmtNow(), DieNow(), setup, booted[..])
    }

    constructor (cfg: Config, n: nat, cpus: seq<Cpu>)
      requires |cpus| == n
      ensures Valid() && MasksRight() && CountsRight() && setup == {} && this.cfg == cfg && this.n == n && info[..] == cpus
      ensures fresh(info) && fresh(sibling) && fresh(llc) && fresh(core) && fresh(booted)
    {
      this.cfg, this.n := cfg, n;
      info := new Cpu[n](i requires 0 <= i < n => cpus[i]);
      sibling, llc, core := new set<nat>[n](i => {}), new set<nat>[n](i => {}), new set<nat>[n](i => {});
      booted := new int[n](i => 0);
      setup, numaInPackage := {}, false;
    }

    // What identification stores about a CPU that is not set up.
    method StoreCpuInfo(cpu: nat, c: Cpu)
      requires Valid() && MasksRight() && cpu < n && cpu !in setup
      modifies info
      ensures Valid() && MasksRight() && info[..] == old(info[..])[cpu := c]
      ensures old(CountsRight()) ==> CountsRight()
    {
      ghost var was := info[..];
      info[cpu] := c;
      Unobserved(was, info[..]);
    }

    lemma Unobserved(was: seq<Cpu>, now: seq<Cpu>)
      requires Valid() && |was| == |now| == n && forall a :: a in setup ==> was[a] == now[a]
      ensures forall masks :: MasksAre(Smt(cfg, was), setup, masks) ==> MasksAre(Smt(cfg, now), setup, masks)
      ensures forall masks :: MasksAre(Llc(cfg, was), setup, masks) ==> MasksAre(Llc(cfg, now), setup, masks)
      ensures forall masks :: MasksAre(Die(cfg, was), setup, masks) ==> MasksAre(Die(cfg, now), setup, masks)
      ensures forall counts :: CountsAre(Smt(cfg, was), Die(cfg, was), setup, counts) ==>
                CountsAre(Smt(cfg, now), Die(cfg, now), setup, counts)
    {
      forall masks | MasksAre(Smt(cfg, was), setup, masks) ensures MasksAre(Smt(cfg, now), setup, masks) {
        SameMasks(Smt(cfg, was), Smt(cfg, now), setup, masks);
      }
      forall masks | MasksAre(Llc(cfg, was), setup, masks) ensures MasksAre(Llc(cfg, now), setup, masks) {
        SameMasks(Llc(cfg, was), Llc(cfg, now), setup, masks);
      }
      forall masks | MasksAre(Die(cfg, was), setup, masks) ensures MasksAre(Die(cfg, now), setup, masks) {
        SameMasks(Die(cfg, was), Die(cfg, now), setup, masks);
      }
      forall counts | CountsAre(Smt(cfg, was), Die(cfg, was), setup, counts)
        ensures CountsAre(Smt(cfg, now), Die(cfg, now), setup, counts)
      {
        SameCounts(Smt(cfg, was), Die(cfg, was), Smt(cfg, now), Die(cfg, now), setup, counts);
      }
    }

    method LinkMask(masks: array<set<nat>>, a: nat, b: nat)
      requires a < masks.Length && b < masks.Length
      modifies masks
      ensures masks[..] == WithLink(old(masks[..]), a, b)
    {
      masks[b] := masks[b] + {a};
      masks[a] := masks[a] + {b};
    }

    // The first loop of set_cpu_sibling_map.
    method LinkSiblings(cpu: nat)
      requires Valid() && cpu < n && cpu in setup && HasMp(cfg)
      requires MasksAre(SmtNow(), setup - {cpu}, sibling[..]) && MasksAre(Llc(cfg, info[..]), setup - {cpu}, llc[..])
      modifies sibling, llc
      ensures MasksAre(SmtNow(), setup, sibling[..]) && MasksAre(Llc(cfg, info[..]), setup, llc[..])
    {
      hide MasksAre, Linked;
      ghost var smt, shared := SmtNow(), Llc(cfg, info[..]);
      ghost var sibling0, llc0 := sibling[..], llc[..];
      LinkNone(smt, setup, cpu, sibling0);
      LinkNone(shared, setup, cpu, llc0);
      var i := 0;
      while i < n
        invariant i <= n && Linked(smt, setup, cpu, i, sibling0, sibling[..])
        invariant Linked(shared, setup, cpu, i, llc0, llc[..])
      {
        ghost var sibling1, llc1 := sibling[..], llc[..];
        SiblingRound(cpu, i);
        LinkStep(smt, setup, cpu, i, sibling0, sibling1, sibling[..]);
        LinkStep(shared, setup, cpu, i, llc0, llc1, llc[..]);
        i := i + 1;
      }
      assert setup - {cpu} + {cpu} == setup;
      LinkedAll(smt, setup - {cpu}, cpu, sibling0, sibling[..]);
      LinkedAll(shared, setup - {cpu}, cpu, llc0, llc[..]);
    }

    // What one CPU i does in the loop.
    method SiblingRound(cpu: nat, i: nat)
      requires Valid() && cpu < n && i < n && HasMp(cfg)
      modifies sibling, llc
      ensures sibling[..] == if i in setup && SmtNow()(cpu, i) then WithLink(old(sibling[..]), cpu, i) else old(sibling[..])
      ensures llc[..] == if i in setup && Llc(cfg, info[..])(cpu, i) then WithLink(old(llc[..]), cpu, i) else old(llc[..])
    {
      hide MatchSmt, MatchLlc, WithLink;
      if i in setup {
        if i == cpu || (HasSmt(cfg) && MatchSmt(cfg, info[cpu], info[i])) {
          LinkMask(sibling, cpu, i);
        }
        if i == cpu || MatchLlc(cfg, info[cpu], info[i]) {
          LinkMask(llc, cpu, i);
        }
      }
    }

    // The second loop: package links and core counts.
    method LinkPackage(cpu: nat)
      requires Valid() && cpu < n && cpu in setup && HasMp(cfg)
      requires MasksAre(SmtNow(), setup, sibling[..]) && MasksAre(DieNow(), setup - {cpu}, core[..])
      modifies this`numaInPackage, core, booted
      ensures MasksAre(DieNow(), setup, core[..])
      ensures Transitive(SmtNow(), setup) && CountsAre(SmtNow(), DieNow(), setup - {cpu}, old(booted[..])) ==>
                CountsAre(SmtNow(), DieNow(), setup, booted[..])
      ensures numaInPackage <==>
                (old(numaInPackage) || exists i :: i in setup && info[cpu].phys == info[i].phys && info[cpu].node != info[i].node)
    {
      hide MasksAre, Linked, CountsAre, Counted, Transitive, CountedBy, IsLeast, Countable;
      ghost var smt, die := SmtNow(), DieNow();
      ghost var core0, booted0 := core[..], booted[..];
      assert setup - {cpu} + {cpu} == setup;
      MayCount(cfg, info[..], setup, cpu, booted0);
      LinkNone(die, setup, cpu, core0);
      ghost var counts := Countable(smt, die, setup, cpu, booted0);
      CountNone(smt, die, setup, cpu, booted0);
      var i := 0;
      while i < n
        invariant i <= n && Linked(die, setup, cpu, i, core0, core[..])
        invariant counts ==> Counted(smt, die, setup, cpu, i, booted0, booted[..])
        invariant numaInPackage <==>
                    (old(numaInPackage) || exists j :: j in setup && j < i && info[cpu].phys == info[j].phys && info[cpu].node != info[j].node)
      {
        ghost var core1, booted1 := core[..], booted[..];
        PackageRound(cpu, i);
        LinkStep(die, setup, cpu, i, core0, core1, core[..]);
        CountStep(smt, die, setup, cpu, i, booted0, booted1, booted[..], sibling[..]);
        i := i + 1;
      }
      LinkedAll(die, setup - {cpu}, cpu, core0, core[..]);
      AllCounted(smt, die, setup, cpu, booted0, booted[..]);
    }

    // What one CPU i does in the loop.
    method PackageRound(cpu: nat, i: nat)
      requires Valid() && cpu < n && i < n && HasMp(cfg) && cpu in setup
      modifies this`numaInPackage, core, booted
      ensures core[..] == if i in setup && DieNow()(cpu, i) then WithLink(old(core[..]), cpu, i) else old(core[..])
      ensures if i in setup && DieNow()(cpu, i) then CountedBy(cpu, i, sibling[..], old(booted[..]), booted[..])
              else booted[..] == old(booted[..])
      ensures numaInPackage ==
                (old(numaInPackage) || (i in setup && info[cpu].phys == info[i].phys && info[cpu].node != info[i].node))
    {
      hide CountedBy;
      if i in setup {
        if i == cpu || MatchDie(info[cpu], info[i]) {
          LinkMask(core, cpu, i);
          CountCore(cpu, i);
        }
        if MatchDie(info[cpu], info[i]) && !SameNode(info[cpu], info[i]) {
          numaInPackage := true;
        }
      }
    }

    // What one CPU i of the package does to the counts.
    method CountCore(cpu: nat, i: nat)
      requires Valid() && cpu < n && i < n
      modifies booted
      ensures CountedBy(cpu, i, sibling[..], old(booted[..]), booted[..])
    {
      if |sibling[cpu]| == 1 {
        if IsLeast(sibling[i], i) {
          booted[cpu] := booted[cpu] + 1;
        }
        if i != cpu {
          booted[i] := booted[i] + 1;
        }
      } else if i != cpu && booted[cpu] == 0 {
        booted[cpu] := booted[i];
      }
    }

    method SetCpuSiblingMap(cpu: nat)
      requires Valid() && MasksRight() && cpu < n && cpu !in setup
      modifies this, sibling, llc, core, booted
      ensures Valid() && MasksRight() && setup == old(setup) + {cpu}
      ensures old(CountsRight()) && Transitive(SmtNow(), setup) ==> CountsRight()
    {
      setup := setup + {cpu};
      assert setup - {cpu} == old(setup);
      if !HasMp(cfg) {
        sibling[cpu] := sibling[cpu] + {cpu};
        llc[cpu] := llc[cpu] + {cpu};
        core[cpu] := core[cpu] + {cpu};
        booted[cpu] := 1;
        AloneMasks(SmtNow(), old(setup), cpu, old(sibling[..]));
        AloneMasks(Llc(cfg, info[..]), old(setup), cpu, old(llc[..]));
        AloneMasks(DieNow(), old(setup), cpu, old(core[..]));
        if old(CountsRight()) {
          AloneCounts(SmtNow(), DieNow(), old(setup), cpu, old(booted[..]));
        }
        return;
      }
      hide MasksAre, CountsAre, Transitive;
      LinkSiblings(cpu);
      LinkPackage(cpu);
    }

    // The core loop of remove_siblinginfo.
    method UnlinkPackage(cpu: nat)
      requires Valid() && cpu < n && Mutual(core[..], cpu)
      modifies core, booted
      ensures Unlinked(old(core[..]), cpu, core[..])
      ensures forall a :: 0 <= a < n ==>
                booted[a] == old(booted[a]) - if |sibling[cpu]| == 1 && a in old(core[cpu]) then 1 else 0
    {
      ghost var p := core[cpu];
      var i := 0;
      while i < n
        invariant i <= n && core[cpu] == if cpu < i then p - {cpu} else p
        invariant forall a :: 0 <= a < n && a != cpu ==>
                    core[a] == if a < i then old(core[a]) - {cpu} else old(core[a])
        invariant forall a :: 0 <= a < n ==>
                    booted[a] == old(booted[a]) - if a < i && |sibling[cpu]| == 1 && a in p then 1 else 0
      {
        if i in core[cpu] {
          core[i] := core[i] - {cpu};
          if |sibling[cpu]| == 1 {
            booted[i] := booted[i] - 1;
          }
        }
        i := i + 1;
      }
    }

    // The loops over the sibling and the cache mask of the CPU that goes.
    method Unlink(masks: array<set<nat>>, cpu: nat)
      requires masks.Length == n && cpu < n && Mutual(masks[..], cpu)
      modifies masks
      ensures Unlinked(old(masks[..]), cpu, masks[..])
    {
      ghost var p := masks[cpu];
      var i := 0;
      while i < n
        invariant i <= n && masks[cpu] == if cpu < i then p - {cpu} else p
        invariant forall a :: 0 <= a < n && a != cpu ==>
                    masks[a] == if a < i then old(masks[a]) - {cpu} else old(masks[a])
      {
        if i in masks[cpu] {
          masks[i] := masks[i] - {cpu};
        }
        i := i + 1;
      }
    }

    // What is left of a CPU that nothing is linked to.
    method Forget(cpu: nat)
      requires Valid() && cpu < n
      modifies info, sibling, llc, core, booted
      ensures sibling[..] == old(sibling[..])[cpu := {}] && llc[..] == old(llc[..])[cpu := {}]
      ensures core[..] == old(core[..])[cpu := {}] && booted[..] == old(booted[..])[cpu := 0]
      ensures info[..] == old(info[..])[cpu := old(info[cpu]).(core := 0)]
    {
      llc[cpu] := {};
      sibling[cpu] := {};
      core[cpu] := {};
      info[cpu] := info[cpu].(core := 0);
      booted[cpu] := 0;
    }

    method RemoveSiblinginfo(cpu: nat)
      requires Valid() && MasksRight() && cpu in setup
      modifies this, info, sibling, llc, core, booted
      ensures Valid() && MasksRight() && setup == old(setup) - {cpu}
      ensures old(CountsRight() && Transitive(SmtNow(), setup)) ==> CountsRight()
      ensures info[..] == old(info[..])[cpu := old(info[cpu]).(core := 0)] && booted[cpu] == 0
    {
      hide MasksAre, CountsAre, Mutual, Unlinked, Transitive, Smt, Llc, Die;
      ghost var smt, shared, die := SmtNow(), Llc(cfg, info[..]), DieNow();
      ghost var sibling0, llc0, core0, booted0 := sibling[..], llc[..], core[..], booted[..];
      ghost var was := info[..];
      AllMutual(cfg, was, setup, cpu, sibling0, llc0, core0);
      UnlinkPackage(cpu);
      Unlink(sibling, cpu);
      Unlink(llc, cpu);
      ghost var sibling1, llc1, core1, booted1 := sibling[..], llc[..], core[..], booted[..];
      Forget(cpu);
      MasksGone(smt, setup, cpu, sibling0, sibling1);
      MasksGone(shared, setup, cpu, llc0, llc1);
      MasksGone(die, setup, cpu, core0, core1);
      if old(CountsRight()) && Transitive(smt, setup) {
        CountsGone(cfg, was, setup, cpu, sibling0, core0, booted0, booted1);
      }
      setup := setup - {cpu};
      Unobserved(was, info[..]);
    }
  }

  // cpu is in the mask of exactly the CPUs in its own.
  ghost predicate Mutual(masks: seq<set<nat>>, cpu: nat) {
    cpu < |masks| && cpu in masks[cpu] && forall a :: 0 <= a < |masks| ==> (a in masks[cpu] <==> cpu in masks[a])
  }

  ghost predicate Unlinked(was: seq<set<nat>>, cpu: nat, now: seq<set<nat>>) {
    |now| == |was| && forall a :: 0 <= a < |was| ==> now[a] == was[a] - {cpu}
  }

  lemma AllMutual(cfg: Config, info: seq<Cpu>, s: set<nat>, cpu: nat,
                  sibling: seq<set<nat>>, llc: seq<set<nat>>, core: seq<set<nat>>)
    requires Numbers(s, |info|) && cpu in s && |sibling| == |llc| == |core| == |info|
    requires MasksAre(Smt(cfg, info), s, sibling) && MasksAre(Llc(cfg, info), s, llc) && MasksAre(Die(cfg, info), s, core)
    ensures Mutual(sibling, cpu) && Mutual(llc, cpu) && Mutual(core, cpu)
  {
    MutualOne(Smt(cfg, info), s, cpu, sibling);
    MutualOne(Llc(cfg, info), s, cpu, llc);
    MutualOne(Die(cfg, info), s, cpu, core);
  }

  lemma MutualOne(r: Rel, s: set<nat>, cpu: nat, masks: seq<set<nat>>)
    requires Numbers(s, |masks|) && cpu in s && MasksAre(r, s, masks) && r(cpu, cpu)
    requires forall a: nat, b: nat :: r(a, b) ==> r(b, a)
    ensures Mutual(masks, cpu)
  {
  }

  lemma MasksGone(r: Rel, s: set<nat>, cpu: nat, was: seq<set<nat>>, now: seq<set<nat>>)
    requires cpu in s && MasksAre(r, s, was) && Numbers(s, |was|) && Unlinked(was, cpu, now)
    ensures MasksAre(r, s - {cpu}, now[cpu := {}])
  {
    MasksRemoved(r, s, cpu, was, now[cpu := {}]);
  }

  lemma CountsGone(cfg: Config, info: seq<Cpu>, s: set<nat>, cpu: nat,
                   sibling: seq<set<nat>>, core: seq<set<nat>>, was: seq<int>, now: seq<int>)
    requires Numbers(s, |info|) && cpu in s && |sibling| == |core| == |was| == |now| == |info|
    requires Transitive(Smt(cfg, info), s)
    requires MasksAre(Smt(cfg, info), s, sibling) && MasksAre(Die(cfg, info), s, core)
    requires CountsAre(Smt(cfg, info), Die(cfg, info), s, was)
    requires forall a :: 0 <= a < |was| ==> now[a] == was[a] - if |sibling[cpu]| == 1 && a in core[cpu] then 1 else 0
    ensures CountsAre(Smt(cfg, info), Die(cfg, info), s - {cpu}, now[cpu := 0])
  {
    var smt, die := Smt(cfg, info), Die(cfg, info);
    Relations(cfg, info, s);
    hide Smt, Die, Equivalence, Within, Transitive, CountsAre;
    assert cpu in sibling[cpu] by { RelatedToItself(cfg, info, s, cpu); }
    One(sibling[cpu], cpu);
    CountsRemoved(smt, die, s, cpu, was, now[cpu := 0]);
  }

  lemma RelatedToItself(cfg: Config, info: seq<Cpu>, s: set<nat>, cpu: nat)
    requires Numbers(s, |info|) && cpu in s
    ensures cpu in Class(Smt(cfg, info), s, cpu)
  {
  }

  // Without several cores or threads every CPU is related only to itself.
  ghost predicate Identity(r: Rel, n: nat) {
    forall a: nat, b: nat :: r(a, b) <==> a == b && a < n
  }

  lemma AloneClass(r: Rel, n: nat, s: set<nat>, a: nat)
    requires Identity(r, n) && a in s && a < n
    ensures Class(r, s, a) == {a}
  {
  }

  lemma AloneMasks(r: Rel, s: set<nat>, cpu: nat, was: seq<set<nat>>)
    requires Identity(r, |was|) && MasksAre(r, s, was) && Numbers(s + {cpu}, |was|) && cpu !in s
    ensures MasksAre(r, s + {cpu}, was[cpu := was[cpu] + {cpu}])
  {
    var now := was[cpu := was[cpu] + {cpu}];
    forall a | a in s + {cpu} ensures now[a] == Class(r, s + {cpu}, a) {
      AloneClass(r, |was|, s + {cpu}, a);
      if a in s {
        AloneClass(r, |was|, s, a);
      }
    }
  }

  lemma AloneGroups(smt: Rel, die: Rel, n: nat, s: set<nat>, a: nat)
    requires Identity(smt, n) && Identity(die, n) && a in s && a < n
    ensures |Groups(smt, die, s, a)| == 1
  {
    AloneClass(smt, n, s, a);
    AloneClass(die, n, s, a);
    assert Groups(smt, die, s, a) == {{a}};
  }

  lemma AloneCounts(smt: Rel, die: Rel, s: set<nat>, cpu: nat, was: seq<int>)
    requires Identity(smt, |was|) && Identity(die, |was|) && Numbers(s + {cpu}, |was|) && cpu !in s
    requires CountsAre(smt, die, s, was)
    ensures CountsAre(smt, die, s + {cpu}, was[cpu := 1])
  {
    forall a | a in s + {cpu} ensures was[cpu := 1][a] == |Groups(smt, die, s + {cpu}, a)| {
      AloneGroups(smt, die, |was|, s + {cpu}, a);
      if a in s {
        AloneGroups(smt, die, |was|, s, a);
      }
    }
  }

  ghost predicate CountedBy(cpu: nat, i: nat, sibling: seq<set<nat>>, was: seq<int>, now: seq<int>)
    requires cpu < |sibling| && i < |sibling| && |was| == |sibling|
  {
    && |now| == |was|
    && (if |sibling[cpu]| == 1 then
          forall a :: 0 <= a < |now| ==>
            now[a] == if a == cpu then was[a] + (if IsLeast(sibling[i], i) then 1 else 0)
                      else if a == i then was[a] + 1 else was[a]
        else if i != cpu && was[cpu] == 0 then now == was[cpu := was[i]]
        else now == was)
  }

  lemma LinkNone(r: Rel, s: set<nat>, cpu: nat, was: seq<set<nat>>)
    ensures Linked(r, s, cpu, 0, was, was)
  {
  }

  lemma One(s: set<nat>, a: nat)
    requires a in s
    ensures |s| == 1 <==> s == {a}
  {
    assert s == {a} + (s - {a});
  }

  // The counts before cpu are right, and being siblings is an equivalence.
  ghost predicate Countable(smt: Rel, die: Rel, s: set<nat>, cpu: nat, was: seq<int>) {
    Equivalence(smt, s) && Equivalence(die, s) && Within(smt, die, s) && CountsAre(smt, die, s - {cpu}, was)
  }

  lemma MayCount(cfg: Config, info: seq<Cpu>, s: set<nat>, cpu: nat, was: seq<int>)
    requires Numbers(s, |info|)
    ensures Transitive(Smt(cfg, info), s) && CountsAre(Smt(cfg, info), Die(cfg, info), s - {cpu}, was) ==>
              Countable(Smt(cfg, info), Die(cfg, info), s, cpu, was)
  {
    Relations(cfg, info, s);
    hide Smt, Die, Transitive, CountsAre, Equivalence, Within;
  }

  lemma CountNone(smt: Rel, die: Rel, s: set<nat>, cpu: nat, was: seq<int>)
    requires cpu < |was| && cpu in s
    ensures Countable(smt, die, s, cpu, was) ==> Counted(smt, die, s, cpu, 0, was, was)
  {
    assert (set b | b in Leaders(smt, s, Class(die, s, cpu)) && b < 0) == {};
  }

  lemma CountStep(smt: Rel, die: Rel, s: set<nat>, cpu: nat, i: nat, was: seq<int>, booted: seq<int>, now: seq<int>,
                  sibling: seq<set<nat>>)
    requires cpu in s && Numbers(s, |was|) && i < |was| == |sibling| == |now|
    requires MasksAre(smt, s, sibling)
    requires Countable(smt, die, s, cpu, was) ==> Counted(smt, die, s, cpu, i, was, booted)
    requires |booted| == |sibling|
    requires if i in s && die(cpu, i) then CountedBy(cpu, i, sibling, booted, now) else now == booted
    ensures Countable(smt, die, s, cpu, was) ==> Counted(smt, die, s, cpu, i + 1, was, now)
  {
    if Countable(smt, die, s, cpu, was) {
      One(Class(smt, s, cpu), cpu);
      assert s - {cpu} + {cpu} == s;
      if Class(smt, s, cpu) == {cpu} {
        StepAlone(smt, die, s, cpu, i, was, booted, now);
      } else {
        StepJoining(smt, die, s - {cpu}, cpu, i, was, booted, now);
      }
    }
  }

  lemma AllCounted(smt: Rel, die: Rel, s: set<nat>, cpu: nat, was: seq<int>, booted: seq<int>)
    requires cpu in s && Numbers(s, |was|)
    requires Countable(smt, die, s, cpu, was) ==> Counted(smt, die, s, cpu, |was|, was, booted)
    ensures Countable(smt, die, s, cpu, was) ==> CountsAre(smt, die, s, booted)
  {
    assert s - {cpu} + {cpu} == s;
    if Countable(smt, die, s, cpu, was) {
      CountedAll(smt, die, s - {cpu}, cpu, was, booted);
    }
  }
}
