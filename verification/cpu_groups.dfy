/** Counting the classes of an equivalence on a set of CPUs. */
module CpuGroups {

  type Rel = (nat, nat) -> bool

  ghost predicate Equivalence(r: Rel, s: set<nat>) {
    && (forall a :: a in s ==> r(a, a))
    && (forall a, b :: a in s && b in s && r(a, b) ==> r(b, a))
    && (forall a, b, c :: a in s && b in s && c in s && r(a, b) && r(b, c) ==> r(a, c))
  }

  ghost predicate Within(r: Rel, q: Rel, s: set<nat>) {
    forall a, b :: a in s && b in s && r(a, b) ==> q(a, b)
  }

  // The members of s related to a.
  function Class(r: Rel, s: set<nat>, a: nat): set<nat> {
    set b | b in s && r(a, b)
  }

  // The classes of r that meet p.
  ghost function Classes(r: Rel, s: set<nat>, p: set<nat>): set<set<nat>> {
    set b | b in p :: Class(r, s, b)
  }

  // The distinct sibling groups in the package of a.
  ghost function Groups(smt: Rel, die: Rel, s: set<nat>, a: nat): set<set<nat>> {
    Classes(smt, s, Class(die, s, a))
  }

  lemma SameClass(r: Rel, s: set<nat>, a: nat, b: nat)
    requires Equivalence(r, s) && a in s && b in s
    ensures r(a, b) <==> Class(r, s, a) == Class(r, s, b)
  {
    if Class(r, s, a) == Class(r, s, b) {
      assert b in Class(r, s, b);
    }
  }

  // Sets that a function maps one to one onto each other are equally large.
  lemma {:induction false} SameCard<T(!new), U(!new)>(a: set<T>, b: set<U>, f: T -> U)
    requires forall x :: x in a ==> f(x) in b
    requires forall x, y :: x in a && y in a && f(x) == f(y) ==> x == y
    requires forall y :: y in b ==> exists x :: x in a && f(x) == y
    ensures |a| == |b|
  {
    if a == {} {
      assert b == {};
    } else {
      var x :| x in a;
      forall y | y in b - {f(x)} ensures exists z :: z in a - {x} && f(z) == y {
        var z :| z in a && f(z) == y;
        assert z in a - {x};
      }
      SameCard(a - {x}, b - {f(x)}, f);
    }
  }

  predicate IsLeast(s: set<nat>, m: nat) {
    m in s && forall x :: x in s ==> m <= x
  }

  lemma {:induction false} LeastExists(s: set<nat>) returns (m: nat)
    requires s != {}
    ensures IsLeast(s, m)
  {
    var x :| x in s;
    if s == {x} {
      m := x;
    } else {
      var y := LeastExists(s - {x});
      m := if x < y then x else y;
      assert forall z | z in s :: z == x || z in s - {x};
    }
  }

  // The CPUs that come first in their group.
  ghost function Leaders(smt: Rel, s: set<nat>, p: set<nat>): set<nat> {
    set b | b in p && IsLeast(Class(smt, s, b), b)
  }

  // There are as many groups as CPUs that come first in theirs.
  lemma LeadersCount(smt: Rel, s: set<nat>, p: set<nat>)
    requires Equivalence(smt, s) && p <= s
    requires forall a, b :: a in p && b in s && smt(a, b) ==> b in p
    ensures |Leaders(smt, s, p)| == |Classes(smt, s, p)|
  {
    var leaders, groups := Leaders(smt, s, p), Classes(smt, s, p);
    var f := (b: nat) => Class(smt, s, b);
    forall x, y | x in leaders && y in leaders && f(x) == f(y) ensures x == y {
      SameLeader(smt, s, x, y);
    }
    forall g | g in groups ensures exists x :: x in leaders && f(x) == g {
      var b :| b in p && g == Class(smt, s, b);
      var m := LeaderOf(smt, s, p, b);
      assert f(m) == g;
    }
    SameCard(leaders, groups, f);
  }

  lemma SameLeader(smt: Rel, s: set<nat>, x: nat, y: nat)
    requires IsLeast(Class(smt, s, x), x) && IsLeast(Class(smt, s, y), y) && Class(smt, s, x) == Class(smt, s, y)
    ensures x == y
  {
  }

  lemma LeaderOf(smt: Rel, s: set<nat>, p: set<nat>, b: nat) returns (m: nat)
    requires Equivalence(smt, s) && p <= s && b in p
    requires forall a, b :: a in p && b in s && smt(a, b) ==> b in p
    ensures m in Leaders(smt, s, p) && Class(smt, s, m) == Class(smt, s, b)
  {
    assert b in Class(smt, s, b);
    m := LeastExists(Class(smt, s, b));
    SameClass(smt, s, b, m);
  }

  // A new CPU changes only the class it joins.
  lemma ClassGrows(r: Rel, s: set<nat>, cpu: nat, a: nat)
    requires cpu !in s
    ensures Class(r, s + {cpu}, a) == Class(r, s, a) + (if r(a, cpu) then {cpu} else {})
  {
  }

  // A CPU alone in its group adds one group to its package, any other none.
  lemma GroupsGrow(smt: Rel, die: Rel, s: set<nat>, cpu: nat, a: nat)
    requires cpu !in s && a in s && Equivalence(smt, s + {cpu}) && Equivalence(die, s + {cpu})
    requires Within(smt, die, s + {cpu}) && die(a, cpu)
    ensures |Groups(smt, die, s + {cpu}, a)| ==
            |Groups(smt, die, s, a)| + (if Class(smt, s + {cpu}, cpu) == {cpu} then 1 else 0)
  {
    var t := s + {cpu};
    var p, q := Class(die, s, a), Class(die, t, a);
    ClassGrows(die, s, cpu, a);
    assert q == p + {cpu};
    if Class(smt, t, cpu) == {cpu} {
      forall b | b in p ensures Class(smt, t, b) == Class(smt, s, b) {
        assert smt(b, cpu) ==> b in Class(smt, t, cpu);
      }
      assert Classes(smt, t, q) == Classes(smt, s, p) + {{cpu}};
      assert {cpu} !in Classes(smt, s, p) by {
        forall b | b in p ensures Class(smt, s, b) != {cpu} {
          assert cpu !in Class(smt, s, b);
        }
      }
    } else {
      Joined(smt, s, cpu, p);
    }
  }

  // A CPU that joins a group leaves the number of groups as it is.
  lemma Joined(smt: Rel, s: set<nat>, cpu: nat, p: set<nat>)
    requires cpu !in s && p <= s && Equivalence(smt, s + {cpu}) && Class(smt, s + {cpu}, cpu) != {cpu}
    requires forall b :: b in s && smt(cpu, b) ==> b in p
    ensures |Classes(smt, s + {cpu}, p + {cpu})| == |Classes(smt, s, p)|
  {
    var t := s + {cpu};
    assert cpu in Class(smt, t, cpu);
    var mate :| mate in Class(smt, t, cpu) && mate != cpu;
    var groups := Classes(smt, s, p);
    var f := (g: set<nat>) => if mate in g then g + {cpu} else g;
    JoinedClasses(smt, s, cpu, p, mate);
    var now := Classes(smt, t, p + {cpu});
    forall g, h | g in groups && h in groups && f(g) == f(h) ensures g == h {
      assert cpu !in g && cpu !in h;
      assert g == f(g) - {cpu} && h == f(h) - {cpu};
    }
    forall g | g in groups ensures f(g) in now {
      var b :| b in p && g == Class(smt, s, b);
      assert f(g) == Class(smt, t, b);
    }
    forall h | h in now ensures exists g :: g in groups && f(g) == h {
      var b :| b in p + {cpu} && h == Class(smt, t, b);
      var x := if b == cpu then mate else b;
      assert Class(smt, s, x) in groups && f(Class(smt, s, x)) == h;
    }
    SameCard(groups, now, f);
  }

  lemma JoinedClasses(smt: Rel, s: set<nat>, cpu: nat, p: set<nat>, mate: nat)
    requires cpu !in s && p <= s && Equivalence(smt, s + {cpu})
    requires mate in Class(smt, s + {cpu}, cpu) && mate != cpu
    requires forall b :: b in s && smt(cpu, b) ==> b in p
    ensures mate in p
    ensures forall b :: b in p ==>
              var g := Class(smt, s, b); Class(smt, s + {cpu}, b) == if mate in g then g + {cpu} else g
    ensures var g := Class(smt, s, mate); mate in g && Class(smt, s + {cpu}, cpu) == g + {cpu}
  {
    var t := s + {cpu};
    forall b | b in p ensures var g := Class(smt, s, b); Class(smt, t, b) == if mate in g then g + {cpu} else g {
      ClassGrows(smt, s, cpu, b);
      MateTells(smt, t, cpu, mate, b);
    }
    SameClass(smt, t, cpu, mate);
    ClassGrows(smt, s, cpu, mate);
  }

  lemma MateTells(smt: Rel, t: set<nat>, cpu: nat, mate: nat, b: nat)
    requires Equivalence(smt, t) && cpu in t && mate in t && b in t && smt(cpu, mate)
    ensures smt(b, cpu) <==> smt(b, mate)
  {
  }

  // A CPU of another package changes nothing.
  lemma OtherPackage(smt: Rel, die: Rel, s: set<nat>, cpu: nat, a: nat)
    requires cpu !in s && a in s && Equivalence(smt, s + {cpu}) && Equivalence(die, s + {cpu})
    requires Within(smt, die, s + {cpu}) && !die(a, cpu)
    ensures Groups(smt, die, s + {cpu}, a) == Groups(smt, die, s, a)
  {
    var t := s + {cpu};
    ClassGrows(die, s, cpu, a);
    forall b | b in Class(die, s, a) ensures Class(smt, t, b) == Class(smt, s, b) {
      ClassGrows(smt, s, cpu, b);
    }
  }
}
