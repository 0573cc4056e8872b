/** Which places a walk asks about, and what becomes of it when one of them changes. */
module Consulting {
  import opened Basics
  import opened PathText
  import opened Resolution

  /** The places the walk looks at for a link. */
  function Consulted(links: Links, at: Path, todo: seq<string>, budget: nat): (places: set<Path>)
    decreases budget, |todo|
  {
    if todo == [] then {}
    else if todo[0] == "" || todo[0] == "." then Consulted(links, at, todo[1..], budget)
    else if todo[0] == ".." then Consulted(links, Parent(at), todo[1..], budget)
    else
      var p := at + [todo[0]];
      {p} + if p !in links then Consulted(links, p, todo[1..], budget)
            else if budget == 0 then {}
            else Consulted(links, Origin(at, links[p]), Split(links[p]) + todo[1..], budget - 1)
  }

  /** Resolving `todo` from `at` looks at `p`, sooner or later. */
  ghost predicate Uses(links: Links, at: Path, todo: seq<string>, p: Path) {
    exists budget: nat :: p in Consulted(links, at, todo, budget)
  }

  predicate AgreeOn(a: Links, b: Links, p: Path) {
    (p in a <==> p in b) && (p in a ==> a[p] == b[p])
  }

  // ---- Nothing else matters -----------------------------------------------

  /** A walk looks at what its parts look at. */
  lemma {:induction false} ConsultedInParts(links: Links, at: Path, first: seq<string>, second: seq<string>,
                                            budget: nat)
    ensures Consulted(links, at, first, budget) <= Consulted(links, at, first + second, budget)
    ensures Walk(links, at, first, budget).Some? ==>
              var mid := Walk(links, at, first, budget).value;
              Consulted(links, mid.0, second, mid.1) <= Consulted(links, at, first + second, budget)
    decreases budget, |first|
  {
    if first == [] {
      assert first + second == second;
    } else {
      var todo := first + second;
      assert todo[0] == first[0] && todo[1..] == first[1..] + second;
      if first[0] == "" || first[0] == "." {
        ConsultedInParts(links, at, first[1..], second, budget);
      } else if first[0] == ".." {
        ConsultedInParts(links, Parent(at), first[1..], second, budget);
      } else {
        var p := at + [first[0]];
        if p !in links {
          ConsultedInParts(links, p, first[1..], second, budget);
        } else if budget > 0 {
          var spliced := Split(links[p]) + first[1..];
          ConsultedInParts(links, Origin(at, links[p]), spliced, second, budget - 1);
          assert Split(links[p]) + todo[1..] == spliced + second;
        }
      }
    }
  }

  /** All places resolving `todo` from `at` looks at are alike. */
  ghost predicate AgreeOnUses(a: Links, b: Links, at: Path, todo: seq<string>) {
    forall p :: Uses(a, at, todo, p) ==> AgreeOn(a, b, p)
  }

  /** The rest of a resolution looks at no more than the whole. */
  lemma LaterUses(a: Links, b: Links, at: Path, todo: seq<string>, at': Path, todo': seq<string>, more: nat)
    requires AgreeOnUses(a, b, at, todo)
    requires forall budget: nat :: Consulted(a, at', todo', budget) <= Consulted(a, at, todo, budget + more)
    ensures AgreeOnUses(a, b, at', todo')
  {
    forall p | Uses(a, at', todo', p) ensures AgreeOn(a, b, p) {
      var budget: nat :| p in Consulted(a, at', todo', budget);
      assert p in Consulted(a, at, todo, budget + more);
      assert Uses(a, at, todo, p);
    }
  }

  /** Resolving the target of a link, and going on from there, look at no more than
      resolving through the link. */
  lemma UsesOfALink(a: Links, b: Links, at: Path, todo: seq<string>, active: set<Path>)
    requires AgreeOnUses(a, b, at, todo)
    requires todo != [] && todo[0] != "" && todo[0] != "." && todo[0] != ".." && at + [todo[0]] in a
    ensures var p := at + [todo[0]];
            var origin, target := Origin(at, a[p]), Split(a[p]);
            && AgreeOnUses(a, b, origin, target)
            && (Realpath(a, origin, target, active).Some? ==>
                  AgreeOnUses(a, b, Realpath(a, origin, target, active).value, todo[1..]))
  {
    var p := at + [todo[0]];
    var origin, target, rest := Origin(at, a[p]), Split(a[p]), todo[1..];
    forall budget: nat ensures Consulted(a, origin, target + rest, budget) <= Consulted(a, at, todo, budget + 1) {
    }
    LaterUses(a, b, at, todo, origin, target + rest, 1);
    forall budget: nat ensures Consulted(a, origin, target, budget) <= Consulted(a, origin, target + rest, budget + 0) {
      ConsultedInParts(a, origin, target, rest, budget);
    }
    LaterUses(a, b, origin, target + rest, origin, target, 0);
    if Realpath(a, origin, target, active).Some? {
      var used := RealpathIsReached(a, origin, target, active);
      var there := Realpath(a, origin, target, active).value;
      forall budget: nat ensures Consulted(a, there, rest, budget) <= Consulted(a, origin, target + rest, budget + used)
      {
        SpareBudget(a, origin, target, used, budget);
        ConsultedInParts(a, origin, target, rest, used + budget);
      }
      LaterUses(a, b, origin, target + rest, there, rest, used);
    }
  }

  /** One component on. */
  lemma UsesOneOn(a: Links, b: Links, at: Path, todo: seq<string>)
    requires AgreeOnUses(a, b, at, todo) && todo != []
    ensures todo[0] == "" || todo[0] == "." ==> AgreeOnUses(a, b, at, todo[1..])
    ensures todo[0] == ".." ==> AgreeOnUses(a, b, Parent(at), todo[1..])
    ensures todo[0] != "" && todo[0] != "." && todo[0] != ".." ==>
              var p := at + [todo[0]];
              AgreeOn(a, b, p) && (p !in a ==> AgreeOnUses(a, b, p, todo[1..]))
  {
    if todo[0] == "" || todo[0] == "." {
      LaterUses(a, b, at, todo, at, todo[1..], 0);
    } else if todo[0] == ".." {
      LaterUses(a, b, at, todo, Parent(at), todo[1..], 0);
    } else {
      var p := at + [todo[0]];
      assert p in Consulted(a, at, todo, 0);
      assert Uses(a, at, todo, p);
      if p !in a {
        LaterUses(a, b, at, todo, p, todo[1..], 0);
      }
    }
  }

  /** Links that agree on all places a resolution uses resolve alike, and where it meets a
      loop the same text is kept. */
  lemma {:induction false} ResolutionsAgree(a: Links, b: Links, at: Path, todo: seq<string>, active: set<Path>)
    requires AgreeOnUses(a, b, at, todo)
    ensures Realpath(a, at, todo, active) == Realpath(b, at, todo, active)
    ensures Realpath(a, at, todo, active).None? ==> Kept(a, at, todo, active) == Kept(b, at, todo, active)
    decreases a.Keys - active, |todo|
  {
    if todo != [] {
      var rest := todo[1..];
      UsesOneOn(a, b, at, todo);
      if todo[0] == "" || todo[0] == "." {
        ResolutionsAgree(a, b, at, rest, active);
      } else if todo[0] == ".." {
        ResolutionsAgree(a, b, Parent(at), rest, active);
      } else {
        var p := at + [todo[0]];
        if p !in a {
          ResolutionsAgree(a, b, p, rest, active);
        } else if p !in active {
          assert p in a.Keys - active && p !in a.Keys - (active + {p});
          var origin, target := Origin(at, a[p]), Split(a[p]);
          UsesOfALink(a, b, at, todo, active + {p});
          ResolutionsAgree(a, b, origin, target, active + {p});
          match Realpath(a, origin, target, active + {p}) {
            case None =>
            case Some(there) => ResolutionsAgree(a, b, there, rest, active);
          }
        }
      }
    }
  }

  /** On the way to a place it looks at, the walk looks at every place. */
  lemma {:induction false} WayIsConsulted(links: Links, at: Path, todo: seq<string>, budget: nat, p: Path, q: Path)
    requires q in Consulted(links, at, todo, budget) && p <= q && p != []
    ensures p in Consulted(links, at, todo, budget) || p <= at
    decreases budget, |todo|
  {
    if todo[0] == "" || todo[0] == "." {
      WayIsConsulted(links, at, todo[1..], budget, p, q);
    } else if todo[0] == ".." {
      WayIsConsulted(links, Parent(at), todo[1..], budget, p, q);
    } else {
      var next := at + [todo[0]];
      assert p <= next && p != next ==> p <= at;
      if q != next {
        if next !in links {
          WayIsConsulted(links, next, todo[1..], budget, p, q);
        } else {
          WayIsConsulted(links, Origin(at, links[next]), Split(links[next]) + todo[1..], budget - 1, p, q);
        }
      }
    }
  }

  /** Going down a way without links, the walk looks at the places on it only. */
  lemma {:induction false} ConsultedDown(links: Links, p: Path, n: nat, budget: nat, q: Path)
    requires Canonical(links, p) && n <= |p| && q in Consulted(links, p[..n], p[n..], budget)
    ensures q <= p
    decreases |p| - n
  {
    if n < |p| {
      assert p[n..][0] == p[n] && p[n..][1..] == p[n + 1..];
      assert p[..n] + [p[n]] == p[..n + 1];
      if q != p[..n + 1] {
        ConsultedDown(links, p, n + 1, budget, q);
      }
    }
  }

  lemma WayIsUsed(links: Links, todo: seq<string>, p: Path, q: Path)
    requires Uses(links, [], todo, q) && p <= q && p != []
    ensures Uses(links, [], todo, p)
  {
    var budget: nat :| q in Consulted(links, [], todo, budget);
    WayIsConsulted(links, [], todo, budget, p, q);
    assert p in Consulted(links, [], todo, budget);
  }

  // ---- Everything used matters --------------------------------------------

  /** Where the walk first looks at a place outside `known`: the state it is in there, and
      the budget it has used. */
  ghost function Stray(links: Links, known: iset<Path>, at: Path, todo: seq<string>, budget: nat)
    : (r: Option<(Path, seq<string>, nat)>)
    decreases budget, |todo|
  {
    if todo == [] then None
    else if todo[0] == "" || todo[0] == "." then Stray(links, known, at, todo[1..], budget)
    else if todo[0] == ".." then Stray(links, known, Parent(at), todo[1..], budget)
    else
      var p := at + [todo[0]];
      if p !in known then Some((at, todo, 0))
      else if p !in links then Stray(links, known, p, todo[1..], budget)
      else if budget == 0 then None
      else
        match Stray(links, known, Origin(at, links[p]), Split(links[p]) + todo[1..], budget - 1)
        case None => None
        case Some((at', todo', used)) => Some((at', todo', used + 1))
  }

  predicate NoSlash(todo: seq<string>) {
    forall i :: 0 <= i < |todo| ==> '/' !in todo[i]
  }

  lemma JoinHasNoSlash(text: seq<string>, rest: seq<string>)
    requires NoSlash(text) && NoSlash(rest)
    ensures NoSlash(Join(text, rest))
  {
  }

  lemma {:induction false} KeptHasNoSlash(links: Links, base: Path, parts: seq<string>, active: set<Path>)
    requires NoSlash(base) && NoSlash(parts) && Realpath(links, base, parts, active).None?
    ensures NoSlash(Kept(links, base, parts, active))
    decreases links.Keys - active, |parts|
  {
    var rest := parts[1..];
    assert NoSlash(rest);
    if parts[0] == "" || parts[0] == "." {
      KeptHasNoSlash(links, base, rest, active);
    } else if parts[0] == ".." {
      KeptHasNoSlash(links, Parent(base), rest, active);
    } else {
      var p := base + [parts[0]];
      if p !in links {
        KeptHasNoSlash(links, p, rest, active);
      } else if p in active {
        JoinHasNoSlash([""] + p, rest);
      } else {
        assert p in links.Keys - active && p !in links.Keys - (active + {p});
        var origin, target := Origin(base, links[p]), Split(links[p]);
        SplitHasNoSlash(links[p]);
        match Realpath(links, origin, target, active + {p}) {
          case None =>
            KeptHasNoSlash(links, origin, target, active + {p});
            JoinHasNoSlash(Kept(links, origin, target, active + {p}), rest);
          case Some(there) =>
            RealpathHasNoSlash(links, origin, target, active + {p});
            KeptHasNoSlash(links, there, rest, active);
        }
      }
    }
  }

  lemma {:induction false} RealpathHasNoSlash(links: Links, base: Path, parts: seq<string>, active: set<Path>)
    requires NoSlash(base) && NoSlash(parts) && Realpath(links, base, parts, active).Some?
    ensures NoSlash(Realpath(links, base, parts, active).value)
    decreases links.Keys - active, |parts|
  {
    if parts != [] {
      var rest := parts[1..];
      assert NoSlash(rest);
      if parts[0] == "" || parts[0] == "." {
        RealpathHasNoSlash(links, base, rest, active);
      } else if parts[0] == ".." {
        RealpathHasNoSlash(links, Parent(base), rest, active);
      } else {
        var p := base + [parts[0]];
        if p !in links {
          RealpathHasNoSlash(links, p, rest, active);
        } else {
          assert p in links.Keys - active && p !in links.Keys - (active + {p});
          var origin, target := Origin(base, links[p]), Split(links[p]);
          SplitHasNoSlash(links[p]);
          RealpathHasNoSlash(links, origin, target, active + {p});
          RealpathHasNoSlash(links, Realpath(links, origin, target, active + {p}).value, rest, active);
        }
      }
    }
  }

  /** Folding leaves names only. */
  lemma {:induction false} FoldLeavesNames(at: Path, parts: seq<string>)
    requires (forall i :: 0 <= i < |at| ==> Name(at[i])) && NoSlash(parts)
    ensures forall i :: 0 <= i < |Fold(at, parts)| ==> Name(Fold(at, parts)[i])
    decreases |parts|
  {
    if parts != [] {
      assert NoSlash(parts[1..]);
      if parts[0] == "" || parts[0] == "." {
        FoldLeavesNames(at, parts[1..]);
      } else if parts[0] == ".." {
        FoldLeavesNames(Parent(at), parts[1..]);
      } else {
        FoldLeavesNames(at + [parts[0]], parts[1..]);
      }
    }
  }

  /** There is such a place exactly if the walk looks at a place outside `known`. */
  lemma {:induction false} StrayIff(links: Links, known: iset<Path>, at: Path, todo: seq<string>, budget: nat)
    requires NoSlash(todo)
    ensures Stray(links, known, at, todo, budget).None? <==>
              forall p :: p in Consulted(links, at, todo, budget) ==> p in known
    ensures Stray(links, known, at, todo, budget).Some? ==>
              var (at', todo', _) := Stray(links, known, at, todo, budget).value;
              && todo' != [] && NoSlash(todo') && Name(todo'[0]) && at' + [todo'[0]] !in known
              && at' + [todo'[0]] in Consulted(links, at, todo, budget)
    decreases budget, |todo|
  {
    if todo != [] {
      if todo[0] == "" || todo[0] == "." {
        StrayIff(links, known, at, todo[1..], budget);
      } else if todo[0] == ".." {
        StrayIff(links, known, Parent(at), todo[1..], budget);
      } else {
        var p := at + [todo[0]];
        if p in known {
          if p !in links {
            StrayIff(links, known, p, todo[1..], budget);
          } else if budget > 0 {
            SplitHasNoSlash(links[p]);
            StrayIff(links, known, Origin(at, links[p]), Split(links[p]) + todo[1..], budget - 1);
          }
        }
      }
    }
  }

  /** Whatever link is put at that place, the walk gets there as before. */
  lemma {:induction false} StrayIsReached(links: Links, known: iset<Path>, at: Path, todo: seq<string>, budget: nat,
                                          text: string, k: nat)
    requires NoSlash(todo) && Stray(links, known, at, todo, budget).Some?
    ensures var (at', todo', used) := Stray(links, known, at, todo, budget).value;
            && todo' != []
            && var links' := links[at' + [todo'[0]] := text];
               Walk(links', at, todo, used + k) == Walk(links', at', todo', k)
    decreases budget, |todo|
  {
    StrayIff(links, known, at, todo, budget);
    if todo[0] == "" || todo[0] == "." {
      StrayIsReached(links, known, at, todo[1..], budget, text, k);
    } else if todo[0] == ".." {
      StrayIsReached(links, known, Parent(at), todo[1..], budget, text, k);
    } else {
      var p := at + [todo[0]];
      if p in known {
        if p !in links {
          StrayIsReached(links, known, p, todo[1..], budget, text, k);
        } else {
          SplitHasNoSlash(links[p]);
          StrayIsReached(links, known, Origin(at, links[p]), Split(links[p]) + todo[1..], budget - 1, text, k);
        }
      }
    }
  }

  lemma {:induction false} SplitOfName(name: string)
    requires '/' !in name
    ensures Split(name) == [name]
  {
    if name != "" {
      SplitOfName(name[1..]);
      assert [name[0]] + name[1..] == name;
    }
  }

  /** A link to itself is never passed. */
  lemma {:induction false} StuckAtItself(links: Links, at: Path, todo: seq<string>, budget: nat)
    requires todo != [] && Name(todo[0]) && at + [todo[0]] in links && links[at + [todo[0]]] == todo[0]
    ensures Walk(links, at, todo, budget).None?
    decreases budget
  {
    if budget > 0 {
      SplitOfName(todo[0]);
      assert [todo[0]] + todo[1..] == todo;
      StuckAtItself(links, at, todo, budget - 1);
    }
  }

  /** With a link to itself at the stray place, the walk never ends. */
  lemma StrayCanLoop(links: Links, known: iset<Path>, at: Path, todo: seq<string>, budget: nat, less: nat)
    requires NoSlash(todo) && Stray(links, known, at, todo, budget).Some?
    ensures var (at', todo', _) := Stray(links, known, at, todo, budget).value;
            todo' != [] && Walk(links[at' + [todo'[0]] := todo'[0]], at, todo, less).None?
  {
    StrayIff(links, known, at, todo, budget);
    var (at', todo', used) := Stray(links, known, at, todo, budget).value;
    var links' := links[at' + [todo'[0]] := todo'[0]];
    StrayIsReached(links, known, at, todo, budget, todo'[0], less);
    StuckAtItself(links', at', todo', less);
    if Walk(links', at, todo, less).Some? {
      SpareBudget(links', at, todo, less, used);
    }
  }

  // ---- A link to far away -------------------------------------------------

  /** The text of an absolute path. */
  function Absolute(p: Path): (text: string) {
    if p == [] then "" else Absolute(p[..|p| - 1]) + "/" + p[|p| - 1]
  }

  lemma {:induction false} SplitOfAbsolute(p: Path)
    requires forall i :: 0 <= i < |p| ==> '/' !in p[i]
    ensures Split(Absolute(p)) == [""] + p && (p != [] ==> IsAbsolute(Absolute(p)))
  {
    if p != [] {
      var n := |p| - 1;
      SplitOfAbsolute(p[..n]);
      SplitOfJoin(Absolute(p[..n]), p[n]);
      SplitOfName(p[n]);
      assert p[..n] + [p[n]] == p;
    }
  }

  ghost predicate FreeBelow(links: Links, stem: Path) {
    forall p :: p in links ==> !(stem <= p)
  }

  /** From far enough below a place without links no path leads out again. */
  lemma {:induction false} StaysBelow(links: Links, at: Path, stem: Path, todo: seq<string>, budget: nat)
    requires stem <= at && |at| >= |stem| + |todo| && FreeBelow(links, stem)
    ensures Walk(links, at, todo, budget).Some? && stem <= Walk(links, at, todo, budget).value.0
    decreases |todo|
  {
    if todo != [] {
      if todo[0] == "" || todo[0] == "." {
        StaysBelow(links, at, stem, todo[1..], budget);
      } else if todo[0] == ".." {
        assert stem <= Parent(at);
        StaysBelow(links, Parent(at), stem, todo[1..], budget);
      } else {
        var p := at + [todo[0]];
        assert stem <= p;
        StaysBelow(links, p, stem, todo[1..], budget);
      }
    }
  }

  /** With a link to a place far below `stem` at the stray place, the walk ends below `stem`. */
  lemma StrayCanLeadTo(links: Links, known: iset<Path>, at: Path, todo: seq<string>, budget: nat, stem: Path,
                       far: Path)
    returns (end: Path)
    requires NoSlash(todo) && Stray(links, known, at, todo, budget).Some?
    requires var (at', todo', _) := Stray(links, known, at, todo, budget).value;
             && todo' != [] && stem <= far && |far| >= |stem| + |todo'|
             && Canonical(links[at' + [todo'[0]] := Absolute(far)], far)
             && FreeBelow(links[at' + [todo'[0]] := Absolute(far)], stem)
    ensures var (at', todo', _) := Stray(links, known, at, todo, budget).value;
            stem <= end && Reaches(links[at' + [todo'[0]] := Absolute(far)], at, todo, end)
  {
    StrayIff(links, known, at, todo, budget);
    var (at', todo', used) := Stray(links, known, at, todo, budget).value;
    var links', rest := links[at' + [todo'[0]] := Absolute(far)], todo'[1..];
    FarIsFound(links', at', todo', far);
    StaysBelow(links', far, stem, rest, 0);
    end := Walk(links', far, rest, 0).value.0;
    StrayIsReached(links, known, at, todo, budget, Absolute(far), 1);
    assert ReachesWith(links', at, todo, used + 1, end);
  }

  /** A link to a canonical place leads there. */
  lemma FarIsFound(links: Links, at: Path, todo: seq<string>, far: Path)
    requires todo != [] && Name(todo[0]) && at + [todo[0]] in links && links[at + [todo[0]]] == Absolute(far)
    requires Canonical(links, far) && far != []
    ensures Walk(links, at, todo, 1) == Walk(links, far, todo[1..], 0)
  {
    var text, rest := Absolute(far), todo[1..];
    SplitOfAbsolute(far);
    assert (([""] + far) + rest)[1..] == far + rest;
    WalkInParts(links, [], far, rest, 0);
    CanonicalIsItself(links, far, 0, 0);
    assert far[..0] == [] && far[0..] == far;
  }

  /** There is always a name not in use. */
  lemma UnusedName(names: set<string>) returns (name: string)
    ensures Name(name) && name !in names
  {
    name := FreshText(names);
    assert name[0] == 'z';
  }
}
