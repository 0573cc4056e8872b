/** Path text: components between slashes. */
module PathText {

  /** The components of `text`; empty ones are kept. */
  function Split(text: string): (parts: seq<string>)
    ensures |parts| >= 1
  {
    if text == "" then [""]
    else
      var rest := Split(text[1..]);
      if text[0] == '/' then [""] + rest else [[text[0]] + rest[0]] + rest[1..]
  }

  predicate IsAbsolute(text: string) {
    text != "" && text[0] == '/'
  }

  lemma {:induction false} SplitOfJoin(a: string, b: string)
    ensures Split(a + "/" + b) == Split(a) + Split(b)
  {
    if a == "" {
      assert (a + "/" + b)[1..] == b;
    } else {
      assert (a + "/" + b)[1..] == a[1..] + "/" + b;
      SplitOfJoin(a[1..], b);
    }
  }

  /** A text that ends in a slash, and the empty text, have an empty last component. */
  lemma {:induction false} LastComponent(text: string)
    ensures |Split(text)| == 1 <==> '/' !in text
    ensures |Split(text)| == 1 ==> Split(text) == [text]
    ensures var parts := Split(text); parts[|parts| - 1] == "" <==> text == "" || text[|text| - 1] == '/'
  {
    if text != "" {
      LastComponent(text[1..]);
      assert text == [text[0]] + text[1..];
    }
  }

  /** What pathlib keeps of a relative path: no empty and no "." components. */
  function Meaningful(parts: seq<string>): (r: seq<string>)
    ensures forall i :: 0 <= i < |r| ==> r[i] != "" && r[i] != "."
  {
    if parts == [] then []
    else if parts[0] == "" || parts[0] == "." then Meaningful(parts[1..])
    else [parts[0]] + Meaningful(parts[1..])
  }
}

/** Two ways to follow a path through symbolic links: the recursive, cycle-detecting
    one of `os.path.realpath`, and the walk, which as the kernel does splices link
    targets into what is left of the path and gives up after a number of them. Both
    take components as they are, whether something is there or not. */
module Resolution {
  import opened Basics
  import opened PathText

  /** A location: the names from the root down. */
  type Path = seq<string>

  type Links = map<Path, string>

  function Parent(p: Path): (r: Path) {
    if p == [] then [] else p[..|p| - 1]
  }

  /** Where a link's target text starts from. */
  function Origin(base: Path, target: string): (r: Path) {
    if IsAbsolute(target) then [] else base
  }

  /** Linux gives up after this many links. */
  const LINK_BUDGET := 40

  /** `realpath`, not strict: missing components are taken as they are. `active`
      are the links being resolved; meeting one again is a loop, and nothing is found. */
  function Realpath(links: Links, base: Path, parts: seq<string>, active: set<Path>): (r: Option<Path>)
    decreases links.Keys - active, |parts|
  {
    if parts == [] then Some(base)
    else if parts[0] == "" || parts[0] == "." then Realpath(links, base, parts[1..], active)
    else if parts[0] == ".." then Realpath(links, Parent(base), parts[1..], active)
    else
      var p := base + [parts[0]];
      if p !in links then Realpath(links, p, parts[1..], active)
      else if p in active then None
      else
        assert p in links.Keys - active && p !in links.Keys - (active + {p});
        match Realpath(links, Origin(base, links[p]), Split(links[p]), active + {p})
        case None => None
        case Some(there) => Realpath(links, there, parts[1..], active)
  }

  /** `os.path.join` on the components of two texts: an absolute second text replaces the
      first, and a slash is put between them unless there is one. */
  function Join(text: seq<string>, rest: seq<string>): (r: seq<string>) {
    if |rest| >= 2 && rest[0] == "" then rest
    else (if text != [] && text[|text| - 1] == "" then text[..|text| - 1] else text) + if rest == [] then [""] else rest
  }

  /** The text `realpath` goes on with where it meets a loop: the link met again, joined
      with what was left to resolve at every level. */
  function Kept(links: Links, base: Path, parts: seq<string>, active: set<Path>): (text: seq<string>)
    requires Realpath(links, base, parts, active).None?
    decreases links.Keys - active, |parts|
  {
    if parts[0] == "" || parts[0] == "." then Kept(links, base, parts[1..], active)
    else if parts[0] == ".." then Kept(links, Parent(base), parts[1..], active)
    else
      var p := base + [parts[0]];
      if p !in links then Kept(links, p, parts[1..], active)
      else if p in active then Join([""] + p, parts[1..])
      else
        assert p in links.Keys - active && p !in links.Keys - (active + {p});
        var origin, target := Origin(base, links[p]), Split(links[p]);
        match Realpath(links, origin, target, active + {p})
        case None => Join(Kept(links, origin, target, active + {p}), parts[1..])
        case Some(there) => Kept(links, there, parts[1..], active)
  }

  /** `os.path.normpath`: dots are folded in the text, whatever is on the disk. */
  function Fold(at: Path, parts: seq<string>): (r: Path)
    decreases |parts|
  {
    if parts == [] then at
    else if parts[0] == "" || parts[0] == "." then Fold(at, parts[1..])
    else if parts[0] == ".." then Fold(Parent(at), parts[1..])
    else Fold(at + [parts[0]], parts[1..])
  }

  /** Two slashes at the front, not three, are kept by `normpath`, and to `pathlib` such a
      path lies below no ordinary one. */
  predicate TwoSlashes(text: seq<string>) {
    |text| >= 3 && text[0] == text[1] == "" && (|text| == 3 || text[2] != "")
  }

  /** `os.path.join` on texts. */
  function PathJoin(a: string, b: string): (text: string) {
    if IsAbsolute(b) then b else if a == "" || a[|a| - 1] == '/' then a + b else a + "/" + b
  }

  /** On components, `Join` is the joining of texts; no component and one empty one are
      the same. */
  lemma JoinIsPathJoin(a: string, b: string)
    ensures Join(Split(a), Split(b)) == Split(PathJoin(a, b))
    ensures b == "" ==> Join(Split(a), []) == Split(PathJoin(a, b))
  {
    LastComponent(a);
    if !IsAbsolute(b) && a != "" && a[|a| - 1] == '/' {
      var stem := a[..|a| - 1];
      assert a == stem + "/" + "" && a + b == stem + "/" + b;
      SplitOfJoin(stem, "");
      SplitOfJoin(stem, b);
      assert Split(a)[..|Split(a)| - 1] == Split(stem);
    } else if !IsAbsolute(b) && a == "" {
      assert a + b == b && Split(a)[..0] + Split(b) == Split(b);
    } else {
      SplitOfJoin(a, b);
    }
  }

  /** The text begins with two slashes, and not with three. */
  lemma TwoSlashesIff(text: string)
    ensures TwoSlashes(Split(text)) <==> |text| >= 2 && text[0] == text[1] == '/' && (|text| == 2 || text[2] != '/')
  {
    if |text| >= 2 {
      var rest := text[1..];
      var end := rest[1..];
      assert text[1] == rest[0] && (end == "" <==> |text| == 2) && (end != "" ==> end[0] == text[2]);
      assert Split(text) == if text[0] == '/' then [""] + Split(rest)
                            else [[text[0]] + Split(rest)[0]] + Split(rest)[1..];
      assert Split(rest) == if rest[0] == '/' then [""] + Split(end)
                            else [[rest[0]] + Split(end)[0]] + Split(end)[1..];
      LastComponent(end);
    } else if |text| == 1 {
      assert text[1..] == "";
    }
  }

  /** The walk; the result carries the link budget left over. */
  function Walk(links: Links, at: Path, todo: seq<string>, budget: nat): (r: Option<(Path, nat)>)
    ensures r.Some? ==> r.value.1 <= budget
    decreases budget, |todo|
  {
    if todo == [] then Some((at, budget))
    else if todo[0] == "" || todo[0] == "." then Walk(links, at, todo[1..], budget)
    else if todo[0] == ".." then Walk(links, Parent(at), todo[1..], budget)
    else
      var p := at + [todo[0]];
      if p !in links then Walk(links, p, todo[1..], budget)
      else if budget == 0 then None
      else Walk(links, Origin(at, links[p]), Split(links[p]) + todo[1..], budget - 1)
  }

  /** Some budget takes the walk to `p`. */
  ghost predicate Reaches(links: Links, at: Path, todo: seq<string>, p: Path) {
    exists budget: nat :: ReachesWith(links, at, todo, budget, p)
  }

  predicate ReachesWith(links: Links, at: Path, todo: seq<string>, budget: nat, p: Path) {
    Walk(links, at, todo, budget).Some? && Walk(links, at, todo, budget).value.0 == p
  }

  // ---- Properties of the walk ---------------------------------------------

  /** A walk can be broken off and taken up again. */
  lemma {:induction false} WalkInParts(links: Links, at: Path, first: seq<string>, second: seq<string>, budget: nat)
    ensures Walk(links, at, first + second, budget) ==
              match Walk(links, at, first, budget)
              case None => None
              case Some(mid) => Walk(links, mid.0, second, mid.1)
    decreases budget, |first|
  {
    if first == [] {
      assert first + second == second;
    } else {
      var todo := first + second;
      assert todo[0] == first[0] && todo[1..] == first[1..] + second;
      if first[0] == "" || first[0] == "." {
        WalkInParts(links, at, first[1..], second, budget);
      } else if first[0] == ".." {
        WalkInParts(links, Parent(at), first[1..], second, budget);
      } else {
        var p := at + [first[0]];
        if p !in links {
          WalkInParts(links, p, first[1..], second, budget);
        } else if budget > 0 {
          var spliced := Split(links[p]) + first[1..];
          WalkInParts(links, Origin(at, links[p]), spliced, second, budget - 1);
          assert Split(links[p]) + todo[1..] == spliced + second;
        }
      }
    }
  }

  /** More budget changes nothing but what is left over. */
  lemma {:induction false} SpareBudget(links: Links, at: Path, todo: seq<string>, budget: nat, spare: nat)
    requires Walk(links, at, todo, budget).Some?
    ensures Walk(links, at, todo, budget + spare) ==
              Some((Walk(links, at, todo, budget).value.0, Walk(links, at, todo, budget).value.1 + spare))
    decreases budget, |todo|
  {
    if todo != [] {
      if todo[0] == "" || todo[0] == "." {
        SpareBudget(links, at, todo[1..], budget, spare);
      } else if todo[0] == ".." {
        SpareBudget(links, Parent(at), todo[1..], budget, spare);
      } else {
        var p := at + [todo[0]];
        if p !in links {
          SpareBudget(links, p, todo[1..], budget, spare);
        } else {
          SpareBudget(links, Origin(at, links[p]), Split(links[p]) + todo[1..], budget - 1, spare);
        }
      }
    }
  }

  /** The budget a walk uses is all it needs. */
  lemma {:induction false} ExactBudget(links: Links, at: Path, todo: seq<string>, budget: nat)
    requires Walk(links, at, todo, budget).Some?
    ensures var w := Walk(links, at, todo, budget).value;
            Walk(links, at, todo, budget - w.1) == Some((w.0, 0))
    decreases budget, |todo|
  {
    if todo != [] {
      if todo[0] == "" || todo[0] == "." {
        ExactBudget(links, at, todo[1..], budget);
      } else if todo[0] == ".." {
        ExactBudget(links, Parent(at), todo[1..], budget);
      } else {
        var p := at + [todo[0]];
        if p !in links {
          ExactBudget(links, p, todo[1..], budget);
        } else {
          ExactBudget(links, Origin(at, links[p]), Split(links[p]) + todo[1..], budget - 1);
        }
      }
    }
  }

  /** With less than the exact budget the walk fails. */
  lemma LessBudgetFails(links: Links, at: Path, todo: seq<string>, budget: nat, less: nat)
    requires Walk(links, at, todo, budget).Some? && Walk(links, at, todo, budget).value.1 == 0 && less < budget
    ensures Walk(links, at, todo, less).None?
  {
    if Walk(links, at, todo, less).Some? {
      SpareBudget(links, at, todo, less, budget - less);
    }
  }

  // ---- The recursion finds what the walk finds ----------------------------

  /** What the recursion resolves, the walk reaches. */
  lemma {:induction false} RealpathIsReached(links: Links, base: Path, parts: seq<string>, active: set<Path>)
    returns (budget: nat)
    requires Realpath(links, base, parts, active).Some?
    ensures Walk(links, base, parts, budget) == Some((Realpath(links, base, parts, active).value, 0))
    decreases links.Keys - active, |parts|
  {
    if parts == [] {
      budget := 0;
    } else if parts[0] == "" || parts[0] == "." {
      budget := RealpathIsReached(links, base, parts[1..], active);
    } else if parts[0] == ".." {
      budget := RealpathIsReached(links, Parent(base), parts[1..], active);
    } else {
      var p := base + [parts[0]];
      if p !in links {
        budget := RealpathIsReached(links, p, parts[1..], active);
      } else {
        assert p in links.Keys - active && p !in links.Keys - (active + {p});
        var origin, target := Origin(base, links[p]), Split(links[p]);
        var there := Realpath(links, origin, target, active + {p}).value;
        var inner := RealpathIsReached(links, origin, target, active + {p});
        var outer := RealpathIsReached(links, there, parts[1..], active);
        budget := 1 + inner + outer;
        SpareBudget(links, origin, target, inner, outer);
        WalkInParts(links, origin, target, parts[1..], inner + outer);
      }
    }
  }

  /** Walking the target of any active link takes at least `budget`. */
  ghost predicate TooFar(links: Links, active: set<Path>, budget: nat) {
    forall p :: p in active && p in links && budget > 0 ==> TargetFails(links, p, budget - 1)
  }

  ghost predicate TargetFails(links: Links, p: Path, budget: nat)
    requires p in links
  {
    Walk(links, Origin(Parent(p), links[p]), Split(links[p]), budget).None?
  }

  lemma FailsWithLess(links: Links, at: Path, todo: seq<string>, budget: nat, less: nat)
    requires Walk(links, at, todo, budget).None? && less <= budget
    ensures Walk(links, at, todo, less).None?
  {
    if Walk(links, at, todo, less).Some? {
      SpareBudget(links, at, todo, less, budget - less);
    }
  }

  lemma TooFarWithLess(links: Links, active: set<Path>, budget: nat, less: nat)
    requires TooFar(links, active, budget) && less <= budget
    ensures TooFar(links, active, less)
  {
    forall p | p in active && p in links && less > 0 ensures TargetFails(links, p, less - 1) {
      assert TargetFails(links, p, budget - 1);
      FailsWithLess(links, Origin(Parent(p), links[p]), Split(links[p]), budget - 1, less - 1);
    }
  }

  /** What the walk reaches, the recursion resolves: a walk that ends never passes
      through a link while still inside that link's own target. */
  lemma {:induction false} ReachedIsRealpath(links: Links, base: Path, parts: seq<string>, active: set<Path>,
                                             budget: nat)
    requires Walk(links, base, parts, budget).Some? && TooFar(links, active, budget)
    ensures Realpath(links, base, parts, active) == Some(Walk(links, base, parts, budget).value.0)
    decreases budget, |parts|
  {
    if parts == [] {
    } else if parts[0] == "" || parts[0] == "." {
      ReachedIsRealpath(links, base, parts[1..], active, budget);
    } else if parts[0] == ".." {
      ReachedIsRealpath(links, Parent(base), parts[1..], active, budget);
    } else {
      var p := base + [parts[0]];
      if p !in links {
        ReachedIsRealpath(links, p, parts[1..], active, budget);
      } else {
        var origin, target := Origin(base, links[p]), Split(links[p]);
        assert Parent(p) == base;
        WalkInParts(links, origin, target, parts[1..], budget - 1);
        var mid := Walk(links, origin, target, budget - 1).value;
        assert p !in active by {
          assert p in active ==> TargetFails(links, p, budget - 1);
        }
        var exact := budget - 1 - mid.1;
        ExactBudget(links, origin, target, budget - 1);
        TooFarWithLess(links, active, budget, exact);
        if exact > 0 {
          LessBudgetFails(links, origin, target, exact, exact - 1);
        }
        assert TooFar(links, active + {p}, exact);
        ReachedIsRealpath(links, origin, target, active + {p}, exact);
        TooFarWithLess(links, active, budget, mid.1);
        ReachedIsRealpath(links, mid.0, parts[1..], active, mid.1);
      }
    }
  }

  /** On every path through every set of links, the recursion meets no loop and finds a
      place exactly if the walk, given links enough, gets there. */
  lemma RealpathIsTheWalk(links: Links, base: Path, parts: seq<string>, p: Path)
    ensures Realpath(links, base, parts, {}) == Some(p) <==> Reaches(links, base, parts, p)
  {
    if Realpath(links, base, parts, {}) == Some(p) {
      var budget := RealpathIsReached(links, base, parts, {});
      assert ReachesWith(links, base, parts, budget, p);
    }
    if Reaches(links, base, parts, p) {
      var budget: nat :| ReachesWith(links, base, parts, budget, p);
      ReachedIsRealpath(links, base, parts, {}, budget);
    }
  }

  // ---- Canonical locations ------------------------------------------------

  predicate Name(c: string) {
    c != "" && c != "." && c != ".." && '/' !in c
  }

  /** A location none of whose prefixes is a link. */
  ghost predicate Canonical(links: Links, p: Path) {
    && (forall i :: 0 <= i < |p| ==> Name(p[i]))
    && (forall i :: 0 <= i <= |p| ==> p[..i] !in links)
  }

  lemma {:induction false} SplitHasNoSlash(text: string)
    ensures forall i :: 0 <= i < |Split(text)| ==> '/' !in Split(text)[i]
  {
    if text != "" {
      SplitHasNoSlash(text[1..]);
    }
  }

  lemma CanonicalPrefix(links: Links, p: Path, n: nat)
    requires Canonical(links, p) && n <= |p|
    ensures Canonical(links, p[..n])
  {
    forall i | 0 <= i <= n ensures p[..n][..i] !in links {
      assert p[..n][..i] == p[..i];
    }
  }

  lemma CanonicalChild(links: Links, base: Path, name: string)
    requires Canonical(links, base) && Name(name) && base + [name] !in links
    ensures Canonical(links, base + [name])
  {
    var p := base + [name];
    forall i | 0 <= i <= |p| ensures p[..i] !in links {
      if i < |p| {
        assert p[..i] == base[..i];
      } else {
        assert p[..i] == p;
      }
    }
  }

  /** Resolution ends in a canonical location. */
  lemma {:induction false} RealpathIsCanonical(links: Links, base: Path, parts: seq<string>, active: set<Path>)
    requires Canonical(links, base) && Realpath(links, base, parts, active).Some?
    requires forall i :: 0 <= i < |parts| ==> '/' !in parts[i]
    ensures Canonical(links, Realpath(links, base, parts, active).value)
    decreases links.Keys - active, |parts|
  {
    if parts != [] {
      if parts[0] == "" || parts[0] == "." {
        RealpathIsCanonical(links, base, parts[1..], active);
      } else if parts[0] == ".." {
        if base != [] {
          CanonicalPrefix(links, base, |base| - 1);
        }
        RealpathIsCanonical(links, Parent(base), parts[1..], active);
      } else {
        var p := base + [parts[0]];
        if p !in links {
          CanonicalChild(links, base, parts[0]);
          RealpathIsCanonical(links, p, parts[1..], active);
        } else {
          assert p in links.Keys - active && p !in links.Keys - (active + {p});
          SplitHasNoSlash(links[p]);
          CanonicalPrefix(links, base, 0);
          RealpathIsCanonical(links, Origin(base, links[p]), Split(links[p]), active + {p});
          var there := Realpath(links, Origin(base, links[p]), Split(links[p]), active + {p}).value;
          RealpathIsCanonical(links, there, parts[1..], active);
        }
      }
    }
  }

  /** A canonical location is reached by its own names, without following a link. */
  lemma {:induction false} CanonicalIsItself(links: Links, p: Path, n: nat, budget: nat)
    requires Canonical(links, p) && n <= |p|
    ensures Walk(links, p[..n], p[n..], budget) == Some((p, budget))
    decreases |p| - n
  {
    if n < |p| {
      assert p[n..][0] == p[n] && p[n..][1..] == p[n + 1..];
      assert p[..n] + [p[n]] == p[..n + 1];
      CanonicalIsItself(links, p, n + 1, budget);
    } else {
      assert p[..n] == p && p[n..] == [];
    }
  }

  /** Empty and "." components make no difference. */
  lemma {:induction false} OnlyMeaningfulPartsCount(links: Links, at: Path, parts: seq<string>, active: set<Path>)
    ensures Realpath(links, at, Meaningful(parts), active) == Realpath(links, at, parts, active)
    decreases links.Keys - active, |parts|
  {
    if parts != [] {
      var rest := parts[1..];
      if parts[0] == "" || parts[0] == "." {
        OnlyMeaningfulPartsCount(links, at, rest, active);
      } else {
        var kept := Meaningful(parts);
        assert kept[0] == parts[0] && kept[1..] == Meaningful(rest);
        if parts[0] == ".." {
          OnlyMeaningfulPartsCount(links, Parent(at), rest, active);
        } else {
          var p := at + [parts[0]];
          if p !in links {
            OnlyMeaningfulPartsCount(links, p, rest, active);
          } else if p !in active {
            match Realpath(links, Origin(at, links[p]), Split(links[p]), active + {p}) {
              case None =>
              case Some(there) => OnlyMeaningfulPartsCount(links, there, rest, active);
            }
          }
        }
      }
    }
  }
}
