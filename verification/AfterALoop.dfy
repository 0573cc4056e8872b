/** Paths that meet a loop of links: what resolution makes of them. */
module LoopedPaths {
  import opened Basics
  import opened PathText
  import opened Resolution
  import opened Consulting
  import opened FileSystem
  import opened PathSafety

  /** No link's text has two slashes in a row but at its front or its end. */
  ghost predicate Tidy(links: Links) {
    forall p :: p in links ==> TidyParts(Split(links[p]))
  }

  /** Nothing left over of these parts reads as an absolute path. */
  predicate TidyParts(parts: seq<string>) {
    forall i :: 0 < i < |parts| - 1 ==> parts[i] != ""
  }

  /** An empty component at the end makes no difference to a walk. */
  lemma SlashAtTheEnd(links: Links, at: Path, todo: seq<string>, rest: seq<string>, budget: nat)
    ensures Walk(links, at, todo + [""], budget) == Walk(links, at, todo, budget)
    ensures Walk(links, at, todo + [""] + rest, budget) == Walk(links, at, todo + rest, budget)
  {
    WalkInParts(links, at, todo, [""], budget);
    WalkInParts(links, at, todo + [""], rest, budget);
    WalkInParts(links, at, todo, rest, budget);
    assert [""][1..] == [];
    assert forall p: Path, b: nat :: Walk(links, p, [""], b) == Walk(links, p, [], b);
  }

  /** Walking two joined texts is walking one after the other. */
  lemma WalkOfJoin(links: Links, at: Path, text: seq<string>, rest: seq<string>, budget: nat)
    requires |rest| >= 2 ==> rest[0] != ""
    ensures Walk(links, at, Join(text, rest), budget) == Walk(links, at, text + rest, budget)
  {
    if text != [] && text[|text| - 1] == "" {
      var front := text[..|text| - 1];
      assert text == front + [""];
      SlashAtTheEnd(links, at, front, rest, budget);
      if rest == [] {
        assert Join(text, rest) == text && text + rest == text;
      }
    } else if rest == [] {
      SlashAtTheEnd(links, at, text, [], budget);
      assert text + rest == text;
    }
  }

  /** Walking to a canonical place, and on. */
  lemma WalkThrough(links: Links, base: Path, rest: seq<string>, budget: nat)
    requires Canonical(links, base)
    ensures Walk(links, [], ([""] + base) + rest, budget) == Walk(links, base, rest, budget)
  {
    assert (([""] + base) + rest)[1..] == base + rest;
    WalkInParts(links, [], base, rest, budget);
    CanonicalIsItself(links, base, 0, budget);
    assert base[..0] == [] && base[0..] == base;
  }

  /** Through a link: into its text, and on from there. */
  lemma WalkThroughLink(links: Links, base: Path, parts: seq<string>, budget: nat)
    requires parts != [] && Name(parts[0]) && base + [parts[0]] in links
    ensures var p := base + [parts[0]];
            Walk(links, base, parts, budget + 1) ==
            match Walk(links, Origin(base, links[p]), Split(links[p]), budget)
            case None => None
            case Some(mid) => Walk(links, mid.0, parts[1..], mid.1)
  {
    var p := base + [parts[0]];
    WalkInParts(links, Origin(base, links[p]), Split(links[p]), parts[1..], budget);
  }

  /** The text kept where resolution meets a loop is on the way of the walk: after some
      links, the walk has that text before it. */
  lemma {:induction false} KeptIsOnTheWay(links: Links, base: Path, parts: seq<string>, active: set<Path>)
    returns (used: nat)
    requires Canonical(links, base) && NoSlash(parts) && Tidy(links) && TidyParts(parts)
    requires Realpath(links, base, parts, active).None?
    ensures forall k: nat ::
              Walk(links, base, parts, used + k) == Walk(links, [], Kept(links, base, parts, active), k)
    decreases links.Keys - active, |parts|
  {
    var rest := parts[1..];
    assert NoSlash(rest) && TidyParts(rest);
    if parts[0] == "" || parts[0] == "." {
      used := KeptIsOnTheWay(links, base, rest, active);
    } else if parts[0] == ".." {
      if base != [] {
        CanonicalPrefix(links, base, |base| - 1);
      }
      used := KeptIsOnTheWay(links, Parent(base), rest, active);
    } else {
      var p := base + [parts[0]];
      if p !in links {
        CanonicalChild(links, base, parts[0]);
        used := KeptIsOnTheWay(links, p, rest, active);
      } else if p in active {
        used := 0;
        forall k: nat ensures Walk(links, base, parts, 0 + k) == Walk(links, [], Join([""] + p, rest), k) {
          WalkOfJoin(links, [], [""] + p, rest, k);
          WalkThrough(links, base, parts, k);
          assert ([""] + p) + rest == ([""] + base) + parts;
        }
      } else {
        used := KeptBehindALink(links, base, parts, active);
      }
    }
  }

  /** The loop is met in the link's text. */
  lemma KeptInTheLink(links: Links, base: Path, parts: seq<string>, text: seq<string>, inner: nat)
    requires parts != [] && Name(parts[0]) && base + [parts[0]] in links && TidyParts(parts)
    requires var p := base + [parts[0]];
             forall k: nat ::
               Walk(links, Origin(base, links[p]), Split(links[p]), inner + k) == Walk(links, [], text, k)
    ensures forall k: nat :: Walk(links, base, parts, inner + 1 + k) == Walk(links, [], Join(text, parts[1..]), k)
  {
    forall k: nat ensures Walk(links, base, parts, inner + 1 + k) == Walk(links, [], Join(text, parts[1..]), k) {
      WalkThroughLink(links, base, parts, inner + k);
      WalkOfJoin(links, [], text, parts[1..], k);
      WalkInParts(links, [], text, parts[1..], k);
    }
  }

  /** It is met further on. */
  lemma KeptPastTheLink(links: Links, base: Path, parts: seq<string>, there: Path, text: seq<string>, inner: nat,
                        outer: nat)
    requires parts != [] && Name(parts[0]) && base + [parts[0]] in links
    requires var p := base + [parts[0]];
             Walk(links, Origin(base, links[p]), Split(links[p]), inner) == Some((there, 0))
    requires forall k: nat :: Walk(links, there, parts[1..], outer + k) == Walk(links, [], text, k)
    ensures forall k: nat :: Walk(links, base, parts, inner + outer + 1 + k) == Walk(links, [], text, k)
  {
    var p := base + [parts[0]];
    forall k: nat ensures Walk(links, base, parts, inner + outer + 1 + k) == Walk(links, [], text, k) {
      WalkThroughLink(links, base, parts, inner + outer + k);
      SpareBudget(links, Origin(base, links[p]), Split(links[p]), inner, outer + k);
    }
  }

  lemma {:induction false} KeptBehindALink(links: Links, base: Path, parts: seq<string>, active: set<Path>)
    returns (used: nat)
    requires Canonical(links, base) && NoSlash(parts) && Tidy(links) && TidyParts(parts)
    requires Realpath(links, base, parts, active).None?
    requires parts != [] && Name(parts[0])
    requires base + [parts[0]] in links && base + [parts[0]] !in active
    ensures forall k: nat ::
              Walk(links, base, parts, used + k) == Walk(links, [], Kept(links, base, parts, active), k)
    decreases links.Keys - active, |parts|, 0
  {
    var p, rest := base + [parts[0]], parts[1..];
    assert p in links.Keys - active && p !in links.Keys - (active + {p});
    var origin, target := Origin(base, links[p]), Split(links[p]);
    SplitHasNoSlash(links[p]);
    CanonicalPrefix(links, base, 0);
    assert NoSlash(rest) && TidyParts(rest) && TidyParts(target);
    match Realpath(links, origin, target, active + {p}) {
      case None =>
        var inner := KeptIsOnTheWay(links, origin, target, active + {p});
        used := inner + 1;
        KeptInTheLink(links, base, parts, Kept(links, origin, target, active + {p}), inner);
      case Some(there) =>
        RealpathIsCanonical(links, origin, target, active + {p});
        var inner := RealpathIsReached(links, origin, target, active + {p});
        var outer := KeptIsOnTheWay(links, there, rest, active);
        used := inner + outer + 1;
        KeptPastTheLink(links, base, parts, there, Kept(links, there, rest, active), inner, outer);
    }
  }

  // ---- What folding changes -----------------------------------------------

  /** The text kept leads nowhere either. */
  lemma KeptLeadsNowhere(links: Links, parts: seq<string>, budget: nat)
    requires [] !in links && NoSlash(parts) && Tidy(links) && TidyParts(parts) && Realpath(links, [], parts, {}).None?
    ensures Walk(links, [], Kept(links, [], parts, {}), budget).None?
  {
    assert Canonical(links, []);
    var used := KeptIsOnTheWay(links, [], parts, {});
    if Walk(links, [], parts, used + budget).Some? {
      ReachedIsRealpath(links, [], parts, {}, used + budget);
    }
  }

  /** Two ways on that are one from everywhere are one behind a link. */
  lemma SameBehindALink(links: Links, at: Path, name: string, rest: seq<string>, kept: seq<string>, budget: nat)
    requires Name(name) && at + [name] in links
    requires forall p: Path, b: nat :: b < budget ==> Walk(links, p, kept, b) == Walk(links, p, rest, b)
    ensures Walk(links, at, [name] + kept, budget) == Walk(links, at, [name] + rest, budget)
  {
    if budget > 0 {
      assert ([name] + kept)[1..] == kept && ([name] + rest)[1..] == rest;
      WalkThroughLink(links, at, [name] + kept, budget - 1);
      WalkThroughLink(links, at, [name] + rest, budget - 1);
    }
  }

  /** Without `..`, folding drops what a walk skips. */
  lemma {:induction false} WalkOfFold(links: Links, at: Path, text: seq<string>, budget: nat)
    requires ".." !in text && NoSlash(text)
    ensures Fold(at, text) == at + Meaningful(text)
    ensures Walk(links, at, Meaningful(text), budget) == Walk(links, at, text, budget)
    decreases budget, |text|
  {
    if text != [] {
      var rest := text[1..];
      if text[0] == "" || text[0] == "." {
        WalkOfFold(links, at, rest, budget);
      } else {
        var p := at + [text[0]];
        var kept := Meaningful(rest);
        assert text == [text[0]] + rest && Meaningful(text) == [text[0]] + kept;
        WalkOfFold(links, p, rest, budget);
        if p in links {
          forall q: Path, b: nat | b < budget ensures Walk(links, q, kept, b) == Walk(links, q, rest, b) {
            WalkOfFold(links, q, rest, b);
          }
          SameBehindALink(links, at, text[0], rest, kept, budget);
        } else {
          assert ([text[0]] + kept)[1..] == kept;
        }
      }
    }
  }

  /** A path that meets a loop leads nowhere, unless a `..` is in the text kept there: only a
      `..` folded in the text takes the loop out again. It raises, or the system finds
      something missing on the way before it has followed too many links. */
  lemma NowhereUnlessDotsFollow(fs: Fs, watchDir: string, root: Path, relative: string)
    requires [] !in fs.links && Tidy(fs.links) && Realpath(fs.links, [], Split(watchDir), {}) == Some(root)
    requires !IsAbsolute(relative) && Realpath(fs.links, [], RequestParts(root, relative), {}).None?
    requires ".." !in Kept(fs.links, [], RequestParts(root, relative), {})
    ensures var r := Follow(fs, [], Fold([], Kept(fs.links, [], RequestParts(root, relative), {})), LINK_BUDGET);
            !r.At? && (ResolveWithin(fs, watchDir, relative) == SymlinkLoop <==> !r.Missing? && !r.NotADirectory?)
  {
    var parts := RequestParts(root, relative);
    CheckOfARequest(fs, watchDir, root, relative);
    RootIsCanonical(fs.links, watchDir, root);
    PartsHaveNoSlash(fs.links, root, relative);
    PartsAreTidy(root, relative);
    var text := Kept(fs.links, [], parts, {});
    KeptLeadsNowhere(fs.links, parts, LINK_BUDGET);
    KeptHasNoSlash(fs.links, [], parts, {});
    WalkOfFold(fs.links, [], text, LINK_BUDGET);
    assert [] + Meaningful(text) == Meaningful(text);
    if Follow(fs, [], Fold([], text), LINK_BUDGET).At? {
      FollowedIsWalked(fs, [], Fold([], text), LINK_BUDGET);
    }
  }

  lemma PartsAreTidy(root: Path, relative: string)
    requires forall i :: 0 <= i < |root| ==> Name(root[i])
    ensures TidyParts(RequestParts(root, relative))
  {
    var parts := RequestParts(root, relative);
    forall i | 0 <= i < |parts| ensures parts[i] != "" {
      assert i >= |root| ==> parts[i] in Meaningful(Split(relative));
    }
  }
}

/** Commands on such paths. */
module LoopedCommands {
  import opened Basics
  import opened PathText
  import opened Resolution
  import opened Consulting
  import opened PathSafety
  import opened LoopedPaths
  import opened FileSystem
  import opened FileCommands
  import opened FileConfinement

  // ---- Where a write goes -------------------------------------------------

  /** The only difference are new directories. */
  ghost predicate DirsAdded(fs: Fs, fs': Fs) {
    && fs'.links == fs.links
    && (forall p :: p in fs.nodes ==> p in fs'.nodes && fs'.nodes[p] == fs.nodes[p])
    && (forall p :: p in fs'.nodes && p !in fs.nodes ==> IsDir(fs', p))
  }

  /** Every link is in a directory. */
  ghost predicate LinksInDirs(fs: Fs) {
    forall p :: p in fs.links && p != [] ==> IsDir(fs, Parent(p))
  }

  /** The new ones are on the way to `loc`. */
  ghost predicate OnTheWay(fs: Fs, fs': Fs, loc: Path) {
    forall p :: p in fs'.nodes && p !in fs.nodes ==> p <= loc
  }

  /** Where the walk of a path ends, missing components taken as they are. */
  function Leads(links: Links, p: Path): (loc: Option<Path>) {
    match Walk(links, [], p, LINK_BUDGET)
    case None => None
    case Some(end) => Some(end.0)
  }

  lemma LeadsToChild(links: Links, p: Path)
    requires p != [] && Name(p[|p| - 1]) && Leads(links, Parent(p)).Some?
    requires Leads(links, Parent(p)).value + [p[|p| - 1]] !in links
    ensures Leads(links, p) == Some(Leads(links, Parent(p)).value + [p[|p| - 1]])
  {
    var up, name := Parent(p), p[|p| - 1];
    assert p == up + [name];
    WalkInParts(links, [], up, [name], LINK_BUDGET);
    var mid := Walk(links, [], up, LINK_BUDGET).value;
    assert [name][1..] == [];
    assert Walk(links, mid.0 + [name], [], mid.1) == Some((mid.0 + [name], mid.1));
  }

  /** Where the system gets, the path leads. */
  lemma LocatedIsLed(fs: Fs, p: Path)
    ensures Locate(fs, p).Some? ==> Leads(fs.links, p) == Locate(fs, p)
  {
    if Locate(fs, p).Some? {
      FollowedIsWalked(fs, [], p, LINK_BUDGET);
    }
  }

  /** What is on the way to something that exists exists. */
  lemma OnTheWayExists(fs: Fs, p: Path, q: Path)
    requires WellFormed(fs) && p in fs.nodes && q <= p
    ensures q in fs.nodes
  {
    if q != p {
      AncestorsAreDirs(fs, Parent(p), |q|);
      assert Parent(p)[..|q|] == q;
    }
  }

  /** New directories on the way to the parent are on the way to the child. */
  lemma NewDirsLeadThere(fs: Fs, fs1: Fs, p: Path)
    requires WellFormed(fs) && LinksInDirs(fs) && p != [] && Name(p[|p| - 1])
    requires Leads(fs.links, p).Some? && Leads(fs.links, Parent(p)).Some?
    requires OnTheWay(fs, fs1, Leads(fs.links, Parent(p)).value)
    ensures OnTheWay(fs, fs1, Leads(fs.links, p).value)
  {
    var up := Leads(fs.links, Parent(p)).value;
    forall q | q in fs1.nodes && q !in fs.nodes ensures q <= Leads(fs.links, p).value {
      if up in fs.nodes {
        OnTheWayExists(fs, up, q);
      } else {
        LeadsToChild(fs.links, p);
      }
    }
  }

  /** `os.mkdir` adds the directory its path leads to. */
  lemma MadeWhereItLeads(fs: Fs, p: Path)
    requires p != [] && Name(p[|p| - 1]) && MakeDir(fs, p).Made?
    ensures Leads(fs.links, p).Some?
    ensures MakeDir(fs, p) == Made(fs.(nodes := fs.nodes[Leads(fs.links, p).value := Dir]))
    ensures Leads(fs.links, p).value !in fs.nodes
  {
    LocatedIsLed(fs, Parent(p));
    LeadsToChild(fs.links, p);
  }

  /** Wherever links lead it: `mkdir` with parents adds directories on the way to where its
      path leads. */
  lemma {:induction false} MadeOnTheWay(fs: Fs, p: Path)
    requires WellFormed(fs) && LinksInDirs(fs) && forall i :: 0 <= i < |p| ==> Name(p[i])
    requires MakeDirs(fs, p).Success?
    ensures var fs' := MakeDirs(fs, p).value;
            Leads(fs.links, p).Some? && DirsAdded(fs, fs') && OnTheWay(fs, fs', Leads(fs.links, p).value)
    decreases |p|
  {
    match MakeDir(fs, p) {
      case Made(_) => MadeWhereItLeads(fs, p);
      case Refused => LocatedIsLed(fs, p);
      case NoParent =>
        var fs1 := MakeDirs(fs, Parent(p)).value;
        MadeOnTheWay(fs, Parent(p));
        if MakeDir(fs1, p).Made? {
          MadeWhereItLeads(fs1, p);
        } else {
          LocatedIsLed(fs1, p);
        }
        NewDirsLeadThere(fs, fs1, p);
    }
  }

  /** The content is at `loc`, and otherwise only directories were added, on the way there. */
  ghost predicate LandsAt(fs: Fs, fs': Fs, loc: Path, content: seq<Byte>) {
    && fs'.links == fs.links && loc in fs'.nodes && fs'.nodes[loc] == File(content)
    && (forall p :: p != loc && p in fs.nodes ==> p in fs'.nodes && fs'.nodes[p] == fs.nodes[p])
    && (forall p :: p != loc && p in fs'.nodes && p !in fs.nodes ==> IsDir(fs', p) && p <= loc)
  }

  /** Where the system gets it still gets when no directory is gone. */
  lemma {:induction false} StillFollowed(fs: Fs, fs': Fs, at: Path, todo: seq<string>, budget: nat)
    requires fs'.links == fs.links && forall p :: IsDir(fs, p) ==> IsDir(fs', p)
    requires Follow(fs, at, todo, budget).At?
    ensures Follow(fs', at, todo, budget) == Follow(fs, at, todo, budget)
    decreases budget, |todo|
  {
    if todo != [] {
      assert IsDir(fs, at);
      if todo[0] == "" || todo[0] == "." {
        StillFollowed(fs, fs', at, todo[1..], budget);
      } else if todo[0] == ".." {
        StillFollowed(fs, fs', Parent(at), todo[1..], budget);
      } else {
        var p := at + [todo[0]];
        if p !in fs.links {
          StillFollowed(fs, fs', p, todo[1..], budget);
        } else {
          StillFollowed(fs, fs', Origin(at, fs.links[p]), Split(fs.links[p]) + todo[1..], budget - 1);
        }
      }
    }
  }

  lemma OpenedAt(fs: Fs, target: Path, content: seq<Byte>)
    requires OpenForWriting(fs, target).Success?
    ensures Locate(fs, target).Some?
    ensures WriteContent(OpenForWriting(fs, target).value, target, content)
         == fs.(nodes := fs.nodes[Locate(fs, target).value := File(content)])
  {
    var loc := Locate(fs, target).value;
    StillFollowed(fs, OpenForWriting(fs, target).value, [], target, LINK_BUDGET);
    assert fs.nodes[loc := File([])][loc := File(content)] == fs.nodes[loc := File(content)];
  }

  lemma AckedWrite(fs: Fs, target: Path, path: string, content: seq<Byte>, d: Delivery)
    requires WriteTo(fs, target, path, content, d).settlement.Acked?
    ensures MakeDirs(fs, Parent(target)).Success?
    ensures var fs1 := MakeDirs(fs, Parent(target)).value;
            && OpenForWriting(fs1, target).Success?
            && WriteTo(fs, target, path, content, d).fs
                 == WriteContent(OpenForWriting(fs1, target).value, target, content)
  {
  }

  /** An acked write lands where its target leads, through whatever links. */
  lemma WriteLandsWhereItLeads(fs: Fs, target: Path, path: string, content: seq<Byte>, d: Delivery)
    requires WellFormed(fs) && LinksInDirs(fs) && forall i :: 0 <= i < |target| ==> Name(target[i])
    requires WriteTo(fs, target, path, content, d).settlement.Acked?
    ensures Leads(fs.links, target).Some?
    ensures LandsAt(fs, WriteTo(fs, target, path, content, d).fs, Leads(fs.links, target).value, content)
  {
    AckedWrite(fs, target, path, content, d);
    var fs1 := MakeDirs(fs, Parent(target)).value;
    MadeOnTheWay(fs, Parent(target));
    OpenedAt(fs1, target, content);
    LocatedIsLed(fs1, target);
    if target != [] {
      NewDirsLeadThere(fs, fs1, target);
    }
    PutAt(fs, fs1, Leads(fs.links, target).value, content);
  }

  lemma PutAt(fs: Fs, fs1: Fs, loc: Path, content: seq<Byte>)
    requires DirsAdded(fs, fs1) && OnTheWay(fs, fs1, loc)
    ensures LandsAt(fs, fs1.(nodes := fs1.nodes[loc := File(content)]), loc, content)
  {
  }

  /** A file with this content is where the path leads. */
  predicate HoldsAt(fs: Fs, p: Path, content: seq<Byte>) {
    && Leads(fs.links, p).Some? && Leads(fs.links, p).value in fs.nodes
    && fs.nodes[Leads(fs.links, p).value] == File(content)
  }

  /** An acked write that makes any difference to its file changes nothing outside the root
      exactly if its target leads inside. */
  lemma WriteStaysInsideIff(fs: Fs, root: Path, target: Path, path: string, content: seq<Byte>, d: Delivery)
    requires Rooted(fs, root) && LinksInDirs(fs) && forall i :: 0 <= i < |target| ==> Name(target[i])
    requires WriteTo(fs, target, path, content, d).settlement.Acked?
    requires !HoldsAt(fs, target, content)
    ensures Leads(fs.links, target).Some?
    ensures SameOutside(fs, WriteTo(fs, target, path, content, d).fs, root) <==> root <= Leads(fs.links, target).value
  {
    WriteLandsWhereItLeads(fs, target, path, content, d);
    var fs', loc := WriteTo(fs, target, path, content, d).fs, Leads(fs.links, target).value;
    if root <= loc {
      LandsInside(fs, fs', root, loc, content);
    }
  }

  lemma LandsInside(fs: Fs, fs': Fs, root: Path, loc: Path, content: seq<Byte>)
    requires Rooted(fs, root) && LandsAt(fs, fs', loc, content) && root <= loc
    ensures SameOutside(fs, fs', root)
  {
    forall p | !(root <= p) && p in fs'.nodes ensures p in fs.nodes {
      if p !in fs.nodes {
        CommonExtension(p, root, loc);
        OnTheWayExists(fs, root, p);
      }
    }
  }

  /** For a whole command: whether it met a loop or not. */
  lemma AckedWriteStaysInsideIff(fs: Fs, watchDir: string, root: Path, d: Delivery)
    requires Watching(fs, watchDir, root) && LinksInDirs(fs) && d.kind.Write?
    requires TargetOf(fs, watchDir, d).Some? && Handle(fs, watchDir, d).settlement.Acked?
    requires !HoldsAt(fs, TargetOf(fs, watchDir, d).value, ContentOf(d))
    ensures var target := TargetOf(fs, watchDir, d).value;
            && Leads(fs.links, target).Some?
            && (SameOutside(fs, Handle(fs, watchDir, d).fs, root) <==> root <= Leads(fs.links, target).value)
  {
    var path := DecodePath(d.kind, d.payload).value;
    var target := TargetOf(fs, watchDir, d).value;
    CheckOfARequest(fs, watchDir, root, path);
    if MeetsNoLoop(fs.links, watchDir, path) {
      TargetIsCanonical(fs, watchDir, path);
    } else {
      FoldedHasNames(fs, watchDir, root, path);
    }
    WriteStaysInsideIff(fs, root, target, path, ContentOf(d), d);
  }

  // ---- A loop, then a link outside ----------------------------------------

  lemma {:induction false} LoopMet(links: Links, rest: seq<string>)
    requires ["r"] !in links && ["r", "loop"] in links && links[["r", "loop"]] == "loop"
    requires rest != [] && rest[0] != ""
    ensures Realpath(links, [], ["r", "loop"] + rest, {}).None?
    ensures Kept(links, [], ["r", "loop"] + rest, {}) == ["", "r", "loop"] + rest
  {
    var p: Path := ["r", "loop"];
    assert (["r", "loop"] + rest)[1..] == ["loop"] + rest && (["loop"] + rest)[1..] == rest;
    assert [] + ["r"] == ["r"] && ["r"] + ["loop"] == p;
    SplitOfName("loop");
    assert ["loop"][1..] == [] && Origin(["r"], "loop") == ["r"];
    assert {} + {p} == {p};
    assert Realpath(links, ["r"], ["loop"], {p}).None?;
    assert Kept(links, ["r"], ["loop"], {p}) == Join([""] + p, []);
    assert [""] + p == ["", "r", "loop"];
    assert Join(["", "r", "loop"], []) == ["", "r", "loop", ""];
    assert ["", "r", "loop", ""][..3] == ["", "r", "loop"];
  }

  lemma FirstPart(name: string, rest: string)
    requires '/' !in name
    ensures Split(name + "/" + rest) == [name] + Split(rest)
  {
    SplitOfJoin(name, rest);
    SplitOfName(name);
  }

  lemma WayOutText()
    ensures "loop/../link/x" == "loop" + "/" + ".." + "/" + ("link" + "/" + "x")
  {
  }

  lemma BackText()
    ensures "loop/../f" == "loop" + "/" + ".." + "/" + "f"
  {
  }

  /** A path that goes through the link to itself and back up. */
  lemma LoopAndBackParts(rest: string)
    ensures Split("loop" + "/" + ".." + "/" + rest) == ["loop"] + ([".."] + Split(rest))
  {
    assert "loop" + "/" + ".." + "/" + rest == "loop" + "/" + (".." + "/" + rest);
    FirstPart("loop", ".." + "/" + rest);
    FirstPart("..", rest);
  }

  lemma {:induction false} NamesOrDots(parts: seq<string>)
    requires forall i :: 0 <= i < |parts| ==> parts[i] != "" && parts[i] != "."
    ensures Meaningful(parts) == parts
  {
    if parts != [] {
      NamesOrDots(parts[1..]);
    }
  }

  lemma LoopAndBackRequest(rest: string)
    requires forall i :: 0 <= i < |Split(rest)| ==> Name(Split(rest)[i])
    ensures RequestParts(["r"], "loop" + "/" + ".." + "/" + rest) == ["r", "loop"] + ([".."] + Split(rest))
  {
    LoopAndBackParts(rest);
    var parts := ["loop"] + ([".."] + Split(rest));
    forall i | 0 <= i < |parts| ensures parts[i] != "" && parts[i] != "." {
      assert i >= 2 ==> parts[i] == Split(rest)[i - 2];
    }
    NamesOrDots(parts);
    assert ["r"] + parts == ["r", "loop"] + ([".."] + Split(rest));
  }

  lemma FoldOneOn(at: Path, name: string, rest: seq<string>)
    requires Name(name)
    ensures Fold(at, [name] + rest) == Fold(at + [name], rest)
  {
    assert ([name] + rest)[1..] == rest;
  }

  lemma FoldOneUp(at: Path, rest: seq<string>)
    ensures Fold(at, [".."] + rest) == Fold(Parent(at), rest)
    ensures Fold(at, [""] + rest) == Fold(at, rest)
  {
    assert ([".."] + rest)[1..] == rest && ([""] + rest)[1..] == rest;
  }

  lemma FoldBackOut(rest: seq<string>)
    ensures Fold([], ["", "r", "loop"] + ([".."] + rest)) == Fold(["r"], rest)
  {
    var dots := [".."] + rest;
    assert ["", "r", "loop"] + dots == [""] + (["r"] + (["loop"] + dots));
    FoldOneUp([], ["r"] + (["loop"] + dots));
    FoldOneOn([], "r", ["loop"] + dots);
    assert [] + ["r"] == ["r"];
    FoldOneOn(["r"], "loop", dots);
    FoldOneUp(["r"] + ["loop"], rest);
    assert Parent(["r"] + ["loop"]) == ["r"];
  }

  lemma FoldNames(at: Path, names: seq<string>)
    requires forall i :: 0 <= i < |names| ==> Name(names[i])
    ensures Fold(at, names) == at + names
  {
    WalkOfFold(map[], at, names, 0);
    NamesAreMeaningful(names);
  }

  /** Through the loop and back: accepted, if the system can follow what is left of it. */
  lemma LoopAndBackIsAccepted(fs: Fs, rest: string)
    requires [] !in fs.links && ["r"] !in fs.links && ["r", "loop"] in fs.links && fs.links[["r", "loop"]] == "loop"
    requires forall i :: 0 <= i < |Split(rest)| ==> Name(Split(rest)[i])
    requires Follow(fs, [], ["r"] + Split(rest), LINK_BUDGET).At?
    ensures ResolveWithin(fs, "/r", "loop" + "/" + ".." + "/" + rest) == Within(["r"] + Split(rest))
  {
    var relative, tail := "loop" + "/" + ".." + "/" + rest, [".."] + Split(rest);
    RootResolves(fs.links, {});
    LoopAndBackRequest(rest);
    LoopMet(fs.links, tail);
    CheckOfARequest(fs, "/r", ["r"], relative);
    FoldBackOut(Split(rest));
    FoldNames(["r"], Split(rest));
  }

  lemma FollowOneOn(fs: Fs, at: Path, name: string, rest: seq<string>, budget: nat)
    requires Name(name) && IsDir(fs, at) && at + [name] !in fs.links
    ensures Follow(fs, at, [name] + rest, budget) == Follow(fs, at + [name], rest, budget)
  {
    assert ([name] + rest)[1..] == rest;
  }

  lemma FollowOneLinkOn(fs: Fs, at: Path, name: string, text: seq<string>, rest: seq<string>, budget: nat)
    requires Name(name) && IsDir(fs, at) && at + [name] in fs.links && Split(fs.links[at + [name]]) == [""] + text
    requires IsAbsolute(fs.links[at + [name]]) && IsDir(fs, []) && budget > 0
    ensures Follow(fs, at, [name] + rest, budget) == Follow(fs, [], text + rest, budget - 1)
  {
    assert ([name] + rest)[1..] == rest;
    assert (([""] + text) + rest)[1..] == text + rest;
  }

  lemma OutText()
    ensures Split("/out") == [""] + ["out"]
  {
    FirstPart("", "out");
    SplitOfName("out");
    assert "" + "/" + "out" == "/out";
  }

  /** A link in the root that leads out is followed out. */
  lemma WayOut(fs: Fs, rest: seq<string>, budget: nat)
    requires IsDir(fs, []) && IsDir(fs, ["r"]) && budget > 0
    requires ["r"] !in fs.links && ["out"] !in fs.links
    requires ["r", "link"] in fs.links && fs.links[["r", "link"]] == "/out"
    ensures Follow(fs, [], ["r"] + (["link"] + rest), budget) == Follow(fs, ["out"], rest, budget - 1)
  {
    OutText();
    assert [] + ["r"] == ["r"] && ["r"] + ["link"] == ["r", "link"] && [] + ["out"] == ["out"];
    FollowOneOn(fs, [], "r", ["link"] + rest, budget);
    FollowOneLinkOn(fs, ["r"], "link", ["out"], rest, budget);
    FollowOneOn(fs, [], "out", rest, budget - 1);
  }

  /** The root `/r`, with a link to itself and one to the directory `/out`. */
  const LEAKY := Fs(map[["r", "loop"] := "loop", ["r", "link"] := "/out"], map[[] := Dir, ["r"] := Dir, ["out"] := Dir])

  lemma LeakyIsWellFormed()
    ensures WellFormed(LEAKY) && LinksInDirs(LEAKY)
  {
    forall p | p in LEAKY.nodes && p != [] ensures Parent(p) == [] && Name(p[|p| - 1]) {
      LeakyNode(p);
    }
    forall p | p in LEAKY.links && p != [] ensures Parent(p) == ["r"] && p !in LEAKY.nodes {
      LeakyLink(p);
    }
  }

  lemma LeakyNode(p: Path)
    requires p in LEAKY.nodes && p != []
    ensures Parent(p) == [] && Name(p[|p| - 1])
  {
    assert p == ["r"] || p == ["out"];
  }

  lemma LeakyLink(p: Path)
    requires p in LEAKY.links
    ensures Parent(p) == ["r"] && p !in LEAKY.nodes
  {
    assert p == ["r", "loop"] || p == ["r", "link"];
    assert |p| == 2;
  }

  lemma LeakyIsWatched()
    ensures Watching(LEAKY, "/r", ["r"])
  {
    LeakyIsWellFormed();
    assert |["r"]| == 1;
    RootResolves(LEAKY.links, {});
  }

  lemma LeakyWays()
    ensures Locate(LEAKY, ["r"]) == Some(["r"])
    ensures Locate(LEAKY, ["r", "link"]) == Some(["out"])
  {
    assert [] + ["r"] == ["r"] && ["r"] + [] == ["r"];
    FollowOneOn(LEAKY, [], "r", [], LINK_BUDGET);
    WayOut(LEAKY, [], LINK_BUDGET);
    assert ["r"] + (["link"] + []) == ["r", "link"];
  }

  lemma LeakyWayOut()
    ensures Locate(LEAKY, ["r", "link", "x"]) == Some(["out", "x"])
  {
    WayOut(LEAKY, ["x"] + [], LINK_BUDGET);
    assert ["r"] + (["link"] + (["x"] + [])) == ["r", "link", "x"];
    assert ["out"] + ["x"] == ["out", "x"] && ["out", "x"][0] == "out";
    FollowOneOn(LEAKY, ["out"], "x", [], LINK_BUDGET - 1);
  }

  lemma LeakyWrite(path: string, content: seq<Byte>, d: Delivery)
    requires d.fault == NoFault && d.publish == Done
    ensures var o := WriteTo(LEAKY, ["r", "link", "x"], path, content, d);
            && o.settlement == Acked && ["out", "x"] in o.fs.nodes && o.fs.nodes[["out", "x"]] == File(content)
  {
    var target: Path := ["r", "link", "x"];
    LeakyWays();
    LeakyWayOut();
    assert Parent(target) == ["r", "link"] && Parent(["r", "link"]) == ["r"];
    assert ["r"] + ["link"] == ["r", "link"];
    assert MakeDir(LEAKY, ["r", "link"]) == Refused;
    assert MakeDirs(LEAKY, Parent(target)) == Success(LEAKY);
    assert Parent(["out", "x"]) == ["out"];
    assert OpenForWriting(LEAKY, target).Success?;
    OpenedAt(LEAKY, target, content);
  }

  lemma LeakyAccepts()
    ensures ResolveWithin(LEAKY, "/r", "loop/../link/x") == Within(["r", "link", "x"])
  {
    WayOutText();
    FirstPart("link", "x");
    SplitOfName("x");
    LeakyWayOut();
    var parts := ["r"] + Split("link" + "/" + "x");
    assert parts == ["r", "link", "x"];
    LoopAndBackIsAccepted(LEAKY, "link" + "/" + "x");
  }

  lemma WriteIsActed(fs: Fs, watchDir: string, d: Delivery, path: string, target: Path)
    requires d.kind == Write && DecodePath(d.kind, d.payload) == Some(path)
    requires ResolveWithin(fs, watchDir, path) == Within(target)
    ensures TargetOf(fs, watchDir, d) == Some(target)
    ensures Handle(fs, watchDir, d) == WriteTo(fs, target, path, ContentOf(d), d)
  {
  }

  lemma AddedOutside(a: Fs, b: Fs, root: Path, p: Path)
    requires !(root <= p) && p !in a.nodes && p in b.nodes
    ensures !SameOutside(a, b, root)
  {
  }

  lemma LeakyHandling(d: Delivery, path: string, content: seq<Byte>)
    requires d.kind == Write && d.payload == Fields(Text(path), Bytes(content)) && path != ""
    requires d.fault == NoFault && d.publish == Done
    requires ResolveWithin(LEAKY, "/r", path) == Within(["r", "link", "x"])
    ensures TargetOf(LEAKY, "/r", d) == Some(["r", "link", "x"])
    ensures var o := Handle(LEAKY, "/r", d);
            && o.settlement == Acked && ["out", "x"] in o.fs.nodes && o.fs.nodes[["out", "x"]] == File(content)
  {
    WriteIsActed(LEAKY, "/r", d, path, ["r", "link", "x"]);
    LeakyWrite(path, content, d);
  }

  /** A loop, `..`, and a link outside: the check accepts the path, and the write is made
      outside the root and acked. */
  lemma LoopThenLinkWritesOutside(d: Delivery, content: seq<Byte>)
    requires d.kind == Write && d.payload == Fields(Text("loop/../link/x"), Bytes(content))
    requires d.fault == NoFault && d.publish == Done
    ensures Watching(LEAKY, "/r", ["r"]) && LinksInDirs(LEAKY)
    ensures TargetOf(LEAKY, "/r", d) == Some(["r", "link", "x"])
    ensures var o := Handle(LEAKY, "/r", d);
            && o.settlement == Acked && ["out", "x"] in o.fs.nodes && o.fs.nodes[["out", "x"]] == File(content)
            && !SameOutside(LEAKY, o.fs, ["r"])
  {
    LeakyIsWatched();
    LeakyIsWellFormed();
    LeakyAccepts();
    LeakyHandling(d, "loop/../link/x", content);
    OutIsOutside();
    AddedOutside(LEAKY, Handle(LEAKY, "/r", d).fs, ["r"], ["out", "x"]);
  }

  lemma OutIsOutside()
    ensures !(["r"] <= ["out", "x"]) && ["out", "x"] !in LEAKY.nodes
  {
    assert ["out", "x"][0] == "out";
  }

  /** A loop and `..` alone: accepted, without an exception. */
  lemma LoopAndBackRaisesNothing()
    ensures ResolveWithin(LEAKY, "/r", "loop/../f") == Within(["r", "f"])
  {
    BackText();
    SplitOfName("f");
    assert [] + ["r"] == ["r"] && ["r"] + ["f"] == ["r", "f"] && ["f"] + [] == ["f"];
    FollowOneOn(LEAKY, [], "r", ["f"], LINK_BUDGET);
    FollowOneOn(LEAKY, ["r"], "f", [], LINK_BUDGET);
    LoopAndBackIsAccepted(LEAKY, "f");
  }
}
