/** Strings in the order `sorted` puts them. */
module Ordering {

  /** Lexicographic by code point, as Python compares strings. */
  predicate Before(a: string, b: string) {
    if a == "" then true
    else if b == "" then false
    else a[0] < b[0] || (a[0] == b[0] && Before(a[1..], b[1..]))
  }

  predicate Sorted(names: seq<string>) {
    forall i, j :: 0 <= i < j < |names| ==> Before(names[i], names[j])
  }

  function Insert(name: string, names: seq<string>): (r: seq<string>) {
    if names == [] then [name]
    else if Before(name, names[0]) then [name] + names
    else [names[0]] + Insert(name, names[1..])
  }

  function Sort(names: seq<string>): (r: seq<string>) {
    if names == [] then [] else Insert(names[0], Sort(names[1..]))
  }

  predicate DifferAt(a: string, b: string, i: nat) {
    i < |a| && i < |b| && a[i] != b[i] && a[..i] == b[..i]
  }

  /** A prefix comes first; otherwise the first character that differs decides. */
  lemma {:induction false} BeforeIff(a: string, b: string)
    ensures Before(a, b) <==> a <= b || exists i: nat :: DifferAt(a, b, i) && a[i] < b[i]
  {
    if a != "" && b != "" {
      if a[0] != b[0] {
        assert DifferAt(a, b, 0);
      } else {
        var s, t := a[1..], b[1..];
        BeforeIff(s, t);
        assert a == [a[0]] + s && b == [b[0]] + t;
        forall i: nat ensures DifferAt(s, t, i) <==> DifferAt(a, b, i + 1) {
          DifferOneOn(a, b, s, t, i);
        }
        if i: nat :| DifferAt(a, b, i) && a[i] < b[i] {
          assert DifferAt(s, t, i - 1);
        }
        if i: nat :| DifferAt(s, t, i) && s[i] < t[i] {
          assert DifferAt(a, b, i + 1);
        }
      }
    }
  }

  lemma DifferOneOn(a: string, b: string, s: string, t: string, i: nat)
    requires a != "" && b != "" && a[0] == b[0] && s == a[1..] && t == b[1..]
    ensures DifferAt(s, t, i) <==> DifferAt(a, b, i + 1)
  {
    if i < |s| && i < |t| {
      assert a[..i + 1] == [a[0]] + s[..i] && b[..i + 1] == [b[0]] + t[..i];
      assert s[..i] == a[..i + 1][1..] && t[..i] == b[..i + 1][1..];
    }
  }

  lemma {:induction false} BeforeIsTotal(a: string, b: string)
    ensures Before(a, b) || Before(b, a)
    ensures Before(a, b) && Before(b, a) ==> a == b
  {
    if a != "" && b != "" {
      BeforeIsTotal(a[1..], b[1..]);
      if Before(a, b) && Before(b, a) {
        assert a == [a[0]] + a[1..] && b == [b[0]] + b[1..];
      }
    }
  }

  lemma {:induction false} BeforeIsTransitive(a: string, b: string, c: string)
    requires Before(a, b) && Before(b, c)
    ensures Before(a, c)
  {
    if a != "" && b != "" && c != "" && a[0] == b[0] == c[0] {
      BeforeIsTransitive(a[1..], b[1..], c[1..]);
    }
  }

  lemma {:induction false} InsertAdds(name: string, names: seq<string>)
    ensures multiset(Insert(name, names)) == multiset(names) + multiset{name}
  {
    if names != [] {
      assert names == [names[0]] + names[1..];
      if !Before(name, names[0]) {
        InsertAdds(name, names[1..]);
      }
    }
  }

  lemma {:induction false} InsertKeepsOrder(name: string, names: seq<string>)
    requires Sorted(names)
    ensures Sorted(Insert(name, names))
  {
    if names != [] {
      if Before(name, names[0]) {
        forall j | 0 <= j < |names| ensures Before(name, names[j]) {
          if j > 0 {
            BeforeIsTransitive(name, names[0], names[j]);
          }
        }
      } else {
        BeforeIsTotal(name, names[0]);
        InsertKeepsOrder(name, names[1..]);
        StillFirst(names[0], name, names[1..]);
      }
    }
  }

  lemma StillFirst(first: string, name: string, rest: seq<string>)
    requires Before(first, name) && forall k :: 0 <= k < |rest| ==> Before(first, rest[k])
    ensures forall j :: 0 <= j < |Insert(name, rest)| ==> Before(first, Insert(name, rest)[j])
  {
    InsertAdds(name, rest);
    var r := Insert(name, rest);
    forall j | 0 <= j < |r| ensures Before(first, r[j]) {
      assert r[j] in multiset(r);
      assert r[j] == name || r[j] in rest;
    }
  }

  lemma {:induction false} SortSorts(names: seq<string>)
    ensures Sorted(Sort(names)) && multiset(Sort(names)) == multiset(names)
  {
    if names != [] {
      SortSorts(names[1..]);
      InsertKeepsOrder(names[0], Sort(names[1..]));
      InsertAdds(names[0], Sort(names[1..]));
      assert names == [names[0]] + names[1..];
    }
  }

  lemma FirstIsLeast(a: seq<string>, b: seq<string>)
    requires Sorted(a) && multiset(a) == multiset(b) && b != []
    ensures a != [] && Before(a[0], b[0])
  {
    assert b[0] in multiset(b);
    assert b[0] in multiset(a);
    var j :| 0 <= j < |a| && a[j] == b[0];
    BeforeIsTotal(a[0], a[0]);
  }

  /** The order in which the names were found does not matter. */
  lemma {:induction false} SortedIsUnique(a: seq<string>, b: seq<string>)
    requires Sorted(a) && Sorted(b) && multiset(a) == multiset(b)
    ensures a == b
  {
    if b == [] {
      assert |multiset(a)| == |a| && |multiset(b)| == 0;
    } else {
      SameFirst(a, b);
      SortedIsUnique(a[1..], b[1..]);
      assert a == [a[0]] + a[1..];
    }
  }

  lemma SameFirst(a: seq<string>, b: seq<string>)
    requires Sorted(a) && Sorted(b) && multiset(a) == multiset(b) && b != []
    ensures a != [] && a[0] == b[0] && multiset(a[1..]) == multiset(b[1..])
    ensures Sorted(a[1..]) && Sorted(b[1..])
  {
    FirstIsLeast(a, b);
    FirstIsLeast(b, a);
    BeforeIsTotal(a[0], b[0]);
    WithoutFirst(a);
    WithoutFirst(b);
  }

  lemma WithoutFirst(a: seq<string>)
    requires Sorted(a) && a != []
    ensures multiset(a[1..]) == multiset(a) - multiset{a[0]}
    ensures Sorted(a[1..])
  {
    assert a == [a[0]] + a[1..];
  }
}

/** A tree of directories, files and symbolic links, and the system calls the file
    handlers make, each on what the kernel finds following its path. */
module FileSystem {
  import opened Basics
  import opened PathText
  import opened Resolution

  datatype Node = Dir | File(content: seq<Byte>)

  datatype Fs = Fs(links: Links, nodes: map<Path, Node>)

  predicate IsDir(fs: Fs, p: Path) {
    p in fs.nodes && fs.nodes[p].Dir?
  }

  predicate IsFile(fs: Fs, p: Path) {
    p in fs.nodes && fs.nodes[p].File?
  }

  /** Where following a path ends: at a location, where something may be or not; or with
      an error. */
  datatype Whereabouts = At(loc: Path) | Missing | NotADirectory | TooManyLinks

  /** What the kernel does with `todo` from `at`: as the walk, but whatever has something
      behind it in the path must be a directory. */
  function Follow(fs: Fs, at: Path, todo: seq<string>, budget: nat): (r: Whereabouts)
    decreases budget, |todo|
  {
    if todo == [] then At(at)
    else if at !in fs.nodes then Missing
    else if fs.nodes[at].File? then NotADirectory
    else if todo[0] == "" || todo[0] == "." then Follow(fs, at, todo[1..], budget)
    else if todo[0] == ".." then Follow(fs, Parent(at), todo[1..], budget)
    else
      var p := at + [todo[0]];
      if p !in fs.links then Follow(fs, p, todo[1..], budget)
      else if budget == 0 then TooManyLinks
      else Follow(fs, Origin(at, fs.links[p]), Split(fs.links[p]) + todo[1..], budget - 1)
  }

  /** The location a call on `p` acts on. */
  function Locate(fs: Fs, p: Path): (loc: Option<Path>) {
    match Follow(fs, [], p, LINK_BUDGET)
    case At(loc) => Some(loc)
    case _ => None
  }

  /** Every file and directory has a directory for a parent, and no place is two
      things. */
  ghost predicate WellFormed(fs: Fs) {
    && IsDir(fs, []) && fs.links.Keys !! fs.nodes.Keys
    && (forall p :: p in fs.nodes && p != [] ==> IsDir(fs, Parent(p)) && Name(p[|p| - 1]))
  }

  datatype OsError = OsError

  // ---- Calls on locations -------------------------------------------------

  /** Making a directory and its parents at a location no link is on the way to. */
  function EnsureDir(fs: Fs, loc: Path): (r: Result<Fs, OsError>)
    decreases |loc|
  {
    if loc in fs.nodes then (if fs.nodes[loc].Dir? then Success(fs) else Failure(OsError))
    else if loc == [] || loc in fs.links then Failure(OsError)
    else
      match EnsureDir(fs, Parent(loc))
      case Failure(e) => Failure(e)
      case Success(fs1) => Success(fs1.(nodes := fs1.nodes[loc := Dir]))
  }

  /** Opening for writing creates or truncates. */
  function OpenAt(fs: Fs, loc: Path): (r: Result<Fs, OsError>) {
    if IsDir(fs, loc) || loc == [] || !IsDir(fs, Parent(loc)) || loc in fs.links then Failure(OsError)
    else Success(fs.(nodes := fs.nodes[loc := File([])]))
  }

  // ---- Calls on paths -----------------------------------------------------

  function Exists(fs: Fs, p: Path): (r: bool) {
    Locate(fs, p).Some? && Locate(fs, p).value in fs.nodes
  }

  function FileAt(fs: Fs, p: Path): (r: bool) {
    Locate(fs, p).Some? && IsFile(fs, Locate(fs, p).value)
  }

  function DirAt(fs: Fs, p: Path): (r: bool) {
    Locate(fs, p).Some? && IsDir(fs, Locate(fs, p).value)
  }

  /** How `os.mkdir` ends: with a directory made, with nothing where its parent should be,
      or with another error. */
  datatype Made = Made(fs: Fs) | NoParent | Refused

  /** `os.mkdir` follows the parent, not the last component. */
  function MakeDir(fs: Fs, p: Path): (r: Made) {
    if p == [] then Refused
    else
      match Follow(fs, [], Parent(p), LINK_BUDGET)
      case Missing => NoParent
      case NotADirectory => Refused
      case TooManyLinks => Refused
      case At(up) =>
        var loc := up + [p[|p| - 1]];
        if up !in fs.nodes then NoParent
        else if IsFile(fs, up) || loc in fs.nodes || loc in fs.links then Refused
        else Made(fs.(nodes := fs.nodes[loc := Dir]))
  }

  /** `Path.mkdir(parents=True, exist_ok=True)`. */
  function MakeDirs(fs: Fs, p: Path): (r: Result<Fs, OsError>)
    decreases |p|
  {
    match MakeDir(fs, p)
    case Made(fs1) => Success(fs1)
    case Refused => if DirAt(fs, p) then Success(fs) else Failure(OsError)
    case NoParent =>
      match MakeDirs(fs, Parent(p))
      case Failure(e) => Failure(e)
      case Success(fs1) =>
        match MakeDir(fs1, p)
        case Made(fs2) => Success(fs2)
        case _ => if DirAt(fs1, p) then Success(fs1) else Failure(OsError)
  }

  function OpenForWriting(fs: Fs, p: Path): (r: Result<Fs, OsError>) {
    match Locate(fs, p)
    case None => Failure(OsError)
    case Some(loc) => OpenAt(fs, loc)
  }

  /** Writing to what was opened; nothing if it has been unlinked meanwhile. */
  function WriteContent(fs: Fs, p: Path, content: seq<Byte>): (r: Fs) {
    match Locate(fs, p)
    case None => fs
    case Some(loc) => if IsFile(fs, loc) then fs.(nodes := fs.nodes[loc := File(content)]) else fs
  }

  function ReadContent(fs: Fs, p: Path): (r: Result<seq<Byte>, OsError>) {
    match Locate(fs, p)
    case None => Failure(OsError)
    case Some(loc) => if IsFile(fs, loc) then Success(fs.nodes[loc].content) else Failure(OsError)
  }

  /** `unlink` follows the parent, not the last component: of a link it removes the link. */
  function Unlink(fs: Fs, p: Path): (r: Result<Fs, OsError>) {
    if p == [] then Failure(OsError)
    else
      match Locate(fs, Parent(p))
      case None => Failure(OsError)
      case Some(up) =>
        var loc := up + [p[|p| - 1]];
        if loc in fs.links then Success(fs.(links := fs.links - {loc}))
        else if IsFile(fs, loc) then Success(fs.(nodes := fs.nodes - {loc}))
        else Failure(OsError)
  }

  /** The names in the directory at a location. */
  function Children(fs: Fs, dir: Path): (names: set<string>) {
    (set p | p in fs.nodes && p != [] && Parent(p) == dir :: p[|p| - 1])
    + (set p | p in fs.links && p != [] && Parent(p) == dir :: p[|p| - 1])
  }

  /** `iterdir` yields every name once, in some order. */
  ghost predicate Listing(fs: Fs, dir: Path, order: seq<string>) {
    && (forall n :: n in order <==> n in Children(fs, dir))
    && (forall i, j :: 0 <= i < j < |order| ==> order[i] != order[j])
  }

  /** Children are the files, directories and links one name further down. */
  lemma ChildIff(fs: Fs, dir: Path, name: string)
    ensures name in Children(fs, dir) <==> dir + [name] in fs.nodes || dir + [name] in fs.links
  {
    var p := dir + [name];
    assert p != [] && Parent(p) == dir && p[|p| - 1] == name;
    assert forall q: Path :: q != [] && Parent(q) == dir && q[|q| - 1] == name ==> q == p;
  }

  // ---- Canonical paths are where they say they are ------------------------

  /** Where the kernel gets, the walk gets. */
  lemma {:induction false} FollowedIsWalked(fs: Fs, at: Path, todo: seq<string>, budget: nat)
    requires Follow(fs, at, todo, budget).At?
    ensures Walk(fs.links, at, todo, budget).Some?
    ensures Walk(fs.links, at, todo, budget).value.0 == Follow(fs, at, todo, budget).loc
    decreases budget, |todo|
  {
    if todo != [] {
      if todo[0] == "" || todo[0] == "." {
        FollowedIsWalked(fs, at, todo[1..], budget);
      } else if todo[0] == ".." {
        FollowedIsWalked(fs, Parent(at), todo[1..], budget);
      } else {
        var p := at + [todo[0]];
        if p !in fs.links {
          FollowedIsWalked(fs, p, todo[1..], budget);
        } else {
          FollowedIsWalked(fs, Origin(at, fs.links[p]), Split(fs.links[p]) + todo[1..], budget - 1);
        }
      }
    }
  }

  /** Following a canonical path goes down it, as far as there are directories. */
  lemma {:induction false} FollowsDown(fs: Fs, p: Path, n: nat, budget: nat)
    requires Canonical(fs.links, p) && n <= |p|
    ensures var r := Follow(fs, p[..n], p[n..], budget);
            && (r.At? ==> r.loc == p) && !r.TooManyLinks?
            && (r.NotADirectory? ==> exists k :: n <= k < |p| && IsFile(fs, p[..k]))
            && (!r.At? ==> !IsDir(fs, Parent(p)) || !WellFormed(fs))
    decreases |p| - n
  {
    if n < |p| {
      assert p[n..][0] == p[n] && p[n..][1..] == p[n + 1..];
      assert p[..n] + [p[n]] == p[..n + 1];
      FollowsDown(fs, p, n + 1, budget);
      if IsFile(fs, p[..n]) {
        assert n <= n < |p| && IsFile(fs, p[..n]);
      }
      if WellFormed(fs) && IsDir(fs, Parent(p)) {
        AncestorsAreDirs(fs, Parent(p), n);
        assert Parent(p)[..n] == p[..n];
      }
    } else {
      assert p[..n] == p && p[n..] == [];
    }
  }

  lemma {:induction false} AncestorsAreDirs(fs: Fs, p: Path, n: nat)
    requires WellFormed(fs) && IsDir(fs, p) && n <= |p|
    ensures IsDir(fs, p[..n])
    decreases |p| - n
  {
    if n < |p| {
      AncestorsAreDirs(fs, p, n + 1);
      assert Parent(p[..n + 1]) == p[..n];
    } else {
      assert p[..n] == p;
    }
  }

  /** A file is no directory to go on from, and nothing is nothing. */
  lemma EndOfTheWay(fs: Fs, p: Path, rest: seq<string>)
    requires WellFormed(fs) && Canonical(fs.links, p) && p != [] && rest != [] && !IsDir(fs, p)
    requires IsDir(fs, Parent(p))
    ensures Follow(fs, [], p + rest, LINK_BUDGET) == if IsFile(fs, p) then NotADirectory else Missing
  {
    GoesDown(fs, p, rest, p + rest, LINK_BUDGET);
  }

  lemma {:induction false} GoesDown(fs: Fs, p: Path, rest: seq<string>, whole: seq<string>, budget: nat)
    requires WellFormed(fs) && Canonical(fs.links, p) && (p == [] || IsDir(fs, Parent(p)))
    requires whole == p + rest
    ensures Follow(fs, [], whole, budget) == Follow(fs, p, rest, budget)
    decreases |p|
  {
    if p == [] {
      assert whole == rest;
    } else {
      var up, name := Parent(p), p[|p| - 1];
      CanonicalParent(fs.links, p);
      Regroup(p, up, name, rest);
      ParentIsDir(fs, up);
      GoesDown(fs, up, [name] + rest, whole, budget);
      OneNameDown(fs, up, p, name, rest, budget);
    }
  }

  lemma Regroup(p: Path, up: Path, name: string, rest: seq<string>)
    requires p != [] && up == Parent(p) && name == p[|p| - 1]
    ensures p == up + [name] && p + rest == up + ([name] + rest)
  {
  }

  lemma ParentIsDir(fs: Fs, p: Path)
    requires WellFormed(fs) && p in fs.nodes
    ensures p == [] || IsDir(fs, Parent(p))
  {
  }

  lemma OneNameDown(fs: Fs, at: Path, p: Path, name: string, rest: seq<string>, budget: nat)
    requires IsDir(fs, at) && Name(name) && p == at + [name] && p !in fs.links
    ensures Follow(fs, at, [name] + rest, budget) == Follow(fs, p, rest, budget)
  {
    assert ([name] + rest)[1..] == rest;
  }

  /** A canonical path is found exactly where its parent is a directory. */
  lemma CanonicalIsLocated(fs: Fs, p: Path)
    requires WellFormed(fs) && Canonical(fs.links, p)
    ensures Locate(fs, p).Some? ==> Locate(fs, p).value == p
    ensures p == [] || IsDir(fs, Parent(p)) ==> Locate(fs, p) == Some(p)
    ensures !Follow(fs, [], p, LINK_BUDGET).TooManyLinks?
  {
    FollowsDown(fs, p, 0, LINK_BUDGET);
    assert p[..0] == [] && p[0..] == p;
  }

  /** The calls on a canonical path are calls on the place it names. */
  lemma CanonicalCalls(fs: Fs, p: Path)
    requires WellFormed(fs) && Canonical(fs.links, p)
    ensures Exists(fs, p) <==> p in fs.nodes
    ensures FileAt(fs, p) <==> IsFile(fs, p)
    ensures DirAt(fs, p) <==> IsDir(fs, p)
    ensures ReadContent(fs, p) == if IsFile(fs, p) then Success(fs.nodes[p].content) else Failure(OsError)
    ensures OpenForWriting(fs, p) == OpenAt(fs, p)
  {
    CanonicalIsLocated(fs, p);
  }

  lemma CanonicalWrite(fs: Fs, p: Path, content: seq<Byte>)
    requires WellFormed(fs) && Canonical(fs.links, p)
    ensures WriteContent(fs, p, content)
         == if IsFile(fs, p) then fs.(nodes := fs.nodes[p := File(content)]) else fs
  {
    CanonicalIsLocated(fs, p);
  }

  lemma CanonicalIsUnlinked(fs: Fs, p: Path)
    requires WellFormed(fs) && Canonical(fs.links, p)
    ensures Unlink(fs, p) == if IsFile(fs, p) then Success(fs.(nodes := fs.nodes - {p})) else Failure(OsError)
  {
    if p != [] {
      CanonicalParent(fs.links, p);
      CanonicalIsLocated(fs, Parent(p));
      assert Parent(p) + [p[|p| - 1]] == p;
    }
  }

  // ---- What the calls keep ------------------------------------------------

  /** Nothing outside `root` is different. */
  ghost predicate SameOutside(a: Fs, b: Fs, root: Path) {
    && a.links == b.links
    && (forall p :: !(root <= p) ==> (p in a.nodes <==> p in b.nodes) && (p in a.nodes ==> a.nodes[p] == b.nodes[p]))
  }

  /** Nothing inside `root` is different: no file, no directory and no link. */
  ghost predicate SameInside(a: Fs, b: Fs, root: Path) {
    && (forall p :: root <= p ==> (p in a.nodes <==> p in b.nodes) && (p in a.nodes ==> a.nodes[p] == b.nodes[p]))
    && (forall p :: root <= p ==> (p in a.links <==> p in b.links) && (p in a.links ==> a.links[p] == b.links[p]))
  }

  /** A well-formed tree with `root` for a directory. */
  ghost predicate Rooted(fs: Fs, root: Path) {
    WellFormed(fs) && IsDir(fs, root)
  }

  lemma ParentWithin(root: Path, p: Path)
    requires root <= p && p != root
    ensures root <= Parent(p)
  {
  }

  /** Something new, or new content, at a place with a directory for a parent. */
  lemma Placed(fs: Fs, root: Path, loc: Path, node: Node)
    requires Rooted(fs, root) && root <= loc && loc != [] && !IsDir(fs, loc) && loc !in fs.links
    requires IsDir(fs, Parent(loc)) && Name(loc[|loc| - 1])
    ensures var fs' := fs.(nodes := fs.nodes[loc := node]);
            Rooted(fs', root) && SameOutside(fs, fs', root)
  {
    var fs' := fs.(nodes := fs.nodes[loc := node]);
    assert fs'.nodes.Keys == fs.nodes.Keys + {loc};
    forall p | p in fs'.nodes && p != [] ensures IsDir(fs', Parent(p)) && Name(p[|p| - 1]) {
      if p != loc {
        assert IsDir(fs, Parent(p)) && Parent(p) != loc;
      } else {
        assert Parent(loc) != loc;
      }
    }
  }

  lemma CanonicalParent(links: Links, loc: Path)
    requires Canonical(links, loc) && loc != []
    ensures Canonical(links, Parent(loc)) && loc !in links && Name(loc[|loc| - 1])
  {
    CanonicalPrefix(links, loc, |loc| - 1);
    assert loc[..|loc|] == loc;
  }

  lemma OneMoreDir(fs: Fs, fs1: Fs, root: Path, loc: Path)
    requires Rooted(fs1, root) && SameOutside(fs, fs1, root) && OnlyDirsAdded(fs, fs1, Parent(loc))
    requires root <= loc && loc != [] && loc !in fs.nodes && loc !in fs.links
    requires IsDir(fs1, Parent(loc)) && Name(loc[|loc| - 1])
    ensures var fs' := fs1.(nodes := fs1.nodes[loc := Dir]);
            Rooted(fs', root) && SameOutside(fs, fs', root) && OnlyDirsAdded(fs, fs', loc)
  {
    var fs' := fs1.(nodes := fs1.nodes[loc := Dir]);
    assert !(loc <= Parent(loc)) && Parent(loc) <= loc;
    Placed(fs1, root, loc, Dir);
    forall p | p in fs'.nodes && p !in fs.nodes ensures p <= loc && IsDir(fs', p) {
      assert p != loc ==> p in fs1.nodes && p <= Parent(loc);
    }
  }

  lemma {:induction false} EnsureDirStaysInside(fs: Fs, root: Path, loc: Path)
    requires Rooted(fs, root) && root <= loc && Canonical(fs.links, loc)
    ensures EnsureDir(fs, loc).Success? ==>
              var fs' := EnsureDir(fs, loc).value;
              && Rooted(fs', root) && SameOutside(fs, fs', root) && IsDir(fs', loc)
              && OnlyDirsAdded(fs, fs', loc)
    decreases |loc|
  {
    if loc !in fs.nodes {
      ParentWithin(root, loc);
      CanonicalParent(fs.links, loc);
      EnsureDirStaysInside(fs, root, Parent(loc));
      if EnsureDir(fs, Parent(loc)).Success? {
        OneMoreDir(fs, EnsureDir(fs, Parent(loc)).value, root, loc);
      }
    }
  }

  /** The only difference are new directories on the way to `loc`. */
  ghost predicate OnlyDirsAdded(fs: Fs, fs': Fs, loc: Path) {
    && (forall p :: p in fs.nodes ==> p in fs'.nodes && fs'.nodes[p] == fs.nodes[p])
    && (forall p :: p in fs'.nodes && p !in fs.nodes ==> p <= loc && IsDir(fs', p))
  }

  /** No directory can be made below a file. */
  lemma {:induction false} NoDirBelowAFile(fs: Fs, p: Path, k: nat)
    requires WellFormed(fs) && k <= |p| && IsFile(fs, p[..k])
    ensures EnsureDir(fs, p).Failure?
    decreases |p|
  {
    if k < |p| {
      assert Parent(p)[..k] == p[..k];
      NoDirBelowAFile(fs, Parent(p), k);
      if IsDir(fs, p) {
        AncestorsAreDirs(fs, p, k);
      }
    } else {
      assert p[..k] == p;
    }
  }

  /** On a way without links, `mkdir` with parents makes what is missing. */
  lemma {:induction false} MakeDirsIsEnsureDir(fs: Fs, p: Path)
    requires WellFormed(fs) && Canonical(fs.links, p)
    ensures MakeDirs(fs, p) == EnsureDir(fs, p)
    decreases |p|
  {
    if p == [] {
      CanonicalCalls(fs, p);
    } else if Parent(p) in fs.nodes {
      ParentIsThere(fs, p);
    } else {
      CanonicalParent(fs.links, p);
      NothingThere(fs, p);
      if MakeDir(fs, p) == NoParent {
        MadeParentFirst(fs, p);
      }
    }
  }

  lemma ParentIsThere(fs: Fs, p: Path)
    requires WellFormed(fs) && Canonical(fs.links, p) && p != [] && Parent(p) in fs.nodes
    ensures MakeDirs(fs, p) == EnsureDir(fs, p)
  {
    var up := Parent(p);
    CanonicalParent(fs.links, p);
    CanonicalIsLocated(fs, up);
    CanonicalCalls(fs, p);
    assert up + [p[|p| - 1]] == p;
  }

  lemma FileOnTheWayUp(fs: Fs, p: Path)
    requires WellFormed(fs) && Canonical(fs.links, p) && Follow(fs, [], p, LINK_BUDGET).NotADirectory?
    ensures EnsureDir(fs, p).Failure?
  {
    FollowsDown(fs, p, 0, LINK_BUDGET);
    assert p[..0] == [] && p[0..] == p;
    var k :| 0 <= k < |p| && IsFile(fs, p[..k]);
    NoDirBelowAFile(fs, p, k);
  }

  /** Nothing is there without its parent. */
  lemma NothingWithoutParent(fs: Fs, p: Path)
    requires WellFormed(fs) && Canonical(fs.links, p) && p != [] && Parent(p) !in fs.nodes
    ensures p !in fs.nodes && p !in fs.links && Canonical(fs.links, Parent(p))
  {
    CanonicalParent(fs.links, p);
  }

  lemma RefusedAndNoDir(fs: Fs, p: Path)
    requires MakeDir(fs, p) == Refused && !DirAt(fs, p)
    ensures MakeDirs(fs, p) == Failure(OsError)
  {
  }

  lemma EnsuresParent(fs: Fs, p: Path)
    requires p !in fs.nodes && p !in fs.links && p != []
    ensures EnsureDir(fs, p) ==
              match EnsureDir(fs, Parent(p))
              case Failure(e) => Failure(e)
              case Success(fs1) => Success(fs1.(nodes := fs1.nodes[p := Dir]))
  {
  }

  /** With no parent there, `mkdir` says so, or a file is on the way. */
  lemma NothingThere(fs: Fs, p: Path)
    requires WellFormed(fs) && Canonical(fs.links, p) && p != [] && Parent(p) !in fs.nodes
    ensures MakeDir(fs, p) == NoParent ||
            (MakeDir(fs, p) == Refused && MakeDirs(fs, p) == Failure(OsError) && EnsureDir(fs, p) == Failure(OsError))
  {
    var up := Parent(p);
    NothingWithoutParent(fs, p);
    CanonicalIsLocated(fs, up);
    match Follow(fs, [], up, LINK_BUDGET) {
      case Missing =>
      case At(loc) => assert Locate(fs, up) == Some(loc);
      case NotADirectory => FileInTheWay(fs, p);
    }
  }

  lemma FileInTheWay(fs: Fs, p: Path)
    requires WellFormed(fs) && Canonical(fs.links, p) && p != [] && p !in fs.nodes && p !in fs.links
    requires Canonical(fs.links, Parent(p)) && Follow(fs, [], Parent(p), LINK_BUDGET).NotADirectory?
    ensures MakeDir(fs, p) == Refused && MakeDirs(fs, p) == Failure(OsError) && EnsureDir(fs, p) == Failure(OsError)
  {
    FileOnTheWayUp(fs, Parent(p));
    EnsuresParent(fs, p);
    CanonicalCalls(fs, p);
    RefusedAndNoDir(fs, p);
    match EnsureDir(fs, Parent(p)).error {
      case OsError =>
    }
  }

  lemma {:induction false} MadeParentFirst(fs: Fs, p: Path)
    requires WellFormed(fs) && Canonical(fs.links, p) && p != [] && MakeDir(fs, p) == NoParent
    requires Parent(p) !in fs.nodes
    ensures MakeDirs(fs, p) == EnsureDir(fs, p)
    decreases |p|, 0
  {
    var up := Parent(p);
    NothingWithoutParent(fs, p);
    EnsuresParent(fs, p);
    MakeDirsIsEnsureDir(fs, up);
    if EnsureDir(fs, up).Success? {
      EnsureDirStaysInside(fs, [], up);
      ThenItIsMade(EnsureDir(fs, up).value, p);
    }
  }

  lemma ThenItIsMade(fs: Fs, p: Path)
    requires WellFormed(fs) && Canonical(fs.links, p) && p != [] && IsDir(fs, Parent(p)) && p !in fs.nodes
    ensures MakeDir(fs, p) == Made(fs.(nodes := fs.nodes[p := Dir]))
  {
    var up := Parent(p);
    CanonicalParent(fs.links, p);
    CanonicalIsLocated(fs, up);
    assert up + [p[|p| - 1]] == p;
  }

  lemma {:induction false} EnsureDirSeesInside(a: Fs, b: Fs, root: Path, loc: Path)
    requires Rooted(a, root) && Rooted(b, root) && SameInside(a, b, root) && root <= loc
    ensures EnsureDir(a, loc).Success? <==> EnsureDir(b, loc).Success?
    ensures EnsureDir(a, loc).Success? ==> SameInside(EnsureDir(a, loc).value, EnsureDir(b, loc).value, root)
    decreases |loc|
  {
    if loc !in a.nodes {
      ParentWithin(root, loc);
      EnsureDirSeesInside(a, b, root, Parent(loc));
    }
  }
}
