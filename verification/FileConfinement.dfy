/** Confinement: what the file commands read and change. */
module FileConfinement {
  import opened Basics
  import opened PathText
  import opened Resolution
  import opened Consulting
  import opened PathSafety
  import opened FileSystem
  import opened FileCommands
  import Ordering

  /** The watch directory exists, at `root`, in a well-formed tree; resolving it meets no
      loop. */
  ghost predicate Watching(fs: Fs, watchDir: string, root: Path) {
    Rooted(fs, root) && Realpath(fs.links, [], Split(watchDir), {}) == Some(root)
  }

  /** What the requested path resolves to, or folds to where it meets a loop. */
  function Candidate(links: Links, root: Path, relative: string): (p: Path) {
    match Realpath(links, [], RequestParts(root, relative), {})
    case Some(p) => p
    case None => Fold([], Kept(links, [], RequestParts(root, relative), {}))
  }

  /** If that is in the root, it is led to directly: no link is on the way. */
  ghost predicate LeadsDirectly(links: Links, root: Path, relative: string) {
    IsAbsolute(relative) || !(root <= Candidate(links, root, relative))
    || Canonical(links, Candidate(links, root, relative))
  }

  /** The command's path does. */
  ghost predicate Direct(links: Links, root: Path, d: Delivery) {
    match DecodePath(d.kind, d.payload)
    case None => true
    case Some(path) => LeadsDirectly(links, root, path)
  }

  /** Every path does that meets no loop, and after a loop those whose folded text leads
      outside or has no link on its way. */
  lemma LeadsDirectlyIff(links: Links, root: Path, relative: string)
    requires Canonical(links, root) && !IsAbsolute(relative)
    ensures LeadsDirectly(links, root, relative)
       <==> || Realpath(links, [], RequestParts(root, relative), {}).Some?
            || !(root <= Fold([], Kept(links, [], RequestParts(root, relative), {})))
            || Canonical(links, Fold([], Kept(links, [], RequestParts(root, relative), {})))
  {
    if Realpath(links, [], RequestParts(root, relative), {}).Some? {
      PartsHaveNoSlash(links, root, relative);
      CanonicalPrefix(links, root, 0);
      RealpathIsCanonical(links, [], RequestParts(root, relative), {});
    }
  }

  lemma TargetIsInside(fs: Fs, watchDir: string, root: Path, relative: string)
    requires Watching(fs, watchDir, root) && ResolveWithin(fs, watchDir, relative).Within?
    requires LeadsDirectly(fs.links, root, relative)
    ensures var target := ResolveWithin(fs, watchDir, relative).target;
            root <= target && Canonical(fs.links, target) && target == Candidate(fs.links, root, relative)
    ensures Canonical(fs.links, root)
  {
    RootIsCanonical(fs.links, watchDir, root);
    CheckOfARequest(fs, watchDir, root, relative);
  }

  /** What is accepted once is accepted as long as the links stay as they are. */
  lemma StillAccepted(fs: Fs, fs': Fs, watchDir: string, root: Path, relative: string)
    requires Watching(fs, watchDir, root) && Watching(fs', watchDir, root) && fs'.links == fs.links
    requires LeadsDirectly(fs.links, root, relative)
    ensures ResolveWithin(fs, watchDir, relative).Within? ==>
              ResolveWithin(fs', watchDir, relative) == ResolveWithin(fs, watchDir, relative)
  {
    if ResolveWithin(fs, watchDir, relative).Within? {
      TargetIsInside(fs, watchDir, root, relative);
      CheckOfARequest(fs, watchDir, root, relative);
      CheckOfARequest(fs', watchDir, root, relative);
      CanonicalIsLocated(fs', Candidate(fs.links, root, relative));
    }
  }

  // ---- The calls ----------------------------------------------------------

  /** Paths on the way to the root or below it. */
  ghost predicate AlongRoot(root: Path, p: Path) {
    root <= p || p <= root
  }

  /** Making directories for anything along the root changes nothing outside it: the
      root and all above it exist. */
  lemma MakeDirsStaysInside(fs: Fs, root: Path, p: Path)
    requires Rooted(fs, root) && AlongRoot(root, p) && Canonical(fs.links, p)
    ensures MakeDirs(fs, p).Success? ==>
              var fs' := MakeDirs(fs, p).value;
              Rooted(fs', root) && SameOutside(fs, fs', root) && OnlyDirsAdded(fs, fs', p)
    ensures p <= root ==> MakeDirs(fs, p) == Success(fs)
  {
    MakeDirsIsEnsureDir(fs, p);
    if p <= root {
      AncestorsAreDirs(fs, root, |p|);
      assert root[..|p|] == p;
    } else {
      EnsureDirStaysInside(fs, root, p);
    }
  }

  lemma OpenStaysInside(fs: Fs, root: Path, target: Path)
    requires Rooted(fs, root) && root <= target && Canonical(fs.links, target)
    ensures OpenForWriting(fs, target).Success? ==>
              var fs' := OpenForWriting(fs, target).value;
              Rooted(fs', root) && SameOutside(fs, fs', root) && fs'.nodes == fs.nodes[target := File([])]
  {
    CanonicalCalls(fs, target);
    if OpenForWriting(fs, target).Success? {
      CanonicalParent(fs.links, target);
      Placed(fs, root, target, File([]));
    }
  }

  lemma WriteStaysInside(fs: Fs, root: Path, target: Path, content: seq<Byte>)
    requires Rooted(fs, root) && root <= target && Canonical(fs.links, target)
    ensures var fs' := WriteContent(fs, target, content);
            && Rooted(fs', root) && SameOutside(fs, fs', root)
            && fs'.nodes == if IsFile(fs, target) then fs.nodes[target := File(content)] else fs.nodes
  {
    CanonicalWrite(fs, target, content);
    if IsFile(fs, target) {
      CanonicalParent(fs.links, target);
      Placed(fs, root, target, File(content));
    }
  }

  lemma RemovedFile(fs: Fs, root: Path, loc: Path)
    requires Rooted(fs, root) && root <= loc && IsFile(fs, loc)
    ensures var fs' := fs.(nodes := fs.nodes - {loc});
            Rooted(fs', root) && SameOutside(fs, fs', root)
  {
    var fs' := fs.(nodes := fs.nodes - {loc});
    forall p | p in fs'.nodes && p != [] ensures IsDir(fs', Parent(p)) {
      assert IsDir(fs, Parent(p));
    }
  }

  lemma UnlinkStaysInside(fs: Fs, root: Path, target: Path)
    requires Rooted(fs, root) && root <= target && Canonical(fs.links, target)
    ensures Unlink(fs, target).Success? <==> IsFile(fs, target)
    ensures Unlink(fs, target).Success? ==>
              var fs' := Unlink(fs, target).value;
              Rooted(fs', root) && SameOutside(fs, fs', root) && fs'.nodes == fs.nodes - {target}
  {
    CanonicalIsUnlinked(fs, target);
    if IsFile(fs, target) {
      RemovedFile(fs, root, target);
    }
  }

  // ---- Any interleaving of calls ------------------------------------------

  /** A single call of some handler, on a target accepted at any earlier time. */
  datatype Call =
    | Mkdir(relative: string)
    | Open(relative: string)
    | Put(relative: string, content: seq<Byte>)
    | Remove(relative: string)

  function Perform(fs: Fs, watchDir: string, c: Call): (r: Fs) {
    match ResolveWithin(fs, watchDir, c.relative)
    case Within(target) =>
      (match c
       case Mkdir(_) => (match MakeDirs(fs, Parent(target)) case Success(fs1) => fs1 case Failure(_) => fs)
       case Open(_) => (match OpenForWriting(fs, target) case Success(fs1) => fs1 case Failure(_) => fs)
       case Put(_, content) => WriteContent(fs, target, content)
       case Remove(_) => (match Unlink(fs, target) case Success(fs1) => fs1 case Failure(_) => fs))
    case _ => fs
  }

  function PerformAll(fs: Fs, watchDir: string, calls: seq<Call>): (r: Fs) {
    if calls == [] then fs else Perform(PerformAll(fs, watchDir, calls[..|calls| - 1]), watchDir, calls[|calls| - 1])
  }

  lemma ParentIsAlong(links: Links, root: Path, target: Path)
    requires root <= target && Canonical(links, target)
    ensures AlongRoot(root, Parent(target)) && Canonical(links, Parent(target))
  {
    if target != [] {
      CanonicalParent(links, target);
    }
    if target != root {
      ParentWithin(root, target);
    }
  }

  /** The handlers' calls on paths that lead directly, interleaved in any way, change nothing
      outside the root and no link, so that a target accepted once is accepted, and means
      the same place, for good. */
  lemma {:induction false} InterleavedCallsStayInside(fs: Fs, watchDir: string, root: Path, calls: seq<Call>)
    requires Watching(fs, watchDir, root)
    requires forall i :: 0 <= i < |calls| ==> LeadsDirectly(fs.links, root, calls[i].relative)
    ensures var fs' := PerformAll(fs, watchDir, calls);
            && Watching(fs', watchDir, root) && SameOutside(fs, fs', root)
            && (forall relative ::
                  LeadsDirectly(fs.links, root, relative) && ResolveWithin(fs, watchDir, relative).Within? ==>
                  ResolveWithin(fs', watchDir, relative) == ResolveWithin(fs, watchDir, relative))
  {
    if calls != [] {
      var c := calls[|calls| - 1];
      var before := PerformAll(fs, watchDir, calls[..|calls| - 1]);
      InterleavedCallsStayInside(fs, watchDir, root, calls[..|calls| - 1]);
      CallStaysInside(before, watchDir, root, c);
    }
    var fs' := PerformAll(fs, watchDir, calls);
    forall relative | LeadsDirectly(fs.links, root, relative) && ResolveWithin(fs, watchDir, relative).Within?
      ensures ResolveWithin(fs', watchDir, relative) == ResolveWithin(fs, watchDir, relative)
    {
      StillAccepted(fs, fs', watchDir, root, relative);
    }
  }

  lemma CallStaysInside(fs: Fs, watchDir: string, root: Path, c: Call)
    requires Watching(fs, watchDir, root) && LeadsDirectly(fs.links, root, c.relative)
    ensures Watching(Perform(fs, watchDir, c), watchDir, root) && SameOutside(fs, Perform(fs, watchDir, c), root)
  {
    if ResolveWithin(fs, watchDir, c.relative).Within? {
      TargetIsInside(fs, watchDir, root, c.relative);
      var target := ResolveWithin(fs, watchDir, c.relative).target;
      ParentIsAlong(fs.links, root, target);
      MakeDirsStaysInside(fs, root, Parent(target));
      OpenStaysInside(fs, root, target);
      UnlinkStaysInside(fs, root, target);
      if c.Put? {
        WriteStaysInside(fs, root, target, c.content);
      }
    }
  }

  // ---- Whole handlers -----------------------------------------------------

  lemma PrefixIsAlong(links: Links, root: Path, p: Path, n: nat)
    requires AlongRoot(root, p) && Canonical(links, p)
    ensures AlongRoot(root, Upto(p, n)) && Canonical(links, Upto(p, n))
  {
    CanonicalPrefix(links, p, |Upto(p, n)|);
  }

  lemma PartlyMadeStaysInside(fs: Fs, root: Path, target: Path, n: nat)
    requires Rooted(fs, root) && root <= target && Canonical(fs.links, target)
    ensures var fs' := PartlyMade(fs, Upto(Parent(target), n));
            Rooted(fs', root) && SameOutside(fs, fs', root)
  {
    ParentIsAlong(fs.links, root, target);
    PrefixIsAlong(fs.links, root, Parent(target), n);
    MakeDirsStaysInside(fs, root, Upto(Parent(target), n));
  }

  lemma OpenedStaysInside(fs: Fs, root: Path, target: Path, content: seq<Byte>)
    requires Rooted(fs, root) && root <= target && Canonical(fs.links, target)
    ensures MakeDirs(fs, Parent(target)).Success? ==>
              var fs1 := MakeDirs(fs, Parent(target)).value;
              && Rooted(fs1, root) && SameOutside(fs, fs1, root)
              && (OpenForWriting(fs1, target).Success? ==>
                    var fs3 := WriteContent(OpenForWriting(fs1, target).value, target, content);
                    Rooted(fs3, root) && SameOutside(fs, fs3, root))
  {
    ParentIsAlong(fs.links, root, target);
    MakeDirsStaysInside(fs, root, Parent(target));
    if MakeDirs(fs, Parent(target)).Success? {
      var fs1 := MakeDirs(fs, Parent(target)).value;
      OpenStaysInside(fs1, root, target);
      if OpenForWriting(fs1, target).Success? {
        WriteStaysInside(OpenForWriting(fs1, target).value, root, target, content);
      }
    }
  }

  lemma WritingStaysInside(fs: Fs, root: Path, target: Path, path: string, content: seq<Byte>, d: Delivery)
    requires Rooted(fs, root) && root <= target && Canonical(fs.links, target)
    ensures Rooted(WriteTo(fs, target, path, content, d).fs, root)
    ensures SameOutside(fs, WriteTo(fs, target, path, content, d).fs, root)
  {
    if d.fault.MkdirFails? {
      PartlyMadeStaysInside(fs, root, target, d.fault.upTo);
    } else if d.fault.WriteFails? {
      OpenedStaysInside(fs, root, target, Written(content, d.fault.written));
    } else {
      OpenedStaysInside(fs, root, target, content);
    }
  }

  /** A command either touches nothing or acts on its canonical target. */
  lemma HandlingIsActing(fs: Fs, watchDir: string, root: Path, d: Delivery) returns (target: Option<Path>)
    requires Watching(fs, watchDir, root) && Direct(fs.links, root, d)
    ensures target.None? ==> Handle(fs, watchDir, d).fs == fs && Handle(fs, watchDir, d).reply == None
    ensures target.Some? ==>
              && DecodePath(d.kind, d.payload).Some?
              && ResolveWithin(fs, watchDir, DecodePath(d.kind, d.payload).value) == Within(target.value)
              && Handle(fs, watchDir, d) == Act(fs, target.value, DecodePath(d.kind, d.payload).value, d)
              && root <= target.value && Canonical(fs.links, target.value)
  {
    var path := DecodePath(d.kind, d.payload);
    target := None;
    if path.Some? && ResolveWithin(fs, watchDir, path.value).Within? {
      TargetIsInside(fs, watchDir, root, path.value);
      target := Some(ResolveWithin(fs, watchDir, path.value).target);
    }
  }

  lemma DeletingStaysInside(fs: Fs, root: Path, target: Path, path: string, d: Delivery)
    requires Rooted(fs, root) && root <= target && Canonical(fs.links, target)
    ensures Rooted(DeleteAt(fs, target, path, d).fs, root) && SameOutside(fs, DeleteAt(fs, target, path, d).fs, root)
  {
    UnlinkStaysInside(fs, root, target);
  }

  lemma LookingChangesNothing(fs: Fs, target: Path, path: string, d: Delivery)
    ensures ReadFrom(fs, target, path, d).fs == fs && ListAt(fs, target, path, d).fs == fs
  {
  }

  lemma ActingStaysInside(fs: Fs, root: Path, target: Path, path: string, d: Delivery)
    requires Rooted(fs, root) && root <= target && Canonical(fs.links, target)
    ensures Rooted(Act(fs, target, path, d).fs, root) && SameOutside(fs, Act(fs, target, path, d).fs, root)
  {
    match d.kind {
      case Write => WritingStaysInside(fs, root, target, path, ContentOf(d), d);
      case Delete => DeletingStaysInside(fs, root, target, path, d);
      case Read => LookingChangesNothing(fs, target, path, d);
      case List => LookingChangesNothing(fs, target, path, d);
    }
  }

  lemma HandlingStaysInside(fs: Fs, watchDir: string, root: Path, d: Delivery)
    requires Watching(fs, watchDir, root) && Direct(fs.links, root, d)
    ensures Watching(Handle(fs, watchDir, d).fs, watchDir, root)
    ensures SameOutside(fs, Handle(fs, watchDir, d).fs, root)
  {
    var target := HandlingIsActing(fs, watchDir, root, d);
    if target.Some? {
      ActingStaysInside(fs, root, target.value, DecodePath(d.kind, d.payload).value, d);
    }
  }

  ghost predicate AllDirect(links: Links, root: Path, deliveries: seq<Delivery>) {
    deliveries == [] ||
    var n := |deliveries| - 1;
    AllDirect(links, root, deliveries[..n]) && Direct(links, root, deliveries[n])
  }

  /** Over any run of commands whose paths lead directly, with any I/O errors and publish
      failures: the tree stays well formed with the watch directory in place, and nothing
      outside it changes. */
  lemma {:induction false} RunsStayInside(fs: Fs, watchDir: string, root: Path, deliveries: seq<Delivery>)
    requires Watching(fs, watchDir, root) && AllDirect(fs.links, root, deliveries)
    ensures Watching(Run(fs, watchDir, deliveries), watchDir, root)
    ensures SameOutside(fs, Run(fs, watchDir, deliveries), root)
  {
    if deliveries != [] {
      var front := deliveries[..|deliveries| - 1];
      RunsStayInside(fs, watchDir, root, front);
      HandlingStaysInside(Run(fs, watchDir, front), watchDir, root, deliveries[|deliveries| - 1]);
    }
  }

  // ---- What is read -------------------------------------------------------

  /** Places a command may look at for links: inside the root, on the way to it, and
      where the resolution of the watch directory itself looks. */
  ghost function Familiar(links: Links, watchDir: string, root: Path): (places: iset<Path>) {
    iset p: Path | root <= p || p <= root || Uses(links, [], Split(watchDir), p)
  }

  /** The two trees differ outside the root only, and not where the resolution of the watch
      directory looks. */
  ghost predicate Indistinct(a: Fs, b: Fs, watchDir: string, root: Path) {
    && SameInside(a, b, root)
    && (forall p :: Uses(a.links, [], Split(watchDir), p) ==> AgreeOn(a.links, b.links, p) && AlikeAt(a, b, p))
  }

  /** The same thing is there, or nothing. */
  ghost predicate AlikeAt(a: Fs, b: Fs, p: Path) {
    (p in a.nodes <==> p in b.nodes) && (p in a.nodes ==> a.nodes[p] == b.nodes[p])
  }

  /** Where resolution of the requested path meets a loop: what the text kept there folds
      to. */
  function Folded(links: Links, root: Path, relative: string): (p: Option<Path>) {
    var parts := RequestParts(root, relative);
    if Realpath(links, [], parts, {}).Some? then None else Some(Fold([], Kept(links, [], parts, {})))
  }

  /** Following the folded text looks at familiar places only. */
  ghost predicate FoldedStays(fs: Fs, watchDir: string, root: Path, relative: string) {
    var folded := Folded(fs.links, root, relative);
    folded.Some? ==>
      forall p :: p in Consulted(fs.links, [], folded.value, LINK_BUDGET) ==> p in Familiar(fs.links, watchDir, root)
  }

  /** Resolving the requested path looks at familiar places only, and if it meets a loop,
      so does following what is found then. */
  ghost predicate PathStays(fs: Fs, watchDir: string, root: Path, relative: string) {
    IsAbsolute(relative) || (PartsStay(fs, watchDir, root, relative) && FoldedStays(fs, watchDir, root, relative))
  }

  ghost predicate PartsStay(fs: Fs, watchDir: string, root: Path, relative: string) {
    forall p :: Uses(fs.links, [], RequestParts(root, relative), p) ==> p in Familiar(fs.links, watchDir, root)
  }

  lemma FamiliarAgrees(a: Fs, b: Fs, watchDir: string, root: Path, p: Path)
    requires Watching(a, watchDir, root) && Watching(b, watchDir, root) && Indistinct(a, b, watchDir, root)
    requires p in Familiar(a.links, watchDir, root)
    ensures AgreeOn(a.links, b.links, p) && AlikeAt(a, b, p)
  {
    RootIsCanonical(a.links, watchDir, root);
    RootIsCanonical(b.links, watchDir, root);
    if p <= root {
      assert root[..|p|] == p;
      AncestorsAreDirs(a, root, |p|);
      AncestorsAreDirs(b, root, |p|);
    }
  }

  /** Trees that agree on all places the kernel could look at are followed alike. */
  lemma {:induction false} FollowsAgree(a: Fs, b: Fs, at: Path, todo: seq<string>, budget: nat)
    requires WellFormed(a) && WellFormed(b) && AlikeAt(a, b, at)
    requires forall p :: p in Consulted(a.links, at, todo, budget) ==> AgreeOn(a.links, b.links, p) && AlikeAt(a, b, p)
    ensures Follow(a, at, todo, budget) == Follow(b, at, todo, budget)
    ensures Follow(a, at, todo, budget).At? ==> AlikeAt(a, b, Follow(a, at, todo, budget).loc)
    decreases budget, |todo|
  {
    if todo != [] && IsDir(a, at) {
      if todo[0] == "" || todo[0] == "." {
        FollowsAgree(a, b, at, todo[1..], budget);
      } else if todo[0] == ".." {
        assert IsDir(a, Parent(at)) && IsDir(b, Parent(at));
        FollowsAgree(a, b, Parent(at), todo[1..], budget);
      } else {
        var p := at + [todo[0]];
        assert AgreeOn(a.links, b.links, p);
        if p !in a.links {
          FollowsAgree(a, b, p, todo[1..], budget);
        } else if budget > 0 {
          FollowsAgree(a, b, Origin(at, a.links[p]), Split(a.links[p]) + todo[1..], budget - 1);
        }
      }
    }
  }

  lemma SameParts(a: Fs, b: Fs, watchDir: string, root: Path, relative: string)
    requires Watching(a, watchDir, root) && Watching(b, watchDir, root) && Indistinct(a, b, watchDir, root)
    requires PartsStay(a, watchDir, root, relative)
    ensures var parts := RequestParts(root, relative);
            && Realpath(a.links, [], parts, {}) == Realpath(b.links, [], parts, {})
            && (Realpath(a.links, [], parts, {}).None? ==>
                  Kept(a.links, [], parts, {}) == Kept(b.links, [], parts, {}))
  {
    var parts := RequestParts(root, relative);
    forall p | Uses(a.links, [], parts, p) ensures AgreeOn(a.links, b.links, p) {
      FamiliarAgrees(a, b, watchDir, root, p);
    }
    ResolutionsAgree(a.links, b.links, [], parts, {});
  }

  lemma SameResolution(a: Fs, b: Fs, watchDir: string, root: Path, relative: string)
    requires Watching(a, watchDir, root) && Watching(b, watchDir, root) && Indistinct(a, b, watchDir, root)
    requires PathStays(a, watchDir, root, relative)
    ensures ResolveWithin(a, watchDir, relative) == ResolveWithin(b, watchDir, relative)
  {
    if !IsAbsolute(relative) {
      CheckOfARequest(a, watchDir, root, relative);
      CheckOfARequest(b, watchDir, root, relative);
      SameParts(a, b, watchDir, root, relative);
      var folded := Folded(a.links, root, relative);
      if folded.Some? {
        forall p | p in Consulted(a.links, [], folded.value, LINK_BUDGET)
          ensures AgreeOn(a.links, b.links, p) && AlikeAt(a, b, p)
        {
          FamiliarAgrees(a, b, watchDir, root, p);
        }
        FollowsAgree(a, b, [], folded.value, LINK_BUDGET);
      }
    }
  }

  // ---- Calls see the inside only ------------------------------------------

  /** Two trees with the same root and the same inside, seen from a target both accept. */
  ghost predicate Twins(a: Fs, b: Fs, root: Path, target: Path) {
    && Rooted(a, root) && Rooted(b, root) && SameInside(a, b, root)
    && root <= target && Canonical(a.links, target) && Canonical(b.links, target)
  }

  lemma MakeDirsSeesInside(a: Fs, b: Fs, root: Path, p: Path)
    requires Rooted(a, root) && Rooted(b, root) && SameInside(a, b, root)
    requires AlongRoot(root, p) && Canonical(a.links, p) && Canonical(b.links, p)
    ensures MakeDirs(a, p).Success? <==> MakeDirs(b, p).Success?
    ensures MakeDirs(a, p).Success? ==> SameInside(MakeDirs(a, p).value, MakeDirs(b, p).value, root)
  {
    MakeDirsIsEnsureDir(a, p);
    MakeDirsIsEnsureDir(b, p);
    if p <= root {
      MakeDirsStaysInside(a, root, p);
      MakeDirsStaysInside(b, root, p);
    } else {
      EnsureDirSeesInside(a, b, root, p);
    }
  }

  /** Two handlings that look the same from inside the root. */
  ghost predicate Alike(x: Outcome, y: Outcome, root: Path) {
    x.reply == y.reply && x.settlement == y.settlement && x.mark == y.mark && SameInside(x.fs, y.fs, root)
  }

  lemma PartlyMadeSeesInside(a: Fs, b: Fs, root: Path, target: Path, n: nat)
    requires Twins(a, b, root, target)
    ensures SameInside(PartlyMade(a, Upto(Parent(target), n)), PartlyMade(b, Upto(Parent(target), n)), root)
  {
    ParentIsAlong(a.links, root, target);
    ParentIsAlong(b.links, root, target);
    PrefixIsAlong(a.links, root, Parent(target), n);
    PrefixIsAlong(b.links, root, Parent(target), n);
    MakeDirsSeesInside(a, b, root, Upto(Parent(target), n));
  }

  lemma MadeSeesInside(a: Fs, b: Fs, root: Path, target: Path)
    requires Twins(a, b, root, target)
    ensures MakeDirs(a, Parent(target)).Success? <==> MakeDirs(b, Parent(target)).Success?
    ensures MakeDirs(a, Parent(target)).Success? ==>
              SameInside(MakeDirs(a, Parent(target)).value, MakeDirs(b, Parent(target)).value, root)
  {
    ParentIsAlong(a.links, root, target);
    ParentIsAlong(b.links, root, target);
    MakeDirsSeesInside(a, b, root, Parent(target));
  }

  lemma WritingSeesInside(a: Fs, b: Fs, root: Path, target: Path, path: string, content: seq<Byte>, d: Delivery)
    requires Twins(a, b, root, target)
    ensures Alike(WriteTo(a, target, path, content, d), WriteTo(b, target, path, content, d), root)
  {
    TargetAlike(a, b, root, target);
    if d.fault.MkdirFails? {
      PartlyMadeSeesInside(a, b, root, target, d.fault.upTo);
    } else {
      MadeSeesInside(a, b, root, target);
      if MakeDirs(a, Parent(target)).Success? {
        OpenedSeesInside(a, b, root, target, content);
        OpenedSeesInside(a, b, root, target, if d.fault.WriteFails? then Written(content, d.fault.written) else []);
      }
    }
    WritesAlike(a, b, root, target, path, content, d);
  }

  lemma WritesAlike(a: Fs, b: Fs, root: Path, target: Path, path: string, content: seq<Byte>, d: Delivery)
    requires SameInside(a, b, root) && Exists(a, target) == Exists(b, target)
    requires d.fault.MkdirFails? ==>
               SameInside(PartlyMade(a, Upto(Parent(target), d.fault.upTo)),
                          PartlyMade(b, Upto(Parent(target), d.fault.upTo)), root)
    requires !d.fault.MkdirFails? ==>
               && (MakeDirs(a, Parent(target)).Success? <==> MakeDirs(b, Parent(target)).Success?)
               && (MakeDirs(a, Parent(target)).Success? ==>
                     && SameInside(MakeDirs(a, Parent(target)).value, MakeDirs(b, Parent(target)).value, root)
                     && OpenAlike(MakeDirs(a, Parent(target)).value, MakeDirs(b, Parent(target)).value, root, target,
                                  content)
                     && (d.fault.WriteFails? ==>
                           OpenAlike(MakeDirs(a, Parent(target)).value, MakeDirs(b, Parent(target)).value, root, target,
                                     Written(content, d.fault.written))))
    ensures Alike(WriteTo(a, target, path, content, d), WriteTo(b, target, path, content, d), root)
  {
  }

  /** Opening and writing `content` goes alike. */
  ghost predicate OpenAlike(a: Fs, b: Fs, root: Path, target: Path, content: seq<Byte>) {
    && (OpenForWriting(a, target).Success? <==> OpenForWriting(b, target).Success?)
    && (OpenForWriting(a, target).Success? ==>
          SameInside(WriteContent(OpenForWriting(a, target).value, target, content),
                     WriteContent(OpenForWriting(b, target).value, target, content), root))
  }

  lemma OpenedSeesInside(a: Fs, b: Fs, root: Path, target: Path, content: seq<Byte>)
    requires Twins(a, b, root, target)
    requires MakeDirs(a, Parent(target)).Success? && MakeDirs(b, Parent(target)).Success?
    ensures OpenAlike(MakeDirs(a, Parent(target)).value, MakeDirs(b, Parent(target)).value, root, target, content)
  {
    var up := Parent(target);
    ParentIsAlong(a.links, root, target);
    ParentIsAlong(b.links, root, target);
    MakeDirsSeesInside(a, b, root, up);
    MakeDirsStaysInside(a, root, up);
    MakeDirsStaysInside(b, root, up);
    OpeningSeesInside(MakeDirs(a, up).value, MakeDirs(b, up).value, root, target, content);
  }

  lemma OpeningSeesInside(a: Fs, b: Fs, root: Path, target: Path, content: seq<Byte>)
    requires Twins(a, b, root, target)
    ensures OpenAlike(a, b, root, target, content)
  {
    JustOpenedAlike(a, b, root, target);
    if OpenForWriting(a, target).Success? {
      WrittenAlike(OpenForWriting(a, target).value, OpenForWriting(b, target).value, root, target, content);
    }
  }

  lemma JustOpenedAlike(a: Fs, b: Fs, root: Path, target: Path)
    requires Twins(a, b, root, target)
    ensures OpenForWriting(a, target).Success? <==> OpenForWriting(b, target).Success?
    ensures OpenForWriting(a, target).Success? ==>
              Twins(OpenForWriting(a, target).value, OpenForWriting(b, target).value, root, target)
  {
    OpensAlike(a, b, root, target);
    if OpenForWriting(a, target).Success? {
      OpenStaysInside(a, root, target);
      OpenStaysInside(b, root, target);
      StillTwins(a, b, OpenForWriting(a, target).value, OpenForWriting(b, target).value, root, target, File([]));
    }
  }

  lemma OpensAlike(a: Fs, b: Fs, root: Path, target: Path)
    requires Twins(a, b, root, target)
    ensures OpenForWriting(a, target).Success? <==> OpenForWriting(b, target).Success?
  {
    CanonicalCalls(a, target);
    CanonicalCalls(b, target);
    ParentAlike(a, b, root, target);
  }

  lemma StillTwins(a: Fs, b: Fs, a': Fs, b': Fs, root: Path, target: Path, node: Node)
    requires Twins(a, b, root, target) && Rooted(a', root) && Rooted(b', root)
    requires a'.links == a.links && a'.nodes == a.nodes[target := node]
    requires b'.links == b.links && b'.nodes == b.nodes[target := node]
    ensures Twins(a', b', root, target)
  {
    PutAlike(a, b, a', b', root, target, node);
  }

  lemma PutAlike(a: Fs, b: Fs, a': Fs, b': Fs, root: Path, target: Path, node: Node)
    requires SameInside(a, b, root)
    requires a'.links == a.links && a'.nodes == a.nodes[target := node]
    requires b'.links == b.links && b'.nodes == b.nodes[target := node]
    ensures SameInside(a', b', root)
  {
  }

  lemma ParentAlike(a: Fs, b: Fs, root: Path, target: Path)
    requires Twins(a, b, root, target)
    ensures IsDir(a, Parent(target)) <==> IsDir(b, Parent(target))
    ensures target in a.links <==> target in b.links
  {
    if target != root {
      ParentWithin(root, target);
    } else {
      AncestorsAreDirs(a, root, |Parent(root)|);
      AncestorsAreDirs(b, root, |Parent(root)|);
      assert root[..|Parent(root)|] == Parent(root);
    }
  }

  lemma WrittenAlike(a: Fs, b: Fs, root: Path, target: Path, content: seq<Byte>)
    requires Twins(a, b, root, target)
    ensures SameInside(WriteContent(a, target, content), WriteContent(b, target, content), root)
  {
    CanonicalWrite(a, target, content);
    CanonicalWrite(b, target, content);
  }

  /** The target is the same thing in both. */
  lemma TargetAlike(a: Fs, b: Fs, root: Path, target: Path)
    requires Twins(a, b, root, target)
    ensures Exists(a, target) == Exists(b, target) && FileAt(a, target) == FileAt(b, target)
    ensures DirAt(a, target) == DirAt(b, target) && ReadContent(a, target) == ReadContent(b, target)
    ensures FileAt(a, target) == IsFile(a, target) && DirAt(a, target) == IsDir(a, target)
  {
    CanonicalCalls(a, target);
    CanonicalCalls(b, target);
  }

  lemma ReadingSeesInside(a: Fs, b: Fs, root: Path, target: Path, path: string, d: Delivery)
    requires Twins(a, b, root, target)
    ensures Alike(ReadFrom(a, target, path, d), ReadFrom(b, target, path, d), root)
  {
    TargetAlike(a, b, root, target);
  }

  lemma RemovedAlike(a: Fs, b: Fs, root: Path, target: Path)
    requires SameInside(a, b, root)
    ensures SameInside(a.(nodes := a.nodes - {target}), b.(nodes := b.nodes - {target}), root)
  {
  }

  lemma DeletingSeesInside(a: Fs, b: Fs, root: Path, target: Path, path: string, d: Delivery)
    requires Twins(a, b, root, target)
    ensures Alike(DeleteAt(a, target, path, d), DeleteAt(b, target, path, d), root)
  {
    TargetAlike(a, b, root, target);
    CanonicalIsUnlinked(a, target);
    CanonicalIsUnlinked(b, target);
    RemovedAlike(a, b, root, target);
  }

  // ---- Listed children ----------------------------------------------------

  /** Following the child's link looks at familiar places only. */
  ghost predicate ChildStays(fs: Fs, watchDir: string, root: Path, dir: Path, name: string) {
    forall p :: p in Consulted(fs.links, [], dir + [name], LINK_BUDGET) ==> p in Familiar(fs.links, watchDir, root)
  }

  ghost predicate ChildrenStay(fs: Fs, watchDir: string, root: Path, dir: Path, names: seq<string>) {
    forall i :: 0 <= i < |names| ==> ChildStays(fs, watchDir, root, dir, names[i])
  }

  lemma EntrySeesInside(a: Fs, b: Fs, watchDir: string, root: Path, dir: Path, name: string)
    requires Watching(a, watchDir, root) && Watching(b, watchDir, root) && Indistinct(a, b, watchDir, root)
    requires ChildStays(a, watchDir, root, dir, name)
    ensures EntryFor(a, dir, name) == EntryFor(b, dir, name)
  {
    forall p | p in Consulted(a.links, [], dir + [name], LINK_BUDGET)
      ensures AgreeOn(a.links, b.links, p) && AlikeAt(a, b, p)
    {
      FamiliarAgrees(a, b, watchDir, root, p);
    }
    FollowsAgree(a, b, [], dir + [name], LINK_BUDGET);
    SameEntry(a, b, dir, name);
  }

  lemma SameEntry(a: Fs, b: Fs, dir: Path, name: string)
    requires Follow(a, [], dir + [name], LINK_BUDGET) == Follow(b, [], dir + [name], LINK_BUDGET)
    requires Locate(a, dir + [name]).Some? ==> AlikeAt(a, b, Locate(a, dir + [name]).value)
    ensures EntryFor(a, dir, name) == EntryFor(b, dir, name)
  {
  }

  lemma {:induction false} EntriesSeeInside(a: Fs, b: Fs, watchDir: string, root: Path, dir: Path, names: seq<string>)
    requires Watching(a, watchDir, root) && Watching(b, watchDir, root) && Indistinct(a, b, watchDir, root)
    requires ChildrenStay(a, watchDir, root, dir, names)
    ensures EntriesFor(a, dir, names) == EntriesFor(b, dir, names)
  {
    if names != [] {
      var front := names[..|names| - 1];
      assert forall i :: 0 <= i < |front| ==> front[i] == names[i];
      EntriesSeeInside(a, b, watchDir, root, dir, front);
      EntrySeesInside(a, b, watchDir, root, dir, names[|names| - 1]);
    }
  }

  lemma ListingSeesInside(a: Fs, b: Fs, watchDir: string, root: Path, target: Path, path: string, d: Delivery)
    requires Watching(a, watchDir, root) && Watching(b, watchDir, root) && Indistinct(a, b, watchDir, root)
    requires Twins(a, b, root, target)
    requires IsDir(a, target) ==> ChildrenStay(a, watchDir, root, target, Ordering.Sort(d.order))
    ensures Alike(ListAt(a, target, path, d), ListAt(b, target, path, d), root)
  {
    TargetAlike(a, b, root, target);
    if IsDir(a, target) {
      EntriesSeeInside(a, b, watchDir, root, target, Ordering.Sort(d.order));
      SameListing(a, b, target, path, d);
    } else {
      SameRefusal(a, b, target, path, d);
    }
  }

  lemma SameListing(a: Fs, b: Fs, target: Path, path: string, d: Delivery)
    requires Exists(a, target) == Exists(b, target) && DirAt(a, target) == DirAt(b, target)
    requires EntriesFor(a, target, Ordering.Sort(d.order)) == EntriesFor(b, target, Ordering.Sort(d.order))
    ensures ListAt(a, target, path, d).(fs := b) == ListAt(b, target, path, d)
    ensures ListAt(a, target, path, d).fs == a
  {
  }

  lemma SameRefusal(a: Fs, b: Fs, target: Path, path: string, d: Delivery)
    requires Exists(a, target) == Exists(b, target) && !DirAt(a, target) && !DirAt(b, target)
    ensures ListAt(a, target, path, d).(fs := b) == ListAt(b, target, path, d)
    ensures ListAt(a, target, path, d).fs == a
  {
  }

  // ---- Commands see the inside only ---------------------------------------

  /** The command's path stays, and so do the children it lists, if it lists any. */
  ghost predicate ReadsInside(fs: Fs, watchDir: string, root: Path, d: Delivery) {
    var path := DecodePath(d.kind, d.payload);
    path.Some? ==>
      && PathStays(fs, watchDir, root, path.value)
      && (d.kind.List? ==>
            match ResolveWithin(fs, watchDir, path.value)
            case Within(target) =>
              IsDir(fs, target) ==> ChildrenStay(fs, watchDir, root, target, Ordering.Sort(d.order))
            case _ => true)
  }

  lemma ActingSeesInside(a: Fs, b: Fs, watchDir: string, root: Path, target: Path, path: string, d: Delivery)
    requires Watching(a, watchDir, root) && Watching(b, watchDir, root) && Indistinct(a, b, watchDir, root)
    requires Twins(a, b, root, target)
    requires d.kind.List? && IsDir(a, target) ==> ChildrenStay(a, watchDir, root, target, Ordering.Sort(d.order))
    ensures Alike(Act(a, target, path, d), Act(b, target, path, d), root)
  {
    match d.kind {
      case Write => WritingSeesInside(a, b, root, target, path, ContentOf(d), d);
      case List => ListingSeesInside(a, b, watchDir, root, target, path, d);
      case Read => ReadingSeesInside(a, b, root, target, path, d);
      case Delete => DeletingSeesInside(a, b, root, target, path, d);
    }
  }

  /** A way without links in one tree has none in the other. */
  lemma SameWay(a: Fs, b: Fs, watchDir: string, root: Path, target: Path)
    requires Watching(a, watchDir, root) && Watching(b, watchDir, root) && SameInside(a, b, root)
    requires root <= target && Canonical(a.links, target)
    ensures Canonical(b.links, target)
  {
    RootIsCanonical(b.links, watchDir, root);
    forall i | 0 <= i <= |target| ensures target[..i] !in b.links {
      if i < |root| {
        assert target[..i] == root[..i];
      } else {
        assert root <= target[..i];
      }
    }
  }

  /** A path that leads directly does so in the other tree. */
  lemma DirectAlike(a: Fs, b: Fs, watchDir: string, root: Path, relative: string)
    requires Watching(a, watchDir, root) && Watching(b, watchDir, root) && Indistinct(a, b, watchDir, root)
    requires LeadsDirectly(a.links, root, relative) && PathStays(a, watchDir, root, relative)
    ensures LeadsDirectly(b.links, root, relative)
  {
    if !IsAbsolute(relative) {
      SameParts(a, b, watchDir, root, relative);
      if root <= Candidate(a.links, root, relative) {
        SameWay(a, b, watchDir, root, Candidate(a.links, root, relative));
      }
    }
  }

  /** A command that stays reads nothing outside the root: on two trees that differ
      outside it only, the reply, the settlement and the change inside are the same. */
  lemma HandlingSeesInside(a: Fs, b: Fs, watchDir: string, root: Path, d: Delivery)
    requires Watching(a, watchDir, root) && Watching(b, watchDir, root) && Indistinct(a, b, watchDir, root)
    requires Direct(a.links, root, d) && ReadsInside(a, watchDir, root, d)
    ensures Direct(b.links, root, d)
    ensures Alike(Handle(a, watchDir, d), Handle(b, watchDir, d), root)
  {
    var path := DecodePath(d.kind, d.payload);
    if path.Some? {
      SameResolution(a, b, watchDir, root, path.value);
      DirectAlike(a, b, watchDir, root, path.value);
      ResolvedSeesInside(a, b, watchDir, root, path.value, d);
    }
  }

  lemma ResolvedSeesInside(a: Fs, b: Fs, watchDir: string, root: Path, path: string, d: Delivery)
    requires Watching(a, watchDir, root) && Watching(b, watchDir, root) && Indistinct(a, b, watchDir, root)
    requires DecodePath(d.kind, d.payload) == Some(path) && LeadsDirectly(a.links, root, path)
    requires ResolveWithin(a, watchDir, path) == ResolveWithin(b, watchDir, path) && ReadsInside(a, watchDir, root, d)
    ensures Alike(Handle(a, watchDir, d), Handle(b, watchDir, d), root)
  {
    if ResolveWithin(a, watchDir, path).Within? {
      var target := ResolveWithin(a, watchDir, path).target;
      TargetIsInside(a, watchDir, root, path);
      SameWay(a, b, watchDir, root, target);
      ActingSeesInside(a, b, watchDir, root, target, path, d);
    }
  }

  /** And they stay indistinct. */
  lemma IndistinctAfter(a: Fs, b: Fs, watchDir: string, root: Path, d: Delivery)
    requires Watching(a, watchDir, root) && Watching(b, watchDir, root) && Indistinct(a, b, watchDir, root)
    requires Direct(a.links, root, d) && ReadsInside(a, watchDir, root, d)
    ensures Alike(Handle(a, watchDir, d), Handle(b, watchDir, d), root) && Direct(b.links, root, d)
    ensures Indistinct(Handle(a, watchDir, d).fs, Handle(b, watchDir, d).fs, watchDir, root)
  {
    HandlingSeesInside(a, b, watchDir, root, d);
    HandlingStaysInside(a, watchDir, root, d);
    HandlingStaysInside(b, watchDir, root, d);
  }

  /** Every command of the run stays, in the tree it finds. */
  ghost predicate AllReadInside(fs: Fs, watchDir: string, root: Path, deliveries: seq<Delivery>) {
    deliveries == [] ||
    var n := |deliveries| - 1;
    && AllReadInside(fs, watchDir, root, deliveries[..n])
    && ReadsInside(Run(fs, watchDir, deliveries[..n]), watchDir, root, deliveries[n])
  }

  /** Every outcome of the run is alike on the two trees. */
  ghost predicate AllAlike(a: Fs, b: Fs, watchDir: string, root: Path, deliveries: seq<Delivery>) {
    deliveries == [] ||
    var n := |deliveries| - 1;
    && AllAlike(a, b, watchDir, root, deliveries[..n])
    && Alike(OutcomeOf(a, watchDir, deliveries, n), OutcomeOf(b, watchDir, deliveries, n), root)
  }

  lemma EarlierCommand(deliveries: seq<Delivery>, n: nat, i: nat)
    requires i < n <= |deliveries|
    ensures deliveries[..n][..i] == deliveries[..i] && deliveries[..n][i] == deliveries[i]
  {
  }

  /** Over a whole run the same: nothing outside the root shows in any outcome. */
  lemma {:induction false} RunsSeeInside(a: Fs, b: Fs, watchDir: string, root: Path, deliveries: seq<Delivery>)
    requires Watching(a, watchDir, root) && Watching(b, watchDir, root) && Indistinct(a, b, watchDir, root)
    requires AllDirect(a.links, root, deliveries) && AllReadInside(a, watchDir, root, deliveries)
    ensures AllDirect(b.links, root, deliveries)
    ensures Indistinct(Run(a, watchDir, deliveries), Run(b, watchDir, deliveries), watchDir, root)
    ensures AllAlike(a, b, watchDir, root, deliveries)
  {
    if deliveries != [] {
      var n := |deliveries| - 1;
      var front := deliveries[..n];
      RunsSeeInside(a, b, watchDir, root, front);
      RunsStayInside(a, watchDir, root, front);
      RunsStayInside(b, watchDir, root, front);
      IndistinctAfter(Run(a, watchDir, front), Run(b, watchDir, front), watchDir, root, deliveries[n]);
    }
  }

  // ---- And what they see they depend on -----------------------------------

  /** The tree with a link to `text` at `p`, instead of whatever was there. */
  function Linked(fs: Fs, p: Path, text: string): (r: Fs) {
    Fs(fs.links[p := text], map q | q in fs.nodes && !(p <= q) :: fs.nodes[q])
  }

  /** Neither below the other. */
  predicate Apart(root: Path, p: Path) {
    !(root <= p) && !(p <= root)
  }

  lemma ApartFromInside(root: Path, p: Path, q: Path)
    requires Apart(root, p) && root <= q
    ensures !(p <= q)
  {
    CommonExtension(root, p, q);
  }

  lemma LinkedIsRooted(fs: Fs, root: Path, p: Path, text: string)
    requires Rooted(fs, root) && p != [] && Apart(root, p)
    ensures Rooted(Linked(fs, p, text), root)
  {
    var other := Linked(fs, p, text);
    forall q | q in other.nodes && q != [] ensures IsDir(other, Parent(q)) && Name(q[|q| - 1]) {
      assert q in fs.nodes && IsDir(fs, Parent(q));
      ParentBelow(p, q);
    }
  }

  lemma ParentBelow(p: Path, q: Path)
    ensures p <= Parent(q) ==> p <= q
    ensures p <= Parent(q) && q != [] ==> p != q
  {
  }

  lemma LinkedIsSameInside(fs: Fs, root: Path, p: Path, text: string)
    requires Apart(root, p)
    ensures SameInside(fs, Linked(fs, p, text), root)
  {
    var other := Linked(fs, p, text);
    forall q | root <= q && q in fs.nodes ensures q in other.nodes && other.nodes[q] == fs.nodes[q] {
      ApartFromInside(root, p, q);
    }
    forall q | root <= q && q in other.links ensures q in fs.links && other.links[q] == fs.links[q] {
      assert q != p;
    }
    forall q | root <= q && q in fs.links ensures q in other.links && other.links[q] == fs.links[q] {
      assert q != p;
    }
  }

  lemma LinkedIsIndistinct(fs: Fs, watchDir: string, root: Path, p: Path, text: string)
    requires Watching(fs, watchDir, root) && p != [] && p !in Familiar(fs.links, watchDir, root)
    ensures Watching(Linked(fs, p, text), watchDir, root) && Indistinct(fs, Linked(fs, p, text), watchDir, root)
  {
    LinkedIsRooted(fs, root, p, text);
    LinkedIsSameInside(fs, root, p, text);
    var other := Linked(fs, p, text);
    forall q | Uses(fs.links, [], Split(watchDir), q)
      ensures AgreeOn(fs.links, other.links, q) && AlikeAt(fs, other, q)
    {
      if p <= q {
        WayIsUsed(fs.links, Split(watchDir), p, q);
      }
    }
    ResolutionsAgree(fs.links, fs.links[p := text], [], Split(watchDir), {});
  }

  /** Where the path strays: a place whose link decides the outcome of the check. */
  lemma StrayPlace(fs: Fs, watchDir: string, root: Path, relative: string)
    returns (budget: nat, at: Path, todo: seq<string>)
    requires Watching(fs, watchDir, root) && !PartsStay(fs, watchDir, root, relative)
    ensures NoSlash(RequestParts(root, relative)) && todo != [] && Name(todo[0])
    ensures var stray := Stray(fs.links, Familiar(fs.links, watchDir, root), [], RequestParts(root, relative), budget);
            stray.Some? && stray.value.0 == at && stray.value.1 == todo
    ensures at + [todo[0]] != [] && at + [todo[0]] !in Familiar(fs.links, watchDir, root)
  {
    var known, parts := Familiar(fs.links, watchDir, root), RequestParts(root, relative);
    RootIsCanonical(fs.links, watchDir, root);
    PartsHaveNoSlash(fs.links, root, relative);
    var p :| Uses(fs.links, [], parts, p) && p !in known;
    budget :| p in Consulted(fs.links, [], parts, budget);
    StrayIff(fs.links, known, [], parts, budget);
    at, todo := Stray(fs.links, known, [], parts, budget).value.0, Stray(fs.links, known, [], parts, budget).value.1;
  }

  /** A place far below `stem` that no link is on the way to. */
  lemma FarBelow(links: Links, stem: Path, name: string, depth: nat) returns (far: Path)
    requires forall i :: 0 <= i < |stem| ==> Name(stem[i])
    requires forall i :: 0 <= i <= |stem| ==> stem[..i] !in links
    requires Name(name) && FreeBelow(links, stem)
    ensures stem <= far && |far| >= |stem| + depth && Canonical(links, far)
  {
    far := stem + seq(depth, _ => name);
    forall i | 0 <= i <= |far| ensures far[..i] !in links {
      if i <= |stem| {
        assert far[..i] == stem[..i];
      } else {
        assert stem <= far[..i];
      }
    }
  }

  /** With a link to far below `stem` at the place where the path strays, it leads there. */
  lemma PathCanLeadTo(fs: Fs, watchDir: string, root: Path, relative: string, budget: nat, at: Path, todo: seq<string>,
                      stem: Path, name: string)
    returns (other: Fs, end: Path)
    requires Watching(fs, watchDir, root) && NoSlash(RequestParts(root, relative)) && todo != [] && Name(todo[0])
    requires var stray := Stray(fs.links, Familiar(fs.links, watchDir, root), [], RequestParts(root, relative), budget);
             stray.Some? && stray.value.0 == at && stray.value.1 == todo
    requires at + [todo[0]] != [] && at + [todo[0]] !in Familiar(fs.links, watchDir, root)
    requires Canonical(fs.links, stem) && FreeBelow(fs.links, stem) && Name(name) && Apart(stem, at + [todo[0]])
    ensures Watching(other, watchDir, root) && Indistinct(fs, other, watchDir, root)
    ensures stem <= end && Realpath(other.links, [], RequestParts(root, relative), {}) == Some(end)
  {
    var known, parts := Familiar(fs.links, watchDir, root), RequestParts(root, relative);
    var p := at + [todo[0]];
    var far := FarBelow(fs.links, stem, name, |todo|);
    var text := Absolute(far);
    other := Linked(fs, p, text);
    assert FreeBelow(other.links, stem);
    forall i | 0 <= i <= |far| ensures far[..i] !in other.links {
      if far[..i] == p {
        CommonExtension(stem, p, far);
      }
    }
    end := StrayCanLeadTo(fs.links, known, [], parts, budget, stem, far);
    LinkedIsIndistinct(fs, watchDir, root, p, text);
    RealpathIsTheWalk(other.links, [], parts, end);
  }

  /** A place at the top that nothing is linked below, away from the root and from `p`. */
  lemma FreshOutside(links: Links, root: Path, p: Path) returns (name: string)
    requires [] !in links && root != [] && p != []
    ensures Name(name) && Canonical(links, [name]) && FreeBelow(links, [name])
    ensures Apart([name], p) && name != root[0]
  {
    name := UnusedName((set q | q in links && q != [] :: q[0]) + {root[0], p[0]});
    var stem := [name];
    assert forall i :: 0 <= i <= |stem| ==> stem[..i] == [] || stem[..i] == stem;
    forall q | q in links ensures !(stem <= q) {
      assert q != [] ==> q[0] != name;
    }
  }

  /** One in the root, away from an outside place. */
  lemma FreshInside(links: Links, root: Path, p: Path) returns (name: string)
    requires Canonical(links, root) && Apart(root, p)
    ensures Name(name) && Canonical(links, root + [name]) && FreeBelow(links, root + [name])
    ensures Apart(root + [name], p)
  {
    name := UnusedName(set q | q in links && |q| > |root| :: q[|root|]);
    var stem := root + [name];
    forall q | q in links ensures !(stem <= q) {
      assert stem[|root|] == name && (|q| > |root| ==> q[|root|] != name);
    }
    CanonicalChild(links, root, name);
    assert root <= stem;
    CommonExtension(root, p, stem);
  }

  /** On another tree that differs outside the root only, the check refuses the path. */
  lemma CheckCanRefuse(fs: Fs, watchDir: string, root: Path, relative: string) returns (other: Fs)
    requires Watching(fs, watchDir, root) && !PartsStay(fs, watchDir, root, relative)
    ensures Watching(other, watchDir, root) && Indistinct(fs, other, watchDir, root)
    ensures ResolveWithin(other, watchDir, relative) == Escapes
  {
    var budget, at, todo := StrayPlace(fs, watchDir, root, relative);
    assert root != [];
    var name := FreshOutside(fs.links, root, at + [todo[0]]);
    var end;
    other, end := PathCanLeadTo(fs, watchDir, root, relative, budget, at, todo, [name], name);
    assert end[0] == name;
    if !IsAbsolute(relative) {
      CheckOfARequest(other, watchDir, root, relative);
    }
  }

  /** And on another one it accepts it. */
  lemma CheckCanAccept(fs: Fs, watchDir: string, root: Path, relative: string) returns (other: Fs)
    requires Watching(fs, watchDir, root) && !PartsStay(fs, watchDir, root, relative) && !IsAbsolute(relative)
    ensures Watching(other, watchDir, root) && Indistinct(fs, other, watchDir, root)
    ensures ResolveWithin(other, watchDir, relative).Within?
  {
    var budget, at, todo := StrayPlace(fs, watchDir, root, relative);
    RootIsCanonical(fs.links, watchDir, root);
    var name := FreshInside(fs.links, root, at + [todo[0]]);
    var end;
    other, end := PathCanLeadTo(fs, watchDir, root, relative, budget, at, todo, root + [name], name);
    CheckOfARequest(other, watchDir, root, relative);
  }

  lemma FoldedHasNames(fs: Fs, watchDir: string, root: Path, relative: string)
    requires Watching(fs, watchDir, root) && Folded(fs.links, root, relative).Some?
    ensures var p := Folded(fs.links, root, relative).value; forall i :: 0 <= i < |p| ==> Name(p[i])
  {
    var parts := RequestParts(root, relative);
    RootIsCanonical(fs.links, watchDir, root);
    PartsHaveNoSlash(fs.links, root, relative);
    KeptHasNoSlash(fs.links, [], parts, {});
    FoldLeavesNames([], Kept(fs.links, [], parts, {}));
  }

  /** The check of a path that meets no loop depends on nothing outside the root, on no
      tree, exactly when the path stays. */
  lemma CheckReadsInsideIff(fs: Fs, watchDir: string, root: Path, relative: string)
    requires Watching(fs, watchDir, root) && Folded(fs.links, root, relative).None?
    ensures (forall other :: Watching(other, watchDir, root) && Indistinct(fs, other, watchDir, root) ==>
               ResolveWithin(other, watchDir, relative) == ResolveWithin(fs, watchDir, relative))
       <==> PathStays(fs, watchDir, root, relative)
  {
    if PathStays(fs, watchDir, root, relative) {
      forall other | Watching(other, watchDir, root) && Indistinct(fs, other, watchDir, root)
        ensures ResolveWithin(other, watchDir, relative) == ResolveWithin(fs, watchDir, relative)
      {
        SameResolution(fs, other, watchDir, root, relative);
      }
    } else {
      var refused := CheckCanRefuse(fs, watchDir, root, relative);
      var accepted := CheckCanAccept(fs, watchDir, root, relative);
    }
  }

  /** A path that leads directly and is accepted stays if its parts do: what it folds to is
      in the root. */
  lemma DirectFoldedStays(fs: Fs, watchDir: string, root: Path, relative: string)
    requires Watching(fs, watchDir, root) && ResolveWithin(fs, watchDir, relative).Within?
    requires LeadsDirectly(fs.links, root, relative)
    ensures FoldedStays(fs, watchDir, root, relative)
  {
    TargetIsInside(fs, watchDir, root, relative);
    CheckOfARequest(fs, watchDir, root, relative);
    var target := Candidate(fs.links, root, relative);
    forall p | p in Consulted(fs.links, [], target, LINK_BUDGET) ensures p in Familiar(fs.links, watchDir, root) {
      ConsultedDown(fs.links, target, 0, LINK_BUDGET, p);
      CommonExtension(root, p, target);
    }
  }

  // ---- Replies ------------------------------------------------------------

  /** The reply the command publishes. */
  function ReplyTo(fs: Fs, watchDir: string, d: Delivery): (r: Option<Reply>) {
    Handle(fs, watchDir, d).reply
  }

  lemma {:induction false} EntryInList(fs: Fs, dir: Path, names: seq<string>, i: nat)
    requires EntriesFor(fs, dir, names).Some? && i < |names|
    ensures |EntriesFor(fs, dir, names).value| == |names|
    ensures Some(EntriesFor(fs, dir, names).value[i]) == EntryFor(fs, dir, names[i])
  {
    var n := |names| - 1;
    if n > 0 {
      EntryInList(fs, dir, names[..n], if i < n then i else 0);
    }
  }

  lemma CommonExtension(a: Path, b: Path, p: Path)
    requires a <= p
    ensures b <= p ==> a <= b || b <= a
  {
    assert |a| <= |p| && p[..|a|] == a;
    assert b <= p ==> p[..|b|] == b;
    assert b <= p && |a| <= |b| ==> b[..|a|] == p[..|a|];
    assert b <= p && |b| <= |a| ==> a[..|b|] == p[..|b|];
  }

  /** The command publishes a listing of `target`. */
  ghost predicate Lists(fs: Fs, watchDir: string, d: Delivery, target: Path) {
    && d.kind.List? && DecodePath(d.kind, d.payload).Some?
    && ResolveWithin(fs, watchDir, DecodePath(d.kind, d.payload).value) == Within(target)
    && ReplyTo(fs, watchDir, d).Some? && ReplyTo(fs, watchDir, d).value.FileListCompleted?
  }

  /** The entries a published listing carries. */
  lemma PublishedEntries(fs: Fs, watchDir: string, d: Delivery, target: Path)
    requires Lists(fs, watchDir, d, target)
    ensures EntriesFor(fs, target, Ordering.Sort(d.order)) == Some(ReplyTo(fs, watchDir, d).value.entries)
  {
  }

  /** A directory that gets a reply is listed. */
  lemma DirectoryIsListed(fs: Fs, watchDir: string, root: Path, d: Delivery, target: Path)
    requires Watching(fs, watchDir, root) && Direct(fs.links, root, d)
    requires d.kind.List? && DecodePath(d.kind, d.payload).Some?
    requires ResolveWithin(fs, watchDir, DecodePath(d.kind, d.payload).value) == Within(target)
    requires IsDir(fs, target) && ReplyTo(fs, watchDir, d).Some?
    ensures Lists(fs, watchDir, d, target)
  {
    var path := DecodePath(d.kind, d.payload).value;
    TargetIsInside(fs, watchDir, root, path);
    ListOfDirectory(fs, target, path, d);
  }

  lemma ListOfDirectory(fs: Fs, target: Path, path: string, d: Delivery)
    requires WellFormed(fs) && Canonical(fs.links, target) && IsDir(fs, target)
    requires ListAt(fs, target, path, d).reply.Some?
    ensures ListAt(fs, target, path, d).reply.value.FileListCompleted?
  {
    CanonicalCalls(fs, target);
  }

  /** Where a child strays or leads away, some other tree gives another reply. */
  lemma ListingTellsTheDifference(fs: Fs, watchDir: string, root: Path, d: Delivery, target: Path, i: nat)
    returns (other: Fs)
    requires Watching(fs, watchDir, root) && Lists(fs, watchDir, d, target) && i < |Ordering.Sort(d.order)|
    requires Direct(fs.links, root, d)
    requires PathStays(fs, watchDir, root, DecodePath(d.kind, d.payload).value)
    requires Name(Ordering.Sort(d.order)[i]) && !ChildStays(fs, watchDir, root, target, Ordering.Sort(d.order)[i])
    ensures Watching(other, watchDir, root) && Indistinct(fs, other, watchDir, root)
    ensures ReplyTo(other, watchDir, d) != ReplyTo(fs, watchDir, d)
  {
    var names, path := Ordering.Sort(d.order), DecodePath(d.kind, d.payload).value;
    PublishedEntries(fs, watchDir, d, target);
    EntryInList(fs, target, names, i);
    other := OtherChild(fs, watchDir, root, path, target, names[i]);
    SameResolution(fs, other, watchDir, root, path);
    if ReplyTo(other, watchDir, d) == ReplyTo(fs, watchDir, d) {
      PublishedEntries(other, watchDir, d, target);
      EntryInList(other, target, names, i);
    }
  }

  lemma OtherChild(fs: Fs, watchDir: string, root: Path, path: string, dir: Path, name: string) returns (other: Fs)
    requires Watching(fs, watchDir, root) && ResolveWithin(fs, watchDir, path) == Within(dir)
    requires LeadsDirectly(fs.links, root, path)
    requires EntryFor(fs, dir, name).Some? && Name(name) && !ChildStays(fs, watchDir, root, dir, name)
    ensures Watching(other, watchDir, root) && Indistinct(fs, other, watchDir, root)
    ensures EntryFor(other, dir, name) != EntryFor(fs, dir, name)
  {
    TargetIsInside(fs, watchDir, root, path);
    other := ChildCanLoop(fs, watchDir, root, dir, name);
  }

  lemma ChildCanLoop(fs: Fs, watchDir: string, root: Path, dir: Path, name: string) returns (other: Fs)
    requires Watching(fs, watchDir, root) && Canonical(fs.links, dir) && Name(name)
    requires !(forall p :: p in Consulted(fs.links, [], dir + [name], LINK_BUDGET) ==>
                 p in Familiar(fs.links, watchDir, root))
    ensures Watching(other, watchDir, root) && Indistinct(fs, other, watchDir, root)
    ensures EntryFor(other, dir, name).None?
  {
    var known, todo := Familiar(fs.links, watchDir, root), dir + [name];
    assert NoSlash(todo);
    StrayIff(fs.links, known, [], todo, LINK_BUDGET);
    var (at, rest, used) := Stray(fs.links, known, [], todo, LINK_BUDGET).value;
    other := Linked(fs, at + [rest[0]], rest[0]);
    LinkedIsIndistinct(fs, watchDir, root, at + [rest[0]], rest[0]);
    StrayCanLoop(fs.links, known, [], todo, LINK_BUDGET, LINK_BUDGET);
    NowhereIsNoEntry(other, dir, name);
  }

  lemma NowhereIsNoEntry(fs: Fs, dir: Path, name: string)
    requires Walk(fs.links, [], dir + [name], LINK_BUDGET).None?
    ensures EntryFor(fs, dir, name).None?
  {
    if Follow(fs, [], dir + [name], LINK_BUDGET).At? {
      FollowedIsWalked(fs, [], dir + [name], LINK_BUDGET);
    }
  }

  /** A command that leads directly and is answered depends on nothing outside the root exactly when its path
      stays and so do the children it lists. The names listed are file names. */
  lemma CommandReadsInsideIff(fs: Fs, watchDir: string, root: Path, d: Delivery)
    requires Watching(fs, watchDir, root) && ReplyTo(fs, watchDir, d).Some? && Direct(fs.links, root, d)
    requires d.kind.List? ==> forall i :: 0 <= i < |Ordering.Sort(d.order)| ==> Name(Ordering.Sort(d.order)[i])
    ensures (forall other :: Watching(other, watchDir, root) && Indistinct(fs, other, watchDir, root) ==>
               ReplyTo(other, watchDir, d) == ReplyTo(fs, watchDir, d))
       <==> ReadsInside(fs, watchDir, root, d)
  {
    if ReadsInside(fs, watchDir, root, d) {
      forall other | Watching(other, watchDir, root) && Indistinct(fs, other, watchDir, root)
        ensures ReplyTo(other, watchDir, d) == ReplyTo(fs, watchDir, d)
      {
        HandlingSeesInside(fs, other, watchDir, root, d);
      }
    } else {
      var other := CommandTellsTheDifference(fs, watchDir, root, d);
    }
  }

  lemma CommandTellsTheDifference(fs: Fs, watchDir: string, root: Path, d: Delivery) returns (other: Fs)
    requires Watching(fs, watchDir, root) && Direct(fs.links, root, d)
    requires ReplyTo(fs, watchDir, d).Some? && !ReadsInside(fs, watchDir, root, d)
    requires d.kind.List? ==> forall i :: 0 <= i < |Ordering.Sort(d.order)| ==> Name(Ordering.Sort(d.order)[i])
    ensures Watching(other, watchDir, root) && Indistinct(fs, other, watchDir, root)
    ensures ReplyTo(other, watchDir, d) != ReplyTo(fs, watchDir, d)
  {
    var path := DecodePath(d.kind, d.payload).value;
    DirectFoldedStays(fs, watchDir, root, path);
    if !PathStays(fs, watchDir, root, path) {
      other := CheckCanRefuse(fs, watchDir, root, path);
    } else {
      var target, names := ResolveWithin(fs, watchDir, path).target, Ordering.Sort(d.order);
      DirectoryIsListed(fs, watchDir, root, d, target);
      var i :| 0 <= i < |names| && !ChildStays(fs, watchDir, root, target, names[i]);
      other := ListingTellsTheDifference(fs, watchDir, root, d, target, i);
    }
  }

  // ---- A detour through the outside ---------------------------------------

  lemma OneNameOn(links: Links, base: Path, name: string, rest: seq<string>)
    requires Name(name) && base + [name] !in links
    ensures Realpath(links, base, [name] + rest, {}) == Realpath(links, base + [name], rest, {})
  {
    assert ([name] + rest)[1..] == rest;
  }

  lemma OneUp(links: Links, base: Path, rest: seq<string>)
    ensures Realpath(links, base, [".."] + rest, {}) == Realpath(links, Parent(base), rest, {})
  {
    assert ([".."] + rest)[1..] == rest;
  }

  lemma OneLinkOn(links: Links, base: Path, name: string, rest: seq<string>, there: Path)
    requires Name(name) && base + [name] in links
    requires var text := links[base + [name]];
             Realpath(links, Origin(base, text), Split(text), {base + [name]}) == Some(there)
    ensures Realpath(links, base, [name] + rest, {}) == Realpath(links, there, rest, {})
  {
    var p := base + [name];
    assert ([name] + rest)[1..] == rest && {} + {p} == {p};
  }

  lemma RootResolves(links: Links, active: set<Path>)
    requires ["r"] !in links
    ensures Split("/r") == ["", "r"]
    ensures Realpath(links, [], Split("/r"), active) == Some(["r"])
  {
    SplitOfName("r");
    assert "/r"[1..] == "r";
    assert ["", "r"][1..] == ["r"] && ["r"][1..] == [] && [] + ["r"] == ["r"];
    assert Realpath(links, ["r"], [], active) == Some(["r"]);
    assert Realpath(links, [], ["r"], active) == Realpath(links, ["r"], [], active);
  }

  lemma DetourParts()
    ensures RequestParts(["r"], "../x/f") == ["r"] + ([".."] + (["x"] + (["f"] + [])))
  {
    SplitOfJoin("..", "x/f");
    SplitOfJoin("x", "f");
    SplitOfName("..");
    SplitOfName("x");
    SplitOfName("f");
    assert ".." + "/" + "x/f" == "../x/f" && "x" + "/" + "f" == "x/f";
    assert Split("../x/f") == ["..", "x", "f"];
    assert ["..", "x", "f"][1..] == ["x", "f"] && ["x", "f"][1..] == ["f"] && ["f"][1..] == [];
    assert Meaningful(["f"]) == ["f"] && Meaningful(["x", "f"]) == ["x", "f"];
  }

  lemma BackToTheRoot(links: Links)
    requires links == map[["x"] := "/r"]
    ensures Realpath(links, [], ["x"] + (["f"] + []), {}) == Some(["r", "f"])
  {
    RootResolves(links, {["x"]});
    assert [] + ["x"] == ["x"];
    OneLinkOn(links, [], "x", ["f"] + [], ["r"]);
    OneNameOn(links, ["r"], "f", []);
    assert ["r"] + ["f"] == ["r", "f"];
  }

  lemma DetourResolves(links: Links)
    requires links == map[["x"] := "/r"]
    ensures Realpath(links, [], RequestParts(["r"], "../x/f"), {}) == Some(["r", "f"])
  {
    DetourParts();
    BackToTheRoot(links);
    var back := ["x"] + (["f"] + []);
    OneUp(links, ["r"], back);
    assert [] + ["r"] == ["r"] && Parent(["r"]) == [];
    OneNameOn(links, [], "r", [".."] + back);
  }

  lemma NoDetourResolves()
    ensures Realpath(map[], [], RequestParts(["r"], "../x/f"), {}) == Some(["x", "f"])
  {
    DetourParts();
    assert [] + ["r"] == ["r"] && Parent(["r"]) == [] && [] + ["x"] == ["x"] && ["x"] + ["f"] == ["x", "f"];
    OneNameOn(map[], [], "r", [".."] + (["x"] + (["f"] + [])));
    OneUp(map[], ["r"], ["x"] + (["f"] + []));
    OneNameOn(map[], [], "x", ["f"] + []);
    OneNameOn(map[], ["x"], "f", []);
  }

  lemma DetourIsAccepted(nodes: map<Path, Node>)
    ensures ResolveWithin(Fs(map[["x"] := "/r"], nodes), "/r", "../x/f") == Within(["r", "f"])
  {
    RootResolves(map[["x"] := "/r"], {});
    DetourResolves(map[["x"] := "/r"]);
    CheckOfARequest(Fs(map[["x"] := "/r"], nodes), "/r", ["r"], "../x/f");
  }

  lemma NoDetourIsRefused(nodes: map<Path, Node>)
    ensures ResolveWithin(Fs(map[], nodes), "/r", "../x/f") == Escapes
  {
    RootResolves(map[], {});
    NoDetourResolves();
    CheckOfARequest(Fs(map[], nodes), "/r", ["r"], "../x/f");
  }

  /** An outside link decides what a request that leaves the root and comes back gets to
      see: with `/x` leading to the root `/r`, the path `../x/f` is a file in it, without
      the link it is refused. */
  lemma DetourThroughOutside(nodes: map<Path, Node>)
    ensures ResolveWithin(Fs(map[["x"] := "/r"], nodes), "/r", "../x/f") == Within(["r", "f"])
    ensures ResolveWithin(Fs(map[], nodes), "/r", "../x/f") == Escapes
  {
    DetourIsAccepted(nodes);
    NoDetourIsRefused(nodes);
  }
}
