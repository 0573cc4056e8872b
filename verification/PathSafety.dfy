/** The boundary check (adapters/file_storage_adapter/file_storage_adapter/paths.py). */
module PathSafety {
  import opened Basics
  import opened PathText
  import opened Resolution
  import opened FileSystem

  /** What `Path.resolve` gives: a place, with one slash at the front or with two. */
  datatype Found = Found(twoSlashes: bool, at: Path)

  /** `Path.resolve`, not strict. Where resolution meets a loop, the text kept is folded,
      and only if the system meets too many links on that way is there an exception. */
  function Resolve(fs: Fs, parts: seq<string>): (r: Option<Found>) {
    match Realpath(fs.links, [], parts, {})
    case Some(p) => Some(Found(false, p))
    case None =>
      OnlyMeaningfulPartsCount(fs.links, [], parts, {});
      var text := Kept(fs.links, [], Meaningful(parts), {});
      var p := Fold([], text);
      if Follow(fs, [], p, LINK_BUDGET).TooManyLinks? then None else Some(Found(TwoSlashes(text), p))
  }

  /** A location within the root; a refusal; or the exception `resolve` raises on a
      loop of links, which is no refusal. */
  datatype Resolved = Within(target: Path) | Escapes | SymlinkLoop

  /** `resolve_within`, for a watch directory given as an absolute path. */
  function ResolveWithin(fs: Fs, watchDir: string, relative: string): (r: Resolved) {
    if IsAbsolute(relative) then Escapes
    else
      match Resolve(fs, Split(watchDir))
      case None => SymlinkLoop
      case Some(root) =>
        match Resolve(fs, RequestParts(root.at, relative))
        case None => SymlinkLoop
        case Some(candidate) =>
          if root.twoSlashes == candidate.twoSlashes && root.at <= candidate.at then Within(candidate.at) else Escapes
  }

  /** The parts of the path the check resolves. */
  function RequestParts(root: Path, relative: string): (parts: seq<string>) {
    root + Meaningful(Split(relative))
  }

  /** Resolving the watch directory, and the requested path in it, meets no loop. */
  predicate MeetsNoLoop(links: Links, watchDir: string, relative: string) {
    match Realpath(links, [], Split(watchDir), {})
    case None => false
    case Some(root) => Realpath(links, [], RequestParts(root, relative), {}).Some?
  }

  /** Where the walk of an absolute path text ends, given links enough. */
  ghost predicate Denotes(links: Links, text: string, p: Path) {
    Reaches(links, [], Split(text), p)
  }

  lemma DenotesOne(links: Links, text: string, p: Path, q: Path)
    requires Denotes(links, text, p) && Denotes(links, text, q)
    ensures p == q
  {
    RealpathIsTheWalk(links, [], Split(text), p);
    RealpathIsTheWalk(links, [], Split(text), q);
  }

  lemma RootIsCanonical(links: Links, watchDir: string, root: Path)
    requires [] !in links && Realpath(links, [], Split(watchDir), {}) == Some(root)
    ensures Canonical(links, root)
  {
    SplitHasNoSlash(watchDir);
    assert Canonical(links, []);
    RealpathIsCanonical(links, [], Split(watchDir), {});
  }

  /** A walk through the canonical root first goes to the root, for nothing. */
  lemma ThroughTheRoot(links: Links, root: Path, parts: seq<string>, budget: nat)
    requires Canonical(links, root)
    ensures Walk(links, [], root + parts, budget) == Walk(links, root, parts, budget)
  {
    CanonicalIsItself(links, root, 0, budget);
    assert root[..0] == [] && root[0..] == root;
    WalkInParts(links, [], root, parts, budget);
  }

  /** A walk through `above` first pays what `above` costs. */
  lemma ThroughTheText(links: Links, above: seq<string>, root: Path, first: nat, parts: seq<string>, budget: nat)
    requires Walk(links, [], above, first) == Some((root, 0))
    ensures Walk(links, [], above + parts, first + budget) == Walk(links, root, parts, budget)
    ensures Walk(links, [], above + parts, budget).Some? ==> budget >= first
  {
    SpareBudget(links, [], above, first, budget);
    WalkInParts(links, [], above, parts, first + budget);
    WalkInParts(links, [], above, parts, budget);
    if budget < first {
      LessBudgetFails(links, [], above, first, budget);
    }
  }

  /** Resolving under the resolved root is resolving the joined text. */
  lemma JoinedResolution(links: Links, watchDir: string, relative: string, root: Path, p: Path)
    requires [] !in links && Realpath(links, [], Split(watchDir), {}) == Some(root)
    ensures Realpath(links, [], root + Meaningful(Split(relative)), {}) == Some(p)
       <==> Denotes(links, watchDir + "/" + relative, p)
  {
    var above, parts := Split(watchDir), Split(relative);
    var kept := Meaningful(parts);
    RootIsCanonical(links, watchDir, root);
    RealpathIsTheWalk(links, [], root + kept, p);
    RealpathIsTheWalk(links, root, kept, p);
    OnlyMeaningfulPartsCount(links, root, parts, {});
    RealpathIsTheWalk(links, root, parts, p);
    SplitOfJoin(watchDir, relative);
    var first := RealpathIsReached(links, [], above, {});
    forall budget: nat ensures Walk(links, [], root + kept, budget) == Walk(links, root, kept, budget) {
      ThroughTheRoot(links, root, kept, budget);
    }
    forall budget: nat
      ensures Walk(links, [], above + parts, first + budget) == Walk(links, root, parts, budget)
      ensures Walk(links, [], above + parts, budget).Some? ==> budget >= first
    {
      ThroughTheText(links, above, root, first, parts, budget);
    }
    SameReach(links, root, kept, parts, above, first, p);
  }

  lemma SameReach(links: Links, root: Path, kept: seq<string>, parts: seq<string>, above: seq<string>, first: nat,
                  p: Path)
    requires forall budget: nat :: Walk(links, [], root + kept, budget) == Walk(links, root, kept, budget)
    requires forall budget: nat :: Walk(links, [], above + parts, first + budget) == Walk(links, root, parts, budget)
    requires forall budget: nat :: Walk(links, [], above + parts, budget).Some? ==> budget >= first
    requires Reaches(links, root, kept, p) <==> Reaches(links, root, parts, p)
    ensures Reaches(links, [], root + kept, p) <==> Reaches(links, [], above + parts, p)
  {
    if Reaches(links, [], root + kept, p) {
      var b: nat :| ReachesWith(links, [], root + kept, b, p);
      assert ReachesWith(links, root, kept, b, p);
      var c: nat :| ReachesWith(links, root, parts, c, p);
      assert ReachesWith(links, [], above + parts, first + c, p);
    }
    if Reaches(links, [], above + parts, p) {
      var b: nat :| ReachesWith(links, [], above + parts, b, p);
      assert ReachesWith(links, root, parts, b - first, p);
      var c: nat :| ReachesWith(links, root, kept, c, p);
      assert ReachesWith(links, [], root + kept, c, p);
    }
  }

  /** Resolution meets no loop exactly if following the dots and links of the joined path
      leads somewhere. */
  lemma LeadsSomewhereIff(links: Links, watchDir: string, relative: string)
    requires [] !in links
    ensures MeetsNoLoop(links, watchDir, relative) <==> exists p :: Denotes(links, watchDir + "/" + relative, p)
  {
    var above := Realpath(links, [], Split(watchDir), {});
    if above.Some? {
      forall p ensures Realpath(links, [], RequestParts(above.value, relative), {}) == Some(p)
                  <==> Denotes(links, watchDir + "/" + relative, p)
      {
        JoinedResolution(links, watchDir, relative, above.value, p);
      }
      if MeetsNoLoop(links, watchDir, relative) {
        assert Denotes(links, watchDir + "/" + relative,
                       Realpath(links, [], RequestParts(above.value, relative), {}).value);
      }
    } else if p :| Denotes(links, watchDir + "/" + relative, p) {
      FirstPartEnds(links, watchDir, relative, p);
    }
  }

  lemma FirstPartEnds(links: Links, watchDir: string, relative: string, p: Path)
    requires Denotes(links, watchDir + "/" + relative, p)
    ensures Realpath(links, [], Split(watchDir), {}).Some?
  {
    SplitOfJoin(watchDir, relative);
    var budget: nat :| ReachesWith(links, [], Split(watchDir) + Split(relative), budget, p);
    WalkInParts(links, [], Split(watchDir), Split(relative), budget);
    ReachedIsRealpath(links, [], Split(watchDir), {}, budget);
  }

  /** The check accepts a request path that leads anywhere, with result `target`, exactly
      when the path is not absolute and following every dot and every link of the joined
      path ends at `target`, below or at where it ends for the watch directory. */
  lemma AcceptsExactlyWhatStaysInside(fs: Fs, watchDir: string, relative: string, target: Path)
    requires [] !in fs.links
    ensures (exists p :: Denotes(fs.links, watchDir + "/" + relative, p)) ==>
              (ResolveWithin(fs, watchDir, relative) == Within(target)
          <==> && !IsAbsolute(relative)
               && Denotes(fs.links, watchDir + "/" + relative, target)
               && exists root :: Denotes(fs.links, watchDir, root) && root <= target)
    ensures ResolveWithin(fs, watchDir, relative) == Within(target) ==>
              forall other :: Denotes(fs.links, watchDir + "/" + relative, other) ==> other == target
  {
    LeadsSomewhereIff(fs.links, watchDir, relative);
    var resolved := Realpath(fs.links, [], Split(watchDir), {});
    forall root ensures Denotes(fs.links, watchDir, root) <==> resolved == Some(root) {
      RealpathIsTheWalk(fs.links, [], Split(watchDir), root);
    }
    if resolved.Some? {
      assert Denotes(fs.links, watchDir, resolved.value);
      forall p ensures Realpath(fs.links, [], RequestParts(resolved.value, relative), {}) == Some(p)
                  <==> Denotes(fs.links, watchDir + "/" + relative, p)
      {
        JoinedResolution(fs.links, watchDir, relative, resolved.value, p);
      }
    }
  }

  /** A path that leads nowhere is accepted, with result `target`, exactly when it is not
      absolute and the text kept where resolution meets the loop folds, with one slash at
      the front, to `target`, below or at the root, and the system does not meet too many
      links on the way of `target`. */
  lemma AcceptsAfterALoopIff(fs: Fs, watchDir: string, relative: string, root: Path, target: Path)
    requires [] !in fs.links && Denotes(fs.links, watchDir, root)
    requires forall p :: !Denotes(fs.links, watchDir + "/" + relative, p)
    ensures Realpath(fs.links, [], RequestParts(root, relative), {}).None?
    ensures ResolveWithin(fs, watchDir, relative) == Within(target)
       <==> && !IsAbsolute(relative)
            && var text := Kept(fs.links, [], RequestParts(root, relative), {});
               && target == Fold([], text) && !TwoSlashes(text) && root <= target
               && !Follow(fs, [], target, LINK_BUDGET).TooManyLinks?
  {
    RealpathIsTheWalk(fs.links, [], Split(watchDir), root);
    LeadsSomewhereIff(fs.links, watchDir, relative);
    RootIsCanonical(fs.links, watchDir, root);
    NamesAreMeaningful(root);
    MeaningfulAgain(root, Split(relative));
  }

  lemma {:induction false} NamesAreMeaningful(p: Path)
    requires forall i :: 0 <= i < |p| ==> Name(p[i])
    ensures Meaningful(p) == p
  {
    if p != [] {
      NamesAreMeaningful(p[1..]);
    }
  }

  lemma {:induction false} MeaningfulAgain(p: seq<string>, parts: seq<string>)
    requires Meaningful(p) == p
    ensures Meaningful(p + Meaningful(parts)) == p + Meaningful(parts)
  {
    MeaningfulAppends(p, Meaningful(parts));
    MeaningfulTwice(parts);
  }

  lemma {:induction false} MeaningfulAppends(a: seq<string>, b: seq<string>)
    ensures Meaningful(a + b) == Meaningful(a) + Meaningful(b)
  {
    if a == [] {
      assert a + b == b;
    } else {
      assert (a + b)[1..] == a[1..] + b;
      MeaningfulAppends(a[1..], b);
    }
  }

  lemma {:induction false} MeaningfulTwice(parts: seq<string>)
    ensures Meaningful(Meaningful(parts)) == Meaningful(parts)
  {
    if parts != [] {
      MeaningfulTwice(parts[1..]);
    }
  }

  /** Resolving `parts` meets a loop, and the text kept there folds to `p`, with two slashes
      at the front or with one. */
  predicate LoopsTo(fs: Fs, parts: seq<string>, p: Path, two: bool) {
    && Realpath(fs.links, [], Meaningful(parts), {}).None?
    && var text := Kept(fs.links, [], Meaningful(parts), {});
       p == Fold([], text) && two == TwoSlashes(text)
  }

  predicate MeetsTooManyLinks(fs: Fs, p: Path) {
    Follow(fs, [], p, LINK_BUDGET).TooManyLinks?
  }

  /** A watch directory that leads nowhere. If the system meets too many links on the way of
      what its text folds to, the check raises for every relative path. Otherwise it accepts
      exactly the relative paths that, from there, lead to a place below, or loop in their
      turn and fold to one, with as many slashes at the front as the watch directory has. */
  lemma LoopingWatchDirectory(fs: Fs, watchDir: string, relative: string, base: Path, two: bool, target: Path)
    requires LoopsTo(fs, Split(watchDir), base, two) && !IsAbsolute(relative)
    ensures MeetsTooManyLinks(fs, base) ==> ResolveWithin(fs, watchDir, relative) == SymlinkLoop
    ensures !MeetsTooManyLinks(fs, base) ==>
              var parts := RequestParts(base, relative);
              (ResolveWithin(fs, watchDir, relative) == Within(target)
               <==> && base <= target
                    && if Realpath(fs.links, [], parts, {}).Some?
                       then !two && Realpath(fs.links, [], parts, {}) == Some(target)
                       else LoopsTo(fs, parts, target, two) && !MeetsTooManyLinks(fs, target))
  {
    OnlyMeaningfulPartsCount(fs.links, [], Split(watchDir), {});
    OnlyMeaningfulPartsCount(fs.links, [], RequestParts(base, relative), {});
  }

  /** What the check says, by what resolving the request finds or keeps. */
  lemma CheckOfARequest(fs: Fs, watchDir: string, root: Path, relative: string)
    requires [] !in fs.links && Realpath(fs.links, [], Split(watchDir), {}) == Some(root) && !IsAbsolute(relative)
    ensures var parts := RequestParts(root, relative);
            ResolveWithin(fs, watchDir, relative) ==
            match Realpath(fs.links, [], parts, {})
            case Some(p) => if root <= p then Within(p) else Escapes
            case None =>
              var text := Kept(fs.links, [], parts, {});
              if Follow(fs, [], Fold([], text), LINK_BUDGET).TooManyLinks? then SymlinkLoop
              else if !TwoSlashes(text) && root <= Fold([], text) then Within(Fold([], text))
              else Escapes
  {
    RootIsCanonical(fs.links, watchDir, root);
    NamesAreMeaningful(root);
    MeaningfulAgain(root, Split(relative));
  }

  lemma PartsHaveNoSlash(links: Links, root: Path, relative: string)
    requires Canonical(links, root)
    ensures forall i :: 0 <= i < |RequestParts(root, relative)| ==> '/' !in RequestParts(root, relative)[i]
  {
    SplitHasNoSlash(relative);
    MeaningfulAreParts(Split(relative));
    var parts := RequestParts(root, relative);
    forall i | 0 <= i < |parts| ensures '/' !in parts[i] {
      assert i >= |root| ==> parts[i] in Meaningful(Split(relative));
    }
  }

  /** A target accepted without meeting a loop is canonical: later use of it follows no
      link. */
  lemma TargetIsCanonical(fs: Fs, watchDir: string, relative: string)
    requires [] !in fs.links && MeetsNoLoop(fs.links, watchDir, relative)
    requires ResolveWithin(fs, watchDir, relative).Within?
    ensures Canonical(fs.links, ResolveWithin(fs, watchDir, relative).target)
  {
    var root := Realpath(fs.links, [], Split(watchDir), {}).value;
    RootIsCanonical(fs.links, watchDir, root);
    PartsHaveNoSlash(fs.links, root, relative);
    assert Canonical(fs.links, []);
    RealpathIsCanonical(fs.links, [], RequestParts(root, relative), {});
  }

  lemma {:induction false} MeaningfulAreParts(parts: seq<string>)
    ensures forall c :: c in Meaningful(parts) ==> c in parts
  {
    if parts != [] {
      MeaningfulAreParts(parts[1..]);
    }
  }
}
