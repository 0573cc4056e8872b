/** What is left of the tree, node by node, however a write ends; and what deleting a link
    does. */
module FileEffects {
  import opened Basics
  import opened PathText
  import opened Resolution
  import opened PathSafety
  import opened FileSystem
  import opened FileCommands
  import opened FileConfinement
  import opened FileRuns

  /** The tree `fs` with the missing directories down to `up`, and with a file of that
      content at `target` if there is one; nothing else is different. */
  ghost predicate LeftWith(fs: Fs, fs': Fs, up: Path, target: Path, content: Option<seq<Byte>>) {
    && fs'.links == fs.links
    && (forall q :: q in fs'.nodes <==> q in fs.nodes || q <= up || (content.Some? && q == target))
    && (forall q :: q in fs'.nodes ==> fs'.nodes[q] == NodeAt(fs, q, target, content))
  }

  function NodeAt(fs: Fs, q: Path, target: Path, content: Option<seq<Byte>>): (node: Node) {
    if content.Some? && q == target then File(content.value) else if q in fs.nodes then fs.nodes[q] else Dir
  }

  /** `some` are the first `n` of `all`, or all of them if there are no more. */
  predicate FirstOf<T(==)>(all: seq<T>, n: nat, some: seq<T>) {
    some <= all && |some| == if n < |all| then n else |all|
  }

  lemma MadeDirs(fs: Fs, root: Path, p: Path, target: Path)
    requires Rooted(fs, root) && AlongRoot(root, p) && Canonical(fs.links, p)
    ensures if FileOnTheWay(fs, p) then MakeDirs(fs, p).Failure?
            else MakeDirs(fs, p).Success? && LeftWith(fs, MakeDirs(fs, p).value, p, target, None)
  {
    MakeDirsIsEnsureDir(fs, p);
    DirCanBeMadeIff(fs, p);
    if MakeDirs(fs, p).Success? {
      MakeDirsStaysInside(fs, root, p);
      MadeIsThere(fs, root, p);
      AllOnTheWay(MakeDirs(fs, p).value, p);
    }
  }

  lemma AllOnTheWay(fs: Fs, p: Path)
    requires WellFormed(fs) && IsDir(fs, p)
    ensures forall q :: q <= p ==> q in fs.nodes
  {
    forall q | q <= p ensures q in fs.nodes {
      AncestorsAreDirs(fs, p, |q|);
      assert p[..|q|] == q;
    }
  }

  lemma PutOnTop(fs: Fs, fs1: Fs, fs': Fs, up: Path, target: Path, content: seq<Byte>)
    requires LeftWith(fs, fs1, up, target, None)
    requires fs'.links == fs1.links && fs'.nodes == fs1.nodes[target := File(content)]
    ensures LeftWith(fs, fs', up, target, Some(content))
  {
  }

  /** The target is opened and `content` written to it. */
  lemma PutAfterDirs(fs: Fs, root: Path, target: Path, fault: Fault, content: seq<Byte>)
    requires Rooted(fs, root) && root <= target && Canonical(fs.links, target)
    requires !fault.TestFails? && !fault.MkdirFails? && !fault.OpenFails?
    requires !FileOnTheWay(fs, Parent(target)) && !IsDir(fs, target)
    ensures Opened(fs, target, fault).Some?
    ensures LeftWith(fs, WriteContent(Opened(fs, target, fault).value, target, content), Parent(target), target,
                     Some(content))
  {
    WriteOpensIff(fs, root, target);
    assert Opened(fs, target, fault) == Opened(fs, target, NoFault);
    ParentIsAlong(fs.links, root, target);
    MadeDirs(fs, root, Parent(target), target);
    PutInDir(fs, root, target, fault, content);
    PutOnTop(fs, MakeDirs(fs, Parent(target)).value, WriteContent(Opened(fs, target, fault).value, target, content),
             Parent(target), target, content);
  }

  lemma PutInDir(fs: Fs, root: Path, target: Path, fault: Fault, content: seq<Byte>)
    requires Rooted(fs, root) && root <= target && Canonical(fs.links, target)
    requires Opened(fs, target, fault).Some?
    ensures var fs1 := MakeDirs(fs, Parent(target)).value;
            WriteContent(Opened(fs, target, fault).value, target, content)
              == fs1.(nodes := fs1.nodes[target := File(content)])
  {
    OpenedHasTheFile(fs, root, target, fault);
    ParentIsAlong(fs.links, root, target);
    MakeDirsStaysInside(fs, root, Parent(target));
    OpenStaysInside(MakeDirs(fs, Parent(target)).value, root, target);
    CanonicalWrite(Opened(fs, target, fault).value, target, content);
    PutTwice(MakeDirs(fs, Parent(target)).value.nodes, target, File([]), File(content));
  }

  lemma PutTwice(nodes: map<Path, Node>, p: Path, first: Node, second: Node)
    ensures nodes[p := first][p := second] == nodes[p := second]
  {
  }

  /** A write whose `mkdir` fails leaves the directories made so far, and is refused. */
  lemma FailedMkdirLeaves(fs: Fs, root: Path, target: Path, path: string, content: seq<Byte>, d: Delivery, made: Path)
    requires Rooted(fs, root) && root <= target && Canonical(fs.links, target)
    requires d.fault.MkdirFails? && FirstOf(Parent(target), d.fault.upTo, made)
    ensures var o := WriteTo(fs, target, path, content, d);
            && o == Outcome(o.fs, None, Naked, None)
            && if FileOnTheWay(fs, made) then o.fs == fs else LeftWith(fs, o.fs, made, target, None)
  {
    ParentIsAlong(fs.links, root, target);
    PrefixIsAlong(fs.links, root, Parent(target), d.fault.upTo);
    assert made == Upto(Parent(target), d.fault.upTo);
    MadeDirs(fs, root, made, target);
  }

  /** One that cannot make its directories for a file on the way leaves nothing; one that
      makes them but cannot open its target leaves them. Both are refused. */
  lemma UnopenedWriteLeaves(fs: Fs, root: Path, target: Path, path: string, content: seq<Byte>, d: Delivery)
    requires Rooted(fs, root) && root <= target && Canonical(fs.links, target)
    requires !d.fault.TestFails? && !d.fault.MkdirFails?
    requires FileOnTheWay(fs, Parent(target)) || IsDir(fs, target) || d.fault.OpenFails?
    ensures var o, up := WriteTo(fs, target, path, content, d), Parent(target);
            && o == Outcome(o.fs, None, Naked, None)
            && if FileOnTheWay(fs, up) then o.fs == fs else LeftWith(fs, o.fs, up, target, None)
  {
    ParentIsAlong(fs.links, root, target);
    MadeDirs(fs, root, Parent(target), target);
    WriteOpensIff(fs, root, target);
  }

  /** One that fails while writing leaves what got to the disk of the content, whatever was
      there before, and is refused. */
  lemma FailedWriteLeaves(fs: Fs, root: Path, target: Path, path: string, content: seq<Byte>, d: Delivery,
                          some: seq<Byte>)
    requires Rooted(fs, root) && root <= target && Canonical(fs.links, target)
    requires d.fault.WriteFails? && FirstOf(content, d.fault.written, some)
    requires !FileOnTheWay(fs, Parent(target)) && !IsDir(fs, target)
    ensures var o := WriteTo(fs, target, path, content, d);
            o == Outcome(o.fs, None, Naked, None) && LeftWith(fs, o.fs, Parent(target), target, Some(some))
  {
    assert some == Written(content, d.fault.written);
    PutAfterDirs(fs, root, target, d.fault, some);
    CanonicalCalls(fs, target);
    OpenedIsReported(fs, target, path, content, d);
  }

  /** One that does not fail leaves its content at the target, and besides the directories
      down to it nothing else; the target is marked, and the report says whether anything
      was there before. */
  lemma WriteLeaves(fs: Fs, root: Path, target: Path, path: string, content: seq<Byte>, d: Delivery)
    requires Rooted(fs, root) && root <= target && Canonical(fs.links, target)
    requires d.fault.NoFault? || d.fault.OtherFails?
    requires !FileOnTheWay(fs, Parent(target)) && !IsDir(fs, target)
    ensures var o := WriteTo(fs, target, path, content, d);
            && LeftWith(fs, o.fs, Parent(target), target, Some(content)) && o.mark == Some(target)
            && o.reply == (if d.publish.Lost? then None
                           else if target in fs.nodes then Some(FileWriteCompleted(path, |content|))
                           else Some(FileCreateCompleted(path, |content|)))
            && o.settlement == (if d.publish.Done? then Acked else Raised)
  {
    PutAfterDirs(fs, root, target, d.fault, content);
    CanonicalCalls(fs, target);
    OpenedIsReported(fs, target, path, content, d);
  }

  /** Deleting a name that is a link, which only a target accepted after a loop can be: the
      link is removed, and what it leads to stays. */
  lemma DeletedLink(fs: Fs, target: Path, path: string, d: Delivery, up: Path)
    requires target != [] && Follow(fs, [], Parent(target), LINK_BUDGET) == At(up)
    requires up + [target[|target| - 1]] in fs.links && FileAt(fs, target) && d.fault == NoFault
    ensures var o := DeleteAt(fs, target, path, d);
            && o.fs.nodes == fs.nodes && o.fs.links == fs.links - {up + [target[|target| - 1]]}
            && (d.publish == Done ==> o.reply == Some(FileDeleteCompleted(path)) && o.settlement == Acked)
  {
  }
}
