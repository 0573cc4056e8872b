/** Whole runs of the file commands: conservation of files, exact listings, and
    acknowledgements that mean something. */
module FileRuns {
  import opened Basics
  import opened PathText
  import opened Resolution
  import opened PathSafety
  import opened FileSystem
  import opened FileCommands
  import opened FileStorageAdapter
  import opened FileConfinement
  import Ordering

  // ---- Conservation -------------------------------------------------------

  function One(b: bool): (n: int) {
    if b then 1 else 0
  }

  /** Delivery `d` puts a FileCreateCompleted for `p` on the stream. */
  predicate AnnouncesCreation(fs: Fs, watchDir: string, d: Delivery, p: Path) {
    var o := Handle(fs, watchDir, d);
    TargetOf(fs, watchDir, d) == Some(p) && o.reply.Some? && o.reply.value.FileCreateCompleted?
  }

  predicate AnnouncesDeletion(fs: Fs, watchDir: string, d: Delivery, p: Path) {
    var o := Handle(fs, watchDir, d);
    TargetOf(fs, watchDir, d) == Some(p) && o.reply.Some? && o.reply.value.FileDeleteCompleted?
  }

  /** The tree right after a write has opened its target, if it gets that far. */
  function Opened(fs: Fs, target: Path, fault: Fault): (r: Option<Fs>) {
    if fault.TestFails? || fault.MkdirFails? || fault.OpenFails? then None
    else
      match MakeDirs(fs, Parent(target))
      case Failure(_) => None
      case Success(fs1) =>
        match OpenForWriting(fs1, target)
        case Failure(_) => None
        case Success(fs2) => Some(fs2)
  }

  /** A write to a place where nothing is gets as far as opening the file, and then the
      disk or the publish fails: the file is there, unannounced, and redelivery will
      call it an update. */
  predicate CreatesSilently(fs: Fs, watchDir: string, d: Delivery, p: Path) {
    && d.kind.Write? && TargetOf(fs, watchDir, d) == Some(p) && p !in fs.nodes
    && Opened(fs, p, d.fault).Some? && (d.fault.WriteFails? || d.publish.Lost?)
  }

  /** A file is removed and the publish fails: redelivery will not find it. */
  predicate DeletesSilently(fs: Fs, watchDir: string, d: Delivery, p: Path) {
    d.kind.Delete? && TargetOf(fs, watchDir, d) == Some(p) && IsFile(fs, p) && d.fault.NoFault? && d.publish.Lost?
  }

  /** Apart from `target`, the same files. */
  ghost predicate SameFilesBut(a: Fs, b: Fs, target: Path) {
    forall p :: p != target ==> (IsFile(a, p) <==> IsFile(b, p))
  }

  lemma OpenedHasTheFile(fs: Fs, root: Path, target: Path, fault: Fault)
    requires Rooted(fs, root) && root <= target && Canonical(fs.links, target)
    requires Opened(fs, target, fault).Some?
    ensures var fs2 := Opened(fs, target, fault).value;
            && Rooted(fs2, root) && fs2.links == fs.links && SameFilesBut(fs, fs2, target)
            && IsFile(fs2, target) && !IsDir(fs, target)
  {
    ParentIsAlong(fs.links, root, target);
    MakingDirsChangesNoFile(fs, root, Parent(target));
    MakeDirsStaysInside(fs, root, Parent(target));
    OpeningPutsTheFile(MakeDirs(fs, Parent(target)).value, root, target);
  }

  lemma OpeningPutsTheFile(fs: Fs, root: Path, target: Path)
    requires Rooted(fs, root) && root <= target && Canonical(fs.links, target)
    requires OpenForWriting(fs, target).Success?
    ensures var fs2 := OpenForWriting(fs, target).value;
            && Rooted(fs2, root) && fs2.links == fs.links && SameFilesBut(fs, fs2, target)
            && IsFile(fs2, target) && !IsDir(fs, target)
  {
    CanonicalCalls(fs, target);
    OpenStaysInside(fs, root, target);
  }

  /** A write that does not open its target publishes nothing and changes no file. */
  lemma UnopenedChangesNoFile(fs: Fs, root: Path, target: Path, path: string, content: seq<Byte>, d: Delivery)
    requires Rooted(fs, root) && root <= target && Canonical(fs.links, target)
    requires Opened(fs, target, d.fault).None?
    ensures var o := WriteTo(fs, target, path, content, d);
            && o.reply == None && o.settlement == (if d.fault.TestFails? then Raised else Naked) && o.mark == None
            && SameFiles(fs, o.fs)
  {
    var up := Parent(target);
    ParentIsAlong(fs.links, root, target);
    if d.fault.MkdirFails? {
      PrefixIsAlong(fs.links, root, up, d.fault.upTo);
      MakingDirsChangesNoFile(fs, root, Upto(up, d.fault.upTo));
    } else {
      MakingDirsChangesNoFile(fs, root, up);
    }
  }

  ghost predicate SameFiles(a: Fs, b: Fs) {
    forall p :: IsFile(a, p) <==> IsFile(b, p)
  }

  lemma MakingDirsChangesNoFile(fs: Fs, root: Path, p: Path)
    requires Rooted(fs, root) && AlongRoot(root, p) && Canonical(fs.links, p)
    ensures MakeDirs(fs, p).Success? ==> SameFiles(fs, MakeDirs(fs, p).value)
  {
    MakeDirsStaysInside(fs, root, p);
  }

  /** One that does leaves what it wrote of the content there; it reports unless the
      disk fails, and calls it a creation exactly when nothing was there. */
  lemma OpenedIsWritten(fs: Fs, root: Path, target: Path, path: string, content: seq<Byte>, d: Delivery)
    requires Rooted(fs, root) && root <= target && Canonical(fs.links, target)
    requires Opened(fs, target, d.fault).Some?
    ensures var o, fs2 := WriteTo(fs, target, path, content, d), Opened(fs, target, d.fault).value;
            && SameFilesBut(fs, o.fs, target) && IsFile(o.fs, target)
            && (d.fault.WriteFails? ==> o.reply == None && o.settlement == Naked && o.mark == None)
            && (!d.fault.WriteFails? ==>
                  && o.fs.nodes[target] == File(content) && o.mark == Some(target)
                  && o == Report(o.fs, if target in fs.nodes then FileWriteCompleted(path, |content|)
                                       else FileCreateCompleted(path, |content|), d.publish, o.mark))
  {
    OpenedHasTheFile(fs, root, target, d.fault);
    var fs2 := Opened(fs, target, d.fault).value;
    CanonicalCalls(fs, target);
    OpenedIsReported(fs, target, path, content, d);
    if d.fault.WriteFails? {
      PutIn(fs, fs2, root, target, Written(content, d.fault.written));
    } else {
      PutIn(fs, fs2, root, target, content);
    }
  }

  lemma OpenedIsReported(fs: Fs, target: Path, path: string, content: seq<Byte>, d: Delivery)
    requires Opened(fs, target, d.fault).Some? && (Exists(fs, target) <==> target in fs.nodes)
    ensures var o, fs2 := WriteTo(fs, target, path, content, d), Opened(fs, target, d.fault).value;
            && (d.fault.WriteFails? ==>
                  o == Outcome(WriteContent(fs2, target, Written(content, d.fault.written)), None, Naked, None))
            && (!d.fault.WriteFails? ==>
                  o == Report(WriteContent(fs2, target, content),
                              if target in fs.nodes then FileWriteCompleted(path, |content|)
                              else FileCreateCompleted(path, |content|), d.publish, Some(target)))
  {
  }

  lemma PutIn(fs: Fs, fs2: Fs, root: Path, target: Path, content: seq<Byte>)
    requires Rooted(fs2, root) && root <= target && Canonical(fs2.links, target) && IsFile(fs2, target)
    requires SameFilesBut(fs, fs2, target)
    ensures var fs' := WriteContent(fs2, target, content);
            SameFilesBut(fs, fs', target) && IsFile(fs', target) && fs'.nodes[target] == File(content)
  {
    CanonicalWrite(fs2, target, content);
  }

  lemma WriteAccounts(fs: Fs, watchDir: string, root: Path, d: Delivery, target: Path, p: Path)
    requires Watching(fs, watchDir, root) && Direct(fs.links, root, d)
    requires d.kind.Write? && TargetOf(fs, watchDir, d) == Some(target)
    ensures Accounts(fs, watchDir, d, p)
  {
    TargetIsInside(fs, watchDir, root, d.payload.path.text);
    if Opened(fs, target, d.fault).Some? {
      OpenedHasTheFile(fs, root, target, d.fault);
      OpenedIsWritten(fs, root, target, d.payload.path.text, d.payload.content.bytes, d);
    } else {
      UnopenedChangesNoFile(fs, root, target, d.payload.path.text, d.payload.content.bytes, d);
    }
  }

  lemma DeleteAccounts(fs: Fs, watchDir: string, root: Path, d: Delivery, target: Path, p: Path)
    requires Watching(fs, watchDir, root) && Direct(fs.links, root, d)
    requires d.kind.Delete? && TargetOf(fs, watchDir, d) == Some(target)
    ensures Accounts(fs, watchDir, d, p)
  {
    TargetIsInside(fs, watchDir, root, d.payload.path.text);
    CanonicalCalls(fs, target);
    CanonicalIsUnlinked(fs, target);
    DeletionIs(fs, target, d.payload.path.text, d);
  }

  /** What a deletion comes to. */
  lemma DeletionIs(fs: Fs, target: Path, path: string, d: Delivery)
    requires FileAt(fs, target) <==> IsFile(fs, target)
    requires Unlink(fs, target) == if IsFile(fs, target) then Success(fs.(nodes := fs.nodes - {target}))
                                   else Failure(OsError)
    ensures DeleteAt(fs, target, path, d) ==
            if d.fault.TestFails? then Outcome(fs, None, Raised, None)
            else if !IsFile(fs, target) then Report(fs, FileOperationFailed(path, Delete, "not_found"), d.publish, None)
            else if !d.fault.NoFault? then Outcome(fs, None, Naked, None)
            else Report(fs.(nodes := fs.nodes - {target}), FileDeleteCompleted(path), d.publish, None)
  {
  }

  /** What one delivery does to the existence of `p` as a file. */
  predicate Accounts(fs: Fs, watchDir: string, d: Delivery, p: Path) {
    One(IsFile(Handle(fs, watchDir, d).fs, p)) == One(IsFile(fs, p))
    + One(AnnouncesCreation(fs, watchDir, d, p)) - One(AnnouncesDeletion(fs, watchDir, d, p))
    + One(CreatesSilently(fs, watchDir, d, p)) - One(DeletesSilently(fs, watchDir, d, p))
  }

  lemma ReadingChangesNothing(fs: Fs, watchDir: string, d: Delivery)
    requires d.kind.Read? || d.kind.List?
    ensures var o := Handle(fs, watchDir, d);
            o.fs == fs && (o.reply.Some? ==> !o.reply.value.FileCreateCompleted? && !o.reply.value.FileDeleteCompleted?)
  {
  }

  lemma OneDeliveryAccounts(fs: Fs, watchDir: string, root: Path, d: Delivery, p: Path)
    requires Watching(fs, watchDir, root) && Direct(fs.links, root, d)
    ensures Accounts(fs, watchDir, d, p)
  {
    var t := TargetOf(fs, watchDir, d);
    if t.Some? {
      match d.kind {
        case Write => WriteAccounts(fs, watchDir, root, d, t.value, p);
        case Delete => DeleteAccounts(fs, watchDir, root, d, t.value, p);
        case Read => ReadingChangesNothing(fs, watchDir, d);
        case List => ReadingChangesNothing(fs, watchDir, d);
      }
    }
  }

  /** How many deliveries of a run did each of these to `p`. */
  datatype Tally = Tally(created: nat, deleted: nat, silentlyCreated: nat, silentlyDeleted: nat)

  function TallyOf(fs: Fs, watchDir: string, deliveries: seq<Delivery>, p: Path): (t: Tally) {
    if deliveries == [] then Tally(0, 0, 0, 0)
    else
      var n := |deliveries| - 1;
      var t, at, d := TallyOf(fs, watchDir, deliveries[..n], p), Run(fs, watchDir, deliveries[..n]), deliveries[n];
      Tally(t.created + if AnnouncesCreation(at, watchDir, d, p) then 1 else 0,
            t.deleted + if AnnouncesDeletion(at, watchDir, d, p) then 1 else 0,
            t.silentlyCreated + if CreatesSilently(at, watchDir, d, p) then 1 else 0,
            t.silentlyDeleted + if DeletesSilently(at, watchDir, d, p) then 1 else 0)
  }

  lemma {:induction false} FilesAreAccountedFor(fs: Fs, watchDir: string, root: Path, deliveries: seq<Delivery>,
                                                p: Path)
    requires Watching(fs, watchDir, root) && AllDirect(fs.links, root, deliveries)
    ensures var t := TallyOf(fs, watchDir, deliveries, p);
            One(IsFile(Run(fs, watchDir, deliveries), p))
              == One(IsFile(fs, p)) + t.created - t.deleted + t.silentlyCreated - t.silentlyDeleted
  {
    if deliveries != [] {
      var n := |deliveries| - 1;
      FilesAreAccountedFor(fs, watchDir, root, deliveries[..n], p);
      RunsStayInside(fs, watchDir, root, deliveries[..n]);
      OneDeliveryAccounts(Run(fs, watchDir, deliveries[..n]), watchDir, root, deliveries[n], p);
    }
  }

  /** Conservation. For every path, the announced creations less the announced deletions
      say whether the file is there, exactly when as many creations as deletions of it
      went unannounced. */
  lemma ConservationIff(fs: Fs, watchDir: string, root: Path, deliveries: seq<Delivery>, p: Path)
    requires Watching(fs, watchDir, root) && AllDirect(fs.links, root, deliveries)
    ensures var t := TallyOf(fs, watchDir, deliveries, p);
            (One(IsFile(fs, p)) + t.created - t.deleted == One(IsFile(Run(fs, watchDir, deliveries), p)))
            <==> t.silentlyCreated == t.silentlyDeleted
  {
    FilesAreAccountedFor(fs, watchDir, root, deliveries, p);
  }

  /** Without disk errors after opening and without lost publishes it always holds. */
  lemma {:induction false} ConservationWithoutFaults(fs: Fs, watchDir: string, root: Path, deliveries: seq<Delivery>,
                                                     p: Path)
    requires Watching(fs, watchDir, root) && AllDirect(fs.links, root, deliveries)
    requires forall i :: 0 <= i < |deliveries| ==> !deliveries[i].fault.WriteFails? && !deliveries[i].publish.Lost?
    ensures var t := TallyOf(fs, watchDir, deliveries, p);
            && t.silentlyCreated == t.silentlyDeleted == 0
            && One(IsFile(fs, p)) + t.created - t.deleted == One(IsFile(Run(fs, watchDir, deliveries), p))
  {
    if deliveries != [] {
      ConservationWithoutFaults(fs, watchDir, root, deliveries[..|deliveries| - 1], p);
    }
    FilesAreAccountedFor(fs, watchDir, root, deliveries, p);
  }

  // ---- Listings -----------------------------------------------------------

  /** An entry that tells the truth about the child it names. */
  predicate TrueEntry(fs: Fs, dir: Path, e: Entry) {
    var child := dir + [e.name];
    if e.isDirectory then DirAt(fs, child) && e.sizeBytes == 0
    else FileAt(fs, child) && ReadContent(fs, child).Success? && e.sizeBytes == |ReadContent(fs, child).value|
  }

  /** A published listing holds the immediate children, each once, in order, with true
      sizes, whatever order the directory was read in. */
  lemma ListingIsExact(fs: Fs, watchDir: string, d: Delivery, target: Path)
    requires Lists(fs, watchDir, d, target)
    requires Listing(fs, target, d.order)
    ensures var entries := ReplyTo(fs, watchDir, d).value.entries;
            && (forall i, j :: 0 <= i < j < |entries| ==>
                  Ordering.Before(entries[i].name, entries[j].name) && entries[i].name != entries[j].name)
            && (forall n :: (target + [n] in fs.nodes || target + [n] in fs.links)
                       <==> exists i :: 0 <= i < |entries| && entries[i].name == n)
            && (forall i :: 0 <= i < |entries| ==> TrueEntry(fs, target, entries[i]))
  {
    var entries, names := ReplyTo(fs, watchDir, d).value.entries, Ordering.Sort(d.order);
    PublishedEntries(fs, watchDir, d, target);
    Ordering.SortSorts(d.order);
    SameElements(names, d.order);
    if names != [] {
      EntryInList(fs, target, names, 0);
    }
    forall i | 0 <= i < |names|
      ensures i < |entries| && entries[i].name == names[i] && TrueEntry(fs, target, entries[i])
    {
      EntryInList(fs, target, names, i);
    }
    forall n
      ensures (target + [n] in fs.nodes || target + [n] in fs.links)
         <==> exists i :: 0 <= i < |entries| && entries[i].name == n
    {
      ChildIff(fs, target, n);
      assert n in names <==> n in d.order;
      NamedByAnEntry(entries, names, n);
    }
  }

  lemma NamedByAnEntry(entries: seq<Entry>, names: seq<string>, n: string)
    requires |entries| == |names| && forall i :: 0 <= i < |names| ==> entries[i].name == names[i]
    ensures n in names <==> exists i :: 0 <= i < |entries| && entries[i].name == n
  {
    if n in names {
      var i :| 0 <= i < |names| && names[i] == n;
      assert entries[i].name == n;
    }
  }

  lemma SameElements(a: seq<string>, b: seq<string>)
    requires multiset(a) == multiset(b)
    requires forall i, j :: 0 <= i < j < |b| ==> b[i] != b[j]
    ensures |a| == |b|
    ensures forall n :: n in a <==> n in b
    ensures forall i, j :: 0 <= i < j < |a| ==> a[i] != a[j]
  {
    assert |multiset(a)| == |a| && |multiset(b)| == |b|;
    forall n ensures n in a <==> n in b {
      assert n in a <==> n in multiset(a);
      assert n in b <==> n in multiset(b);
    }
    forall n ensures multiset(b)[n] <= 1 {
      AtMostOnce(b, n);
    }
    forall i, j | 0 <= i < j < |a| ensures a[i] != a[j] {
      TwiceCounts(a, i, j);
    }
  }

  lemma {:induction false} AtMostOnce(b: seq<string>, n: string)
    requires forall i, j :: 0 <= i < j < |b| ==> b[i] != b[j]
    ensures multiset(b)[n] <= 1
  {
    if b != [] {
      AtMostOnce(b[1..], n);
      assert b == [b[0]] + b[1..];
      if b[0] == n {
        assert n !in b[1..];
      }
    }
  }

  lemma TwiceCounts(a: seq<string>, i: nat, j: nat)
    requires i < j < |a|
    ensures a[i] == a[j] ==> multiset(a)[a[i]] >= 2
  {
    assert a == a[..i] + [a[i]] + a[i + 1..j] + [a[j]] + a[j + 1..];
  }

  /** The order `iterdir` happens to use does not show. */
  lemma ListingIgnoresDirectoryOrder(fs: Fs, watchDir: string, d: Delivery, order: seq<string>)
    requires multiset(order) == multiset(d.order)
    ensures Handle(fs, watchDir, d.(order := order)) == Handle(fs, watchDir, d)
  {
    var path := DecodePath(d.kind, d.payload);
    if path.Some? {
      match ResolveWithin(fs, watchDir, path.value)
      case Within(target) => ActingIgnoresOrder(fs, target, path.value, d, order);
      case _ =>
    }
  }

  lemma ActingIgnoresOrder(fs: Fs, target: Path, path: string, d: Delivery, order: seq<string>)
    requires multiset(order) == multiset(d.order)
    ensures Act(fs, target, path, d.(order := order)) == Act(fs, target, path, d)
  {
    SortIgnoresOrder(order, d.order);
  }

  lemma SortIgnoresOrder(a: seq<string>, b: seq<string>)
    requires multiset(a) == multiset(b)
    ensures Ordering.Sort(a) == Ordering.Sort(b)
  {
    Ordering.SortSorts(a);
    Ordering.SortSorts(b);
    Ordering.SortedIsUnique(Ordering.Sort(a), Ordering.Sort(b));
  }

  // ---- Acknowledgements ---------------------------------------------------

  /** Malformed, or outside the watch directory. */
  predicate Rejected(fs: Fs, watchDir: string, d: Delivery) {
    match DecodePath(d.kind, d.payload)
    case None => !DecodeRaises(d.kind, d.payload)
    case Some(path) => ResolveWithin(fs, watchDir, path).Escapes?
  }

  /** The path meets a loop of links, and on the way of what the text kept there folds to
      the system meets too many links. */
  predicate CannotBeFollowed(fs: Fs, root: Path, d: Delivery) {
    match DecodePath(d.kind, d.payload)
    case None => false
    case Some(path) =>
      && !IsAbsolute(path) && Folded(fs.links, root, path).Some?
      && Follow(fs, [], Folded(fs.links, root, path).value, LINK_BUDGET).TooManyLinks?
  }

  lemma RaisingCheckIff(fs: Fs, watchDir: string, root: Path, d: Delivery)
    requires Watching(fs, watchDir, root)
    ensures CannotBeFollowed(fs, root, d) <==>
              && DecodePath(d.kind, d.payload).Some?
              && ResolveWithin(fs, watchDir, DecodePath(d.kind, d.payload).value) == SymlinkLoop
  {
    var path := DecodePath(d.kind, d.payload);
    if path.Some? && !IsAbsolute(path.value) {
      CheckOfARequest(fs, watchDir, root, path.value);
    }
  }

  /** What the reply says of the command, and of the trees around it, is so. */
  predicate Performed(before: Fs, after: Fs, target: Path, d: Delivery, reply: Reply) {
    && DecodePath(d.kind, d.payload) == Some(reply.path)
    && match reply
       case FileCreateCompleted(_, n) => d.kind.Write? && target !in before.nodes && WrittenThere(after, target, d, n)
       case FileWriteCompleted(_, n) => d.kind.Write? && target in before.nodes && WrittenThere(after, target, d, n)
       case FileReadCompleted(_, content) =>
         d.kind.Read? && target in after.nodes && after.nodes[target] == File(content)
       case FileDeleteCompleted(_) => d.kind.Delete? && IsFile(before, target) && target !in after.nodes
       case FileListCompleted(_, entries) =>
         d.kind.List? && IsDir(after, target) && EntriesFor(after, target, Ordering.Sort(d.order)) == Some(entries)
       case FileOperationFailed(_, kind, reason) => kind == d.kind && Refused(after, target, kind, reason)
  }

  predicate WrittenThere(after: Fs, target: Path, d: Delivery, n: nat) {
    && d.payload.Fields? && d.payload.content.Bytes? && n == |d.payload.content.bytes|
    && target in after.nodes && after.nodes[target] == File(d.payload.content.bytes)
  }

  predicate Refused(fs: Fs, target: Path, kind: Kind, reason: string) {
    match kind
    case Write => false
    case List => !IsDir(fs, target) && reason == if target in fs.nodes then "not_a_directory" else "not_found"
    case _ => !IsFile(fs, target) && reason == "not_found"
  }

  /** The reply tells the truth, and an ack comes with one. A path is marked as the
      adapter's own exactly when a complete write was reached, so before any reply. */
  predicate WellReported(fs: Fs, target: Path, d: Delivery, o: Outcome) {
    && (o.reply.Some? ==> Performed(fs, o.fs, target, d, o.reply.value))
    && (o.settlement.Acked? ==> o.reply.Some?)
    && (o.mark.Some? ==> d.kind.Write? && o.mark.value == target && IsFile(o.fs, target))
    && (o.reply.Some? && d.kind.Write? ==> o.mark == Some(target))
  }

  lemma WritePerforms(fs: Fs, watchDir: string, root: Path, d: Delivery, target: Path)
    requires Watching(fs, watchDir, root) && Direct(fs.links, root, d)
    requires d.kind.Write? && TargetOf(fs, watchDir, d) == Some(target)
    ensures WellReported(fs, target, d, Handle(fs, watchDir, d))
  {
    TargetIsInside(fs, watchDir, root, d.payload.path.text);
    if Opened(fs, target, d.fault).Some? {
      OpenedIsWritten(fs, root, target, d.payload.path.text, d.payload.content.bytes, d);
    } else {
      UnopenedChangesNoFile(fs, root, target, d.payload.path.text, d.payload.content.bytes, d);
    }
  }

  lemma DeletePerforms(fs: Fs, target: Path, path: string, d: Delivery)
    requires d.kind.Delete? && DecodePath(d.kind, d.payload) == Some(path)
    requires WellFormed(fs) && Canonical(fs.links, target)
    ensures WellReported(fs, target, d, DeleteAt(fs, target, path, d))
  {
    CanonicalCalls(fs, target);
    CanonicalIsUnlinked(fs, target);
    DeletionIs(fs, target, path, d);
  }

  lemma ReadPerforms(fs: Fs, target: Path, path: string, d: Delivery)
    requires d.kind.Read? && DecodePath(d.kind, d.payload) == Some(path)
    requires WellFormed(fs) && Canonical(fs.links, target)
    ensures WellReported(fs, target, d, ReadFrom(fs, target, path, d))
  {
    CanonicalCalls(fs, target);
    ReadingIs(fs, target, path, d);
  }

  /** What a read comes to. */
  lemma ReadingIs(fs: Fs, target: Path, path: string, d: Delivery)
    requires FileAt(fs, target) <==> IsFile(fs, target)
    requires ReadContent(fs, target) == if IsFile(fs, target) then Success(fs.nodes[target].content)
                                        else Failure(OsError)
    ensures ReadFrom(fs, target, path, d) ==
            if d.fault.TestFails? then Outcome(fs, None, Raised, None)
            else if !IsFile(fs, target) then Report(fs, FileOperationFailed(path, Read, "not_found"), d.publish, None)
            else if !d.fault.NoFault? then Outcome(fs, None, Naked, None)
            else Report(fs, FileReadCompleted(path, fs.nodes[target].content), d.publish, None)
  {
  }

  lemma ListPerforms(fs: Fs, target: Path, path: string, d: Delivery)
    requires d.kind.List? && DecodePath(d.kind, d.payload) == Some(path)
    requires WellFormed(fs) && Canonical(fs.links, target)
    ensures WellReported(fs, target, d, ListAt(fs, target, path, d))
  {
    CanonicalCalls(fs, target);
  }

  /** Every reply that reaches the stream is true, and an acked event was rejected or
      has such a reply. */
  lemma AckMeansDone(fs: Fs, watchDir: string, root: Path, d: Delivery)
    requires Watching(fs, watchDir, root) && Direct(fs.links, root, d)
    ensures var o, t := Handle(fs, watchDir, d), TargetOf(fs, watchDir, d);
            && (t.Some? ==> WellReported(fs, t.value, d, o))
            && (t.None? ==> o.reply == None && o.mark == None && o.fs == fs)
            && (t.None? ==> (o.settlement.Acked? <==> Rejected(fs, watchDir, d)))
            && (Rejected(fs, watchDir, d) ==> o == Outcome(fs, None, Acked, None))
  {
    var t := TargetOf(fs, watchDir, d);
    if t.Some? {
      var path := DecodePath(d.kind, d.payload).value;
      TargetIsInside(fs, watchDir, root, path);
      match d.kind {
        case Write => WritePerforms(fs, watchDir, root, d, t.value);
        case Read => ReadPerforms(fs, t.value, path, d);
        case Delete => DeletePerforms(fs, t.value, path, d);
        case List => ListPerforms(fs, t.value, path, d);
      }
    }
  }

  // ---- When an undisturbed command succeeds -------------------------------

  /** A file is on the way to `p`. */
  ghost predicate FileOnTheWay(fs: Fs, p: Path) {
    exists n: nat :: n <= |p| && FileAtDepth(fs, p, n)
  }

  predicate FileAtDepth(fs: Fs, p: Path, n: nat)
    requires n <= |p|
  {
    IsFile(fs, p[..n])
  }

  lemma {:induction false} DirCanBeMadeIff(fs: Fs, p: Path)
    requires WellFormed(fs) && Canonical(fs.links, p)
    ensures EnsureDir(fs, p).Success? <==> !FileOnTheWay(fs, p)
    decreases |p|
  {
    assert p[..|p|] == p;
    if IsDir(fs, p) {
      forall n: nat | n <= |p| ensures !FileAtDepth(fs, p, n) {
        AncestorsAreDirs(fs, p, n);
      }
    } else if IsFile(fs, p) {
      assert FileAtDepth(fs, p, |p|);
    } else {
      CanonicalParent(fs.links, p);
      DirCanBeMadeIff(fs, Parent(p));
      OneDeeper(fs, p);
    }
  }

  lemma OneDeeper(fs: Fs, p: Path)
    requires p != [] && !IsFile(fs, p)
    ensures FileOnTheWay(fs, p) <==> FileOnTheWay(fs, Parent(p))
  {
    assert p[..|p|] == p;
    forall n: nat | n < |p| ensures FileAtDepth(fs, p, n) <==> FileAtDepth(fs, Parent(p), n) {
      assert p[..n] == Parent(p)[..n];
    }
  }

  /** Made directories are there. */
  lemma MadeIsThere(fs: Fs, root: Path, p: Path)
    requires Rooted(fs, root) && AlongRoot(root, p) && Canonical(fs.links, p) && MakeDirs(fs, p).Success?
    ensures IsDir(MakeDirs(fs, p).value, p)
  {
    MakeDirsIsEnsureDir(fs, p);
    if p <= root {
      MakeDirsStaysInside(fs, root, p);
      AncestorsAreDirs(fs, root, |p|);
      assert root[..|p|] == p;
    } else {
      EnsureDirStaysInside(fs, root, p);
    }
  }

  /** What stands in the way of a command: for a write, a directory in the place of
      the file or a file in the place of a directory; for a listing, a child whose
      link leads nowhere. */
  ghost predicate Blocked(fs: Fs, target: Path, d: Delivery) {
    match d.kind
    case Write => IsDir(fs, target) || FileOnTheWay(fs, Parent(target))
    case List => IsDir(fs, target) && HasDangling(fs, target, Ordering.Sort(d.order))
    case _ => false
  }

  /** One of the names leads nowhere. */
  ghost predicate HasDangling(fs: Fs, dir: Path, names: seq<string>) {
    exists i :: 0 <= i < |names| && !Exists(fs, dir + [names[i]])
  }

  /** A child has an entry, a true one under its name, exactly if it is or leads to
      something: a directory or a file. */
  lemma EntryIff(fs: Fs, dir: Path, name: string)
    ensures EntryFor(fs, dir, name).Some? <==> Exists(fs, dir + [name])
    ensures EntryFor(fs, dir, name).Some? ==>
              var e := EntryFor(fs, dir, name).value; e.name == name && TrueEntry(fs, dir, e)
    ensures DirAt(fs, dir + [name]) ==> EntryFor(fs, dir, name) == Some(Entry(name, true, 0))
  {
  }

  lemma WriteOpensIff(fs: Fs, root: Path, target: Path)
    requires Rooted(fs, root) && root <= target && Canonical(fs.links, target)
    ensures Opened(fs, target, NoFault).Some? <==> !IsDir(fs, target) && !FileOnTheWay(fs, Parent(target))
  {
    var up := Parent(target);
    ParentIsAlong(fs.links, root, target);
    MakeDirsIsEnsureDir(fs, up);
    DirCanBeMadeIff(fs, up);
    if Opened(fs, target, NoFault).Some? {
      OpenedHasTheFile(fs, root, target, NoFault);
    } else if MakeDirs(fs, up).Success? && !IsDir(fs, target) {
      MadeIsThere(fs, root, up);
      MakeDirsStaysInside(fs, root, up);
      CanonicalParent(fs.links, target);
      CanonicalCalls(MakeDirs(fs, up).value, target);
    }
  }

  lemma {:induction false} DanglingIsNoList(fs: Fs, dir: Path, names: seq<string>)
    ensures EntriesFor(fs, dir, names).None? <==> HasDangling(fs, dir, names)
  {
    if names != [] {
      var n := |names| - 1;
      var front := names[..n];
      DanglingIsNoList(fs, dir, front);
      EntryIff(fs, dir, names[n]);
      assert forall i :: 0 <= i < n ==> front[i] == names[i];
    }
  }

  /** A delivery disturbed by no I/O error and no publish failure is acked exactly
      when nothing blocks it, and refused otherwise. If it does not get as far as a
      target it is acked when it is rejected; an exception leaves the handler exactly
      when the decoder lets one through, or the path meets a loop of links and cannot be
      followed for links. */
  lemma UndisturbedIsAckedIff(fs: Fs, watchDir: string, root: Path, d: Delivery)
    requires Watching(fs, watchDir, root) && Direct(fs.links, root, d) && d.fault == NoFault && d.publish == Done
    ensures var t, o := TargetOf(fs, watchDir, d), Handle(fs, watchDir, d);
            && (t.Some? ==> (o.settlement.Acked? <==> !Blocked(fs, t.value, d)))
            && (t.Some? ==> (o.settlement.Naked? <==> Blocked(fs, t.value, d)))
            && (t.None? ==> o.settlement == if Rejected(fs, watchDir, d) then Acked else Raised)
            && (o.settlement.Raised? <==> DecodeRaises(d.kind, d.payload) || CannotBeFollowed(fs, root, d))
  {
    var t := TargetOf(fs, watchDir, d);
    RaisingCheckIff(fs, watchDir, root, d);
    if t.Some? {
      var target, path := t.value, DecodePath(d.kind, d.payload).value;
      TargetIsInside(fs, watchDir, root, path);
      UndisturbedAct(fs, root, target, path, d);
    }
  }

  lemma UndisturbedAct(fs: Fs, root: Path, target: Path, path: string, d: Delivery)
    requires Rooted(fs, root) && root <= target && Canonical(fs.links, target)
    requires d.fault == NoFault && d.publish == Done
    ensures Act(fs, target, path, d).settlement == if Blocked(fs, target, d) then Naked else Acked
  {
    CanonicalCalls(fs, target);
    match d.kind {
      case Write => UndisturbedWrite(fs, root, target, path, ContentOf(d), d);
      case Read => ReadingIs(fs, target, path, d);
      case Delete =>
        CanonicalIsUnlinked(fs, target);
        DeletionIs(fs, target, path, d);
      case List => DanglingIsNoList(fs, target, Ordering.Sort(d.order));
    }
  }

  lemma UndisturbedWrite(fs: Fs, root: Path, target: Path, path: string, content: seq<Byte>, d: Delivery)
    requires Rooted(fs, root) && root <= target && Canonical(fs.links, target)
    requires d.kind.Write? && d.fault == NoFault && d.publish == Done
    ensures WriteTo(fs, target, path, content, d).settlement == if Blocked(fs, target, d) then Naked else Acked
  {
    WriteOpensIff(fs, root, target);
    if Opened(fs, target, NoFault).Some? {
      OpenedIsWritten(fs, root, target, path, content, d);
    } else {
      UnopenedChangesNoFile(fs, root, target, path, content, d);
    }
  }

  // ---- When an exception leaves a handler ---------------------------------

  /** An I/O error hits a call that the command makes after the first tests. */
  predicate Disturbed(fs: Fs, target: Path, d: Delivery) {
    match d.kind
    case Write => d.fault.MkdirFails? || d.fault.OpenFails? || d.fault.WriteFails?
    case List => IsDir(fs, target) && !d.fault.NoFault?
    case _ => IsFile(fs, target) && !d.fault.NoFault?
  }

  /** Whatever goes wrong: before its ack or nak an exception leaves the handler exactly
      when the decoder lets one through, the path cannot be followed, the first test of the
      target fails, or nothing blocks or disturbs the command up to its report and the
      publish of that fails. */
  lemma RaisesIff(fs: Fs, watchDir: string, root: Path, d: Delivery)
    requires Watching(fs, watchDir, root) && Direct(fs.links, root, d)
    ensures var t := TargetOf(fs, watchDir, d);
            (Handle(fs, watchDir, d).settlement.Raised?
        <==> || DecodeRaises(d.kind, d.payload)
             || CannotBeFollowed(fs, root, d)
             || (t.Some? && d.fault.TestFails?)
             || (t.Some? && !d.publish.Done? && !Blocked(fs, t.value, d) && !Disturbed(fs, t.value, d)))
  {
    var t := TargetOf(fs, watchDir, d);
    RaisingCheckIff(fs, watchDir, root, d);
    if t.Some? {
      var path := DecodePath(d.kind, d.payload).value;
      TargetIsInside(fs, watchDir, root, path);
      ActingRaisesIff(fs, root, t.value, path, d);
    }
  }

  lemma ActingRaisesIff(fs: Fs, root: Path, target: Path, path: string, d: Delivery)
    requires Rooted(fs, root) && root <= target && Canonical(fs.links, target)
    ensures Act(fs, target, path, d).settlement.Raised?
       <==> d.fault.TestFails? || (!d.publish.Done? && !Blocked(fs, target, d) && !Disturbed(fs, target, d))
  {
    CanonicalCalls(fs, target);
    match d.kind {
      case Write => WritingRaisesIff(fs, root, target, path, ContentOf(d), d);
      case Read =>
      case Delete => CanonicalIsUnlinked(fs, target);
      case List => DanglingIsNoList(fs, target, Ordering.Sort(d.order));
    }
  }

  lemma WritingRaisesIff(fs: Fs, root: Path, target: Path, path: string, content: seq<Byte>, d: Delivery)
    requires Rooted(fs, root) && root <= target && Canonical(fs.links, target) && d.kind.Write?
    ensures WriteTo(fs, target, path, content, d).settlement.Raised?
       <==> d.fault.TestFails? || (!d.publish.Done? && !Blocked(fs, target, d) && !Disturbed(fs, target, d))
  {
    WriteOpensIff(fs, root, target);
    if Opened(fs, target, d.fault).Some? {
      OpenedIsWritten(fs, root, target, path, content, d);
    } else {
      UnopenedChangesNoFile(fs, root, target, path, content, d);
    }
    assert !d.fault.TestFails? && !Disturbed(fs, target, d) ==>
             Opened(fs, target, d.fault) == Opened(fs, target, NoFault);
  }

  /** The payload asks for `path`, as a command of this kind may: only a listing may name
      the empty path, the watch directory itself, and a write needs content. */
  ghost predicate AsksFor(kind: Kind, payload: Payload, path: string) {
    && payload.Fields? && payload.path == Text(path)
    && (path == "" ==> kind == List) && (kind == Write ==> exists bytes :: payload.content == Bytes(bytes))
  }

  lemma DecodesPathIff(kind: Kind, payload: Payload, path: string)
    ensures DecodePath(kind, payload) == Some(path) <==> AsksFor(kind, payload, path)
  {
  }

  /** A payload that asks for nothing changes nothing and gets no reply. It is acked, except
      nesting too deep, and for any kind but a write bytes that are no Unicode text: these
      raise. */
  lemma AskingForNothing(fs: Fs, watchDir: string, d: Delivery)
    requires forall path :: !AsksFor(d.kind, d.payload, path)
    ensures var raises := d.payload == TooDeep || (d.payload == Unreadable && d.kind != Write);
            Handle(fs, watchDir, d) == Outcome(fs, None, if raises then Raised else Acked, None)
  {
    if DecodePath(d.kind, d.payload).Some? {
      DecodesPathIff(d.kind, d.payload, DecodePath(d.kind, d.payload).value);
    }
  }

  /** A payload that is no Unicode text raises in the read, delete and list handlers on
      every delivery; the write handler acks it. */
  lemma UnreadableIsNeverSettled(fs: Fs, watchDir: string, d: Delivery)
    requires d.payload == Unreadable
    ensures EffectsOf(d, Handle(fs, watchDir, d)) == if d.kind.Write? && !d.settle.Lost? then [Ack(d.eventId)] else []
    ensures GetsOut(d, Handle(fs, watchDir, d)) <==> !d.kind.Write? || !d.settle.Done?
  {
  }

  /** File names are no longer than this on Linux. */
  const NAME_MAX := 255

  /** A directory on the way to the target is asked for a name that is too long. */
  predicate OverlongAt(fs: Fs, target: Path, i: nat) {
    i < |target| && IsDir(fs, target[..i]) && |target[i]| > NAME_MAX
  }

  /** The first test of such a target raises; `exists`, `is_file` and `is_dir` ignore other
      errors only. */
  ghost predicate RefusesOverlongNames(fs: Fs, target: Path, fault: Fault) {
    (exists i: nat :: OverlongAt(fs, target, i)) ==> fault.TestFails?
  }

  /** A command for a name that is too long changes nothing and is neither acked nor
      refused, however often it is delivered. */
  lemma OverlongNameIsNeverSettled(fs: Fs, watchDir: string, d: Delivery, i: nat)
    requires TargetOf(fs, watchDir, d).Some? && OverlongAt(fs, TargetOf(fs, watchDir, d).value, i)
    requires RefusesOverlongNames(fs, TargetOf(fs, watchDir, d).value, d.fault)
    ensures Handle(fs, watchDir, d) == Outcome(fs, None, Raised, None) && EffectsOf(d, Handle(fs, watchDir, d)) == []
  {
    var path := DecodePath(d.kind, d.payload).value;
    FailedTestRaises(fs, TargetOf(fs, watchDir, d).value, path, d);
  }

  lemma FailedTestRaises(fs: Fs, target: Path, path: string, d: Delivery)
    requires d.fault == TestFails
    ensures Act(fs, target, path, d) == Outcome(fs, None, Raised, None)
  {
  }

  // ---- Acks on the bus ----------------------------------------------------

  /** Acks and naks among `effects`. */
  function SettledTimes(effects: seq<Effect>): (n: nat) {
    if effects == [] then 0
    else SettledTimes(effects[..|effects| - 1]) + if effects[|effects| - 1].Published? then 0 else 1
  }

  lemma {:induction false} SettledTimesAdd(a: seq<Effect>, b: seq<Effect>)
    ensures SettledTimes(a + b) == SettledTimes(a) + SettledTimes(b)
  {
    if b == [] {
      assert a + b == a;
    } else {
      assert (a + b)[..|a + b| - 1] == a + b[..|b| - 1];
      SettledTimesAdd(a, b[..|b| - 1]);
    }
  }

  lemma SettledTimesOne(e: Effect)
    ensures SettledTimes([e]) == if e.Published? then 0 else 1
  {
    assert [e][..0] == [];
  }

  /** A handling that returns normally acks or naks exactly once, as its last effect; one
      that raises not at all, unless it was the ack or nak that raised after taking
      effect. */
  lemma SettlesOnce(d: Delivery, o: Outcome)
    ensures SettledTimes(EffectsOf(d, o)) == One(!o.settlement.Raised? && !d.settle.Lost?)
    ensures !GetsOut(d, o) ==>
              var e := EffectsOf(d, o);
              e != [] && e[|e| - 1] == (if o.settlement.Acked? then Ack(d.eventId) else Nak(d.eventId))
  {
    SettledTimesAdd(ReplyEffect(d, o), SettleEffect(d, o));
    if o.reply.Some? {
      SettledTimesOne(Published(d.eventId, o.reply.value));
    }
    if SettleEffect(d, o) != [] {
      SettledTimesOne(SettleEffect(d, o)[0]);
      assert SettleEffect(d, o) == [SettleEffect(d, o)[0]];
    }
  }

  /** The ack at place `k` is that of delivery `i`: rejected, or right after a true reply
      correlated with it. */
  ghost predicate JustifiedBy(fs: Fs, watchDir: string, deliveries: seq<Delivery>, effects: seq<Effect>, k: nat,
                              i: nat)
  {
    && i < |deliveries| && k < |effects| && effects[k] == Ack(deliveries[i].eventId)
    && var before, o := Run(fs, watchDir, deliveries[..i]), OutcomeOf(fs, watchDir, deliveries, i);
       (Rejected(before, watchDir, deliveries[i]) ||
        (o.reply.Some? && k > 0 && effects[k - 1] == Published(deliveries[i].eventId, o.reply.value)
         && TargetOf(before, watchDir, deliveries[i]).Some?
         && Performed(before, o.fs, TargetOf(before, watchDir, deliveries[i]).value, deliveries[i],
                      o.reply.value)))
  }

  /** Ack discipline. Across all redeliveries, I/O errors and publish failures, every ack
      on the bus belongs to a rejected command or comes right after the correlated
      report of an effect that has been performed. */
  lemma {:induction false} EveryAckIsJustified(fs: Fs, watchDir: string, root: Path, deliveries: seq<Delivery>, k: nat)
    returns (i: nat)
    requires Watching(fs, watchDir, root) && AllDirect(fs.links, root, deliveries)
    requires k < |RunEffects(fs, watchDir, deliveries)| && RunEffects(fs, watchDir, deliveries)[k].Ack?
    ensures JustifiedBy(fs, watchDir, deliveries, RunEffects(fs, watchDir, deliveries), k, i)
  {
    var n := |deliveries| - 1;
    var front := deliveries[..n];
    var earlier := RunEffects(fs, watchDir, front);
    if k < |earlier| {
      i := EveryAckIsJustified(fs, watchDir, root, front, k);
      LongerEffects(fs, watchDir, deliveries, n);
      StillJustified(fs, watchDir, deliveries, n, earlier, RunEffects(fs, watchDir, deliveries), k, i);
    } else {
      i := n;
      RunsStayInside(fs, watchDir, root, front);
      OwnAckIsJustified(Run(fs, watchDir, front), watchDir, root, deliveries[n], k - |earlier|);
      LastIsJustified(fs, watchDir, deliveries, n, k - |earlier|);
    }
  }

  lemma LongerEffects(fs: Fs, watchDir: string, deliveries: seq<Delivery>, n: nat)
    requires |deliveries| == n + 1
    ensures RunEffects(fs, watchDir, deliveries[..n]) <= RunEffects(fs, watchDir, deliveries)
  {
  }

  lemma StillJustified(fs: Fs, watchDir: string, deliveries: seq<Delivery>, n: nat, earlier: seq<Effect>,
                       effects: seq<Effect>, k: nat, i: nat)
    requires n <= |deliveries| && earlier <= effects && JustifiedBy(fs, watchDir, deliveries[..n], earlier, k, i)
    ensures JustifiedBy(fs, watchDir, deliveries, effects, k, i)
  {
    EarlierCommand(deliveries, n, i);
  }

  lemma LastIsJustified(fs: Fs, watchDir: string, deliveries: seq<Delivery>, n: nat, k: nat)
    requires |deliveries| == n + 1
    requires OwnJustified(Run(fs, watchDir, deliveries[..n]), watchDir, deliveries[n], k)
    ensures JustifiedBy(fs, watchDir, deliveries, RunEffects(fs, watchDir, deliveries),
                        |RunEffects(fs, watchDir, deliveries[..n])| + k, n)
  {
  }

  /** The ack at place `k` of a handling's own effects. */
  ghost predicate OwnJustified(fs: Fs, watchDir: string, d: Delivery, k: nat) {
    var o := Handle(fs, watchDir, d);
    && k < |EffectsOf(d, o)| && EffectsOf(d, o)[k] == Ack(d.eventId)
    && (Rejected(fs, watchDir, d) ||
        (o.reply.Some? && k > 0 && EffectsOf(d, o)[k - 1] == Published(d.eventId, o.reply.value)
         && TargetOf(fs, watchDir, d).Some?
         && Performed(fs, o.fs, TargetOf(fs, watchDir, d).value, d, o.reply.value)))
  }

  lemma OwnAckIsJustified(fs: Fs, watchDir: string, root: Path, d: Delivery, k: nat)
    requires Watching(fs, watchDir, root) && Direct(fs.links, root, d)
    requires k < |EffectsOf(d, Handle(fs, watchDir, d))| && EffectsOf(d, Handle(fs, watchDir, d))[k].Ack?
    ensures OwnJustified(fs, watchDir, d, k)
  {
    AckMeansDone(fs, watchDir, root, d);
  }
}
