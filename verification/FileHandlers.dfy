/** The four file commands (adapters/file_storage_adapter/file_storage_adapter/
    write_handler.py, read_handler.py, delete_handler.py, list_handler.py). */
module FileCommands {
  import opened Basics
  import opened Resolution
  import opened PathSafety
  import opened FileSystem
  import Ordering

  // ---- Payloads -----------------------------------------------------------

  datatype Field = Missing | NotText | Text(text: string)

  datatype Content = NoContent | BadBase64 | Bytes(bytes: seq<Byte>)

  /** A command payload: bytes that are JSON but no object, or that `json.loads` refuses
      with its own error; bytes it refuses with another ValueError (no Unicode text, or
      an integer with too many digits); nesting too deep for it; or the two fields. */
  datatype Payload = NotAnObject | Unreadable | TooDeep | Fields(path: Field, content: Content)

  datatype Kind = Write | Read | Delete | List

  /** The requested path, if the payload decodes. Only a listing may name the empty
      path, only a write needs content. */
  function DecodePath(kind: Kind, payload: Payload): (r: Option<string>) {
    if !payload.Fields? || !payload.path.Text? then None
    else if payload.path.text == "" && !kind.List? then None
    else if kind.Write? && !payload.content.Bytes? then None
    else Some(payload.path.text)
  }

  /** The decoder lets an exception through: only the write decoder catches every
      ValueError. */
  predicate DecodeRaises(kind: Kind, payload: Payload) {
    payload.TooDeep? || (payload.Unreadable? && !kind.Write?)
  }

  // ---- Results ------------------------------------------------------------

  datatype Entry = Entry(name: string, isDirectory: bool, sizeBytes: nat)

  datatype Reply =
    | FileCreateCompleted(path: string, sizeBytes: nat)
    | FileWriteCompleted(path: string, sizeBytes: nat)
    | FileReadCompleted(path: string, content: seq<Byte>)
    | FileDeleteCompleted(path: string)
    | FileListCompleted(path: string, entries: seq<Entry>)
    | FileOperationFailed(path: string, operation: Kind, reason: string)

  /** An I/O error, if any, at one of a handler's calls. `TestFails` is one out of the
      tests for existence and kind that come first, outside every `try`: a name too long
      for the file system, or a directory that may not be searched. */
  datatype Fault = NoFault | TestFails | MkdirFails(upTo: nat) | OpenFails | WriteFails(written: nat) | OtherFails

  /** How a remote call ends: with its effect and an answer, with neither, or with its
      effect but an error for an answer. */
  datatype CallOutcome = Done | Lost | DoneButFailed

  /** One delivery of a command, and how the handler's calls go: its I/O, the publish, the
      ack or nak. `order` is what `iterdir` yields, if it is asked. */
  datatype Delivery = Delivery(
    eventId: string,
    kind: Kind,
    payload: Payload,
    fault: Fault,
    publish: CallOutcome,
    settle: CallOutcome,
    order: seq<string>)

  datatype Settlement = Acked | Naked | Raised

  /** How a handling ends: the tree it leaves, the reply that reached the stream, how
      the event is to be settled, and the path marked as the adapter's own write. */
  datatype Outcome = Outcome(fs: Fs, reply: Option<Reply>, settlement: Settlement, mark: Option<Path>)

  /** Publish, then ack; a failed publish leaves the event unsettled. */
  function Report(fs: Fs, reply: Reply, publish: CallOutcome, mark: Option<Path>): (o: Outcome) {
    Outcome(fs, if publish.Lost? then None else Some(reply), if publish.Done? then Acked else Raised, mark)
  }

  // ---- Handlers -----------------------------------------------------------

  /** The first `n` names of a path. */
  function Upto(p: Path, n: nat): (r: Path) {
    p[..if n < |p| then n else |p|]
  }

  /** As much of the content as got to the disk. */
  function Written(content: seq<Byte>, n: nat): (some: seq<Byte>) {
    content[..if n < |content| then n else |content|]
  }

  /** Directories as far as `mkdir` got before it failed. */
  function PartlyMade(fs: Fs, p: Path): (r: Fs) {
    match MakeDirs(fs, p)
    case Success(some) => some
    case Failure(_) => fs
  }

  /** Write to a resolved target. */
  function WriteTo(fs: Fs, target: Path, path: string, content: seq<Byte>, d: Delivery): (o: Outcome) {
    var existedBefore := Exists(fs, target);
    if d.fault.TestFails? then Outcome(fs, None, Raised, None)
    else if d.fault.MkdirFails? then
      Outcome(PartlyMade(fs, Upto(Parent(target), d.fault.upTo)), None, Naked, None)
    else
      match MakeDirs(fs, Parent(target))
      case Failure(_) => Outcome(fs, None, Naked, None)
      case Success(fs1) =>
        if d.fault.OpenFails? then Outcome(fs1, None, Naked, None)
        else
          match OpenForWriting(fs1, target)
          case Failure(_) => Outcome(fs1, None, Naked, None)
          case Success(fs2) =>
            if d.fault.WriteFails? then
              Outcome(WriteContent(fs2, target, Written(content, d.fault.written)), None, Naked, None)
            else
              Report(WriteContent(fs2, target, content),
                     if existedBefore then FileWriteCompleted(path, |content|)
                     else FileCreateCompleted(path, |content|),
                     d.publish, Some(target))
  }

  function ReadFrom(fs: Fs, target: Path, path: string, d: Delivery): (o: Outcome) {
    if d.fault.TestFails? then Outcome(fs, None, Raised, None)
    else if !FileAt(fs, target) then Report(fs, FileOperationFailed(path, Read, "not_found"), d.publish, None)
    else
      match ReadContent(fs, target)
      case Failure(_) => Outcome(fs, None, Naked, None)
      case Success(content) =>
        if !d.fault.NoFault? then Outcome(fs, None, Naked, None)
        else Report(fs, FileReadCompleted(path, content), d.publish, None)
  }

  function DeleteAt(fs: Fs, target: Path, path: string, d: Delivery): (o: Outcome) {
    if d.fault.TestFails? then Outcome(fs, None, Raised, None)
    else if !FileAt(fs, target) then Report(fs, FileOperationFailed(path, Delete, "not_found"), d.publish, None)
    else if !d.fault.NoFault? then Outcome(fs, None, Naked, None)
    else
      match Unlink(fs, target)
      case Failure(_) => Outcome(fs, None, Naked, None)
      case Success(fs1) => Report(fs1, FileDeleteCompleted(path), d.publish, None)
  }

  /** The entry for one name; `is_dir` and `stat` follow links, and `stat` of nothing
      is an error. */
  function EntryFor(fs: Fs, dir: Path, name: string): (e: Option<Entry>) {
    var child := dir + [name];
    if DirAt(fs, child) then Some(Entry(name, true, 0))
    else
      match ReadContent(fs, child)
      case Failure(_) => None
      case Success(content) => Some(Entry(name, false, |content|))
  }

  function EntriesFor(fs: Fs, dir: Path, names: seq<string>): (r: Option<seq<Entry>>) {
    if names == [] then Some([])
    else
      match EntriesFor(fs, dir, names[..|names| - 1])
      case None => None
      case Some(before) =>
        match EntryFor(fs, dir, names[|names| - 1])
        case None => None
        case Some(e) => Some(before + [e])
  }

  function ListAt(fs: Fs, target: Path, path: string, d: Delivery): (o: Outcome) {
    if d.fault.TestFails? then Outcome(fs, None, Raised, None)
    else if !Exists(fs, target) then Report(fs, FileOperationFailed(path, List, "not_found"), d.publish, None)
    else if !DirAt(fs, target) then Report(fs, FileOperationFailed(path, List, "not_a_directory"), d.publish, None)
    else if !d.fault.NoFault? then Outcome(fs, None, Naked, None)
    else
      match EntriesFor(fs, target, Ordering.Sort(d.order))
      case None => Outcome(fs, None, Naked, None)
      case Some(entries) => Report(fs, FileListCompleted(path, entries), d.publish, None)
  }

  /** The content of a write. */
  function ContentOf(d: Delivery): (content: seq<Byte>) {
    if d.payload.Fields? && d.payload.content.Bytes? then d.payload.content.bytes else []
  }

  /** A command on a resolved target. */
  function Act(fs: Fs, target: Path, path: string, d: Delivery): (o: Outcome) {
    match d.kind
    case Write => WriteTo(fs, target, path, ContentOf(d), d)
    case Read => ReadFrom(fs, target, path, d)
    case Delete => DeleteAt(fs, target, path, d)
    case List => ListAt(fs, target, path, d)
  }

  /** The target of a command, if it gets as far as one. */
  function TargetOf(fs: Fs, watchDir: string, d: Delivery): (t: Option<Path>) {
    match DecodePath(d.kind, d.payload)
    case None => None
    case Some(path) =>
      match ResolveWithin(fs, watchDir, path)
      case Within(target) => Some(target)
      case _ => None
  }

  /** `_handle` of all four handlers: malformed payloads and escaping paths are acked
      and dropped; a loop of links that stays a loop raises, and so does what the decoder
      lets through. */
  function Handle(fs: Fs, watchDir: string, d: Delivery): (o: Outcome) {
    match DecodePath(d.kind, d.payload)
    case None => Outcome(fs, None, if DecodeRaises(d.kind, d.payload) then Raised else Acked, None)
    case Some(path) =>
      match ResolveWithin(fs, watchDir, path)
      case Escapes => Outcome(fs, None, Acked, None)
      case SymlinkLoop => Outcome(fs, None, Raised, None)
      case Within(target) => Act(fs, target, path, d)
  }

  /** The tree after a run of deliveries, one handled after the other. */
  function Run(fs: Fs, watchDir: string, deliveries: seq<Delivery>): (r: Fs) {
    if deliveries == [] then fs
    else Handle(Run(fs, watchDir, deliveries[..|deliveries| - 1]), watchDir, deliveries[|deliveries| - 1]).fs
  }

  /** The outcome of delivery `i` of the run. */
  function OutcomeOf(fs: Fs, watchDir: string, deliveries: seq<Delivery>, i: nat): (o: Outcome)
    requires i < |deliveries|
  {
    Handle(Run(fs, watchDir, deliveries[..i]), watchDir, deliveries[i])
  }
}

/** The adapter as it runs: the handlers change the tree and record what they
    publish and settle, step by step. */
module FileStorageAdapter {
  import opened Basics
  import opened Batches
  import opened Resolution
  import opened PathSafety
  import opened FileSystem
  import opened FileCommands
  import Ordering

  /** What an observer of the bus sees a handler do. */
  datatype Effect =
    | Published(correlationId: string, reply: Reply)
    | Ack(eventId: string)
    | Nak(eventId: string)

  /** The effects of one handling: at most one publish, then at most one ack or nak. */
  function EffectsOf(d: Delivery, o: Outcome): (e: seq<Effect>) {
    ReplyEffect(d, o) + SettleEffect(d, o)
  }

  function ReplyEffect(d: Delivery, o: Outcome): (e: seq<Effect>) {
    match o.reply
    case None => []
    case Some(reply) => [Published(d.eventId, reply)]
  }

  function SettleEffect(d: Delivery, o: Outcome): (e: seq<Effect>) {
    if o.settlement.Raised? || d.settle.Lost? then []
    else if o.settlement.Acked? then [Ack(d.eventId)]
    else [Nak(d.eventId)]
  }

  /** An exception gets out of the handling. */
  predicate GetsOut(d: Delivery, o: Outcome) {
    o.settlement.Raised? || !d.settle.Done?
  }

  class Adapter {
    const watchDir: string
    var fs: Fs
    var effects: seq<Effect>
    var marks: seq<Path>

    constructor (watchDir: string, fs: Fs)
      ensures this.watchDir == watchDir && this.fs == fs && effects == [] && marks == []
    {
      this.watchDir, this.fs, effects, marks := watchDir, fs, [], [];
    }

    /** The state after handling `d` as specified; `raised` if an exception got out. */
    twostate predicate Handled(d: Delivery, raised: bool)
      reads this
    {
      Did(d, Handle(old(fs), watchDir, d), raised)
    }

    /** The state after the handling `o` of `d`. */
    twostate predicate Did(d: Delivery, o: Outcome, raised: bool)
      reads this
    {
      && raised == GetsOut(d, o)
      && fs == o.fs
      && effects == old(effects) + EffectsOf(d, o)
      && marks == old(marks) + (match o.mark case None => [] case Some(p) => [p])
    }

    /** Publish a result; false if the call raises. */
    method Publish(d: Delivery, reply: Reply) returns (ok: bool)
      modifies this`effects
      ensures ok == d.publish.Done?
      ensures effects == old(effects) + if d.publish.Lost? then [] else [Published(d.eventId, reply)]
    {
      if !d.publish.Lost? {
        effects := effects + [Published(d.eventId, reply)];
      }
      ok := d.publish.Done?;
    }

    /** Ack or nak. */
    method Settle(d: Delivery, effect: Effect) returns (raised: bool)
      modifies this`effects
      ensures effects == old(effects) + (if d.settle.Lost? then [] else [effect]) && raised == !d.settle.Done?
    {
      if !d.settle.Lost? {
        effects := effects + [effect];
      }
      raised := !d.settle.Done?;
    }

    method HandleWrite(d: Delivery) returns (raised: bool)
      requires d.kind == Write
      modifies this
      ensures Handled(d, raised)
    {
      var request := DecodePath(Write, d.payload);
      if request.None? {
        if DecodeRaises(Write, d.payload) {
          return true;
        }
        raised := Settle(d, Ack(d.eventId));
        return;
      }
      var path, content := request.value, d.payload.content.bytes;
      var resolved := ResolveWithin(fs, watchDir, path);
      if resolved.Escapes? {
        raised := Settle(d, Ack(d.eventId));
        return;
      }
      if resolved.SymlinkLoop? {
        return true;
      }
      var target := resolved.target;
      raised := WriteThrough(d, target, path, content);
    }

    /** The rest of `_handle` for a write, with the target resolved. */
    method WriteThrough(d: Delivery, target: Path, path: string, content: seq<Byte>) returns (raised: bool)
      modifies this
      ensures Did(d, WriteTo(old(fs), target, path, content, d), raised)
    {
      if d.fault.TestFails? {
        return true;
      }
      var existedBefore := Exists(fs, target);
      if d.fault.MkdirFails? {
        fs := PartlyMade(fs, Upto(Parent(target), d.fault.upTo));
        raised := Settle(d, Nak(d.eventId));
        return;
      }
      var made := MakeDirs(fs, Parent(target));
      if made.Failure? {
        raised := Settle(d, Nak(d.eventId));
        return;
      }
      fs := made.value;
      var handle := OpenForWriting(fs, target);
      if d.fault.OpenFails? || handle.Failure? {
        raised := Settle(d, Nak(d.eventId));
        return;
      }
      fs := handle.value;
      if d.fault.WriteFails? {
        fs := WriteContent(fs, target, Written(content, d.fault.written));
        raised := Settle(d, Nak(d.eventId));
        return;
      }
      fs := WriteContent(fs, target, content);
      marks := marks + [target];
      var ok;
      if existedBefore {
        ok := Publish(d, FileWriteCompleted(path, |content|));
      } else {
        ok := Publish(d, FileCreateCompleted(path, |content|));
      }
      if !ok {
        return true;
      }
      raised := Settle(d, Ack(d.eventId));
    }

    method HandleRead(d: Delivery) returns (raised: bool)
      requires d.kind == Read
      modifies this`effects
      ensures Handled(d, raised)
    {
      var request := DecodePath(Read, d.payload);
      if request.None? {
        if DecodeRaises(Read, d.payload) {
          return true;
        }
        raised := Settle(d, Ack(d.eventId));
        return;
      }
      var resolved := ResolveWithin(fs, watchDir, request.value);
      if resolved.Escapes? {
        raised := Settle(d, Ack(d.eventId));
        return;
      }
      if resolved.SymlinkLoop? {
        return true;
      }
      if d.fault.TestFails? {
        return true;
      }
      var ok;
      if !FileAt(fs, resolved.target) {
        ok := Publish(d, FileOperationFailed(request.value, Read, "not_found"));
        if !ok {
          return true;
        }
        raised := Settle(d, Ack(d.eventId));
        return;
      }
      var content := ReadContent(fs, resolved.target);
      if content.Failure? || !d.fault.NoFault? {
        raised := Settle(d, Nak(d.eventId));
        return;
      }
      ok := Publish(d, FileReadCompleted(request.value, content.value));
      if !ok {
        return true;
      }
      raised := Settle(d, Ack(d.eventId));
    }

    method HandleDelete(d: Delivery) returns (raised: bool)
      requires d.kind == Delete
      modifies this
      ensures Handled(d, raised)
    {
      var request := DecodePath(Delete, d.payload);
      if request.None? {
        if DecodeRaises(Delete, d.payload) {
          return true;
        }
        raised := Settle(d, Ack(d.eventId));
        return;
      }
      var resolved := ResolveWithin(fs, watchDir, request.value);
      if resolved.Escapes? {
        raised := Settle(d, Ack(d.eventId));
        return;
      }
      if resolved.SymlinkLoop? {
        return true;
      }
      if d.fault.TestFails? {
        return true;
      }
      var ok;
      if !FileAt(fs, resolved.target) {
        ok := Publish(d, FileOperationFailed(request.value, Delete, "not_found"));
        if !ok {
          return true;
        }
        raised := Settle(d, Ack(d.eventId));
        return;
      }
      var unlinked := Unlink(fs, resolved.target);
      if !d.fault.NoFault? || unlinked.Failure? {
        raised := Settle(d, Nak(d.eventId));
        return;
      }
      fs := unlinked.value;
      ok := Publish(d, FileDeleteCompleted(request.value));
      if !ok {
        return true;
      }
      raised := Settle(d, Ack(d.eventId));
    }

    method HandleList(d: Delivery) returns (raised: bool)
      requires d.kind == List
      modifies this`effects
      ensures Handled(d, raised)
    {
      var request := DecodePath(List, d.payload);
      if request.None? {
        if DecodeRaises(List, d.payload) {
          return true;
        }
        raised := Settle(d, Ack(d.eventId));
        return;
      }
      var resolved := ResolveWithin(fs, watchDir, request.value);
      if resolved.Escapes? {
        raised := Settle(d, Ack(d.eventId));
        return;
      }
      if resolved.SymlinkLoop? {
        return true;
      }
      if d.fault.TestFails? {
        return true;
      }
      var target, ok := resolved.target, false;
      if !Exists(fs, target) {
        ok := Publish(d, FileOperationFailed(request.value, List, "not_found"));
        if !ok {
          return true;
        }
        raised := Settle(d, Ack(d.eventId));
        return;
      }
      if !DirAt(fs, target) {
        ok := Publish(d, FileOperationFailed(request.value, List, "not_a_directory"));
        if !ok {
          return true;
        }
        raised := Settle(d, Ack(d.eventId));
        return;
      }
      if !d.fault.NoFault? {
        raised := Settle(d, Nak(d.eventId));
        return;
      }
      var entries := CollectEntries(target, Ordering.Sort(d.order));
      if entries.None? {
        raised := Settle(d, Nak(d.eventId));
        return;
      }
      ok := Publish(d, FileListCompleted(request.value, entries.value));
      if !ok {
        return true;
      }
      raised := Settle(d, Ack(d.eventId));
    }

    /** The comprehension over the sorted children. */
    method CollectEntries(dir: Path, names: seq<string>) returns (r: Option<seq<Entry>>)
      ensures r == EntriesFor(fs, dir, names)
    {
      var entries := [];
      var i := 0;
      while i < |names|
        invariant 0 <= i <= |names|
        invariant EntriesFor(fs, dir, names[..i]) == Some(entries)
      {
        assert names[..i + 1][..i] == names[..i];
        var entry := EntryFor(fs, dir, names[i]);
        if entry.None? {
          NoEntryNoList(fs, dir, names, i + 1);
          return None;
        }
        entries := entries + [entry.value];
        i := i + 1;
      }
      assert names[..|names|] == names;
      r := Some(entries);
    }

    method HandleOne(d: Delivery) returns (raised: bool)
      modifies this
      ensures raised == GetsOut(d, Handle(old(fs), watchDir, d))
      ensures fs == Handle(old(fs), watchDir, d).fs
      ensures effects == old(effects) + EffectsOf(d, Handle(old(fs), watchDir, d))
    {
      match d.kind {
        case Write => raised := HandleWrite(d);
        case Read => raised := HandleRead(d);
        case Delete => raised := HandleDelete(d);
        case List => raised := HandleList(d);
      }
    }

    /** One handling more, after those of `before`. */
    method HandleNext(ghost start: Fs, ghost before: seq<Delivery>, ghost p: Progress<Fs, Effect>, d: Delivery)
      returns (raised: bool, ghost p': Progress<Fs, Effect>)
      requires p == Batch(Handler(watchDir), start, before) && p.state == fs && !p.raised
      modifies this
      ensures p' == Batch(Handler(watchDir), start, before + [d])
      ensures p'.state == fs && p'.raised == raised && p'.handled == p.handled + 1
      ensures p.effects <= p'.effects && effects == old(effects) + p'.effects[|p.effects|..]
    {
      assert (before + [d])[..|before|] == before;
      p' := Batch(Handler(watchDir), start, before + [d]);
      raised := HandleOne(d);
    }

    /** The loop of `run_once`, up to an exception or the end. */
    method RunLoop(batch: seq<Delivery>)
      returns (handled: nat, raised: bool, ghost before: seq<Delivery>, ghost p: Progress<Fs, Effect>)
      modifies this
      ensures handled <= |batch| && before == batch[..handled] && (handled == |batch| || raised)
      ensures p == Batch(Handler(watchDir), old(fs), before)
      ensures fs == p.state && effects == old(effects) + p.effects && handled == p.handled && raised == p.raised
    {
      ghost var start, done := fs, effects;
      handled, raised, before, p := 0, false, [], Progress(fs, [], 0, false);
      while handled < |batch| && !raised
        invariant 0 <= handled <= |batch| && before == batch[..handled]
        invariant p == Batch(Handler(watchDir), start, before)
        invariant p.state == fs && p.handled == handled && p.raised == raised
        invariant effects == done + p.effects
      {
        raised, p := HandleNext(start, before, p, batch[handled]);
        OneLonger(batch, handled);
        handled := handled + 1;
        before := batch[..handled];
      }
    }

    /** `run_once` of the four handlers. */
    method RunOnce(batch: seq<Delivery>) returns (handled: nat, raised: bool)
      modifies this
      ensures var p := Batch(Handler(watchDir), old(fs), batch);
              fs == p.state && effects == old(effects) + p.effects && handled == p.handled && raised == p.raised
    {
      ghost var start := fs;
      ghost var before, p;
      handled, raised, before, p := RunLoop(batch);
      NothingMore(Handler(watchDir), start, batch, handled);
    }
  }

  function Handler(watchDir: string): (h: (Fs, Delivery) -> Handling<Fs, Effect>) {
    (fs: Fs, d: Delivery) =>
      var o := Handle(fs, watchDir, d);
      Handling(o.fs, EffectsOf(d, o), GetsOut(d, o))
  }

  lemma {:induction false} RunIsRun(fs: Fs, watchDir: string, deliveries: seq<Delivery>)
    ensures Batches.Run(Handler(watchDir), fs, deliveries) == FileCommands.Run(fs, watchDir, deliveries)
    ensures Batches.Effects(Handler(watchDir), fs, deliveries) == RunEffects(fs, watchDir, deliveries)
  {
    if deliveries != [] {
      RunIsRun(fs, watchDir, deliveries[..|deliveries| - 1]);
    }
  }

  /** Everything a run of deliveries does on the bus, in order. */
  function RunEffects(fs: Fs, watchDir: string, deliveries: seq<Delivery>): (e: seq<Effect>) {
    if deliveries == [] then []
    else
      var n := |deliveries| - 1;
      RunEffects(fs, watchDir, deliveries[..n])
      + EffectsOf(deliveries[n], Handle(FileCommands.Run(fs, watchDir, deliveries[..n]), watchDir, deliveries[n]))
  }

  lemma {:induction false} NoEntryNoList(fs: Fs, dir: Path, names: seq<string>, i: nat)
    requires i <= |names| && EntriesFor(fs, dir, names[..i]).None?
    ensures EntriesFor(fs, dir, names).None?
  {
    if i < |names| {
      assert names[..|names| - 1][..i] == names[..i];
      NoEntryNoList(fs, dir, names[..|names| - 1], i);
    } else {
      assert names[..i] == names;
    }
  }
}
