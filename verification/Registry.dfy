/** Keys of the service directory and the two ways the code selects them: a NATS
    wildcard for the watch, a substring test for the one-shot lookup. */
module DirectoryKeys {

  const EVENTS := "events."

  /** `_kv_key` */
  function KvKey(subject: string, serviceId: string): (key: string) {
    subject + "." + serviceId
  }

  /** A single subject token. */
  ghost predicate Token(s: string) {
    s != [] && '.' !in s
  }

  /** The watch on `subject.*`. */
  ghost predicate Matches(key: string, subject: string) {
    && |key| > |subject| + 1
    && subject + "." <= key
    && Token(key[|subject| + 1..])
  }

  predicate OccursAt(text: string, part: string, i: nat) {
    i + |part| <= |text| && text[i..i + |part|] == part
  }

  /** The filter of `keys(filters=[part])`. */
  predicate Contains(text: string, part: string) {
    exists i | 0 <= i <= |text| :: OccursAt(text, part, i)
  }

  /** The watch selects the keys of services under the subject, by one token each. */
  lemma MatchesIff(key: string, subject: string)
    ensures Matches(key, subject) <==> exists id :: Token(id) && key == KvKey(subject, id)
  {
    if Matches(key, subject) {
      var id := key[|subject| + 1..];
      assert key == key[..|subject| + 1] + id;
      assert Token(id) && key == KvKey(subject, id);
    }
    if id :| Token(id) && key == KvKey(subject, id) {
      assert key[|subject| + 1..] == id;
    }
  }

  /** The filter selects the keys with `part` anywhere in them. */
  lemma ContainsIff(text: string, part: string)
    ensures Contains(text, part) <==> exists before, after :: text == before + part + after
  {
    if Contains(text, part) {
      var i :| 0 <= i <= |text| && OccursAt(text, part, i);
      assert text == text[..i] + part + text[i + |part|..];
    }
    if before, after :| text == before + part + after {
      assert OccursAt(text, part, |before|);
    }
  }

  /** Subjects of this bus: all below "events.", none a token prefix of another. */
  ghost predicate Disciplined(subjects: set<string>) {
    && (forall s :: s in subjects ==> EVENTS <= s)
    && (forall s, t :: s in subjects && t in subjects ==> !(s + "." <= t))
  }

  /** A key somebody registered under, with "events." nowhere but at its start. */
  ghost predicate RegisteredKey(subjects: set<string>, key: string) {
    && (exists s, id :: s in subjects && Token(id) && key == KvKey(s, id))
    && (forall i: nat :: OccursAt(key, EVENTS, i) ==> i == 0)
  }

  lemma LastDot(s: string, id: string, key: string)
    requires Token(id) && key == KvKey(s, id)
    ensures key[|s|] == '.' && forall i :: |s| < i < |key| ==> key[i] != '.'
    ensures key[..|s|] == s && key[|s| + 1..] == id
  {
    forall i | |s| < i < |key| ensures key[i] != '.' {
      assert key[i] == id[i - |s| - 1];
    }
  }

  /** Dot-free service ids make the key determine both its parts. */
  lemma KeyIsInjective(s1: string, id1: string, s2: string, id2: string)
    requires Token(id1) && Token(id2) && KvKey(s1, id1) == KvKey(s2, id2)
    ensures s1 == s2 && id1 == id2
  {
    LastDot(s1, id1, KvKey(s1, id1));
    LastDot(s2, id2, KvKey(s2, id2));
  }

  lemma MatchedIsContained(key: string, subject: string)
    requires Matches(key, subject)
    ensures Contains(key, subject + ".")
  {
    assert OccursAt(key, subject + ".", 0);
  }

  /** Under the naming discipline the substring test and the wildcard select the
      same keys. */
  lemma FilterIsWildcard(subjects: set<string>, subject: string, key: string)
    requires Disciplined(subjects) && subject in subjects && RegisteredKey(subjects, key)
    ensures Contains(key, subject + ".") <==> Matches(key, subject)
  {
    if Matches(key, subject) {
      MatchedIsContained(key, subject);
    }
    if Contains(key, subject + ".") {
      var i :| 0 <= i <= |key| && OccursAt(key, subject + ".", i);
      PartOccurs(key, subject + ".", EVENTS, i);
      var s, id :| s in subjects && Token(id) && key == KvKey(s, id);
      SameSubject(s, id, subject, key);
    }
  }

  lemma PartOccurs(text: string, whole: string, part: string, i: nat)
    requires OccursAt(text, whole, i) && part <= whole
    ensures OccursAt(text, part, i)
  {
    assert text[i..i + |part|] == text[i..i + |whole|][..|part|];
  }

  /** Of two subjects a key starts with, one is a token prefix of the other, unless
      they are the same. */
  lemma SameSubject(s: string, id: string, subject: string, key: string)
    requires Token(id) && key == KvKey(s, id) && OccursAt(key, subject + ".", 0)
    ensures s + "." <= subject || subject + "." <= s || (s == subject && Matches(key, subject))
  {
    assert key[..|subject| + 1] == subject + ".";
    assert key[..|s| + 1] == s + ".";
    LastDot(s, id, key);
    if |subject| < |s| {
      assert s[..|subject| + 1] == key[..|subject| + 1];
    } else if |subject| > |s| {
      assert subject[..|s| + 1] == key[..|s| + 1];
    } else {
      assert subject == key[..|s|];
    }
  }
}

/** The service directory (libs/jetcore/jetcore/registry.py): a KV bucket, the
    one-shot lookup over it, and the watch-fed cache that shadows it. */
module Registry {
  import opened Basics
  import opened DirectoryKeys
  import opened PyDict

  const LOOKUP_RETRY_ATTEMPTS := 3

  /** A stored value: a registration with its `encryptionPublicKey`, text that is not JSON
      or lacks that field, or one that raises an error neither reader catches when it is
      read: JSON that is not an object, bytes that are no Unicode text, an integer with too
      many digits, or nesting too deep. */
  datatype KvValue = Registration(encryptionKey: string) | Malformed | Raising

  /** A bucket entry; an expiry arrives as a purge. */
  datatype Update = Assign(key: string, value: KvValue) | Delete(key: string) | Purge(key: string)

  /** What `watcher.updates` yields. */
  datatype Item = News(update: Update) | CaughtUp | Idle

  // ---- The bucket ---------------------------------------------------------

  class Bucket {
    var log: seq<Update>

    constructor ()
      ensures log == []
    {
      log := [];
    }

    /** `register`, and each beat of `heartbeat`. */
    method Register(subject: string, serviceId: string, encryptionKey: string)
      modifies this
      ensures log == old(log) + [Assign(KvKey(subject, serviceId), Registration(encryptionKey))]
      ensures LastUpdate(log, KvKey(subject, serviceId))
              == Some(Assign(KvKey(subject, serviceId), Registration(encryptionKey)))
      ensures forall k :: k != KvKey(subject, serviceId) ==> LastUpdate(log, k) == LastUpdate(old(log), k)
    {
      log := log + [Assign(KvKey(subject, serviceId), Registration(encryptionKey))];
    }

    method Deregister(subject: string, serviceId: string)
      modifies this
      ensures log == old(log) + [Delete(KvKey(subject, serviceId))]
      ensures LastUpdate(log, KvKey(subject, serviceId)) == Some(Delete(KvKey(subject, serviceId)))
      ensures forall k :: k != KvKey(subject, serviceId) ==> LastUpdate(log, k) == LastUpdate(old(log), k)
    {
      log := log + [Delete(KvKey(subject, serviceId))];
    }
  }

  /** The latest entry for a key. */
  function LastUpdate(log: seq<Update>, key: string): (r: Option<Update>) {
    if log == [] then None
    else if log[|log| - 1].key == key then Some(log[|log| - 1])
    else LastUpdate(log[..|log| - 1], key)
  }

  /** The key registered by the latest entry, if that is a registration. */
  function Registered(log: seq<Update>, key: string): (r: Option<string>) {
    match LastUpdate(log, key)
    case Some(Assign(_, Registration(v))) => Some(v)
    case _ => None
  }

  /** No value raises when it is read. */
  ghost predicate NoneRaises(log: seq<Update>) {
    forall i :: 0 <= i < |log| && log[i].Assign? ==> !log[i].value.Raising?
  }

  ghost predicate WellFormed(log: seq<Update>) {
    forall i :: 0 <= i < |log| && log[i].Assign? ==> log[i].value.Registration?
  }

  // ---- The cache ----------------------------------------------------------

  /** What `RecipientCache` holds; `failed` once its task died of an exception. */
  datatype CacheState = CacheState(entries: Dict<string, string>, ready: bool, failed: bool)

  const FRESH := CacheState([], false, false)

  function OnUpdate(c: CacheState, u: Update): (r: CacheState) {
    match u
    case Delete(k) => c.(entries := Pop(c.entries, k))
    case Purge(k) => c.(entries := Pop(c.entries, k))
    case Assign(k, Registration(v)) => c.(entries := Put(c.entries, k, v))
    case Assign(_, Malformed) => c
    case Assign(_, Raising) => c.(failed := true)
  }

  /** The cache after `items`. */
  function Consumed(c: CacheState, items: seq<Item>): (r: CacheState) {
    if items == [] then c
    else
      var before := Consumed(c, items[..|items| - 1]);
      if before.failed then before
      else
        match items[|items| - 1]
        case Idle => before
        case CaughtUp => before.(ready := true)
        case News(u) => OnUpdate(before, u)
  }

  /** No value delivered raises when it is read. */
  ghost predicate NeverRaises(items: seq<Item>) {
    forall i :: 0 <= i < |items| && items[i].News? && items[i].update.Assign? ==>
      !items[i].update.value.Raising?
  }

  class RecipientCache {
    var entries: Dict<string, string>
    var ready: bool
    var failed: bool

    ghost function State(): (c: CacheState)
      reads this
    {
      CacheState(entries, ready, failed)
    }

    ghost predicate Valid()
      reads this
    {
      Distinct(entries)
    }

    constructor ()
      ensures Valid() && State() == FRESH
    {
      entries, ready, failed := [], false, false;
    }

    /** `_consume` over the updates that arrive while its own task lives. */
    method Consume(items: seq<Item>)
      requires Valid()
      modifies this
      ensures Valid() && State() == Consumed(old(State()), items)
    {
      var i := 0;
      while i < |items| && !failed
        invariant 0 <= i <= |items| && Valid()
        invariant State() == Consumed(old(State()), items[..i])
      {
        ghost var before := State();
        assert items[..i + 1][..i] == items[..i];
        match items[i] {
          case Idle =>
          case CaughtUp => ready := true;
          case News(Delete(k)) => entries := Pop(entries, k);
          case News(Purge(k)) => entries := Pop(entries, k);
          case News(Assign(k, Registration(v))) => entries := Put(entries, k, v);
          case News(Assign(_, Malformed)) =>
          case News(Assign(_, Raising)) => failed := true;
        }
        i := i + 1;
      }
      if failed {
        FailedIsFinal(old(State()), items, i);
      }
      assert items[..|items|] == items;
    }

    /** `current`: one encryption key for each registered directory key, and no other. */
    method Current() returns (keys: seq<string>)
      requires Valid()
      ensures keys == Values(entries) && |keys| == |entries|
      ensures forall v :: v in keys <==> Holds(entries, v)
    {
      forall v ensures v in Values(entries) <==> Holds(entries, v) {
        ValuesAreHeld(entries, v);
      }
      keys := Values(entries);
    }
  }

  lemma {:induction false} FailedIsFinal(c: CacheState, items: seq<Item>, i: nat)
    requires i <= |items| && Consumed(c, items[..i]).failed
    ensures Consumed(c, items) == Consumed(c, items[..i])
  {
    if i < |items| {
      var front := items[..|items| - 1];
      assert front[..i] == items[..i];
      FailedIsFinal(c, front, i);
    } else {
      assert items[..i] == items;
    }
  }

  /** Reading the item's value raises what the task does not catch. */
  predicate Kills(item: Item) {
    item.News? && item.update.Assign? && item.update.value.Raising?
  }

  /** The task dies exactly of such an item. */
  lemma {:induction false} FailedIff(items: seq<Item>)
    ensures Consumed(FRESH, items).failed <==> exists i :: 0 <= i < |items| && Kills(items[i])
  {
    if items != [] {
      var n := |items| - 1;
      FailedIff(items[..n]);
      assert forall i :: 0 <= i < n ==> items[..n][i] == items[i];
      if Consumed(FRESH, items[..n]).failed {
        var i :| 0 <= i < n && Kills(items[..n][i]);
        assert Kills(items[i]);
      }
    }
  }

  /** Item `i` is a caught-up marker that the task lived to see. */
  ghost predicate MarksReady(items: seq<Item>, i: nat) {
    i < |items| && items[i] == CaughtUp && !Consumed(FRESH, items[..i]).failed
  }

  /** The cache is ready exactly once the caught-up marker arrives while the task lives. */
  lemma {:induction false} ReadyIff(items: seq<Item>)
    ensures Consumed(FRESH, items).ready <==> exists i: nat :: MarksReady(items, i)
  {
    if items != [] {
      var n := |items| - 1;
      ReadyIff(items[..n]);
      ReadyByLast(items);
      forall i: nat | i < n ensures MarksReady(items[..n], i) <==> MarksReady(items, i) {
        assert items[..n][..i] == items[..i];
      }
    }
  }

  lemma ReadyByLast(items: seq<Item>)
    requires items != []
    ensures Consumed(FRESH, items).ready
       <==> Consumed(FRESH, items[..|items| - 1]).ready || MarksReady(items, |items| - 1)
  {
  }

  // ---- What an entry means ------------------------------------------------

  /** Item `i` put `v` under `key`, and nothing later put another registration
      there or removed it. */
  ghost predicate LastGoodPut(items: seq<Item>, key: string, v: string, i: nat) {
    && i < |items| && items[i] == News(Assign(key, Registration(v)))
    && (forall j :: i < j < |items| ==> !Settles(items[j], key))
  }

  ghost predicate Settles(item: Item, key: string) {
    item.News? && item.update.key == key && (item.update.Assign? ==> item.update.value.Registration?)
  }

  lemma {:induction false} ConsumedIsDistinct(c: CacheState, items: seq<Item>)
    requires Distinct(c.entries)
    ensures Distinct(Consumed(c, items).entries)
  {
    if items != [] {
      ConsumedIsDistinct(c, items[..|items| - 1]);
    }
  }

  lemma {:induction false} NeverFails(c: CacheState, items: seq<Item>)
    requires !c.failed
    requires NeverRaises(items)
    ensures !Consumed(c, items).failed
  {
    if items != [] {
      NeverFails(c, items[..|items| - 1]);
    }
  }

  /** An entry is in the cache exactly when it is the last well-formed put for
      its key since that key's last removal, whatever malformed puts, idle polls
      and caught-up markers came between. */
  lemma {:induction false} EntryIsLastGoodPut(items: seq<Item>, key: string, v: string)
    requires NeverRaises(items)
    ensures Get(Consumed(FRESH, items).entries, key) == Some(v) <==> exists i: nat :: LastGoodPut(items, key, v, i)
  {
    if items != [] {
      var front, last := items[..|items| - 1], items[|items| - 1];
      EntryIsLastGoodPut(front, key, v);
      OneMoreItem(items, key);
      assert items == front + [last];
      if Settles(last, key) {
        assert LastGoodPut(items, key, v, |front|) <==> last == Item.News(Assign(key, Registration(v)));
        assert Settles(items[|front|], key);
      } else {
        forall i: nat ensures LastGoodPut(front, key, v, i) <==> LastGoodPut(items, key, v, i) {
          GoodPutExtends(front, last, key, v, i);
        }
      }
    }
  }

  /** The last item decides an entry exactly if it settles the key. */
  lemma OneMoreItem(items: seq<Item>, key: string)
    requires items != []
    requires NeverRaises(items)
    ensures var front, last := items[..|items| - 1], items[|items| - 1];
            Get(Consumed(FRESH, items).entries, key) ==
              if !Settles(last, key) then Get(Consumed(FRESH, front).entries, key)
              else if last.update.Assign? then Some(last.update.value.encryptionKey)
              else None
  {
    var front, last := items[..|items| - 1], items[|items| - 1];
    NeverFails(FRESH, front);
    ConsumedIsDistinct(FRESH, front);
    var before := Consumed(FRESH, front).entries;
    if last.News? {
      if !last.update.Assign? {
        GetOfPop(before, last.update.key, key);
      } else if last.update.value.Registration? {
        GetOfPut(before, last.update.key, last.update.value.encryptionKey, key);
      }
    }
  }

  lemma GoodPutExtends(front: seq<Item>, last: Item, key: string, v: string, i: nat)
    requires !Settles(last, key)
    ensures LastGoodPut(front, key, v, i) <==> LastGoodPut(front + [last], key, v, i)
  {
    var items := front + [last];
    if LastGoodPut(items, key, v, i) {
      assert items[i] != last;
      forall j | i < j < |front| ensures !Settles(front[j], key) {
        assert items[j] == front[j];
      }
    }
  }

  // ---- The watch ----------------------------------------------------------

  /** The last entry of each key, oldest first: what a new watch is sent. */
  function Snapshot(log: seq<Update>): (r: seq<Update>)
  {
    if log == [] then []
    else Others(Snapshot(log[..|log| - 1]), log[|log| - 1].key) + [log[|log| - 1]]
  }

  function Others(log: seq<Update>, key: string): (r: seq<Update>) {
    if log == [] then []
    else if log[|log| - 1].key == key then Others(log[..|log| - 1], key)
    else Others(log[..|log| - 1], key) + [log[|log| - 1]]
  }

  ghost function Selected(log: seq<Update>, subject: string): (r: seq<Update>) {
    if log == [] then []
    else if Matches(log[|log| - 1].key, subject) then Selected(log[..|log| - 1], subject) + [log[|log| - 1]]
    else Selected(log[..|log| - 1], subject)
  }

  /** The updates among `items`, in order. */
  function Updates(items: seq<Item>): (log: seq<Update>) {
    if items == [] then []
    else if items[|items| - 1].News? then Updates(items[..|items| - 1]) + [items[|items| - 1].update]
    else Updates(items[..|items| - 1])
  }

  /** What a watch on `subject.*`, opened when the bucket held `log[..start]`, has
      delivered by the time the bucket holds `log`: the snapshot, then every later
      entry, with any number of markers and idle polls in between. */
  ghost predicate Delivers(items: seq<Item>, log: seq<Update>, start: nat, subject: string) {
    start <= |log| && Updates(items) == Selected(Snapshot(log[..start]), subject) + Selected(log[start..], subject)
  }

  lemma {:induction false} LastOfOthers(log: seq<Update>, key: string, k: string)
    ensures LastUpdate(Others(log, key), k) == if k == key then None else LastUpdate(log, k)
  {
    if log != [] {
      var front, last := log[..|log| - 1], log[|log| - 1];
      LastOfOthers(front, key, k);
      if last.key != key {
        assert Others(log, key)[..|Others(log, key)| - 1] == Others(front, key);
      }
    }
  }

  /** The snapshot keeps every key's last entry. */
  lemma {:induction false} LastOfSnapshot(log: seq<Update>, k: string)
    ensures LastUpdate(Snapshot(log), k) == LastUpdate(log, k)
  {
    if log != [] {
      var front, last := log[..|log| - 1], log[|log| - 1];
      LastOfSnapshot(front, k);
      LastOfOthers(Snapshot(front), last.key, k);
      assert Snapshot(log)[..|Snapshot(log)| - 1] == Others(Snapshot(front), last.key);
    }
  }

  lemma {:induction false} LastOfSelected(log: seq<Update>, subject: string, k: string)
    ensures LastUpdate(Selected(log, subject), k) == if Matches(k, subject) then LastUpdate(log, k) else None
  {
    if log != [] {
      var front, last := log[..|log| - 1], log[|log| - 1];
      LastOfSelected(front, subject, k);
      if Matches(last.key, subject) {
        assert Selected(log, subject)[..|Selected(log, subject)| - 1] == Selected(front, subject);
      }
    }
  }

  lemma {:induction false} LastOfConcat(a: seq<Update>, b: seq<Update>, k: string)
    ensures LastUpdate(a + b, k) == if LastUpdate(b, k).Some? then LastUpdate(b, k) else LastUpdate(a, k)
  {
    if b == [] {
      assert a + b == a;
    } else {
      assert (a + b)[..|a + b| - 1] == a + b[..|b| - 1];
      LastOfConcat(a, b[..|b| - 1], k);
    }
  }

  /** Whatever was compacted away before the watch opened, the last delivered
      entry of a selected key is its last entry in the bucket. */
  lemma DeliveredLast(items: seq<Item>, log: seq<Update>, start: nat, subject: string, k: string)
    requires Delivers(items, log, start, subject)
    ensures LastUpdate(Updates(items), k) == if Matches(k, subject) then LastUpdate(log, k) else None
  {
    var before, after := log[..start], log[start..];
    assert log == before + after;
    LastOfConcat(before, after, k);
    LastOfConcat(Selected(Snapshot(before), subject), Selected(after, subject), k);
    LastOfSelected(Snapshot(before), subject, k);
    LastOfSelected(after, subject, k);
    LastOfSnapshot(before, k);
  }

  /** A malformed put of `k` over a registration that still stands. */
  ghost predicate Stale(items: seq<Item>, k: string) {
    LastUpdate(Updates(items), k) == Some(Assign(k, Malformed)) && exists v, i: nat :: LastGoodPut(items, k, v, i)
  }

  /** The cache answers a key as the last delivered entry does, unless that entry
      is malformed and an earlier registration still stands. */
  lemma CachedIsLastDelivered(items: seq<Item>, k: string)
    requires NeverRaises(items)
    ensures Get(Consumed(FRESH, items).entries, k) == Registered(Updates(items), k)
       <==> !Stale(items, k)
  {
    var cached := Get(Consumed(FRESH, items).entries, k);
    forall v: string ensures cached == Some(v) <==> exists i: nat :: LastGoodPut(items, k, v, i) {
      EntryIsLastGoodPut(items, k, v);
    }
    if LastUpdate(Updates(items), k) != Some(Assign(k, Malformed)) {
      SettledAgrees(items, k);
    } else if cached.Some? {
      var i: nat :| LastGoodPut(items, k, cached.value, i);
    } else {
      forall v, i: nat ensures !LastGoodPut(items, k, v, i) {
        assert cached != Some(v);
      }
    }
  }

  lemma {:induction false} SettledAgrees(items: seq<Item>, k: string)
    requires NeverRaises(items)
    requires LastUpdate(Updates(items), k) != Some(Assign(k, Malformed))
    ensures Get(Consumed(FRESH, items).entries, k) == Registered(Updates(items), k)
  {
    if items != [] {
      var front, last := items[..|items| - 1], items[|items| - 1];
      OneMoreItem(items, k);
      if last.News? {
        assert Updates(items)[..|Updates(items)| - 1] == Updates(front);
      }
      if !Settles(last, k) {
        SettledAgrees(front, k);
      }
    }
  }

  // ---- The one-shot lookup ------------------------------------------------

  /** `keys(filters=[part])`: the live keys containing `part`. */
  function LiveKeys(updates: seq<Update>, part: string): (keys: seq<string>) {
    if updates == [] then []
    else
      var before, u := LiveKeys(updates[..|updates| - 1], part), updates[|updates| - 1];
      if u.Assign? && Contains(u.key, part) then before + [u.key] else before
  }

  datatype LookupError = UncaughtError

  /** The keys one attempt finds. */
  function Candidates(log: seq<Update>, subject: string): (keys: seq<string>) {
    LiveKeys(Snapshot(log), subject + ".")
  }

  /** The outcome from attempt `i` on. */
  function LookupFrom(views: seq<seq<Update>>, subject: string, i: nat): (r: Result<seq<string>, LookupError>)
    requires i < |views|
    decreases |views| - i
  {
    if Candidates(views[i], subject) != [] then RecipientsOf(views[i], Candidates(views[i], subject))
    else if i + 1 == |views| then Success([])
    else LookupFrom(views, subject, i + 1)
  }

  /** `lookup_recipients`. `views[i]` is the bucket as attempt `i` finds it: an
      attempt that finds no key is repeated, and only the last one may report an
      empty directory. */
  method LookupRecipients(views: seq<seq<Update>>, subject: string) returns (r: Result<seq<string>, LookupError>)
    requires |views| == LOOKUP_RETRY_ATTEMPTS
    ensures r == LookupFrom(views, subject, 0)
  {
    var attempt := 0;
    var keys := Candidates(views[0], subject);
    while keys == []
      invariant 0 <= attempt < |views|
      invariant keys == Candidates(views[attempt], subject)
      invariant LookupFrom(views, subject, 0) == LookupFrom(views, subject, attempt)
      decreases |views| - attempt
    {
      if attempt == LOOKUP_RETRY_ATTEMPTS - 1 {
        return Success([]);
      }
      attempt := attempt + 1;
      keys := Candidates(views[attempt], subject);
    }
    r := ReadRecipients(views[attempt], keys);
  }

  /** The lookup answers from the first attempt that finds a key: a directory
      reported empty too early does no harm while a later attempt sees it. */
  lemma {:induction false} FirstSightDecides(views: seq<seq<Update>>, subject: string, from: nat, i: nat)
    requires from <= i < |views| && Candidates(views[i], subject) != []
    requires forall j :: from <= j < i ==> Candidates(views[j], subject) == []
    ensures LookupFrom(views, subject, from) == RecipientsOf(views[i], Candidates(views[i], subject))
    decreases i - from
  {
    if from < i {
      FirstSightDecides(views, subject, from + 1, i);
    }
  }

  /** A subject for which no attempt finds a key has no recipients. */
  lemma {:induction false} NobodyIsNoError(views: seq<seq<Update>>, subject: string, from: nat)
    requires from < |views| && forall j :: from <= j < |views| ==> Candidates(views[j], subject) == []
    ensures LookupFrom(views, subject, from) == Success([])
    decreases |views| - from
  {
    if from + 1 < |views| {
      NobodyIsNoError(views, subject, from + 1);
    }
  }

  method ReadRecipients(log: seq<Update>, keys: seq<string>) returns (r: Result<seq<string>, LookupError>)
    ensures r == RecipientsOf(log, keys)
  {
    var recipients := [];
    var i := 0;
    while i < |keys|
      invariant 0 <= i <= |keys|
      invariant RecipientsOf(log, keys[..i]) == Success(recipients)
    {
      assert keys[..i + 1][..i] == keys[..i];
      match LastUpdate(log, keys[i]) {
        case Some(Assign(_, Registration(v))) => recipients := recipients + [v];
        case Some(Assign(_, Raising)) =>
          FirstErrorStands(log, keys, i + 1);
          return Failure(UncaughtError);
        case _ =>
      }
      i := i + 1;
    }
    assert keys[..|keys|] == keys;
    r := Success(recipients);
  }

  /** The recipients read key by key, skipping malformed entries. */
  function RecipientsOf(log: seq<Update>, keys: seq<string>): (r: Result<seq<string>, LookupError>) {
    if keys == [] then Success([])
    else
      match RecipientsOf(log, keys[..|keys| - 1])
      case Failure(e) => Failure(e)
      case Success(before) =>
        match LastUpdate(log, keys[|keys| - 1])
        case Some(Assign(_, Registration(v))) => Success(before + [v])
        case Some(Assign(_, Raising)) => Failure(UncaughtError)
        case _ => Success(before)
  }

  lemma {:induction false} FirstErrorStands(log: seq<Update>, keys: seq<string>, i: nat)
    requires i <= |keys| && RecipientsOf(log, keys[..i]).Failure?
    ensures RecipientsOf(log, keys) == RecipientsOf(log, keys[..i])
  {
    if i < |keys| {
      var front := keys[..|keys| - 1];
      assert front[..i] == keys[..i];
      FirstErrorStands(log, front, i);
    } else {
      assert keys[..i] == keys;
    }
  }

  predicate RaisingUnder(log: seq<Update>, key: string) {
    match LastUpdate(log, key)
    case Some(Assign(_, Raising)) => true
    case _ => false
  }

  /** The lookup raises exactly if the latest entry of some key it reads does. */
  lemma {:induction false} LookupRaisesIff(log: seq<Update>, keys: seq<string>)
    ensures RecipientsOf(log, keys).Failure? <==> exists i :: 0 <= i < |keys| && RaisingUnder(log, keys[i])
  {
    if keys != [] {
      var n := |keys| - 1;
      LookupRaisesIff(log, keys[..n]);
      assert forall i :: 0 <= i < n ==> keys[..n][i] == keys[i];
      if exists i :: 0 <= i < |keys| && RaisingUnder(log, keys[i]) {
        var i :| 0 <= i < |keys| && RaisingUnder(log, keys[i]);
        assert i < n ==> RaisingUnder(log, keys[..n][i]);
      }
      if i :| 0 <= i < n && RaisingUnder(log, keys[..n][i]) {
        assert RaisingUnder(log, keys[i]);
      }
    }
  }

  /** The lookup's result, with the key each recipient was found under. */
  function Found(log: seq<Update>, keys: seq<string>): (d: Dict<string, string>) {
    if keys == [] then []
    else
      match Registered(log, keys[|keys| - 1])
      case Some(v) => Found(log, keys[..|keys| - 1]) + [(keys[|keys| - 1], v)]
      case None => Found(log, keys[..|keys| - 1])
  }

  ghost predicate NoRepeats(keys: seq<string>) {
    forall i, j :: 0 <= i < j < |keys| ==> keys[i] != keys[j]
  }

  lemma {:induction false} ValuesOfConcat(a: Dict<string, string>, b: Dict<string, string>)
    ensures Values(a + b) == Values(a) + Values(b)
  {
    if a == [] {
      assert a + b == b;
    } else {
      assert (a + b)[1..] == a[1..] + b;
      ValuesOfConcat(a[1..], b);
    }
  }

  lemma {:induction false} RecipientsAreFound(log: seq<Update>, keys: seq<string>)
    requires NoneRaises(log)
    ensures RecipientsOf(log, keys) == Success(Values(Found(log, keys)))
  {
    if keys != [] {
      var front, k := keys[..|keys| - 1], keys[|keys| - 1];
      RecipientsAreFound(log, front);
      LastIsInLog(log, k);
      assert LastUpdate(log, k).Some? && LastUpdate(log, k).value.Assign? ==>
               !LastUpdate(log, k).value.value.Raising?;
      if Registered(log, k).Some? {
        var v := Registered(log, k).value;
        ValuesOfConcat(Found(log, front), [(k, v)]);
        assert Values([(k, v)]) == [v];
        assert RecipientsOf(log, keys) == Success(Values(Found(log, front)) + [v]);
        assert Found(log, keys) == Found(log, front) + [(k, v)];
      }
    }
  }

  lemma {:induction false} LastIsInLog(log: seq<Update>, k: string)
    ensures LastUpdate(log, k).Some? ==> LastUpdate(log, k).value in log && LastUpdate(log, k).value.key == k
    ensures LastUpdate(log, k).None? ==> forall i :: 0 <= i < |log| ==> log[i].key != k
  {
    if log != [] {
      var n := |log| - 1;
      LastIsInLog(log[..n], k);
      assert forall i :: 0 <= i < n ==> log[..n][i] == log[i];
      assert log[n] in log;
    }
  }

  lemma {:induction false} FoundUnder(log: seq<Update>, keys: seq<string>)
    requires NoRepeats(keys)
    ensures Distinct(Found(log, keys))
    ensures forall i :: 0 <= i < |Found(log, keys)| ==> Found(log, keys)[i].0 in keys
  {
    if keys != [] {
      FoundUnder(log, keys[..|keys| - 1]);
    }
  }

  lemma {:induction false} FoundAnswers(log: seq<Update>, keys: seq<string>, k: string)
    requires NoRepeats(keys)
    ensures Get(Found(log, keys), k) == if k in keys then Registered(log, k) else None
  {
    if keys != [] {
      var front, last := keys[..|keys| - 1], keys[|keys| - 1];
      assert keys == front + [last];
      FoundAnswers(log, front, k);
      LastKeyAnswers(log, front, last, k);
    }
  }

  lemma LastKeyAnswers(log: seq<Update>, front: seq<string>, last: string, k: string)
    requires last !in front && Get(Found(log, front), k) == if k in front then Registered(log, k) else None
    ensures Get(Found(log, front + [last]), k) == if k in front + [last] then Registered(log, k) else None
  {
    var keys := front + [last];
    assert keys[..|keys| - 1] == front;
    if Registered(log, last).Some? {
      GetOfConcat(Found(log, front), last, Registered(log, last).value, k);
    }
  }

  lemma {:induction false} GetOfConcat(d: Dict<string, string>, key: string, v: string, k: string)
    ensures Get(d + [(key, v)], k) == if Get(d, k).Some? then Get(d, k) else if k == key then Some(v) else None
  {
    if d != [] {
      assert (d + [(key, v)])[1..] == d[1..] + [(key, v)];
      GetOfConcat(d[1..], key, v, k);
    }
  }

  /** At most one update for each key. */
  ghost predicate OnePerKey(updates: seq<Update>) {
    forall i, j :: 0 <= i < j < |updates| ==> updates[i].key != updates[j].key
  }

  lemma {:induction false} LiveKeysAre(updates: seq<Update>, part: string)
    requires OnePerKey(updates)
    ensures NoRepeats(LiveKeys(updates, part))
    ensures forall k :: k in LiveKeys(updates, part) <==>
              Contains(k, part) && LastUpdate(updates, k).Some? && LastUpdate(updates, k).value.Assign?
  {
    if updates != [] {
      var front, u := updates[..|updates| - 1], updates[|updates| - 1];
      LiveKeysAre(front, part);
      LastIsInLog(front, u.key);
    }
  }

  lemma {:induction false} OthersKeepOrder(log: seq<Update>, key: string)
    requires OnePerKey(log)
    ensures OnePerKey(Others(log, key))
    ensures forall i :: 0 <= i < |Others(log, key)| ==> Others(log, key)[i].key != key && Others(log, key)[i] in log
  {
    if log != [] {
      OthersKeepOrder(log[..|log| - 1], key);
    }
  }

  lemma {:induction false} SnapshotHasNoRepeats(log: seq<Update>)
    ensures OnePerKey(Snapshot(log))
  {
    if log != [] {
      var before, u := Snapshot(log[..|log| - 1]), log[|log| - 1];
      SnapshotHasNoRepeats(log[..|log| - 1]);
      OthersKeepOrder(before, u.key);
      OneMoreKey(Others(before, u.key), u);
    }
  }

  lemma OneMoreKey(updates: seq<Update>, u: Update)
    requires OnePerKey(updates)
    requires forall i :: 0 <= i < |updates| ==> updates[i].key != u.key
    ensures OnePerKey(updates + [u])
  {
  }

  // ---- Cache and lookup agree ---------------------------------------------

  /** The directory entries a lookup for `subject` answers with. */
  function Directory(log: seq<Update>, subject: string): (d: Dict<string, string>) {
    Found(log, Candidates(log, subject))
  }

  lemma DirectoryAnswers(log: seq<Update>, subject: string, k: string)
    ensures Distinct(Directory(log, subject))
    ensures Get(Directory(log, subject), k) == if Contains(k, subject + ".") then Registered(log, k) else None
  {
    SnapshotHasNoRepeats(log);
    LiveKeysAre(Snapshot(log), subject + ".");
    FoundUnder(log, Candidates(log, subject));
    FoundAnswers(log, Candidates(log, subject), k);
    LastOfSnapshot(log, k);
  }

  lemma {:induction false} UpdatesAreSelected(items: seq<Item>)
    ensures forall i :: 0 <= i < |items| && items[i].News? ==> items[i].update in Updates(items)
  {
    if items != [] {
      UpdatesAreSelected(items[..|items| - 1]);
    }
  }

  lemma {:induction false} SelectedIsFromLog(log: seq<Update>, subject: string)
    ensures forall u :: u in Selected(log, subject) ==> u in log
  {
    if log != [] {
      SelectedIsFromLog(log[..|log| - 1], subject);
    }
  }

  lemma {:induction false} OthersAreFromLog(log: seq<Update>, key: string)
    ensures forall u :: u in Others(log, key) ==> u in log
  {
    if log != [] {
      OthersAreFromLog(log[..|log| - 1], key);
    }
  }

  lemma {:induction false} SnapshotIsFromLog(log: seq<Update>)
    ensures forall u :: u in Snapshot(log) ==> u in log
  {
    if log != [] {
      SnapshotIsFromLog(log[..|log| - 1]);
      OthersAreFromLog(Snapshot(log[..|log| - 1]), log[|log| - 1].key);
    }
  }

  lemma DeliveredIsFromLog(items: seq<Item>, log: seq<Update>, start: nat, subject: string)
    requires Delivers(items, log, start, subject)
    ensures forall i :: 0 <= i < |items| && items[i].News? ==> items[i].update in log
  {
    UpdatesAreSelected(items);
    SelectedIsFromLog(Snapshot(log[..start]), subject);
    SelectedIsFromLog(log[start..], subject);
    SnapshotIsFromLog(log[..start]);
  }

  lemma CacheAnswers(items: seq<Item>, log: seq<Update>, start: nat, subject: string, k: string)
    requires WellFormed(log) && Delivers(items, log, start, subject)
    ensures Distinct(Consumed(FRESH, items).entries)
    ensures Get(Consumed(FRESH, items).entries, k) == if Matches(k, subject) then Registered(log, k) else None
  {
    DeliveredIsFromLog(items, log, start, subject);
    DeliveredLast(items, log, start, subject, k);
    LastIsInLog(log, k);
    ConsumedIsDistinct(FRESH, items);
    SettledAgrees(items, k);
  }

  /** On well-formed values, the cache and the one-shot lookup name the same
      recipients exactly when no registered key contains `subject.` without
      matching `subject.*`. */
  lemma CacheAgreesIff(items: seq<Item>, log: seq<Update>, start: nat, subject: string)
    requires WellFormed(log) && Delivers(items, log, start, subject)
    ensures multiset(Values(Consumed(FRESH, items).entries)) == multiset(Values(Directory(log, subject)))
       <==> forall k :: Registered(log, k).Some? && Contains(k, subject + ".") ==> Matches(k, subject)
  {
    var cache, index := Consumed(FRESH, items).entries, Directory(log, subject);
    CacheAnswers(items, log, start, subject, "");
    DirectoryAnswers(log, subject, "");
    forall k
      ensures Get(cache, k) == if Matches(k, subject) then Registered(log, k) else None
      ensures Get(index, k) == if Contains(k, subject + ".") then Registered(log, k) else None
      ensures Matches(k, subject) ==> Contains(k, subject + ".")
    {
      CacheAnswers(items, log, start, subject, k);
      DirectoryAnswers(log, subject, k);
      if Matches(k, subject) {
        MatchedIsContained(k, subject);
      }
    }
    SameValuesIff(cache, index);
  }

  /** Under the naming discipline of the bus, and as long as no value raises when it is
      read, the cache and the one-shot lookup name the same recipients exactly when no watched
      key is malformed over a standing registration. */
  lemma CacheAgreesUnlessStale(items: seq<Item>, log: seq<Update>, start: nat, subjects: set<string>, subject: string)
    requires NoneRaises(log) && Delivers(items, log, start, subject)
    requires Disciplined(subjects) && subject in subjects
    requires forall i :: 0 <= i < |log| ==> RegisteredKey(subjects, log[i].key)
    ensures RecipientsOf(log, Candidates(log, subject)) == Success(Values(Directory(log, subject)))
    ensures multiset(Values(Consumed(FRESH, items).entries)) == multiset(Values(Directory(log, subject)))
       <==> forall k :: !Stale(items, k)
  {
    var cache, index := Consumed(FRESH, items).entries, Directory(log, subject);
    RecipientsAreFound(log, Candidates(log, subject));
    ConsumedIsDistinct(FRESH, items);
    DirectoryAnswers(log, subject, "");
    forall k
      ensures !Stale(items, k) ==> Get(cache, k) == Get(index, k)
      ensures Stale(items, k) ==> Get(index, k).None? && Get(cache, k).Some?
    {
      AnswersUnlessStale(items, log, start, subjects, subject, k);
    }
    SameValuesIff(index, cache);
    assert Includes(cache, index);
    assert Includes(index, cache) <==> forall k :: !Stale(items, k) by {
      if k :| Stale(items, k) {
        assert Get(cache, k).Some? && Get(index, k).None?;
      }
    }
  }

  lemma AnswersUnlessStale(items: seq<Item>, log: seq<Update>, start: nat, subjects: set<string>, subject: string,
                           k: string)
    requires NoneRaises(log) && Delivers(items, log, start, subject)
    requires Disciplined(subjects) && subject in subjects
    requires forall i :: 0 <= i < |log| ==> RegisteredKey(subjects, log[i].key)
    ensures !Stale(items, k) ==> Get(Consumed(FRESH, items).entries, k) == Get(Directory(log, subject), k)
    ensures Stale(items, k) ==> Get(Directory(log, subject), k).None? && Get(Consumed(FRESH, items).entries, k).Some?
  {
    DeliveredIsFromLog(items, log, start, subject);
    CachedIsLastDelivered(items, k);
    DeliveredLast(items, log, start, subject, k);
    DirectoryAnswers(log, subject, k);
    LastIsInLog(log, k);
    if Registered(log, k).Some? {
      FilterIsWildcard(subjects, subject, k);
    }
  }

  /** In particular they agree while everything is well formed. */
  lemma CacheAgreesWithLookup(items: seq<Item>, log: seq<Update>, start: nat, subjects: set<string>, subject: string)
    requires WellFormed(log) && Delivers(items, log, start, subject)
    requires Disciplined(subjects) && subject in subjects
    requires forall i :: 0 <= i < |log| ==> RegisteredKey(subjects, log[i].key)
    ensures RecipientsOf(log, Candidates(log, subject)) == Success(Values(Directory(log, subject)))
    ensures multiset(Values(Consumed(FRESH, items).entries)) == multiset(Values(Directory(log, subject)))
  {
    CacheAgreesUnlessStale(items, log, start, subjects, subject);
    forall k ensures !Stale(items, k) {
      DeliveredLast(items, log, start, subject, k);
      LastIsInLog(log, k);
    }
  }
}
