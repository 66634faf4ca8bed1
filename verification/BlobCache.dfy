/** Concurrent publication of dependency blobs, step by step: publishers and readers in any number of processes over one
    directory, processes that die at any step, and power loss. A file is an inode that names point to, so a reader keeps
    the file it opened. */
module BlobCache {
  import opened Prelude
  import opened Framing
  import opened BlobLayout

  const CACHE_MAGIC: seq<Byte> := [75, 73, 68, 69, 66, 76, 66, 49]
  const CACHE_HEADER: nat := 52
  const KEY_SIZE: nat := 32

  /** A key is the digest its file is named after. */
  type Key = k: seq<Byte> | |k| == KEY_SIZE witness seq(KEY_SIZE, (i: nat) => 0)

  type Length = n: nat | n < U64_LIMIT

  datatype Name = Blob(key: Key) | Temporary(key: Key, pid: nat)

  datatype Inode = Inode(content: seq<Byte>, synced: bool)

  datatype Outcome = Won | Lost | Failed

  datatype Phase =
    | Checking
    | Creating
    | Writing(written: nat)
    | Syncing
    | Linking
    | Unlinking(won: bool)
    | Returned(outcome: Outcome)
    | Dead

  /** `linked` records the period in which the publisher's file became the key's blob. */
  datatype Publisher = Publisher(
    key: Key, pid: nat, stream: seq<Byte>, length: Length, phase: Phase, inode: Option<nat>, linked: Option<nat>)

  datatype View =
    | Opening
    | Opened(inode: nat)
    | Ready(inode: nat, length: nat)
    | Absent
    | Refused
    | Gone

  datatype Reader = Reader(key: Key, pid: nat, view: View)

  /** A key's period ends whenever its blob goes away. */
  datatype State = State(
    inodes: map<nat, Inode>, dir: map<Name, nat>, next: nat, periods: map<Key, nat>,
    publishers: map<nat, Publisher>, readers: map<nat, Reader>)

  datatype Action =
    | StartPublish(id: nat, key: Key, pid: nat, stream: seq<Byte>, length: Length)
    | Check(id: nat)
    | Create(id: nat)
    | Write(id: nat, count: nat)
    | Finish(id: nat)
    | Sync(id: nat)
    | Link(id: nat)
    | Unlink(id: nat)
    | Fail(id: nat, removed: bool)
    | StartRead(id: nat, key: Key, pid: nat)
    | Open(id: nat)
    | Validate(id: nat)
    | RemoveInvalid(key: Key)
    | Kill(pid: nat)
    | PowerLoss(kept: set<Name>, cuts: map<nat, nat>)

  // Files.

  function CacheHeader(key: Key, length: Length): (h: seq<Byte>)
    ensures |h| == CACHE_HEADER
  {
    CACHE_MAGIC + LittleEndian(1, 4) + key + LittleEndian(length, 8)
  }

  /** What a publisher writes before it looks at the length: at most the declared payload. */
  function TargetOf(key: Key, length: Length, stream: seq<Byte>): seq<Byte> {
    CacheHeader(key, length) + if |stream| < length then stream else stream[..length]
  }

  function Target(p: Publisher): seq<Byte> {
    TargetOf(p.key, p.length, p.stream)
  }

  /** One writer's complete header and payload. */
  predicate IsFile(content: seq<Byte>, key: Key, length: Length, stream: seq<Byte>) {
    length <= |stream| && content == CacheHeader(key, length) + stream[..length]
  }

  predicate IsComplete(content: seq<Byte>, p: Publisher) {
    IsFile(content, p.key, p.length, p.stream)
  }

  function ValidateHeader(header: seq<Byte>, key: Key): Option<nat> {
    if |header| != CACHE_HEADER || header[..8] != CACHE_MAGIC || header[8..12] != LittleEndian(1, 4) then None
    else if header[12..44] != key then None
    else Some(FromLittleEndian(header[44..52]))
  }

  /** Opening reads the header and compares the file's size. */
  function Validated(content: seq<Byte>, key: Key): Option<nat> {
    if |content| < CACHE_HEADER then None
    else
      match ValidateHeader(content[..CACHE_HEADER], key)
      case None => None
      case Some(n) => if |content| == CACHE_HEADER + n then Some(n) else None
  }

  function ReadRange(s: State, r: Reader, offset: nat, count: nat): Option<seq<Byte>> {
    if !r.view.Ready? || r.view.inode !in s.inodes || offset + count > r.view.length then None
    else
      var content := s.inodes[r.view.inode].content;
      if CACHE_HEADER + offset + count > |content| then None
      else Some(content[CACHE_HEADER + offset..CACHE_HEADER + offset + count])
  }

  // Steps.

  const Initial: State := State(map[], map[], 0, map[], map[], map[])

  function Period(s: State, key: Key): nat {
    if key in s.periods then s.periods[key] else 0
  }

  function Moved(s: State, id: nat, p: Publisher): State {
    s.(publishers := s.publishers[id := p])
  }

  function Unlinked(dir: map<Name, nat>, name: Name): map<Name, nat> {
    map n | n in dir && n != name :: dir[n]
  }

  function CheckStep(s: State, id: nat, p: Publisher): State {
    Moved(s, id, p.(phase := if Blob(p.key) in s.dir then Returned(Lost) else Creating))
  }

  function CreateStep(s: State, id: nat, p: Publisher): State {
    var name := Temporary(p.key, p.pid);
    if name in s.dir then Moved(s, id, p.(phase := Returned(Lost)))
    else
      Moved(s, id, p.(phase := Writing(0), inode := Some(s.next)))
        .(inodes := s.inodes[s.next := Inode([], false)], dir := s.dir[name := s.next], next := s.next + 1)
  }

  function WriteStep(s: State, id: nat, p: Publisher, count: nat): State
    requires p.phase.Writing?
  {
    var written := p.phase.written + count;
    if written > |Target(p)| || p.inode.None? || p.inode.value !in s.inodes then s
    else
      var before := s.inodes[p.inode.value].content;
      Moved(s, id, p.(phase := Writing(written)))
        .(inodes := s.inodes[p.inode.value := Inode(before + Target(p)[p.phase.written..written], false)])
  }

  function FinishStep(s: State, id: nat, p: Publisher): State
    requires p.phase.Writing?
  {
    if p.phase.written < |Target(p)| then s
    else Moved(s, id, p.(phase := if |p.stream| < p.length then Returned(Failed) else Syncing))
  }

  function SyncStep(s: State, id: nat, p: Publisher): State {
    if p.inode.None? || p.inode.value !in s.inodes then s
    else
      Moved(s, id, p.(phase := Linking))
        .(inodes := s.inodes[p.inode.value := s.inodes[p.inode.value].(synced := true)])
  }

  /** A hard link fails when the name exists; otherwise the whole file appears at once. */
  function LinkStep(s: State, id: nat, p: Publisher): State {
    if Blob(p.key) in s.dir || p.inode.None? then Moved(s, id, p.(phase := Unlinking(false)))
    else
      Moved(s, id, p.(phase := Unlinking(true), linked := Some(Period(s, p.key))))
        .(dir := s.dir[Blob(p.key) := p.inode.value])
  }

  function UnlinkStep(s: State, id: nat, p: Publisher): State
    requires p.phase.Unlinking?
  {
    Moved(s, id, p.(phase := Returned(if p.phase.won then Won else Lost)))
      .(dir := Unlinked(s.dir, Temporary(p.key, p.pid)))
  }

  /** An I/O error: only a failed link tries to remove the temporary file, and that may fail too. */
  function FailStep(s: State, id: nat, p: Publisher, removed: bool): State {
    var failed := Moved(s, id, p.(phase := Returned(Failed)));
    if p.phase.Linking? && removed then failed.(dir := Unlinked(s.dir, Temporary(p.key, p.pid))) else failed
  }

  function PublisherStep(s: State, a: Action, id: nat): State {
    if id !in s.publishers then s
    else
      var p := s.publishers[id];
      match a
      case Check(_) => if p.phase.Checking? then CheckStep(s, id, p) else s
      case Create(_) => if p.phase.Creating? then CreateStep(s, id, p) else s
      case Write(_, count) => if p.phase.Writing? then WriteStep(s, id, p, count) else s
      case Finish(_) => if p.phase.Writing? then FinishStep(s, id, p) else s
      case Sync(_) => if p.phase.Syncing? then SyncStep(s, id, p) else s
      case Link(_) => if p.phase.Linking? then LinkStep(s, id, p) else s
      case Unlink(_) => if p.phase.Unlinking? then UnlinkStep(s, id, p) else s
      case Fail(_, removed) =>
        if p.phase.Returned? || p.phase.Dead? || p.phase.Checking? then s else FailStep(s, id, p, removed)
      case _ => s
  }

  function OpenStep(s: State, id: nat, r: Reader): State {
    var view := if Blob(r.key) in s.dir then Opened(s.dir[Blob(r.key)]) else Absent;
    s.(readers := s.readers[id := r.(view := view)])
  }

  function ValidateStep(s: State, id: nat, r: Reader): State
    requires r.view.Opened?
  {
    if r.view.inode !in s.inodes then s
    else
      var found := Validated(s.inodes[r.view.inode].content, r.key);
      s.(readers := s.readers[id := r.(view := if found.Some? then Ready(r.view.inode, found.value) else Refused)])
  }

  function RemoveStep(s: State, key: Key): State {
    if Blob(key) in s.dir
    then s.(dir := Unlinked(s.dir, Blob(key)), periods := s.periods[key := Period(s, key) + 1])
    else s
  }

  function Killed(p: Publisher): Publisher {
    if p.phase.Returned? then p else p.(phase := Dead)
  }

  function KillStep(s: State, pid: nat): State {
    s.(publishers := map t | t in s.publishers ::
                       if s.publishers[t].pid == pid then Killed(s.publishers[t]) else s.publishers[t],
       readers := map t | t in s.readers ::
                    if s.readers[t].pid == pid then s.readers[t].(view := Gone) else s.readers[t])
  }

  /** What is left of a file: all of it once synced, and otherwise as much as the cut leaves. */
  function Survives(i: Inode, cut: nat): Inode {
    if i.synced || cut >= |i.content| then i else Inode(i.content[..cut], false)
  }

  function PowerLossStep(s: State, kept: set<Name>, cuts: map<nat, nat>): State {
    State(
      map i | i in s.inodes :: if i in cuts then Survives(s.inodes[i], cuts[i]) else s.inodes[i],
      map n | n in s.dir && n in kept :: s.dir[n],
      s.next,
      map n | n in s.periods.Keys + (set n | n in s.dir && n.Blob? :: n.key) ::
        if Blob(n) in s.dir && Blob(n) !in kept then Period(s, n) + 1 else Period(s, n),
      map t | t in s.publishers :: Killed(s.publishers[t]),
      map t | t in s.readers :: s.readers[t].(view := Gone))
  }

  function Next(s: State, a: Action): State {
    match a
    case StartPublish(id, key, pid, stream, length) =>
      if id in s.publishers then s
      else Moved(s, id, Publisher(key, pid, stream, length, Checking, None, None))
    case StartRead(id, key, pid) =>
      if id in s.readers then s else s.(readers := s.readers[id := Reader(key, pid, Opening)])
    case Open(id) =>
      if id in s.readers && s.readers[id].view.Opening? then OpenStep(s, id, s.readers[id]) else s
    case Validate(id) =>
      if id in s.readers && s.readers[id].view.Opened? then ValidateStep(s, id, s.readers[id]) else s
    case RemoveInvalid(key) => RemoveStep(s, key)
    case Kill(pid) => KillStep(s, pid)
    case PowerLoss(kept, cuts) => PowerLossStep(s, kept, cuts)
    case _ => PublisherStep(s, a, a.id)
  }

  function Run(s: State, actions: seq<Action>): State
    decreases |actions|
  {
    if actions == [] then s else Run(Next(s, actions[0]), actions[1..])
  }

  // What every step keeps.

  predicate Active(p: Publisher) {
    p.phase.Writing? || p.phase.Syncing? || p.phase.Linking? || p.phase.Unlinking?
  }

  predicate OwnsTemporary(s: State, p: Publisher) {
    var name := Temporary(p.key, p.pid);
    p.inode.Some? && p.inode.value in s.inodes && name in s.dir && s.dir[name] == p.inode.value
  }

  predicate PhaseOk(s: State, p: Publisher) {
    && (p.phase.Checking? || p.phase.Creating? ==> p.inode.None? && p.linked.None?)
    && (Active(p) ==> OwnsTemporary(s, p))
    && (p.phase.Writing? ==>
         && p.linked.None? && p.phase.written <= |Target(p)|
         && s.inodes[p.inode.value].content == Target(p)[..p.phase.written])
    && (p.phase.Syncing? || p.phase.Linking? ==> p.linked.None? && IsComplete(s.inodes[p.inode.value].content, p))
    && (p.phase.Linking? ==> s.inodes[p.inode.value].synced)
    && (p.phase.Unlinking? ==> (p.phase.won <==> p.linked.Some?))
    && (p.phase == Returned(Won) ==> p.linked.Some?)
  }

  predicate LinkOk(s: State, p: Publisher) {
    p.linked.Some? ==>
      && p.inode.Some? && p.inode.value in s.inodes
      && s.inodes[p.inode.value].synced && IsComplete(s.inodes[p.inode.value].content, p)
      && p.linked.value <= Period(s, p.key)
      && (p.linked.value == Period(s, p.key) ==> Blob(p.key) in s.dir && s.dir[Blob(p.key)] == p.inode.value)
  }

  predicate Allocated(s: State) {
    && (forall n :: n in s.dir ==> s.dir[n] in s.inodes)
    && (forall i :: i in s.inodes ==> i < s.next)
    && (forall t :: t in s.publishers && s.publishers[t].inode.Some? ==> s.publishers[t].inode.value in s.inodes)
  }

  predicate Separate(s: State) {
    forall t, u :: t in s.publishers && u in s.publishers && t != u && s.publishers[t].inode.Some? ==>
      s.publishers[t].inode != s.publishers[u].inode
  }

  predicate SameLink(p: Publisher, q: Publisher) {
    p.key == q.key && p.linked.Some? && p.linked == q.linked
  }

  predicate OncePerPeriod(s: State) {
    forall t, u :: t in s.publishers && u in s.publishers && t != u ==> !SameLink(s.publishers[t], s.publishers[u])
  }

  predicate IsWriter(s: State, t: nat, key: Key, inode: nat) {
    t in s.publishers && s.publishers[t].key == key && s.publishers[t].linked.Some? &&
      s.publishers[t].inode == Some(inode)
  }

  ghost predicate BlobsWritten(s: State) {
    forall n :: n in s.dir && n.Blob? ==>
      exists t :: IsWriter(s, t, n.key, s.dir[n]) && s.publishers[t].linked == Some(Period(s, n.key))
  }

  ghost predicate ReaderOk(s: State, r: Reader) {
    match r.view
    case Opened(i) => exists t :: IsWriter(s, t, r.key, i)
    case Ready(i, n) => exists t :: IsWriter(s, t, r.key, i) && s.publishers[t].length == n
    case Refused => false
    case _ => true
  }

  ghost predicate Good(s: State) {
    && Allocated(s) && Separate(s) && OncePerPeriod(s) && BlobsWritten(s)
    && (forall t :: t in s.publishers ==> PhaseOk(s, s.publishers[t]) && LinkOk(s, s.publishers[t]))
    && (forall r :: r in s.readers ==> ReaderOk(s, s.readers[r]))
  }

  lemma InitialGood()
    ensures Good(Initial)
  {
  }

  /** One publisher moves on within its own file and its own temporary name. */
  predicate MovesAlone(s: State, t: State, id: nat) {
    && id in s.publishers && t.publishers.Keys == s.publishers.Keys
    && (forall u :: u in s.publishers && u != id ==> t.publishers[u] == s.publishers[u])
    && (var p, q := s.publishers[id], t.publishers[id];
        && q.key == p.key && q.pid == p.pid && q.stream == p.stream && q.length == p.length && q.linked == p.linked
        && (q.inode == p.inode || (p.inode.None? && q.inode == Some(s.next)))
        && (forall i :: i in s.inodes && p.inode != Some(i) ==> i in t.inodes && t.inodes[i] == s.inodes[i])
        && (forall n :: n in s.dir && n != Temporary(p.key, p.pid) ==> n in t.dir && t.dir[n] == s.dir[n])
        && (forall n :: n in t.dir && n != Temporary(p.key, p.pid) ==> n in s.dir))
    && t.periods == s.periods && t.readers == s.readers
  }

  lemma AloneKeeps(s: State, t: State, id: nat)
    requires Good(s) && MovesAlone(s, t, id) && Allocated(t)
    requires PhaseOk(t, t.publishers[id]) && LinkOk(t, t.publishers[id])
    requires Temporary(s.publishers[id].key, s.publishers[id].pid) in s.dir ==>
      s.publishers[id].inode == Some(s.dir[Temporary(s.publishers[id].key, s.publishers[id].pid)]) || t.dir == s.dir
    ensures Good(t)
  {
    hide IsFile, TargetOf;
    assert Separate(t) by {
      if t.publishers[id].inode != s.publishers[id].inode {
        forall u | u in s.publishers && u != id ensures s.publishers[u].inode != Some(s.next) {}
      }
    }
    forall u | u in t.publishers ensures PhaseOk(t, t.publishers[u]) && LinkOk(t, t.publishers[u]) {
      if u != id {
        OthersKept(s, t, id, u);
      }
    }
    WritersKept(s, t, id);
  }

  lemma OthersKept(s: State, t: State, id: nat, u: nat)
    requires Good(s) && MovesAlone(s, t, id) && u in s.publishers && u != id
    requires Temporary(s.publishers[id].key, s.publishers[id].pid) in s.dir ==>
      s.publishers[id].inode == Some(s.dir[Temporary(s.publishers[id].key, s.publishers[id].pid)]) || t.dir == s.dir
    ensures PhaseOk(t, s.publishers[u]) && LinkOk(t, s.publishers[u])
  {
    hide IsFile, TargetOf;
    var p, q := s.publishers[id], s.publishers[u];
    assert PhaseOk(s, q) && LinkOk(s, q);
    if q.inode.Some? {
      assert p.inode != q.inode;
      assert q.inode.value in s.inodes;
      assert t.inodes[q.inode.value] == s.inodes[q.inode.value];
    }
  }

  lemma WritersKept(s: State, t: State, id: nat)
    requires Good(s) && MovesAlone(s, t, id)
    ensures BlobsWritten(t)
    ensures forall r :: r in t.readers ==> ReaderOk(t, t.readers[r])
  {
    hide PhaseOk, LinkOk;
    RemembersAlone(s, t, id);
    forall n | n in t.dir && n.Blob?
      ensures exists w :: IsWriter(t, w, n.key, t.dir[n]) && t.publishers[w].linked == Some(Period(t, n.key))
    {
      var w :| IsWriter(s, w, n.key, s.dir[n]) && s.publishers[w].linked == Some(Period(s, n.key));
      assert IsWriter(t, w, n.key, t.dir[n]);
    }
    forall r | r in t.readers ensures ReaderOk(t, t.readers[r]) {
      ReaderKept(s, t, s.readers[r]);
    }
  }

  /** Writers keep their files. */
  predicate Remembers(s: State, t: State) {
    forall u :: u in s.publishers && s.publishers[u].linked.Some? ==>
      && u in t.publishers && t.publishers[u].linked.Some? && t.publishers[u].key == s.publishers[u].key
      && t.publishers[u].inode == s.publishers[u].inode && t.publishers[u].length == s.publishers[u].length
  }

  lemma RemembersAlone(s: State, t: State, id: nat)
    requires Good(s) && MovesAlone(s, t, id)
    ensures Remembers(s, t)
  {
    hide PhaseOk, IsFile, BlobsWritten, Separate, OncePerPeriod;
    assert LinkOk(s, s.publishers[id]);
  }

  lemma ReaderKept(s: State, t: State, r: Reader)
    requires ReaderOk(s, r) && Remembers(s, t)
    ensures ReaderOk(t, r)
  {
    match r.view
    case Opened(i) =>
      var w :| IsWriter(s, w, r.key, i);
      assert IsWriter(t, w, r.key, i);
    case Ready(i, n) =>
      var w :| IsWriter(s, w, r.key, i) && s.publishers[w].length == n;
      assert IsWriter(t, w, r.key, i);
    case _ =>
  }

  // Publisher steps.

  lemma GoodFor(s: State, id: nat)
    requires Good(s) && id in s.publishers
    ensures PhaseOk(s, s.publishers[id]) && LinkOk(s, s.publishers[id]) && Allocated(s)
  {
    hide PhaseOk, LinkOk, Allocated;
  }

  lemma PhaseAlone(s: State, id: nat, phase: Phase)
    requires Allocated(s) && id in s.publishers
    ensures var t := Moved(s, id, s.publishers[id].(phase := phase)); MovesAlone(s, t, id) && Allocated(t)
  {
  }

  lemma PhaseOnly(s: State, id: nat, phase: Phase)
    requires Good(s) && id in s.publishers && PhaseOk(s, s.publishers[id].(phase := phase))
    ensures Good(Moved(s, id, s.publishers[id].(phase := phase)))
  {
    hide IsFile, TargetOf, Good, Allocated, MovesAlone;
    GoodFor(s, id);
    PhaseAlone(s, id, phase);
    AloneKeeps(s, Moved(s, id, s.publishers[id].(phase := phase)), id);
  }

  lemma CreateAlone(s: State, id: nat)
    requires Allocated(s) && id in s.publishers && s.publishers[id].inode.None?
    requires Temporary(s.publishers[id].key, s.publishers[id].pid) !in s.dir
    ensures var t := CreateStep(s, id, s.publishers[id]); MovesAlone(s, t, id) && Allocated(t)
  {
    assert s.next !in s.inodes;
  }

  lemma CreateKeeps(s: State, id: nat)
    requires Good(s) && id in s.publishers && s.publishers[id].phase.Creating?
    ensures Good(CreateStep(s, id, s.publishers[id]))
  {
    hide IsFile, TargetOf, Good, Allocated, MovesAlone;
    var p := s.publishers[id];
    GoodFor(s, id);
    if Temporary(p.key, p.pid) in s.dir {
      PhaseOnly(s, id, Returned(Lost));
    } else {
      CreateAlone(s, id);
      assert Target(p)[..0] == [];
      AloneKeeps(s, CreateStep(s, id, p), id);
    }
  }

  /** A file that only this publisher writes to. */
  lemma FileAlone(s: State, id: nat, phase: Phase, file: Inode)
    requires Allocated(s) && id in s.publishers && s.publishers[id].inode.Some?
    ensures var p := s.publishers[id];
      var t := Moved(s, id, p.(phase := phase)).(inodes := s.inodes[p.inode.value := file]);
      MovesAlone(s, t, id) && Allocated(t)
  {
  }

  lemma WriteKeeps(s: State, id: nat, count: nat)
    requires Good(s) && id in s.publishers && s.publishers[id].phase.Writing?
    ensures Good(WriteStep(s, id, s.publishers[id], count))
  {
    hide IsFile, TargetOf, Good, Allocated, MovesAlone;
    var p := s.publishers[id];
    GoodFor(s, id);
    var t := WriteStep(s, id, p, count);
    var w := p.phase.written;
    if w + count <= |Target(p)| && p.inode.value in s.inodes {
      assert Target(p)[..w] + Target(p)[w..w + count] == Target(p)[..w + count];
      FileAlone(s, id, Writing(w + count), t.inodes[p.inode.value]);
      AloneKeeps(s, t, id);
    }
  }

  lemma FinishKeeps(s: State, id: nat)
    requires Good(s) && id in s.publishers && s.publishers[id].phase.Writing?
    ensures Good(FinishStep(s, id, s.publishers[id]))
  {
    hide Good, Allocated, MovesAlone;
    var p := s.publishers[id];
    GoodFor(s, id);
    if p.phase.written == |Target(p)| {
      assert Target(p)[..|Target(p)|] == Target(p);
      PhaseOnly(s, id, if |p.stream| < p.length then Returned(Failed) else Syncing);
    }
  }

  lemma SyncKeeps(s: State, id: nat)
    requires Good(s) && id in s.publishers && s.publishers[id].phase.Syncing?
    ensures Good(SyncStep(s, id, s.publishers[id]))
  {
    hide IsFile, TargetOf, Good, Allocated, MovesAlone;
    var p := s.publishers[id];
    GoodFor(s, id);
    if p.inode.value in s.inodes {
      FileAlone(s, id, Linking, s.inodes[p.inode.value].(synced := true));
      AloneKeeps(s, SyncStep(s, id, p), id);
    }
  }

  lemma UnlinkAlone(s: State, id: nat, phase: Phase)
    requires Allocated(s) && id in s.publishers
    ensures var p := s.publishers[id];
      var t := Moved(s, id, p.(phase := phase)).(dir := Unlinked(s.dir, Temporary(p.key, p.pid)));
      MovesAlone(s, t, id) && Allocated(t)
  {
  }

  lemma UnlinkTemporary(s: State, id: nat, phase: Phase)
    requires Good(s) && id in s.publishers && Active(s.publishers[id])
    requires phase.Returned? && (phase.outcome == Won ==> s.publishers[id].linked.Some?)
    ensures var p := s.publishers[id];
      Good(Moved(s, id, p.(phase := phase)).(dir := Unlinked(s.dir, Temporary(p.key, p.pid))))
  {
    hide IsFile, TargetOf, Good, Allocated, MovesAlone;
    var p := s.publishers[id];
    GoodFor(s, id);
    UnlinkAlone(s, id, phase);
    AloneKeeps(s, Moved(s, id, p.(phase := phase)).(dir := Unlinked(s.dir, Temporary(p.key, p.pid))), id);
  }

  lemma FailKeeps(s: State, id: nat, removed: bool)
    requires Good(s) && id in s.publishers && !s.publishers[id].phase.Returned? && !s.publishers[id].phase.Dead?
    ensures Good(FailStep(s, id, s.publishers[id], removed))
  {
    hide IsFile, TargetOf, Good, Allocated;
    GoodFor(s, id);
    if s.publishers[id].phase.Linking? && removed {
      UnlinkTemporary(s, id, Returned(Failed));
    } else {
      PhaseOnly(s, id, Returned(Failed));
    }
  }

  // The link.

  lemma NobodyLinked(s: State, key: Key, u: nat)
    requires Good(s) && Blob(key) !in s.dir && u in s.publishers && s.publishers[u].key == key
    ensures s.publishers[u].linked != Some(Period(s, key))
  {
    hide PhaseOk, IsFile, BlobsWritten, Separate, OncePerPeriod, Allocated;
    assert LinkOk(s, s.publishers[u]);
  }

  lemma LinkKeepsOthers(s: State, id: nat, u: nat)
    requires Good(s) && id in s.publishers && s.publishers[id].phase.Linking? && Blob(s.publishers[id].key) !in s.dir
    requires u in s.publishers && u != id
    ensures var t := LinkStep(s, id, s.publishers[id]); PhaseOk(t, s.publishers[u]) && LinkOk(t, s.publishers[u])
  {
    hide IsFile, TargetOf, BlobsWritten, Separate, OncePerPeriod, Allocated;
    assert PhaseOk(s, s.publishers[u]) && LinkOk(s, s.publishers[u]);
  }

  lemma LinkKeeps(s: State, id: nat)
    requires Good(s) && id in s.publishers && s.publishers[id].phase.Linking?
    ensures Good(LinkStep(s, id, s.publishers[id]))
  {
    var p := s.publishers[id];
    if Blob(p.key) in s.dir {
      hide IsFile, TargetOf, Good, Allocated;
      GoodFor(s, id);
      PhaseOnly(s, id, Unlinking(false));
    } else {
      hide IsFile, TargetOf, PhaseOk, LinkOk, OncePerPeriod, BlobsWritten;
      var t := LinkStep(s, id, p);
      LinkerOk(s, id);
      forall u | u in t.publishers ensures PhaseOk(t, t.publishers[u]) && LinkOk(t, t.publishers[u]) {
        if u != id { LinkKeepsOthers(s, id, u); }
      }
      LinkOnce(s, id);
      LinkedWritten(s, id);
      forall r | r in t.readers ensures ReaderOk(t, t.readers[r]) {
        ReaderKept(s, t, s.readers[r]);
      }
    }
  }

  lemma LinkOnce(s: State, id: nat)
    requires Good(s) && id in s.publishers && s.publishers[id].phase.Linking? && Blob(s.publishers[id].key) !in s.dir
    ensures OncePerPeriod(LinkStep(s, id, s.publishers[id]))
  {
    hide IsFile, TargetOf, PhaseOk, LinkOk, BlobsWritten, Separate, Allocated;
    var key := s.publishers[id].key;
    forall u | u in s.publishers && u != id && s.publishers[u].key == key
      ensures s.publishers[u].linked != Some(Period(s, key))
    {
      NobodyLinked(s, key, u);
    }
  }

  lemma LinkerOk(s: State, id: nat)
    requires Good(s) && id in s.publishers && s.publishers[id].phase.Linking? && Blob(s.publishers[id].key) !in s.dir
    ensures var t := LinkStep(s, id, s.publishers[id]);
      && s.publishers[id].inode.Some? && s.publishers[id].inode.value in s.inodes && s.publishers[id].linked.None?
      && PhaseOk(t, t.publishers[id]) && LinkOk(t, t.publishers[id])
  {
    hide IsFile, TargetOf, Good, Allocated;
    GoodFor(s, id);
  }

  lemma LinkedWritten(s: State, id: nat)
    requires Good(s) && id in s.publishers && Blob(s.publishers[id].key) !in s.dir
    requires s.publishers[id].inode.Some? && s.publishers[id].linked.None?
    ensures BlobsWritten(LinkStep(s, id, s.publishers[id]))
  {
    hide PhaseOk, LinkOk, Separate, OncePerPeriod, Allocated;
    var p := s.publishers[id];
    var t := LinkStep(s, id, p);
    forall n | n in t.dir && n.Blob?
      ensures exists w :: IsWriter(t, w, n.key, t.dir[n]) && t.publishers[w].linked == Some(Period(t, n.key))
    {
      if n == Blob(p.key) {
        assert IsWriter(t, id, n.key, t.dir[n]);
      } else {
        var w :| IsWriter(s, w, n.key, s.dir[n]) && s.publishers[w].linked == Some(Period(s, n.key));
        assert IsWriter(t, w, n.key, t.dir[n]);
      }
    }
  }

  lemma PublisherKeeps(s: State, a: Action, id: nat)
    requires Good(s)
    ensures Good(PublisherStep(s, a, id))
  {
    hide Good, PhaseOk, WriteStep, SyncStep, CreateStep, LinkStep, FinishStep, FailStep;
    if id in s.publishers {
      var p := s.publishers[id];
      match a
      case Check(_) => if p.phase.Checking? { CheckKeeps(s, id); }
      case Create(_) => if p.phase.Creating? { CreateKeeps(s, id); }
      case Write(_, count) => if p.phase.Writing? { WriteKeeps(s, id, count); }
      case Finish(_) => if p.phase.Writing? { FinishKeeps(s, id); }
      case Sync(_) => if p.phase.Syncing? { SyncKeeps(s, id); }
      case Link(_) => if p.phase.Linking? { LinkKeeps(s, id); }
      case Unlink(_) => if p.phase.Unlinking? { UnlinkKeeps(s, id); }
      case Fail(_, removed) =>
        if !p.phase.Returned? && !p.phase.Dead? && !p.phase.Checking? { FailKeeps(s, id, removed); }
      case _ =>
    }
  }

  lemma CheckKeeps(s: State, id: nat)
    requires Good(s) && id in s.publishers && s.publishers[id].phase.Checking?
    ensures Good(CheckStep(s, id, s.publishers[id]))
  {
    hide Good, Allocated, IsFile, TargetOf;
    GoodFor(s, id);
    PhaseOnly(s, id, if Blob(s.publishers[id].key) in s.dir then Returned(Lost) else Creating);
  }

  lemma UnlinkKeeps(s: State, id: nat)
    requires Good(s) && id in s.publishers && s.publishers[id].phase.Unlinking?
    ensures Good(UnlinkStep(s, id, s.publishers[id]))
  {
    hide Good, Allocated, IsFile, TargetOf;
    GoodFor(s, id);
    UnlinkTemporary(s, id, Returned(if s.publishers[id].phase.won then Won else Lost));
  }

  // The other steps.

  lemma StartKeeps(s: State, id: nat, key: Key, pid: nat, stream: seq<Byte>, length: Length)
    requires Good(s) && id !in s.publishers
    ensures Good(Moved(s, id, Publisher(key, pid, stream, length, Checking, None, None)))
  {
    hide IsFile, TargetOf;
    var t := Moved(s, id, Publisher(key, pid, stream, length, Checking, None, None));
    forall u | u in t.publishers ensures PhaseOk(t, t.publishers[u]) && LinkOk(t, t.publishers[u]) {
      if u != id { StartKeepsOther(s, t, u); }
    }
    hide PhaseOk, LinkOk;
    forall n | n in t.dir && n.Blob?
      ensures exists w :: IsWriter(t, w, n.key, t.dir[n]) && t.publishers[w].linked == Some(Period(t, n.key))
    {
      var w :| IsWriter(s, w, n.key, s.dir[n]) && s.publishers[w].linked == Some(Period(s, n.key));
      assert IsWriter(t, w, n.key, t.dir[n]);
    }
    forall r | r in t.readers ensures ReaderOk(t, t.readers[r]) {
      ReaderKept(s, t, s.readers[r]);
    }
  }

  lemma StartKeepsOther(s: State, t: State, u: nat)
    requires Good(s) && u in s.publishers && u in t.publishers && t.publishers[u] == s.publishers[u]
    requires t.dir == s.dir && t.inodes == s.inodes && t.periods == s.periods
    ensures PhaseOk(t, t.publishers[u]) && LinkOk(t, t.publishers[u])
  {
    hide Good, Allocated, IsFile, TargetOf;
    GoodFor(s, u);
  }

  lemma ReaderMoves(s: State, id: nat, r: Reader)
    requires Good(s) && ReaderOk(s, r)
    ensures Good(s.(readers := s.readers[id := r]))
  {
    hide IsFile, TargetOf, PhaseOk, LinkOk;
    var t := s.(readers := s.readers[id := r]);
    assert t.publishers == s.publishers;
    forall u | u in t.publishers ensures PhaseOk(t, t.publishers[u]) && LinkOk(t, t.publishers[u]) {
      StartKeepsOther(s, t, u);
    }
    assert BlobsWritten(t) by { BlobsSame(s, t); }
    forall q | q in t.readers ensures ReaderOk(t, t.readers[q]) {
      ReaderKept(s, t, if q == id then r else s.readers[q]);
    }
  }

  lemma BlobsSame(s: State, t: State)
    requires BlobsWritten(s) && t.publishers == s.publishers && t.dir == s.dir && t.periods == s.periods
    ensures BlobsWritten(t)
  {
    forall n | n in t.dir && n.Blob?
      ensures exists w :: IsWriter(t, w, n.key, t.dir[n]) && t.publishers[w].linked == Some(Period(t, n.key))
    {
      var w :| IsWriter(s, w, n.key, s.dir[n]) && s.publishers[w].linked == Some(Period(s, n.key));
      assert IsWriter(t, w, n.key, t.dir[n]);
    }
  }

  lemma OpenKeeps(s: State, id: nat)
    requires Good(s) && id in s.readers
    ensures Good(OpenStep(s, id, s.readers[id]))
  {
    hide IsFile, TargetOf, PhaseOk, LinkOk, Separate, OncePerPeriod, Allocated;
    var r := s.readers[id];
    if Blob(r.key) in s.dir {
      var w :| IsWriter(s, w, r.key, s.dir[Blob(r.key)]) && s.publishers[w].linked == Some(Period(s, r.key));
      ReaderMoves(s, id, r.(view := Opened(s.dir[Blob(r.key)])));
    } else {
      ReaderMoves(s, id, r.(view := Absent));
    }
  }

  /** One writer's complete file passes for its key, with the payload's length. */
  lemma CompleteValidates(content: seq<Byte>, p: Publisher)
    requires IsComplete(content, p)
    ensures Validated(content, p.key) == Some(p.length)
  {
    var h := CacheHeader(p.key, p.length);
    assert content[..CACHE_HEADER] == h;
    assert h[..8] == CACHE_MAGIC;
    assert h[8..12] == LittleEndian(1, 4);
    assert h[12..44] == p.key;
    assert h[44..52] == LittleEndian(p.length, 8);
    EightBytes(p.length);
    LittleEndianRoundTrip(p.length, 8);
  }

  lemma ValidateKeeps(s: State, id: nat)
    requires Good(s) && id in s.readers && s.readers[id].view.Opened?
    ensures Good(ValidateStep(s, id, s.readers[id]))
  {
    hide IsFile, TargetOf, PhaseOk, Separate, OncePerPeriod, Allocated, BlobsWritten, Validated;
    var r := s.readers[id];
    var w :| IsWriter(s, w, r.key, r.view.inode);
    assert LinkOk(s, s.publishers[w]);
    CompleteValidates(s.inodes[r.view.inode].content, s.publishers[w]);
    ReaderMoves(s, id, r.(view := Ready(r.view.inode, s.publishers[w].length)));
  }

  /** What an end of life, of a process or of the machine, leaves of writers, files and names. */
  ghost predicate Outlives(s: State, t: State) {
    && t.publishers.Keys == s.publishers.Keys && t.next == s.next
    && (forall u :: u in s.publishers ==> t.publishers[u] in {s.publishers[u], Killed(s.publishers[u])})
    && t.inodes.Keys == s.inodes.Keys
    && (forall i :: i in s.inodes && s.inodes[i].synced ==> t.inodes[i] == s.inodes[i])
    && (forall n :: n in t.dir ==> n in s.dir && t.dir[n] == s.dir[n])
    && (forall k: Key :: Period(s, k) <= Period(t, k))
    && (forall k: Key :: Period(t, k) == Period(s, k) && Blob(k) in s.dir ==> Blob(k) in t.dir)
    && (forall k: Key :: Blob(k) in t.dir ==> Period(t, k) == Period(s, k))
    && (forall u :: u in t.publishers && t.publishers[u] == s.publishers[u] && Active(s.publishers[u]) ==>
         t.inodes == s.inodes && forall n :: n in s.dir && n.Temporary? ==> n in t.dir)
    && t.readers.Keys == s.readers.Keys
    && (forall r :: r in t.readers ==> t.readers[r] == s.readers[r] || t.readers[r].view.Gone?)
  }

  lemma OutlivesOne(s: State, t: State, u: nat)
    requires Good(s) && Outlives(s, t) && u in s.publishers
    ensures PhaseOk(t, t.publishers[u]) && LinkOk(t, t.publishers[u])
  {
    hide Good, Allocated, IsFile, TargetOf;
    GoodFor(s, u);
    var p, q := s.publishers[u], t.publishers[u];
    if q.linked.Some? {
      assert Period(s, p.key) <= Period(t, p.key);
    }
  }

  lemma OutlivesKeeps(s: State, t: State)
    requires Good(s) && Outlives(s, t)
    ensures Good(t)
  {
    hide IsFile, TargetOf, PhaseOk, LinkOk;
    forall u | u in t.publishers ensures PhaseOk(t, t.publishers[u]) && LinkOk(t, t.publishers[u]) {
      OutlivesOne(s, t, u);
    }
    OutlivesTables(s, t);
    OutlivesBlobs(s, t);
    forall r | r in t.readers ensures ReaderOk(t, t.readers[r]) {
      if !t.readers[r].view.Gone? {
        OutlivesRemembers(s, t);
        ReaderKept(s, t, s.readers[r]);
      }
    }
  }

  lemma OutlivesRemembers(s: State, t: State)
    requires Outlives(s, t)
    ensures Remembers(s, t)
  {
  }

  lemma OutlivesTables(s: State, t: State)
    requires Good(s) && Outlives(s, t)
    ensures Allocated(t) && Separate(t) && OncePerPeriod(t)
  {
    hide PhaseOk, LinkOk, BlobsWritten;
  }

  lemma OutlivesBlobs(s: State, t: State)
    requires Good(s) && Outlives(s, t)
    ensures BlobsWritten(t)
  {
    hide PhaseOk, LinkOk, Separate, OncePerPeriod, Allocated;
    forall n | n in t.dir && n.Blob?
      ensures exists w :: IsWriter(t, w, n.key, t.dir[n]) && t.publishers[w].linked == Some(Period(t, n.key))
    {
      var w :| IsWriter(s, w, n.key, s.dir[n]) && s.publishers[w].linked == Some(Period(s, n.key));
      assert Blob(n.key) in t.dir;
      assert IsWriter(t, w, n.key, t.dir[n]);
    }
  }

  lemma RemoveOutlives(s: State, key: Key)
    ensures Outlives(s, RemoveStep(s, key))
  {
  }

  lemma KillOutlives(s: State, pid: nat)
    ensures Outlives(s, KillStep(s, pid))
  {
  }

  lemma PowerLossOutlives(s: State, kept: set<Name>, cuts: map<nat, nat>)
    ensures Outlives(s, PowerLossStep(s, kept, cuts))
  {
    var t := PowerLossStep(s, kept, cuts);
    forall k: Key
      ensures Period(t, k) == if Blob(k) in s.dir && Blob(k) !in kept then Period(s, k) + 1 else Period(s, k)
    {
      if Blob(k) in s.dir {
        assert k in (set n | n in s.dir && n.Blob? :: n.key) by { assert Blob(k).key == k; }
      }
    }
  }

  /** Every step of publishers, readers, removers, dying processes and power loss keeps the cache good. */
  lemma NextKeeps(s: State, a: Action)
    requires Good(s)
    ensures Good(Next(s, a))
  {
    hide Good, PublisherStep, Moved, OpenStep, ValidateStep, RemoveStep, KillStep, PowerLossStep, Outlives;
    match a
    case StartPublish(id, key, pid, stream, length) =>
      if id !in s.publishers { StartKeeps(s, id, key, pid, stream, length); }
    case StartRead(id, key, pid) =>
      if id !in s.readers { ReaderMoves(s, id, Reader(key, pid, Opening)); }
    case Open(id) =>
      if id in s.readers && s.readers[id].view.Opening? { OpenKeeps(s, id); }
    case Validate(id) =>
      if id in s.readers && s.readers[id].view.Opened? { ValidateKeeps(s, id); }
    case RemoveInvalid(key) =>
      RemoveOutlives(s, key);
      OutlivesKeeps(s, RemoveStep(s, key));
    case Kill(pid) =>
      KillOutlives(s, pid);
      OutlivesKeeps(s, KillStep(s, pid));
    case PowerLoss(kept, cuts) =>
      PowerLossOutlives(s, kept, cuts);
      OutlivesKeeps(s, PowerLossStep(s, kept, cuts));
    case _ => PublisherKeeps(s, a, a.id);
  }

  lemma {:induction false} RunKeeps(s: State, actions: seq<Action>)
    requires Good(s)
    ensures Good(Run(s, actions))
    decreases |actions|
  {
    hide Good, Next;
    if actions != [] {
      NextKeeps(s, actions[0]);
      RunKeeps(Next(s, actions[0]), actions[1..]);
    }
  }

  // Main results, over every run.

  /** Whatever was interleaved and whoever died, a blob that can be seen is one writer's complete header and payload. */
  lemma VisibleIsComplete(actions: seq<Action>, key: Key) returns (writer: nat)
    requires Blob(key) in Run(Initial, actions).dir
    ensures var s := Run(Initial, actions);
      && writer in s.publishers && s.publishers[writer].key == key
      && s.dir[Blob(key)] in s.inodes
      && IsComplete(s.inodes[s.dir[Blob(key)]].content, s.publishers[writer])
      && Validated(s.inodes[s.dir[Blob(key)]].content, key) == Some(s.publishers[writer].length)
  {
    hide Run, PhaseOk, Separate, OncePerPeriod, IsFile, TargetOf, Validated;
    var s := Run(Initial, actions);
    InitialGood();
    RunKeeps(Initial, actions);
    assert BlobsWritten(s) && Allocated(s);
    writer :| IsWriter(s, writer, key, s.dir[Blob(key)]) && s.publishers[writer].linked == Some(Period(s, key));
    assert LinkOk(s, s.publishers[writer]);
    CompleteValidates(s.inodes[s.dir[Blob(key)]].content, s.publishers[writer]);
  }

  /** No two publishers ever win in one period of a key. */
  lemma OneWinnerPerPeriod(actions: seq<Action>, t: nat, u: nat)
    requires var s := Run(Initial, actions);
      && t in s.publishers && u in s.publishers && s.publishers[t].key == s.publishers[u].key
      && s.publishers[t].phase == Returned(Won) && s.publishers[u].phase == Returned(Won)
      && s.publishers[t].linked == s.publishers[u].linked
    ensures t == u
  {
    hide Run, LinkOk, Separate, IsFile, TargetOf, BlobsWritten;
    var s := Run(Initial, actions);
    InitialGood();
    RunKeeps(Initial, actions);
    assert PhaseOk(s, s.publishers[t]);
    assert SameLink(s.publishers[t], s.publishers[u]);
  }

  /** A reader that has opened the blob reads, at any later moment, exactly a stretch of one writer's payload, and no
      reader ever finds a blob that fails validation. */
  lemma ReadersSeePayload(actions: seq<Action>, reader: nat, offset: nat, count: nat)
    returns (writer: nat)
    requires reader in Run(Initial, actions).readers
    ensures var s := Run(Initial, actions);
      var r := s.readers[reader];
      && !r.view.Refused?
      && (r.view.Ready? ==>
           && writer in s.publishers && s.publishers[writer].key == r.key
           && r.view.length == s.publishers[writer].length <= |s.publishers[writer].stream|
           && ReadRange(s, r, offset, count) ==
              if offset + count <= r.view.length
              then Some(s.publishers[writer].stream[offset..offset + count]) else None)
  {
    hide Run, PhaseOk, Separate, OncePerPeriod, BlobsWritten;
    var s := Run(Initial, actions);
    InitialGood();
    RunKeeps(Initial, actions);
    var r := s.readers[reader];
    assert ReaderOk(s, r);
    writer := 0;
    if r.view.Ready? {
      writer :| IsWriter(s, writer, r.key, r.view.inode) && s.publishers[writer].length == r.view.length;
      var p := s.publishers[writer];
      assert LinkOk(s, p);
      StretchOf(s.inodes[r.view.inode].content, p, offset, count);
    }
  }

  lemma StretchOf(content: seq<Byte>, p: Publisher, offset: nat, count: nat)
    requires IsComplete(content, p)
    ensures |content| == CACHE_HEADER + p.length
    ensures offset + count <= p.length ==>
      content[CACHE_HEADER + offset..CACHE_HEADER + offset + count] == p.stream[offset..offset + count]
  {
  }

  // A blob's bytes over time.

  /** While its period lasts, a blob stays, and stays what it was. */
  ghost predicate Unchanged(s: State, t: State, key: Key) {
    && Period(s, key) <= Period(t, key)
    && (Blob(key) in s.dir && Period(t, key) == Period(s, key) ==>
         && Blob(key) in t.dir && t.dir[Blob(key)] == s.dir[Blob(key)]
         && s.dir[Blob(key)] in s.inodes && s.dir[Blob(key)] in t.inodes
         && t.inodes[s.dir[Blob(key)]] == s.inodes[s.dir[Blob(key)]])
  }

  /** No publisher that may still write holds the file of a visible blob. */
  lemma NotTheBlob(s: State, id: nat, key: Key)
    requires Good(s) && id in s.publishers && Blob(key) in s.dir
    requires s.publishers[id].phase.Writing? || s.publishers[id].phase.Syncing?
    ensures s.publishers[id].inode != Some(s.dir[Blob(key)])
  {
    hide IsFile, TargetOf, OncePerPeriod, LinkOk, Allocated;
    var w :| IsWriter(s, w, key, s.dir[Blob(key)]) && s.publishers[w].linked == Some(Period(s, key));
    assert PhaseOk(s, s.publishers[id]);
  }

  lemma PublisherUnchanged(s: State, a: Action, id: nat, key: Key)
    requires Good(s)
    ensures Unchanged(s, PublisherStep(s, a, id), key)
  {
    hide Good, PublisherStep;
    GoodTables(s);
    if id in s.publishers && Blob(key) in s.dir {
      var p := s.publishers[id];
      if p.phase.Writing? || p.phase.Syncing? {
        NotTheBlob(s, id, key);
      }
    }
    if a.Write? || a.Sync? || a.Finish? {
      WriterUnchanged(s, a, id, key);
    } else {
      NamesUnchanged(s, a, id, key);
    }
  }

  lemma WriterUnchanged(s: State, a: Action, id: nat, key: Key)
    requires Allocated(s) && (a.Write? || a.Sync? || a.Finish?)
    requires id in s.publishers && Blob(key) in s.dir ==>
      s.publishers[id].phase.Writing? || s.publishers[id].phase.Syncing? ==>
        s.publishers[id].inode != Some(s.dir[Blob(key)])
    ensures Unchanged(s, PublisherStep(s, a, id), key)
  {
    hide Target, CheckStep, CreateStep, LinkStep, UnlinkStep, FailStep;
  }

  lemma NamesUnchanged(s: State, a: Action, id: nat, key: Key)
    requires Allocated(s) && !a.Write? && !a.Sync? && !a.Finish?
    ensures Unchanged(s, PublisherStep(s, a, id), key)
  {
    hide WriteStep, FinishStep, SyncStep;
  }

  lemma GoodTables(s: State)
    requires Good(s)
    ensures Allocated(s)
  {
    hide Allocated;
  }

  lemma OutlivesUnchanged(s: State, t: State, key: Key)
    requires Good(s) && Outlives(s, t)
    ensures Unchanged(s, t, key)
  {
    hide IsFile, TargetOf, OncePerPeriod, PhaseOk, Separate;
    if Blob(key) in s.dir {
      var w :| IsWriter(s, w, key, s.dir[Blob(key)]) && s.publishers[w].linked == Some(Period(s, key));
      assert LinkOk(s, s.publishers[w]);
      assert Period(s, key) <= Period(t, key);
    }
  }

  lemma NextUnchanged(s: State, a: Action, key: Key)
    requires Good(s)
    ensures Unchanged(s, Next(s, a), key)
  {
    hide Good, PublisherStep, RemoveStep, KillStep, PowerLossStep, Outlives, Validated;
    GoodTables(s);
    match a
    case StartPublish(_, _, _, _, _) =>
    case StartRead(_, _, _) =>
    case Open(_) =>
    case Validate(_) =>
    case RemoveInvalid(k) =>
      RemoveOutlives(s, k);
      OutlivesUnchanged(s, RemoveStep(s, k), key);
    case Kill(pid) =>
      KillOutlives(s, pid);
      OutlivesUnchanged(s, KillStep(s, pid), key);
    case PowerLoss(kept, cuts) =>
      PowerLossOutlives(s, kept, cuts);
      OutlivesUnchanged(s, PowerLossStep(s, kept, cuts), key);
    case _ => PublisherUnchanged(s, a, a.id, key);
  }

  /** Over any further run that does not end its period, a visible blob stays visible with the same bytes. */
  lemma {:induction false} BlobNeverChanges(s: State, actions: seq<Action>, key: Key)
    requires Good(s)
    ensures Unchanged(s, Run(s, actions), key)
    decreases |actions|
  {
    hide Good, Next;
    if actions == [] {
      GoodTables(s);
    } else {
      var t := Next(s, actions[0]);
      NextKeeps(s, actions[0]);
      NextUnchanged(s, actions[0], key);
      BlobNeverChanges(t, actions[1..], key);
    }
  }

  predicate EndsPeriods(a: Action, key: Key) {
    a == RemoveInvalid(key) || a.PowerLoss?
  }

  /** Only a removal, or a power loss that takes the name, ends a period. */
  lemma {:induction false} PeriodLasts(s: State, actions: seq<Action>, key: Key)
    requires forall i :: 0 <= i < |actions| ==> !EndsPeriods(actions[i], key)
    ensures Period(Run(s, actions), key) == Period(s, key)
    decreases |actions|
  {
    if actions != [] {
      PeriodStep(s, actions[0], key);
      PeriodLasts(Next(s, actions[0]), actions[1..], key);
    }
  }

  lemma PeriodStep(s: State, a: Action, key: Key)
    requires !EndsPeriods(a, key)
    ensures Period(Next(s, a), key) == Period(s, key)
  {
    hide PowerLossStep, Validated;
  }
}
