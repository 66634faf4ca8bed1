/** That publishing succeeds: a publisher that takes all its steps, among any steps of others, is told exactly what
    became of its payload, and one that nobody gets in the way of leaves its blob behind for readers. */
module BlobPublishing {
  import opened Prelude
  import opened Framing
  import BlobLayout
  import opened BlobCache
  import opened BlobOutcome
  import LayoutBytes

  // The steps of a publisher.

  /** The file is written in pieces of any sizes. */
  function Pieces(id: nat, counts: seq<nat>): seq<Action> {
    if counts == [] then [] else [Write(id, counts[0])] + Pieces(id, counts[1..])
  }

  function Sum(counts: seq<nat>): nat {
    if counts == [] then 0 else counts[0] + Sum(counts[1..])
  }

  /** The steps that a publisher has ahead of it. */
  function Ahead(phase: Phase, id: nat, counts: seq<nat>): (r: seq<Action>)
    ensures r == [] <==> phase.Returned? || phase.Dead?
  {
    var end := [Finish(id), Sync(id), Link(id), Unlink(id)];
    match phase
    case Checking => [Check(id), Create(id)] + (Pieces(id, counts) + end)
    case Creating => [Create(id)] + (Pieces(id, counts) + end)
    case Writing(_) => Pieces(id, counts) + end
    case Syncing => end[1..]
    case Linking => end[2..]
    case Unlinking(_) => end[3..]
    case _ => []
  }

  /** The pieces still to be written make up the rest of the file. */
  predicate Measured(p: Publisher, counts: seq<nat>) {
    && (p.phase.Checking? || p.phase.Creating? ==> Sum(counts) == |Target(p)|)
    && (p.phase.Writing? ==> p.phase.written + Sum(counts) == |Target(p)|)
  }

  predicate Own(a: Action, id: nat) {
    OnPublisher(a) && a.id == id
  }

  function OwnSteps(actions: seq<Action>, id: nat): seq<Action> {
    Filter(actions, (a: Action) => Own(a, id))
  }

  /** The publisher's process does not die, and there is no power loss. */
  predicate Undisturbed(actions: seq<Action>, pid: nat) {
    forall a :: a in actions ==> !a.PowerLoss? && a != Kill(pid)
  }

  /** What a publisher is told that meets `met` from here on. */
  function Verdict(p: Publisher, met: seq<Meeting>): Outcome {
    if p.phase.Unlinking? then (if p.phase.won then Won else Lost)
    else if TakenBlob in met || TakenTemporary in met then Lost
    else if p.length <= |p.stream| then Won
    else Failed
  }

  predicate Working(p: Publisher) {
    !p.phase.Returned? && !p.phase.Dead?
  }

  /** It is the same publication, further on. */
  predicate SameJob(p: Publisher, q: Publisher) {
    q.key == p.key && q.pid == p.pid && q.stream == p.stream && q.length == p.length
  }

  // One step.

  /** A publisher on its course has taken one step and met `met`. */
  ghost predicate Advances(p: Publisher, q: Publisher, met: seq<Meeting>, id: nat, counts: seq<nat>, left: seq<nat>)
    requires Working(p)
  {
    SameJob(p, q) &&
    if q.phase.Returned? then q.phase.outcome == Verdict(p, met)
    else
      && Working(q) && Measured(q, left) && Ahead(p.phase, id, counts)[1..] == Ahead(q.phase, id, left)
      && forall more :: (q.phase.Unlinking? ==> more == []) ==> Verdict(p, met + more) == Verdict(q, more)
  }

  /** The publisher and what it meets in one step. */
  ghost predicate StepAdvances(s: State, a: Action, id: nat, counts: seq<nat>, left: seq<nat>)
    requires id in s.publishers && Working(s.publishers[id])
  {
    && id in PublisherStep(s, a, id).publishers
    && Advances(s.publishers[id], PublisherStep(s, a, id).publishers[id], StepMeets(s, a, id), id, counts, left)
  }

  lemma CheckAdvances(s: State, id: nat, counts: seq<nat>)
    requires id in s.publishers && s.publishers[id].phase.Checking? && Measured(s.publishers[id], counts)
    ensures StepAdvances(s, Check(id), id, counts, counts)
  {
    hide TargetOf;
    var rest := Pieces(id, counts) + [Finish(id), Sync(id), Link(id), Unlink(id)];
    assert ([Check(id), Create(id)] + rest)[1..] == [Create(id)] + rest;
  }

  lemma CreateAdvances(s: State, id: nat, counts: seq<nat>)
    requires id in s.publishers && s.publishers[id].phase.Creating? && Measured(s.publishers[id], counts)
    ensures StepAdvances(s, Create(id), id, counts, counts)
  {
    hide TargetOf;
  }

  lemma WriteAdvances(s: State, id: nat, counts: seq<nat>)
    requires id in s.publishers && s.publishers[id].phase.Writing? && Measured(s.publishers[id], counts)
    requires OwnsTemporary(s, s.publishers[id]) && counts != []
    ensures StepAdvances(s, Write(id, counts[0]), id, counts, counts[1..])
  {
    hide TargetOf;
  }

  lemma FinishAdvances(s: State, id: nat)
    requires id in s.publishers && s.publishers[id].phase.Writing? && Measured(s.publishers[id], [])
    ensures StepAdvances(s, Finish(id), id, [], [])
  {
    hide TargetOf;
  }

  lemma SyncAdvances(s: State, id: nat)
    requires id in s.publishers && s.publishers[id].phase.Syncing? && OwnsTemporary(s, s.publishers[id])
    ensures StepAdvances(s, Sync(id), id, [], [])
  {
    hide TargetOf;
  }

  lemma LinkAdvances(s: State, id: nat)
    requires id in s.publishers && s.publishers[id].phase.Linking? && OwnsTemporary(s, s.publishers[id])
    requires s.publishers[id].length <= |s.publishers[id].stream|
    ensures StepAdvances(s, Link(id), id, [], [])
  {
    hide TargetOf, Period;
  }

  lemma UnlinkAdvances(s: State, id: nat)
    requires id in s.publishers && s.publishers[id].phase.Unlinking?
    ensures StepAdvances(s, Unlink(id), id, [], [])
  {
    hide TargetOf, Unlinked;
  }

  /** On its course, a publisher's next own step takes it further. */
  lemma NextAdvances(s: State, id: nat, counts: seq<nat>) returns (left: seq<nat>)
    requires Good(s) && id in s.publishers && Working(s.publishers[id]) && Measured(s.publishers[id], counts)
    ensures StepAdvances(s, Ahead(s.publishers[id].phase, id, counts)[0], id, counts, left)
  {
    hide Good, PublisherStep, StepMeets, Advances, Verdict, TargetOf;
    GoodFor(s, id);
    left := counts;
    match s.publishers[id].phase
    case Checking => CheckAdvances(s, id, counts);
    case Creating => CreateAdvances(s, id, counts);
    case Writing(_) =>
      if counts == [] {
        FinishAdvances(s, id);
      } else {
        left := counts[1..];
        WriteAdvances(s, id, counts);
      }
    case Syncing =>
      left := [];
      SyncAdvances(s, id);
      SameAhead(s, Sync(id), id, counts, left);
    case Linking =>
      left := [];
      LinkAdvances(s, id);
      SameAhead(s, Link(id), id, counts, left);
    case Unlinking(_) =>
      left := [];
      UnlinkAdvances(s, id);
      SameAhead(s, Unlink(id), id, counts, left);
  }

  /** Past the writing, the sizes of the pieces do not matter. */
  lemma SameAhead(s: State, a: Action, id: nat, counts: seq<nat>, left: seq<nat>)
    requires id in s.publishers && Working(s.publishers[id])
    requires s.publishers[id].phase.Syncing? || s.publishers[id].phase.Linking? || s.publishers[id].phase.Unlinking?
    requires StepAdvances(s, a, id, [], left)
    ensures StepAdvances(s, a, id, counts, left)
  {
    hide PublisherStep, StepMeets, Verdict, Measured;
  }

  // Steps of others.

  lemma StaysPut(s: State, a: Action, id: nat)
    requires id in s.publishers && !Own(a, id) && !a.PowerLoss? && a != Kill(s.publishers[id].pid)
    ensures id in Next(s, a).publishers && Next(s, a).publishers[id] == s.publishers[id] && StepMeets(s, a, id) == []
  {
    hide PublisherStep, BlobCache.Validated;
    if OnPublisher(a) {
      NextIsItsStep(s, a);
      BlobOutcome.OthersKept(s, a, a.id, id);
    }
  }

  /** Past the link there is nothing more to meet. */
  predicate Past(phase: Phase) {
    phase.Unlinking? || phase.Returned? || phase.Dead?
  }

  lemma PastStays(s: State, a: Action, id: nat)
    requires id in s.publishers && Past(s.publishers[id].phase)
    ensures StepMeets(s, a, id) == [] && id in Next(s, a).publishers && Past(Next(s, a).publishers[id].phase)
    ensures s.publishers[id].phase.Returned? ==> Next(s, a).publishers[id].phase == s.publishers[id].phase
  {
    hide PublisherStep, BlobCache.Validated;
    if OnPublisher(a) {
      NextIsItsStep(s, a);
      if a.id == id {
        OwnPast(s, a, id);
      } else {
        BlobOutcome.OthersKept(s, a, a.id, id);
      }
    }
  }

  lemma OwnPast(s: State, a: Action, id: nat)
    requires id in s.publishers && Past(s.publishers[id].phase)
    ensures id in PublisherStep(s, a, id).publishers && Past(PublisherStep(s, a, id).publishers[id].phase)
    ensures s.publishers[id].phase.Returned? ==> PublisherStep(s, a, id).publishers[id] == s.publishers[id]
  {
    hide Unlinked, CheckStep, CreateStep, WriteStep, FinishStep, SyncStep, LinkStep;
  }

  lemma {:induction false} PastEnds(s: State, actions: seq<Action>, id: nat)
    requires id in s.publishers && Past(s.publishers[id].phase)
    ensures Meets(s, actions, id) == [] && id in Run(s, actions).publishers
    ensures s.publishers[id].phase.Returned? ==> Run(s, actions).publishers[id].phase == s.publishers[id].phase
    decreases |actions|
  {
    hide Next, StepMeets;
    if actions != [] {
      PastStays(s, actions[0], id);
      PastEnds(Next(s, actions[0]), actions[1..], id);
    }
  }

  // Whole courses.

  /** Among any steps of others, a publisher whose process lives and that has no I/O error returns once it has taken its
      steps. It is told that its key has been published exactly when it meets a taken name, and otherwise that it has
      published exactly when its stream holds the declared length; a shorter stream fails it. */
  lemma {:induction false} CourseEnds(s: State, actions: seq<Action>, id: nat, counts: seq<nat>)
    requires Good(s) && id in s.publishers && Working(s.publishers[id]) && Measured(s.publishers[id], counts)
    requires Undisturbed(actions, s.publishers[id].pid)
    requires OwnSteps(actions, id) == Ahead(s.publishers[id].phase, id, counts)
    ensures id in Run(s, actions).publishers
    ensures Run(s, actions).publishers[id].phase == Returned(Verdict(s.publishers[id], Meets(s, actions, id)))
    decreases |actions|, 0
  {
    hide Good, Next, Own, StepMeets, Verdict, Measured, Ahead;
    if actions != [] {
      var a, rest := actions[0], actions[1..];
      assert a in actions && forall b :: b in rest ==> b in actions;
      NextKeeps(s, a);
      if Own(a, id) {
        OwnCourse(s, a, rest, id, counts);
      } else {
        StaysPut(s, a, id);
        CourseEnds(Next(s, a), rest, id, counts);
        assert [] + Meets(Next(s, a), rest, id) == Meets(Next(s, a), rest, id);
      }
    }
  }

  lemma OwnCourse(s: State, a: Action, rest: seq<Action>, id: nat, counts: seq<nat>)
    requires Good(s) && id in s.publishers && Working(s.publishers[id]) && Measured(s.publishers[id], counts)
    requires Good(Next(s, a)) && Own(a, id) && Undisturbed(rest, s.publishers[id].pid)
    requires [a] + OwnSteps(rest, id) == Ahead(s.publishers[id].phase, id, counts)
    ensures id in Run(Next(s, a), rest).publishers
    ensures Run(Next(s, a), rest).publishers[id].phase ==
      Returned(Verdict(s.publishers[id], StepMeets(s, a, id) + Meets(Next(s, a), rest, id)))
    decreases |rest|, 1
  {
    hide Good, PublisherStep, StepMeets, Verdict, Measured, Ahead;
    var left := NextAdvances(s, id, counts);
    assert Ahead(s.publishers[id].phase, id, counts)[0] == a;
    NextIsItsStep(s, a);
    var t := Next(s, a);
    var met := StepMeets(s, a, id);
    if t.publishers[id].phase.Returned? {
      PastEnds(t, rest, id);
      assert met + [] == met;
    } else {
      assert Ahead(s.publishers[id].phase, id, counts)[1..] == OwnSteps(rest, id);
      CourseEnds(t, rest, id, left);
      if t.publishers[id].phase.Unlinking? {
        PastEnds(t, rest, id);
      }
    }
  }

  // Nobody in the way.

  /** The names of a publisher that nobody gets in the way of: its temporary file is there from its creation on, and
      after its end exactly if it failed; its blob is there exactly from the link on. */
  predicate NamesOk(s: State, id: nat) {
    id in s.publishers &&
    var p := s.publishers[id];
    var blob, temporary := Blob(p.key), Temporary(p.key, p.pid);
    match p.phase
    case Checking => blob !in s.dir && temporary !in s.dir
    case Creating => blob !in s.dir && temporary !in s.dir
    case Unlinking(won) => won && blob in s.dir && p.inode == Some(s.dir[blob])
    case Returned(Won) => temporary !in s.dir && blob in s.dir && p.inode == Some(s.dir[blob])
    case Returned(Lost) => false
    case Dead => false
    case _ => blob !in s.dir && temporary in s.dir
  }

  lemma NamesStep(s: State, a: Action, id: nat)
    requires NamesOk(s, id) && Own(a, id) && !a.Fail?
    requires s.publishers[id].phase.Linking? ==> s.publishers[id].inode.Some?
    ensures NamesOk(PublisherStep(s, a, id), id) && SameJob(s.publishers[id], PublisherStep(s, a, id).publishers[id])
  {
    if a.Check? || a.Create? || a.Link? {
      hide Period, TargetOf, WriteStep, FinishStep, SyncStep, UnlinkStep, FailStep;
    } else {
      hide TargetOf, CheckStep, CreateStep, LinkStep, FailStep;
    }
  }

  lemma {:induction false} NamesStay(s: State, actions: seq<Action>, id: nat)
    requires Good(s) && NamesOk(s, id)
    requires forall a :: a in actions ==> Own(a, id) && !a.Fail?
    ensures NamesOk(Run(s, actions), id) && SameJob(s.publishers[id], Run(s, actions).publishers[id])
    decreases |actions|
  {
    hide Good, Next, NamesOk, Own, PublisherStep;
    if actions != [] {
      var a, rest := actions[0], actions[1..];
      assert a in actions && forall b :: b in rest ==> b in actions;
      NextKeeps(s, a);
      LinkingHasFile(s, id);
      NamesStep(s, a, id);
      OwnIsNext(s, a, id);
      NamesStay(Next(s, a), rest, id);
    }
  }

  lemma OwnIsNext(s: State, a: Action, id: nat)
    requires Own(a, id)
    ensures Next(s, a) == PublisherStep(s, a, id)
  {
    hide PublisherStep;
    NextIsItsStep(s, a);
  }

  lemma LinkingHasFile(s: State, id: nat)
    requires Good(s) && NamesOk(s, id)
    ensures id in s.publishers && (s.publishers[id].phase.Linking? ==> s.publishers[id].inode.Some?)
  {
    hide Good, TargetOf, IsFile;
    GoodFor(s, id);
  }

  lemma {:induction false} PiecesOwn(id: nat, counts: seq<nat>)
    ensures forall a :: a in Pieces(id, counts) ==> Own(a, id) && !a.Fail?
  {
    if counts != [] {
      PiecesOwn(id, counts[1..]);
    }
  }

  lemma AheadOwn(id: nat, counts: seq<nat>)
    ensures forall a :: a in Ahead(Checking, id, counts) ==> Own(a, id) && !a.Fail?
    ensures OwnSteps(Ahead(Checking, id, counts), id) == Ahead(Checking, id, counts)
  {
    PiecesOwn(id, counts);
    AllOwn(Ahead(Checking, id, counts), id);
  }

  lemma {:induction false} AllOwn(actions: seq<Action>, id: nat)
    requires forall a :: a in actions ==> Own(a, id)
    ensures OwnSteps(actions, id) == actions
  {
    if actions != [] {
      assert actions[0] in actions && forall b :: b in actions[1..] ==> b in actions;
      AllOwn(actions[1..], id);
    }
  }

  /** The steps of a publication, from its start to its end. */
  function Publication(id: nat, key: Key, pid: nat, stream: seq<Byte>, length: Length, counts: seq<nat>): seq<Action> {
    [StartPublish(id, key, pid, stream, length)] + Ahead(Checking, id, counts)
  }

  /** From every state that a run can reach, a publisher that finds both its names free and is not interrupted is told
      that it has published exactly when its stream holds the declared length. Then the key's blob is there, with the
      header and just that much of the stream, and the temporary file is gone. Otherwise there is no blob, and the
      temporary file stays. */
  lemma UndisturbedPublishes(s: State, id: nat, key: Key, pid: nat, stream: seq<Byte>, length: Length,
                             counts: seq<nat>)
    requires Good(s) && id !in s.publishers && Blob(key) !in s.dir && Temporary(key, pid) !in s.dir
    requires Sum(counts) == |TargetOf(key, length, stream)|
    ensures var t := Run(s, Publication(id, key, pid, stream, length, counts));
      && id in t.publishers && t.publishers[id].phase == Returned(if length <= |stream| then Won else Failed)
      && (Blob(key) in t.dir <==> length <= |stream|)
      && (Temporary(key, pid) in t.dir <==> length > |stream|)
      && (length <= |stream| ==>
            && t.dir[Blob(key)] in t.inodes
            && t.inodes[t.dir[Blob(key)]].content == CacheHeader(key, length) + stream[..length])
  {
    hide Good, Next, PublisherStep, TargetOf, CacheHeader, Run, NamesOk, Ahead;
    var start, course := StartPublish(id, key, pid, stream, length), Ahead(Checking, id, counts);
    Started(s, id, key, pid, stream, length);
    var s0 := Next(s, start);
    NextKeeps(s, start);
    AheadOwn(id, counts);
    CourseEnds(s0, course, id, counts);
    NamesStay(s0, course, id);
    RunKeeps(s0, course);
    FirstStep(s, start, course);
    var t := Run(s0, course);
    Published(t, id);
  }

  lemma FirstStep(s: State, a: Action, rest: seq<Action>)
    ensures Run(s, [a] + rest) == Run(Next(s, a), rest)
  {
    hide Next;
    assert ([a] + rest)[1..] == rest;
  }

  lemma Started(s: State, id: nat, key: Key, pid: nat, stream: seq<Byte>, length: Length)
    requires id !in s.publishers && Blob(key) !in s.dir && Temporary(key, pid) !in s.dir
    ensures var t := Next(s, StartPublish(id, key, pid, stream, length));
      && NamesOk(t, id) && t.publishers[id] == Publisher(key, pid, stream, length, Checking, None, None)
  {
  }

  /** What a returned publisher's names hold. */
  lemma Published(t: State, id: nat)
    requires Good(t) && NamesOk(t, id) && t.publishers[id].phase.Returned?
    ensures var p := t.publishers[id];
      && (p.phase == Returned(Won) ==>
            && Blob(p.key) in t.dir && Temporary(p.key, p.pid) !in t.dir
            && t.dir[Blob(p.key)] in t.inodes
            && t.inodes[t.dir[Blob(p.key)]].content == CacheHeader(p.key, p.length) + p.stream[..p.length])
      && (p.phase == Returned(Failed) ==> Blob(p.key) !in t.dir && Temporary(p.key, p.pid) in t.dir)
      && p.phase != Returned(Lost)
  {
    hide Good, TargetOf, CacheHeader;
    GoodFor(t, id);
  }

  // The file.

  /** A cached file starts with its magic, version 1, its key and the length of its payload, in 52 bytes. */
  lemma HeaderLaysOut(key: Key, length: Length)
    ensures var h := CacheHeader(key, length);
      && |h| == 52 && h[..12] == [75, 73, 68, 69, 66, 76, 66, 49, 1, 0, 0, 0]
      && h[12..44] == key && BlobLayout.FromLittleEndian(h[44..52]) == length
  {
    BlobLayout.EightBytes(length);
    BlobLayout.LittleEndianRoundTrip(length, 8);
    LayoutBytes.SmallDigits(1);
    var h := CacheHeader(key, length);
    assert h[12..44] == key && h[44..52] == BlobLayout.LittleEndian(length, 8);
  }

  // Reading.

  function Reading(id: nat, key: Key, pid: nat): seq<Action> {
    [StartRead(id, key, pid), Open(id), Validate(id)]
  }

  /** From every state that a run can reach, a reader that is not interrupted finds the key's blob exactly when it is
      there. It then knows the payload's length and reads any stretch of the payload. */
  lemma UndisturbedReads(s: State, id: nat, key: Key, pid: nat, offset: nat, count: nat)
    requires Good(s) && id !in s.readers
    ensures var t := Run(s, Reading(id, key, pid));
      && id in t.readers && t.readers[id].key == key
      && (Blob(key) !in s.dir ==> t.readers[id].view == Absent)
      && (Blob(key) in s.dir ==>
            && s.dir[Blob(key)] in s.inodes && |s.inodes[s.dir[Blob(key)]].content| >= 52
            && var payload := s.inodes[s.dir[Blob(key)]].content[52..];
               && t.readers[id].view == Ready(s.dir[Blob(key)], |payload|)
               && ReadRange(t, t.readers[id], offset, count) ==
                    if offset + count <= |payload| then Some(payload[offset..offset + count]) else None)
  {
    hide Good, CacheHeader, Run, Reading;
    if Blob(key) in s.dir {
      BlobValidates(s, key);
    }
    ReadingRuns(s, id, key, pid);
    if Blob(key) in s.dir {
      var content := s.inodes[s.dir[Blob(key)]].content;
      if offset + count <= |content[52..]| {
        assert content[52..][offset..offset + count] == content[52 + offset..52 + offset + count];
      }
    }
  }

  lemma ReadingRuns(s: State, id: nat, key: Key, pid: nat)
    requires id !in s.readers
    requires Blob(key) in s.dir ==> s.dir[Blob(key)] in s.inodes
    ensures var t := Run(s, Reading(id, key, pid));
      && id in t.readers && t.readers[id].key == key && t.inodes == s.inodes
      && t.readers[id].view ==
           if Blob(key) !in s.dir then Absent
           else
             var found := BlobCache.Validated(s.inodes[s.dir[Blob(key)]].content, key);
             if found.Some? then Ready(s.dir[Blob(key)], found.value) else Refused
  {
    hide BlobCache.Validated;
    var actions := Reading(id, key, pid);
    var s1 := Next(s, actions[0]);
    var s2 := Next(s1, actions[1]);
    assert actions[1..][1..] == actions[2..] && actions[2..][1..] == [];
    assert Run(s, actions) == Run(s1, actions[1..]) == Run(s2, actions[2..]) == Next(s2, actions[2]);
  }

  lemma BlobValidates(s: State, key: Key)
    requires Good(s) && Blob(key) in s.dir
    ensures s.dir[Blob(key)] in s.inodes
    ensures var content := s.inodes[s.dir[Blob(key)]].content;
      |content| >= 52 && BlobCache.Validated(content, key) == Some(|content| - 52)
  {
    hide PhaseOk, Separate, OncePerPeriod, TargetOf, BlobCache.Validated, CacheHeader;
    var w :| IsWriter(s, w, key, s.dir[Blob(key)]) && s.publishers[w].linked == Some(Period(s, key));
    assert LinkOk(s, s.publishers[w]);
    CompleteValidates(s.inodes[s.dir[Blob(key)]].content, s.publishers[w]);
  }

  // Around publications.

  /** Removing a key's file takes its name away and nothing else: whoever has it open keeps it. */
  lemma RemovedExactly(s: State, key: Key)
    ensures var t := Next(s, RemoveInvalid(key));
      && t.inodes == s.inodes && t.publishers == s.publishers && t.readers == s.readers
      && t.dir.Keys == s.dir.Keys - {Blob(key)} && forall n :: n in t.dir ==> t.dir[n] == s.dir[n]
  {
  }

  /** A key whose file was removed can be published again. */
  lemma RemovedThenPublished(s: State, id: nat, key: Key, pid: nat, stream: seq<Byte>, length: Length,
                             counts: seq<nat>)
    requires Good(s) && id !in s.publishers && Temporary(key, pid) !in s.dir && length <= |stream|
    requires Sum(counts) == |TargetOf(key, length, stream)|
    ensures var t := Run(s, [RemoveInvalid(key)] + Publication(id, key, pid, stream, length, counts));
      && id in t.publishers && t.publishers[id].phase == Returned(Won)
      && Blob(key) in t.dir && t.dir[Blob(key)] in t.inodes
      && t.inodes[t.dir[Blob(key)]].content == CacheHeader(key, length) + stream[..length]
  {
    hide Good, Next, TargetOf, CacheHeader, Run, Publication;
    RemovedExactly(s, key);
    NextKeeps(s, RemoveInvalid(key));
    UndisturbedPublishes(Next(s, RemoveInvalid(key)), id, key, pid, stream, length, counts);
    FirstStep(s, RemoveInvalid(key), Publication(id, key, pid, stream, length, counts));
  }

  /** A process that dies takes its publishers and readers along, except for what has returned, and no file. */
  lemma KilledExactly(s: State, pid: nat)
    ensures var t := Next(s, Kill(pid));
      && t.inodes == s.inodes && t.dir == s.dir
      && t.publishers.Keys == s.publishers.Keys && t.readers.Keys == s.readers.Keys
      && (forall id :: id in s.publishers ==>
            SameJob(s.publishers[id], t.publishers[id]) && t.publishers[id].phase ==
              if Working(s.publishers[id]) && s.publishers[id].pid == pid then Dead else s.publishers[id].phase)
      && (forall id :: id in s.readers ==>
            t.readers[id].view == if s.readers[id].pid == pid then Gone else s.readers[id].view)
  {
  }

  /** A power loss may take a blob's name, but never a part of its content, and ends every process. */
  lemma LossKeepsBlobs(s: State, kept: set<Name>, cuts: map<nat, nat>, key: Key)
    requires Good(s) && Blob(key) in s.dir
    ensures var t := Next(s, PowerLoss(kept, cuts));
      && (Blob(key) in t.dir <==> Blob(key) in kept)
      && (Blob(key) in kept ==>
            && s.dir[Blob(key)] in s.inodes && t.dir[Blob(key)] in t.inodes
            && t.inodes[t.dir[Blob(key)]] == s.inodes[s.dir[Blob(key)]])
      && (forall id :: id in t.publishers ==> !Working(t.publishers[id]))
      && (forall id :: id in t.readers ==> t.readers[id].view == Gone)
  {
    hide PhaseOk, Separate, OncePerPeriod, IsFile, ReaderOk, TargetOf;
    var w :| IsWriter(s, w, key, s.dir[Blob(key)]) && s.publishers[w].linked == Some(Period(s, key));
    assert LinkOk(s, s.publishers[w]);
  }
}
