/** What a publisher is told, and what a publisher that fails leaves behind for later ones. */
module BlobOutcome {
  import opened Prelude
  import opened Framing
  import opened BlobCache

  /** What a publisher finds where a name decides its outcome. */
  datatype Meeting = TakenBlob | TakenTemporary | Linked

  function StepMeets(s: State, a: Action, id: nat): seq<Meeting> {
    if id !in s.publishers then []
    else
      var p := s.publishers[id];
      if a == Check(id) && p.phase.Checking? && Blob(p.key) in s.dir then [TakenBlob]
      else if a == Create(id) && p.phase.Creating? && Temporary(p.key, p.pid) in s.dir then [TakenTemporary]
      else if a == Link(id) && p.phase.Linking? then [if Blob(p.key) in s.dir then TakenBlob else Linked]
      else []
  }

  function Meets(s: State, actions: seq<Action>, id: nat): seq<Meeting>
    decreases |actions|
  {
    if actions == [] then [] else StepMeets(s, actions[0], id) + Meets(Next(s, actions[0]), actions[1..], id)
  }

  predicate Told(phase: Phase, met: seq<Meeting>) {
    match phase
    case Unlinking(won) => met == [if won then Linked else TakenBlob]
    case Returned(Won) => met == [Linked]
    case Returned(Lost) => met == [TakenBlob] || met == [TakenTemporary]
    case Returned(Failed) => |met| <= 1
    case Dead => |met| <= 1
    case _ => met == []
  }

  predicate ToldSoFar(s: State, id: nat, met: seq<Meeting>) {
    if id in s.publishers then Told(s.publishers[id].phase, met) else met == []
  }

  predicate Alike(p: Publisher, q: Publisher) {
    p.key == q.key && p.pid == q.pid
  }

  /** The steps of one publisher. */
  predicate OnPublisher(a: Action) {
    a.Check? || a.Create? || a.Write? || a.Finish? || a.Sync? || a.Link? || a.Unlink? || a.Fail?
  }

  lemma OthersKept(s: State, a: Action, id: nat, t: nat)
    requires t != id
    ensures t in PublisherStep(s, a, id).publishers <==> t in s.publishers
    ensures t in s.publishers ==> PublisherStep(s, a, id).publishers[t] == s.publishers[t]
  {
    hide PublisherStep;
    if a.Check? || a.Create? || a.Link? {
      OthersKeptByNames(s, a, id, t);
    } else {
      OthersKeptQuietly(s, a, id, t);
    }
  }

  lemma OthersKeptByNames(s: State, a: Action, id: nat, t: nat)
    requires t != id && (a.Check? || a.Create? || a.Link?)
    ensures t in PublisherStep(s, a, id).publishers <==> t in s.publishers
    ensures t in s.publishers ==> PublisherStep(s, a, id).publishers[t] == s.publishers[t]
  {
    hide Period, WriteStep, FinishStep, SyncStep, UnlinkStep, FailStep;
  }

  lemma OthersKeptQuietly(s: State, a: Action, id: nat, t: nat)
    requires t != id && !a.Check? && !a.Create? && !a.Link?
    ensures t in PublisherStep(s, a, id).publishers <==> t in s.publishers
    ensures t in s.publishers ==> PublisherStep(s, a, id).publishers[t] == s.publishers[t]
  {
    hide TargetOf, Unlinked, CheckStep, CreateStep, LinkStep;
  }

  /** A publisher keeps its key, and remembers that it linked its file. */
  predicate Remembered(p: Publisher, q: Publisher) {
    Alike(p, q) && (p.linked.Some? ==> q.linked.Some?)
  }

  /** A publisher's own step keeps what it is, and links its file only under its key's name. */
  lemma OwnStep(s: State, a: Action, id: nat)
    requires id in s.publishers
    ensures id in PublisherStep(s, a, id).publishers
    ensures var p, q := s.publishers[id], PublisherStep(s, a, id).publishers[id];
      Remembered(p, q) && (p.linked.None? && q.linked.Some? ==> Blob(q.key) in PublisherStep(s, a, id).dir)
  {
    hide PublisherStep;
    if a.Check? || a.Create? || a.Link? {
      OwnNamesStep(s, a, id);
    } else {
      OwnQuietStep(s, a, id);
    }
  }

  lemma OwnNamesStep(s: State, a: Action, id: nat)
    requires id in s.publishers && (a.Check? || a.Create? || a.Link?)
    ensures id in PublisherStep(s, a, id).publishers
    ensures var p, q := s.publishers[id], PublisherStep(s, a, id).publishers[id];
      Remembered(p, q) && (p.linked.None? && q.linked.Some? ==> Blob(q.key) in PublisherStep(s, a, id).dir)
  {
    hide CheckStep, CreateStep, LinkStep, WriteStep, FinishStep, SyncStep, UnlinkStep, FailStep;
    OwnCheck(s, id, s.publishers[id]);
    OwnCreate(s, id, s.publishers[id]);
    OwnLink(s, id, s.publishers[id]);
  }

  lemma OwnCheck(s: State, id: nat, p: Publisher)
    ensures var t := CheckStep(s, id, p);
      id in t.publishers && Alike(p, t.publishers[id]) && t.publishers[id].linked == p.linked
  {
  }

  lemma OwnCreate(s: State, id: nat, p: Publisher)
    ensures var t := CreateStep(s, id, p);
      id in t.publishers && Alike(p, t.publishers[id]) && t.publishers[id].linked == p.linked
  {
  }

  lemma OwnLink(s: State, id: nat, p: Publisher)
    ensures var t := LinkStep(s, id, p);
      && id in t.publishers && Remembered(p, t.publishers[id])
      && (p.linked.None? && t.publishers[id].linked.Some? ==> Blob(p.key) in t.dir)
  {
  }

  lemma OwnQuietStep(s: State, a: Action, id: nat)
    requires id in s.publishers && !a.Check? && !a.Create? && !a.Link?
    ensures id in PublisherStep(s, a, id).publishers
    ensures var p, q := s.publishers[id], PublisherStep(s, a, id).publishers[id];
      Alike(p, q) && q.linked == p.linked
  {
    hide TargetOf, Unlinked, CheckStep, CreateStep, LinkStep;
  }

  lemma StepTold(s: State, a: Action, id: nat, met: seq<Meeting>)
    requires Good(s) && ToldSoFar(s, id, met)
    ensures ToldSoFar(Next(s, a), id, met + StepMeets(s, a, id))
  {
    hide Good, PublisherStep, Validated, Told;
    assert met + [] == met;
    match a
    case StartPublish(_, _, _, _, _) => ToldAtFirst(s, a, id, met);
    case StartRead(_, _, _) =>
    case Open(_) =>
    case Validate(_) =>
    case RemoveInvalid(_) =>
    case Kill(_) => KilledTold(s, id, met);
    case PowerLoss(_, _) => KilledTold(s, id, met);
    case _ =>
      if a.id == id {
        PublisherTold(s, a, id, met);
      } else {
        OthersKept(s, a, a.id, id);
      }
  }

  lemma ToldAtFirst(s: State, a: Action, id: nat, met: seq<Meeting>)
    requires a.StartPublish? && ToldSoFar(s, id, met)
    ensures ToldSoFar(Next(s, a), id, met)
  {
  }

  lemma KilledTold(s: State, id: nat, met: seq<Meeting>)
    requires ToldSoFar(s, id, met)
    ensures id in s.publishers ==> Told(Killed(s.publishers[id]).phase, met)
  {
  }

  lemma PublisherTold(s: State, a: Action, id: nat, met: seq<Meeting>)
    requires Good(s) && ToldSoFar(s, id, met) && OnPublisher(a) && a.id == id
    ensures ToldSoFar(PublisherStep(s, a, id), id, met + StepMeets(s, a, id))
  {
    hide Good, PublisherStep;
    if id !in s.publishers {
      assert met + [] == met;
      NoPublisher(s, a, id);
    } else if a.Check? || a.Create? || a.Link? {
      GoodFor(s, id);
      NamesTold(s, a, id, met);
    } else {
      GoodFor(s, id);
      QuietTold(s, a, id, met);
    }
  }

  lemma NamesTold(s: State, a: Action, id: nat, met: seq<Meeting>)
    requires id in s.publishers && PhaseOk(s, s.publishers[id]) && ToldSoFar(s, id, met)
    requires (a.Check? || a.Create? || a.Link?) && a.id == id
    ensures ToldSoFar(PublisherStep(s, a, id), id, met + StepMeets(s, a, id))
  {
    hide TargetOf, IsFile, Unlinked, Period, WriteStep, FinishStep, SyncStep, UnlinkStep, FailStep;
    assert met + [] == met;
  }

  lemma QuietTold(s: State, a: Action, id: nat, met: seq<Meeting>)
    requires id in s.publishers && PhaseOk(s, s.publishers[id]) && ToldSoFar(s, id, met)
    requires a.Write? || a.Finish? || a.Sync? || a.Unlink? || a.Fail?
    ensures ToldSoFar(PublisherStep(s, a, id), id, met + StepMeets(s, a, id))
  {
    hide TargetOf, IsFile, Unlinked, Period, CheckStep, CreateStep, LinkStep;
    assert met + [] == met;
  }

  lemma {:induction false} RunTold(s: State, actions: seq<Action>, id: nat, met: seq<Meeting>)
    requires Good(s) && ToldSoFar(s, id, met)
    ensures ToldSoFar(Run(s, actions), id, met + Meets(s, actions, id))
    decreases |actions|
  {
    hide Good, Next, ToldSoFar, StepMeets;
    if actions == [] {
      assert met + [] == met;
    } else {
      NextKeeps(s, actions[0]);
      StepTold(s, actions[0], id, met);
      RunTold(Next(s, actions[0]), actions[1..], id, met + StepMeets(s, actions[0], id));
      Reassociate(met, StepMeets(s, actions[0], id), Meets(Next(s, actions[0]), actions[1..], id));
    }
  }

  /** In every run a publisher that returns is told that it published exactly when it linked its file into a free name,
      and that it did not exactly when it met the key's blob, or a temporary file of its key and process id. */
  lemma OutcomeExactly(actions: seq<Action>, id: nat)
    requires id in Run(Initial, actions).publishers
    requires Run(Initial, actions).publishers[id].phase in {Returned(Won), Returned(Lost)}
    ensures var phase, met := Run(Initial, actions).publishers[id].phase, Meets(Initial, actions, id);
      && (phase == Returned(Won) <==> met == [Linked])
      && (phase == Returned(Lost) <==> met == [TakenBlob] || met == [TakenTemporary])
  {
    hide Run, Meets, Good;
    InitialGood();
    RunTold(Initial, actions, id, []);
    assert [] + Meets(Initial, actions, id) == Meets(Initial, actions, id);
  }

  // What the documentation takes `false` for.

  /** At some moment of the run the key's blob could be seen. */
  ghost predicate EverVisible(s: State, actions: seq<Action>, key: Key) {
    exists k :: 0 <= k <= |actions| && Blob(key) in Run(s, actions[..k]).dir
  }

  /** Some publisher made its file the key's blob. */
  ghost predicate EverLinked(s: State, key: Key) {
    exists t :: t in s.publishers && s.publishers[t].key == key && s.publishers[t].linked.Some?
  }

  lemma VisibleLater(s: State, actions: seq<Action>, key: Key)
    requires actions != [] && EverVisible(Next(s, actions[0]), actions[1..], key)
    ensures EverVisible(s, actions, key)
  {
    hide Next;
    var k :| 0 <= k <= |actions| - 1 && Blob(key) in Run(Next(s, actions[0]), actions[1..][..k]).dir;
    assert actions[..k + 1][0] == actions[0] && actions[..k + 1][1..] == actions[1..][..k];
    assert Blob(key) in Run(s, actions[..k + 1]).dir;
  }

  lemma VisibleNow(s: State, actions: seq<Action>, key: Key)
    requires Blob(key) in s.dir
    ensures EverVisible(s, actions, key)
  {
    hide Next;
    assert Run(s, actions[..0]) == s;
  }

  lemma StepRemembers(s: State, a: Action, t: nat)
    requires t in s.publishers
    ensures t in Next(s, a).publishers && Remembered(s.publishers[t], Next(s, a).publishers[t])
  {
    hide PublisherStep, Validated;
    if OnPublisher(a) {
      NextIsItsStep(s, a);
      if a.id == t {
        OwnStep(s, a, t);
      } else {
        OthersKept(s, a, a.id, t);
      }
    }
  }

  lemma {:induction false} RunRemembers(s: State, actions: seq<Action>, t: nat)
    requires t in s.publishers
    ensures t in Run(s, actions).publishers && Remembered(s.publishers[t], Run(s, actions).publishers[t])
    decreases |actions|
  {
    hide Next;
    if actions != [] {
      StepRemembers(s, actions[0], t);
      RunRemembers(Next(s, actions[0]), actions[1..], t);
    }
  }

  lemma {:induction false} TakenIsVisible(s: State, actions: seq<Action>, id: nat)
    requires TakenBlob in Meets(s, actions, id)
    ensures id in Run(s, actions).publishers && EverVisible(s, actions, Run(s, actions).publishers[id].key)
    decreases |actions|
  {
    hide Next, EverVisible;
    if actions != [] {
      if TakenBlob in StepMeets(s, actions[0], id) {
        RunRemembers(s, actions, id);
        VisibleNow(s, actions, s.publishers[id].key);
      } else {
        TakenIsVisible(Next(s, actions[0]), actions[1..], id);
        VisibleLater(s, actions, Run(s, actions).publishers[id].key);
      }
    }
  }

  lemma StepLinks(s: State, a: Action, t: nat)
    requires t in Next(s, a).publishers && Next(s, a).publishers[t].linked.Some?
    requires t in s.publishers ==> s.publishers[t].linked.None?
    ensures Blob(Next(s, a).publishers[t].key) in Next(s, a).dir
  {
    hide PublisherStep, Validated;
    if OnPublisher(a) {
      NextIsItsStep(s, a);
      if a.id == t {
        if t in s.publishers {
          OwnStep(s, a, t);
        } else {
          NoPublisher(s, a, t);
        }
      } else {
        OthersKept(s, a, a.id, t);
      }
    }
  }

  lemma {:induction false} LinkedIsVisible(s: State, actions: seq<Action>, t: nat)
    requires t in Run(s, actions).publishers && Run(s, actions).publishers[t].linked.Some?
    requires t in s.publishers ==> s.publishers[t].linked.None?
    ensures EverVisible(s, actions, Run(s, actions).publishers[t].key)
    decreases |actions|
  {
    hide Next, EverVisible;
    if actions != [] {
      var next := Next(s, actions[0]);
      if t in next.publishers && next.publishers[t].linked.Some? {
        StepLinks(s, actions[0], t);
        RunRemembers(next, actions[1..], t);
        VisibleNow(next, actions[1..], next.publishers[t].key);
      } else {
        LinkedIsVisible(next, actions[1..], t);
      }
      VisibleLater(s, actions, Run(s, actions).publishers[t].key);
    }
  }

  /** In every run a key's blob can be seen at some moment exactly when some publisher has linked its file. */
  lemma VisibleExactly(actions: seq<Action>, key: Key)
    ensures EverVisible(Initial, actions, key) <==> EverLinked(Run(Initial, actions), key)
  {
    hide Run, Next;
    if k :| 0 <= k <= |actions| && Blob(key) in Run(Initial, actions[..k]).dir {
      var seen := Run(Initial, actions[..k]);
      InitialGood();
      RunKeeps(Initial, actions[..k]);
      var t := WriterOf(seen, key);
      assert actions == actions[..k] + actions[k..];
      RunConcat(Initial, actions[..k], actions[k..]);
      RunRemembers(seen, actions[k..], t);
    }
    if EverLinked(Run(Initial, actions), key) {
      var s := Run(Initial, actions);
      var t :| t in s.publishers && s.publishers[t].key == key && s.publishers[t].linked.Some?;
      LinkedIsVisible(Initial, actions, t);
    }
  }

  lemma WriterOf(s: State, key: Key) returns (t: nat)
    requires Good(s) && Blob(key) in s.dir
    ensures t in s.publishers && s.publishers[t].key == key && s.publishers[t].linked.Some?
  {
    hide PhaseOk, LinkOk, Separate, OncePerPeriod, Allocated;
    t :| IsWriter(s, t, key, s.dir[Blob(key)]) && s.publishers[t].linked == Some(Period(s, key));
  }

  /** A publisher told that its key has been published was told the truth, the blob having been there to see, unless it
      met a temporary file and nobody had linked that key; and then the key was never visible at all. */
  lemma ToldTheTruthExactly(actions: seq<Action>, id: nat)
    requires id in Run(Initial, actions).publishers
    requires Run(Initial, actions).publishers[id].phase == Returned(Lost)
    ensures var s := Run(Initial, actions);
      var key := s.publishers[id].key;
      && (Meets(Initial, actions, id) == [TakenBlob] ==> EverVisible(Initial, actions, key))
      && (!EverVisible(Initial, actions, key) <==>
            Meets(Initial, actions, id) == [TakenTemporary] && !EverLinked(s, key))
  {
    hide Run, Meets, EverVisible, EverLinked;
    OutcomeExactly(actions, id);
    VisibleExactly(actions, Run(Initial, actions).publishers[id].key);
    if Meets(Initial, actions, id) == [TakenBlob] {
      assert TakenBlob in Meets(Initial, actions, id);
      TakenIsVisible(Initial, actions, id);
    }
  }

  // Files left behind.

  /** A temporary file that nobody is working on. */
  ghost predicate LeftBehind(s: State, key: Key, pid: nat) {
    && Temporary(key, pid) in s.dir
    && forall t :: t in s.publishers && s.publishers[t].key == key && s.publishers[t].pid == pid ==>
         !Active(s.publishers[t])
  }

  /** The steps that end a publisher's work and take its temporary file away. */
  predicate TidiesUp(s: State, a: Action, id: nat)
    requires id in s.publishers
  {
    var p := s.publishers[id];
    match a
    case Unlink(_) => true
    case Fail(_, removed) => p.phase.Linking? && removed
    case PowerLoss(kept, _) => Temporary(p.key, p.pid) !in kept
    case _ => false
  }

  lemma OneAtWork(s: State, t: nat, u: nat)
    requires Good(s) && t in s.publishers && u in s.publishers && Active(s.publishers[t]) && Active(s.publishers[u])
    requires s.publishers[t].key == s.publishers[u].key && s.publishers[t].pid == s.publishers[u].pid
    ensures t == u
  {
    hide IsFile, TargetOf, LinkOk, OncePerPeriod, BlobsWritten, Allocated;
    assert PhaseOk(s, s.publishers[t]) && PhaseOk(s, s.publishers[u]);
  }

  lemma NameKept(s: State, a: Action, id: nat, n: Name)
    requires n in s.dir && n.Temporary? && id in s.publishers
    requires OnPublisher(a)
    ensures n !in PublisherStep(s, a, id).dir <==>
      && Active(s.publishers[id]) && !Active(PublisherStep(s, a, id).publishers[id]) && TidiesUp(s, a, id)
      && n == Temporary(s.publishers[id].key, s.publishers[id].pid)
  {
  }

  /** A publisher that has not got its temporary file does not get one while the name is taken. */
  lemma Blocked(s: State, a: Action, id: nat)
    requires id in s.publishers && !Active(s.publishers[id])
    requires Temporary(s.publishers[id].key, s.publishers[id].pid) in s.dir
    ensures var p, q := s.publishers[id], PublisherStep(s, a, id).publishers[id];
      !Active(q) && (q.phase == Returned(Won) ==> p.phase == Returned(Won))
  {
  }

  /** A publisher that stops working on its temporary file, for whatever reason, leaves it behind exactly when the step
      that stopped it is neither its last one nor a failed link that tidied up nor a power loss that took the name. */
  lemma LeftBehindExactly(s: State, a: Action, id: nat)
    requires Good(s) && id in s.publishers && Active(s.publishers[id])
    requires id in Next(s, a).publishers && !Active(Next(s, a).publishers[id])
    ensures LeftBehind(Next(s, a), s.publishers[id].key, s.publishers[id].pid) <==> !TidiesUp(s, a, id)
  {
    hide Good, Next, LeftBehind;
    GoodFor(s, id);
    forall t | t in s.publishers && t != id && Alike(s.publishers[t], s.publishers[id])
      ensures !Active(s.publishers[t])
    {
      if Active(s.publishers[t]) { OneAtWork(s, id, t); }
    }
    if OnPublisher(a) {
      NextIsItsStep(s, a);
      StoppedItself(s, a, id);
    } else if a.Kill? {
      KilledLeaves(s, a.pid, id);
    } else if a.PowerLoss? {
      PowerLossLeaves(s, a.kept, a.cuts, id);
    } else {
      NoPublisherMoves(s, a, id);
    }
  }

  lemma NextIsItsStep(s: State, a: Action)
    requires OnPublisher(a)
    ensures Next(s, a) == PublisherStep(s, a, a.id)
  {
    hide PublisherStep;
  }

  lemma NoPublisherMoves(s: State, a: Action, id: nat)
    requires !OnPublisher(a) && !a.Kill? && !a.PowerLoss? && id in s.publishers
    ensures id in Next(s, a).publishers && Next(s, a).publishers[id] == s.publishers[id]
  {
    hide Validated;
  }

  /** A file left behind stays, whatever runs, until power loss: no publisher of its key and process id gets past it, so
      none of them publishes. */
  lemma {:induction false} LeftBehindBlocks(s: State, actions: seq<Action>, key: Key, pid: nat, t: nat)
    requires LeftBehind(s, key, pid)
    requires forall a :: a in actions ==> !a.PowerLoss?
    ensures LeftBehind(Run(s, actions), key, pid)
    ensures WonBy(Run(s, actions), key, pid, t) ==> WonBy(s, key, pid, t)
    decreases |actions|
  {
    hide LeftBehind, Next, WonBy;
    if actions != [] {
      StepBlocked(s, actions[0], key, pid, t);
      LeftBehindBlocks(Next(s, actions[0]), actions[1..], key, pid, t);
    }
  }

  predicate WonBy(s: State, key: Key, pid: nat, t: nat) {
    t in s.publishers && s.publishers[t].key == key && s.publishers[t].pid == pid &&
      s.publishers[t].phase == Returned(Won)
  }

  lemma StepBlocked(s: State, a: Action, key: Key, pid: nat, t: nat)
    requires LeftBehind(s, key, pid) && !a.PowerLoss?
    ensures LeftBehind(Next(s, a), key, pid)
    ensures WonBy(Next(s, a), key, pid, t) ==> WonBy(s, key, pid, t)
  {
    hide PublisherStep, Validated;
    match a
    case StartPublish(_, _, _, _, _) =>
    case StartRead(_, _, _) =>
    case Open(_) =>
    case Validate(_) =>
    case RemoveInvalid(_) =>
    case Kill(_) =>
    case PowerLoss(_, _) =>
    case _ => PublisherBlocked(s, a, a.id, key, pid, t);
  }

  lemma PublisherBlocked(s: State, a: Action, id: nat, key: Key, pid: nat, t: nat)
    requires LeftBehind(s, key, pid) && OnPublisher(a)
    ensures LeftBehind(PublisherStep(s, a, id), key, pid)
    ensures WonBy(PublisherStep(s, a, id), key, pid, t) ==> WonBy(s, key, pid, t)
  {
    hide PublisherStep, TidiesUp;
    forall u | u != id
      ensures u in PublisherStep(s, a, id).publishers <==> u in s.publishers
      ensures u in s.publishers ==> PublisherStep(s, a, id).publishers[u] == s.publishers[u]
    {
      OthersKept(s, a, id, u);
    }
    if id in s.publishers {
      OwnStep(s, a, id);
      NameKept(s, a, id, Temporary(key, pid));
      if s.publishers[id].key == key && s.publishers[id].pid == pid {
        Blocked(s, a, id);
      }
    } else {
      NoPublisher(s, a, id);
    }
  }

  lemma NoPublisher(s: State, a: Action, id: nat)
    requires id !in s.publishers
    ensures PublisherStep(s, a, id) == s
  {
  }

  /** Nobody else works on the publisher's temporary file, which is there. */
  predicate WorksAlone(s: State, id: nat)
    requires id in s.publishers
  {
    && Temporary(s.publishers[id].key, s.publishers[id].pid) in s.dir
    && forall t ::
         t in s.publishers && t != id && Alike(s.publishers[t], s.publishers[id]) ==> !Active(s.publishers[t])
  }

  lemma KilledLeaves(s: State, pid: nat, id: nat)
    requires id in s.publishers && WorksAlone(s, id)
    requires id in Next(s, Kill(pid)).publishers && !Active(Next(s, Kill(pid)).publishers[id])
    ensures LeftBehind(Next(s, Kill(pid)), s.publishers[id].key, s.publishers[id].pid)
  {
  }

  lemma PowerLossLeaves(s: State, kept: set<Name>, cuts: map<nat, nat>, id: nat)
    requires id in s.publishers && WorksAlone(s, id)
    ensures LeftBehind(Next(s, PowerLoss(kept, cuts)), s.publishers[id].key, s.publishers[id].pid) <==>
      Temporary(s.publishers[id].key, s.publishers[id].pid) in kept
  {
  }

  lemma StoppedItself(s: State, a: Action, id: nat)
    requires id in s.publishers && Active(s.publishers[id]) && OnPublisher(a) && WorksAlone(s, id)
    requires id in PublisherStep(s, a, a.id).publishers && !Active(PublisherStep(s, a, a.id).publishers[id])
    ensures LeftBehind(PublisherStep(s, a, a.id), s.publishers[id].key, s.publishers[id].pid) <==> !TidiesUp(s, a, id)
  {
    hide PublisherStep, TidiesUp;
    if a.id != id {
      OthersKept(s, a, a.id, id);
    } else {
      OwnStep(s, a, id);
      NameKept(s, a, id, Temporary(s.publishers[id].key, s.publishers[id].pid));
      forall u | u != id
        ensures u in PublisherStep(s, a, id).publishers <==> u in s.publishers
        ensures u in s.publishers ==> PublisherStep(s, a, id).publishers[u] == s.publishers[u]
      {
        OthersKept(s, a, id, u);
      }
    }
  }

  /** A process dies before it has written its file. */
  function Dying(key: Key, pid: nat, stream: seq<Byte>, length: Length): seq<Action> {
    [StartPublish(0, key, pid, stream, length), Check(0), Create(0), Kill(pid)]
  }

  /** A process publishes until it has to create its temporary file. */
  function Retrying(key: Key, pid: nat, stream: seq<Byte>, length: Length): seq<Action> {
    [StartPublish(1, key, pid, stream, length), Check(1), Create(1)]
  }

  lemma DyingLeaves(key: Key, pid: nat, stream: seq<Byte>, length: Length)
    ensures var s := Run(Initial, Dying(key, pid, stream, length)); Temporary(key, pid) in s.dir && 1 !in s.publishers
  {
    hide TargetOf, Unlinked, Period;
    var actions := Dying(key, pid, stream, length);
    var s := Next(Next(Initial, actions[0]), actions[1]);
    assert s.publishers[0].phase == Creating;
    var t := Next(s, actions[2]);
    assert Run(Initial, actions) == Run(s, actions[2..]) == Run(t, actions[3..]) == Next(t, actions[3]) by {
      assert actions[1..][1..] == actions[2..] && actions[2..][1..] == actions[3..] && actions[3..][1..] == [];
    }
  }

  lemma RetryingLoses(s: State, key: Key, pid: nat, stream: seq<Byte>, length: Length)
    requires Temporary(key, pid) in s.dir && Blob(key) !in s.dir && 1 !in s.publishers
    ensures var t := Run(s, Retrying(key, pid, stream, length));
      1 in t.publishers && t.publishers[1].phase == Returned(Lost)
  {
    hide TargetOf, Unlinked, Period;
    var actions := Retrying(key, pid, stream, length);
    var t := Next(Next(s, actions[0]), actions[1]);
    assert t.publishers[1].phase == Creating && t.dir == s.dir;
    assert Run(s, actions) == Run(t, actions[2..]) == Next(t, actions[2]) by {
      assert actions[1..][1..] == actions[2..] && actions[2..][1..] == [];
    }
  }

  lemma {:induction false} RunConcat(s: State, a: seq<Action>, b: seq<Action>)
    ensures Run(s, a + b) == Run(Run(s, a), b)
    decreases |a|
  {
    hide Next;
    if a == [] {
      assert a + b == b;
    } else {
      assert (a + b)[1..] == a[1..] + b;
      RunConcat(Next(s, a[0]), a[1..], b);
    }
  }

  /** So a publisher can be told that its key has been published when it never has: a process dies while it writes, and
      the next one with its id meets the file it left. */
  lemma LostToNobody(key: Key, pid: nat, stream: seq<Byte>, length: Length)
    ensures var actions := Dying(key, pid, stream, length) + Retrying(key, pid, stream, length);
      && 1 in Run(Initial, actions).publishers && Run(Initial, actions).publishers[1].phase == Returned(Lost)
      && forall k :: 0 <= k <= |actions| ==> Blob(key) !in Run(Initial, actions[..k]).dir
  {
    hide Run, Dying, Retrying;
    var dying, retrying := Dying(key, pid, stream, length), Retrying(key, pid, stream, length);
    NoLinks(key, pid, stream, length);
    forall k | 0 <= k <= |dying + retrying| ensures Blob(key) !in Run(Initial, (dying + retrying)[..k]).dir {
      NoBlobWithoutLink((dying + retrying)[..k], key, Initial);
    }
    NoBlobWithoutLink(dying, key, Initial);
    DyingLeaves(key, pid, stream, length);
    RetryingLoses(Run(Initial, dying), key, pid, stream, length);
    RunConcat(Initial, dying, retrying);
  }

  lemma NoLinks(key: Key, pid: nat, stream: seq<Byte>, length: Length)
    ensures forall a :: a in Dying(key, pid, stream, length) + Retrying(key, pid, stream, length) ==> !a.Link?
  {
  }

  lemma {:induction false} NoBlobWithoutLink(actions: seq<Action>, key: Key, s: State)
    requires Blob(key) !in s.dir && forall a :: a in actions ==> !a.Link?
    ensures Blob(key) !in Run(s, actions).dir
    decreases |actions|
  {
    hide Next;
    if actions != [] {
      NoBlobStep(s, actions[0], key);
      NoBlobWithoutLink(actions[1..], key, Next(s, actions[0]));
    }
  }

  lemma NoBlobStep(s: State, a: Action, key: Key)
    requires Blob(key) !in s.dir && !a.Link?
    ensures Blob(key) !in Next(s, a).dir
  {
  }
}
