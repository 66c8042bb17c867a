/** Any number of installers sharing one cache directory. An operating-system lock, released
    when its owner ends in any way, admits one of them at a time to the archives. */
module InstallerLock {
  import opened Wrappers

  type Bytes = string

  type Hash = Bytes -> string

  datatype Arch = X64 | Arm64

  /** The pinned digest of each archive. */
  type Pins = Arch -> string

  /** Where an installer stands, with the archives it still has to provide. */
  datatype Phase =
    | Waiting
    | Providing(todo: seq<Arch>)
    | Fetching(arch: Arch, todo: seq<Arch>)
    | Checked(arch: Arch, todo: seq<Arch>)
    | Ended

  /** The cache directory and the installers. `completed` lists the downloads that finished. */
  datatype World = World(
    owner: Option<nat>,
    phases: map<nat, Phase>,
    partials: map<Arch, Bytes>,
    archives: map<Arch, Bytes>,
    completed: seq<Arch>)

  const EMPTY_CACHE := World(None, map[], map[], map[], [])

  /** The steps an installer may take; `Write` stands for any effect a download attempt has on
      its partial file, and `End` for returning, raising, timing out or being killed. */
  datatype Event =
    | Acquire(who: nat, todo: seq<Arch>)
    | Look(who: nat)
    | Write(who: nat, content: Bytes)
    | Unlink(who: nat)
    | Verify(who: nat)
    | Replace(who: nat)
    | End(who: nat)

  function PhaseOf(w: World, who: nat): Phase { if who in w.phases then w.phases[who] else Waiting }

  predicate Critical(phase: Phase) { phase.Providing? || phase.Fetching? || phase.Checked? }

  predicate Owns(w: World, who: nat) { w.owner == Some(who) }

  function Become(w: World, who: nat, phase: Phase): World { w.(phases := w.phases[who := phase]) }

  function Finish(w: World, who: nat): World {
    Become(w.(owner := if Owns(w, who) then None else w.owner), who, Ended)
  }

  /** One step; an installer that is not ready for it does nothing. */
  function Step(hash: Hash, pins: Pins, w: World, event: Event): World {
    var who := event.who;
    var phase := PhaseOf(w, who);
    match event
    case Acquire(_, todo) =>
      if phase.Waiting? && w.owner.None?
      then Become(w.(owner := Some(who)), who, Providing(todo))
      else w
    case Look(_) =>
      if !phase.Providing? || phase.todo == [] then w else
        var arch := phase.todo[0];
        if arch !in w.archives then Become(w.(partials := w.partials - {arch}), who, Fetching(arch, phase.todo[1..]))
        else if hash(w.archives[arch]) == pins(arch) then Become(w, who, Providing(phase.todo[1..]))
        else Finish(w, who)
    case Write(_, content) =>
      if phase.Fetching? then w.(partials := w.partials[phase.arch := content]) else w
    case Unlink(_) =>
      if phase.Fetching? then w.(partials := w.partials - {phase.arch}) else w
    case Verify(_) =>
      if phase.Fetching? && phase.arch in w.partials && hash(w.partials[phase.arch]) == pins(phase.arch)
      then Become(w, who, Checked(phase.arch, phase.todo))
      else w
    case Replace(_) =>
      if phase.Checked? && phase.arch in w.partials
      then Become(w.(archives := w.archives[phase.arch := w.partials[phase.arch]],
                     partials := w.partials - {phase.arch},
                     completed := w.completed + [phase.arch]), who, Providing(phase.todo))
      else w
    case End(_) => Finish(w, who)
  }

  function Run(hash: Hash, pins: Pins, events: seq<Event>): World {
    if events == [] then EMPTY_CACHE
    else Step(hash, pins, Run(hash, pins, events[..|events| - 1]), events[|events| - 1])
  }

  // ----- the invariant -----

  /** What an installer inside the lock may rely on until its own next step. */
  ghost predicate Trusts(hash: Hash, pins: Pins, w: World, phase: Phase) {
    match phase
    case Fetching(arch, _) => arch !in w.archives
    case Checked(arch, _) => arch !in w.archives && arch in w.partials && hash(w.partials[arch]) == pins(arch)
    case _ => true
  }

  ghost predicate Sound(hash: Hash, pins: Pins, w: World) {
    && (forall who :: Critical(PhaseOf(w, who)) ==> Owns(w, who))
    && (forall who :: Trusts(hash, pins, w, PhaseOf(w, who)))
    && (forall arch :: arch in w.archives ==> hash(w.archives[arch]) == pins(arch))
    && (forall arch :: arch in w.archives <==> arch in w.completed)
    && (forall i, j :: 0 <= i < j < |w.completed| ==> w.completed[i] != w.completed[j])
  }

  lemma {:induction false} OthersWait(hash: Hash, pins: Pins, w: World, who: nat, other: nat)
    requires Sound(hash, pins, w) && Critical(PhaseOf(w, who)) && other != who
    ensures !Critical(PhaseOf(w, other))
  {
    assert Owns(w, who);
  }

  lemma {:induction false} OnlyOneMoves(hash: Hash, pins: Pins, w: World, w': World, who: nat)
    requires Sound(hash, pins, w)
    requires forall other :: other != who ==> PhaseOf(w', other) == PhaseOf(w, other)
    requires Critical(PhaseOf(w, who)) || w.owner.None?
    requires Critical(PhaseOf(w', who)) ==> Owns(w', who)
    requires Trusts(hash, pins, w', PhaseOf(w', who))
    ensures forall other :: Critical(PhaseOf(w', other)) ==> Owns(w', other)
    ensures forall other :: Trusts(hash, pins, w', PhaseOf(w', other))
  {
    forall other | other != who ensures !Critical(PhaseOf(w, other)) {
      if Critical(PhaseOf(w, who)) {
        OthersWait(hash, pins, w, who, other);
      }
    }
  }

  lemma {:induction false} FinishSound(hash: Hash, pins: Pins, w: World, who: nat)
    requires Sound(hash, pins, w)
    ensures Sound(hash, pins, Finish(w, who))
  {
    var w' := Finish(w, who);
    forall other | other != who ensures PhaseOf(w', other) == PhaseOf(w, other) {
    }
    forall other ensures Critical(PhaseOf(w', other)) ==> Owns(w', other)
                 ensures Trusts(hash, pins, w', PhaseOf(w', other))
    {
      assert Trusts(hash, pins, w, PhaseOf(w, other));
    }
  }

  lemma {:induction false} StepSound(hash: Hash, pins: Pins, w: World, event: Event)
    requires Sound(hash, pins, w)
    ensures Sound(hash, pins, Step(hash, pins, w, event))
  {
    var who := event.who;
    var w' := Step(hash, pins, w, event);
    assert Trusts(hash, pins, w, PhaseOf(w, who));
    if event.End? || (w' != w && PhaseOf(w', who).Ended?) {
      FinishSound(hash, pins, w, who);
    } else if w' != w {
      OnlyOneMoves(hash, pins, w, w', who);
    }
  }

  /** For any number of installers, whatever ends them and whenever: the cached archive is absent
      or matches its pin, at most one installer is inside the lock, and at most one download of
      each archive completes. */
  lemma {:induction false} CacheSound(hash: Hash, pins: Pins, events: seq<Event>)
    ensures Sound(hash, pins, Run(hash, pins, events))
  {
    if events != [] {
      CacheSound(hash, pins, events[..|events| - 1]);
      StepSound(hash, pins, Run(hash, pins, events[..|events| - 1]), events[|events| - 1]);
    }
  }

  /** The archive, once there, is still there and the same. */
  ghost predicate Kept(w: World, w': World, arch: Arch) {
    arch in w.archives ==> arch in w'.archives && w'.archives[arch] == w.archives[arch]
  }

  lemma {:induction false} StepKeepsArchives(hash: Hash, pins: Pins, w: World, event: Event, arch: Arch)
    requires Sound(hash, pins, w)
    ensures Kept(w, Step(hash, pins, w, event), arch)
  {
    assert Trusts(hash, pins, w, PhaseOf(w, event.who));
  }

  /** The worlds from `w` on, along further events. */
  function RunFrom(hash: Hash, pins: Pins, w: World, events: seq<Event>): World
    decreases |events|
  {
    if events == [] then w else RunFrom(hash, pins, Step(hash, pins, w, events[0]), events[1..])
  }

  /** An installed archive is never replaced or removed: not from any sound world on, and every
      reachable world is sound. */
  lemma {:induction false} ArchivesStay(hash: Hash, pins: Pins, w: World, events: seq<Event>, arch: Arch)
    requires Sound(hash, pins, w)
    ensures Kept(w, RunFrom(hash, pins, w, events), arch)
    decreases |events|
  {
    if events != [] {
      var next := Step(hash, pins, w, events[0]);
      StepSound(hash, pins, w, events[0]);
      StepKeepsArchives(hash, pins, w, events[0], arch);
      ArchivesStay(hash, pins, next, events[1..], arch);
    }
  }

  // ----- the lock is handed on -----

  /** Whatever ended the owner, the lock is free after it, and an installer that waits can take it
      and look for its first archive. */
  lemma {:induction false} LockIsHandedOn(hash: Hash, pins: Pins, events: seq<Event>, who: nat, next: nat, arch: Arch)
    requires var w := Run(hash, pins, events);
      Owns(w, who) && next != who && PhaseOf(w, next).Waiting?
    ensures var w := Run(hash, pins, events + [End(who), Acquire(next, [arch]), Look(next)]);
      && (arch in Run(hash, pins, events).archives ==> Owns(w, next) && PhaseOf(w, next) == Providing([]))
      && (arch !in Run(hash, pins, events).archives ==>
            Owns(w, next) && PhaseOf(w, next) == Fetching(arch, []) && arch !in w.partials)
  {
    var w := Run(hash, pins, events);
    var a, b, c := End(who), Acquire(next, [arch]), Look(next);
    CacheSound(hash, pins, events);
    RunStep(hash, pins, events, a);
    RunStep(hash, pins, events + [a], b);
    RunStep(hash, pins, events + [a] + [b], c);
    assert events + [a] + [b] + [c] == events + [a, b, c];
    assert [arch][1..] == [];
  }

  lemma {:induction false} RunStep(hash: Hash, pins: Pins, events: seq<Event>, event: Event)
    ensures Run(hash, pins, events + [event]) == Step(hash, pins, Run(hash, pins, events), event)
  {
    assert (events + [event])[..|events|] == events;
  }

  /** The first installer enters an empty cache at once. */
  lemma {:induction false} FirstInstallerEnters(hash: Hash, pins: Pins, who: nat, arch: Arch, todo: seq<Arch>)
    ensures var w := Run(hash, pins, [Acquire(who, [arch] + todo), Look(who)]);
      Owns(w, who) && PhaseOf(w, who) == Fetching(arch, todo) && arch !in w.partials
  {
    var a, b := Acquire(who, [arch] + todo), Look(who);
    RunStep(hash, pins, [], a);
    RunStep(hash, pins, [a], b);
    assert [] + [a] == [a] && [a] + [b] == [a, b];
    assert ([arch] + todo)[1..] == todo;
  }

  // ----- what an installer has provided -----

  /** `who`, which asked for `todo`, has its first `k` archives, and is at the next or has ended. */
  ghost predicate Provided(w: World, who: nat, todo: seq<Arch>) {
    match PhaseOf(w, who)
    case Ended => true
    case Waiting => false
    case Providing(rest) => HasFirst(w, todo, |todo| - |rest|) && rest == todo[|todo| - |rest|..]
    case Fetching(arch, rest) => HasFirst(w, todo, |todo| - |rest| - 1) && [arch] + rest == todo[|todo| - |rest| - 1..]
    case Checked(arch, rest) => HasFirst(w, todo, |todo| - |rest| - 1) && [arch] + rest == todo[|todo| - |rest| - 1..]
  }

  ghost predicate HasFirst(w: World, todo: seq<Arch>, k: int) {
    0 <= k <= |todo| && forall i :: 0 <= i < k ==> todo[i] in w.archives
  }

  lemma {:induction false} OthersKeepProvided(hash: Hash, pins: Pins, w: World, e: Event, who: nat, todo: seq<Arch>)
    requires Sound(hash, pins, w) && Provided(w, who, todo) && e.who != who
    ensures Provided(Step(hash, pins, w, e), who, todo)
  {
    var next := Step(hash, pins, w, e);
    assert PhaseOf(next, who) == PhaseOf(w, who);
    forall i | 0 <= i < |todo| && todo[i] in w.archives ensures todo[i] in next.archives {
      StepKeepsArchives(hash, pins, w, e, todo[i]);
    }
  }

  lemma {:induction false} Suffix(todo: seq<Arch>, k: nat, arch: Arch, rest: seq<Arch>)
    requires k <= |todo| && todo[k..] == [arch] + rest
    ensures k < |todo| && todo[k] == arch && rest == todo[k + 1..] && |todo| - |rest| == k + 1
  {
    assert todo[k..][0] == arch && todo[k..][1..] == rest;
  }

  lemma {:induction false} LookKeepsProvided(hash: Hash, pins: Pins, w: World, who: nat, todo: seq<Arch>)
    requires Provided(w, who, todo)
    ensures Provided(Step(hash, pins, w, Look(who)), who, todo)
  {
    var phase := PhaseOf(w, who);
    if phase.Providing? && phase.todo != [] {
      var arch, rest := phase.todo[0], phase.todo[1..];
      assert phase.todo == [arch] + rest;
      Suffix(todo, |todo| - |phase.todo|, arch, rest);
      var next := Step(hash, pins, w, Look(who));
      assert PhaseOf(next, who) == Fetching(arch, rest) || PhaseOf(next, who) == Providing(rest)
        || PhaseOf(next, who) == Ended;
    }
  }

  lemma {:induction false} ReplaceKeepsProvided(hash: Hash, pins: Pins, w: World, who: nat, todo: seq<Arch>)
    requires Provided(w, who, todo)
    ensures Provided(Step(hash, pins, w, Replace(who)), who, todo)
  {
    var phase := PhaseOf(w, who);
    if phase.Checked? && phase.arch in w.partials {
      var next := Step(hash, pins, w, Replace(who));
      Suffix(todo, |todo| - |phase.todo| - 1, phase.arch, phase.todo);
      assert PhaseOf(next, who) == Providing(phase.todo);
      assert forall arch :: arch in w.archives ==> arch in next.archives;
    }
  }

  lemma {:induction false} OwnStepKeepsProvided(hash: Hash, pins: Pins, w: World, e: Event, who: nat, todo: seq<Arch>)
    requires Provided(w, who, todo) && e.who == who
    ensures Provided(Step(hash, pins, w, e), who, todo)
  {
    if e.Look? {
      LookKeepsProvided(hash, pins, w, who, todo);
    } else if e.Replace? {
      ReplaceKeepsProvided(hash, pins, w, who, todo);
    } else {
      var phase, next := PhaseOf(w, who), Step(hash, pins, w, e);
      assert next.archives == w.archives;
      assert PhaseOf(next, who) == phase || PhaseOf(next, who).Ended?
        || (phase.Fetching? && PhaseOf(next, who) == Checked(phase.arch, phase.todo));
    }
  }

  /** An installer that comes to the end of its list has every archive on it, each with its pinned
      digest. */
  lemma {:induction false} ProvidesAll(hash: Hash, pins: Pins, before: seq<Event>, who: nat, todo: seq<Arch>,
                                       later: seq<Event>)
    requires var w := Run(hash, pins, before); w.owner.None? && PhaseOf(w, who).Waiting?
    ensures var w := Run(hash, pins, before + [Acquire(who, todo)] + later);
      && Provided(w, who, todo)
      && (PhaseOf(w, who) == Providing([]) ==>
            forall i :: 0 <= i < |todo| ==> todo[i] in w.archives && hash(w.archives[todo[i]]) == pins(todo[i]))
    decreases |later|
  {
    var entered := before + [Acquire(who, todo)];
    CacheSound(hash, pins, entered + later);
    if later == [] {
      RunStep(hash, pins, before, Acquire(who, todo));
      assert entered + later == entered;
    } else {
      var n: nat :| |later| == n + 1;
      var all := entered + later[..n];
      ProvidesAll(hash, pins, before, who, todo, later[..n]);
      CacheSound(hash, pins, all);
      RunStep(hash, pins, all, later[n]);
      assert entered + later == all + [later[n]];
      if later[n].who == who {
        OwnStepKeepsProvided(hash, pins, Run(hash, pins, all), later[n], who, todo);
      } else {
        OthersKeepProvided(hash, pins, Run(hash, pins, all), later[n], who, todo);
      }
    }
  }

  /** An archive already there with another digest ends the installer that finds it, whatever else
      the cache holds. */
  lemma {:induction false} BadArchiveEnds(hash: Hash, pins: Pins, w: World, who: nat)
    requires PhaseOf(w, who).Providing? && PhaseOf(w, who).todo != []
    requires var arch := PhaseOf(w, who).todo[0]; arch in w.archives && hash(w.archives[arch]) != pins(arch)
    ensures PhaseOf(Step(hash, pins, w, Look(who)), who).Ended?
    ensures Step(hash, pins, w, Look(who)).archives == w.archives
    ensures !Owns(Step(hash, pins, w, Look(who)), who)
  {
  }
}
