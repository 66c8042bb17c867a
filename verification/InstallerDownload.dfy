/** A download inside the lock: every attempt of the download loop is a few steps of an installer
    that owns the cache, so what holds of all installers holds of those that download. */
module InstallerDownload {
  import opened Wrappers
  import opened InstallerLock
  import D = ArchiveDownload

  lemma {:induction false} RunFromConcat(hash: Hash, pins: Pins, w: World, a: seq<Event>, b: seq<Event>)
    ensures RunFrom(hash, pins, w, a + b) == RunFrom(hash, pins, RunFrom(hash, pins, w, a), b)
    decreases |a|
  {
    if a == [] {
      assert a + b == b;
    } else {
      assert (a + b)[0] == a[0] && (a + b)[1..] == a[1..] + b;
      RunFromConcat(hash, pins, Step(hash, pins, w, a[0]), a[1..], b);
    }
  }

  lemma {:induction false} RunThen(hash: Hash, pins: Pins, before: seq<Event>, later: seq<Event>)
    ensures RunFrom(hash, pins, Run(hash, pins, before), later) == Run(hash, pins, before + later)
    decreases |later|
  {
    if later == [] {
      assert before + later == before;
    } else {
      var next := before + [later[0]];
      assert next[..|next| - 1] == before;
      RunThen(hash, pins, next, later[1..]);
      assert next + later[1..] == before + later;
    }
  }

  /** The files of one archive are those of the session, and the installer stands where it does. */
  ghost predicate Shows(w: World, who: nat, arch: Arch, todo: seq<Arch>, s: D.Session) {
    && (if arch in w.partials then s.partial == Some(w.partials[arch]) else s.partial.None?)
    && (if arch in w.archives then s.archive == Some(w.archives[arch]) else s.archive.None?)
    && PhaseOf(w, who) == (match s.result
                           case Trying => Fetching(arch, todo)
                           case Installed => Providing(todo)
                           case _ => Ended)
  }

  /** The steps of one attempt, up to the handling of its error. */
  function AttemptEvents(hash: Hash, pin: string, who: nat, s: D.Session, reply: D.Reply): seq<Event> {
    match reply
    case NoReply => []
    case Died => [End(who)]
    case Reply(_, _, _, ending) =>
      var content := D.Written(s.partial, reply);
      var write := [Write(who, content)];
      if ending.Killed? then write + [End(who)]
      else if ending.Early? || (ending.Unplaced? && hash(content) == pin) then write
      else if hash(content) == pin then write + [Verify(who), Replace(who)]
      else write + [Unlink(who)]
  }

  /** The steps of giving up. */
  function GiveUpEvents(who: nat, s: D.Session, attempt: nat): seq<Event> {
    if s.result.Trying? && (s.stalled == D.PATIENCE || attempt == D.ATTEMPTS) then [Unlink(who), End(who)] else []
  }

  lemma {:induction false} OneEvent(hash: Hash, pins: Pins, w: World, a: Event)
    ensures RunFrom(hash, pins, w, [a]) == Step(hash, pins, w, a)
  {
    assert [a][1..] == [];
  }

  lemma {:induction false} TwoEvents(hash: Hash, pins: Pins, w: World, a: Event, b: Event)
    ensures RunFrom(hash, pins, w, [a, b]) == Step(hash, pins, Step(hash, pins, w, a), b)
  {
    assert [a, b][1..] == [b];
    OneEvent(hash, pins, Step(hash, pins, w, a), b);
  }

  lemma {:induction false} AttemptIsEvents(hash: Hash, pins: Pins, w: World, who: nat, arch: Arch, todo: seq<Arch>,
                                           s: D.Session, reply: D.Reply)
    requires Shows(w, who, arch, todo, s) && s.result.Trying?
    ensures Shows(RunFrom(hash, pins, w, AttemptEvents(hash, pins(arch), who, s, reply)), who, arch, todo,
                  D.Attempt(hash, pins(arch), s, reply))
  {
    var events := AttemptEvents(hash, pins(arch), who, s, reply);
    if reply.Died? {
      OneEvent(hash, pins, w, End(who));
    } else if reply.Reply? {
      var write := Write(who, D.Written(s.partial, reply));
      var written := Step(hash, pins, w, write);
      OneEvent(hash, pins, w, write);
      if |events| == 2 {
        assert events == [write, events[1]];
        TwoEvents(hash, pins, w, write, events[1]);
      } else if |events| == 3 {
        assert events == [write] + [Verify(who), Replace(who)];
        RunFromConcat(hash, pins, w, [write], [Verify(who), Replace(who)]);
        TwoEvents(hash, pins, written, Verify(who), Replace(who));
      }
    }
  }

  lemma {:induction false} GiveUpIsEvents(hash: Hash, pins: Pins, w: World, who: nat, arch: Arch, todo: seq<Arch>,
                                          s: D.Session, attempt: nat)
    requires Shows(w, who, arch, todo, s)
    ensures Shows(RunFrom(hash, pins, w, GiveUpEvents(who, s, attempt)), who, arch, todo, D.GiveUp(s, attempt))
  {
    TwoEvents(hash, pins, w, Unlink(who), End(who));
  }

  /** The steps of one pass of the loop. */
  function PassEvents(hash: Hash, pin: string, who: nat, s: D.Session, reply: D.Reply, n: nat): seq<Event> {
    AttemptEvents(hash, pin, who, s, reply) + GiveUpEvents(who, D.Attempt(hash, pin, s, reply), n)
  }

  /** The steps of the first `n` attempts of a download. */
  function DownloadEvents(hash: Hash, pin: string, who: nat, serve: D.Server, n: nat): seq<Event> {
    if n == 0 then [] else
      var s := D.Download(hash, pin, serve, None, n - 1);
      var before := DownloadEvents(hash, pin, who, serve, n - 1);
      if !s.result.Trying? then before else
        before + PassEvents(hash, pin, who, s, serve(n, D.Offset(s.partial)), n)
  }

  /** A download of an absent archive, as its installer's steps on the shared cache. */
  lemma {:induction false} DownloadIsEvents(hash: Hash, pins: Pins, w: World, who: nat, arch: Arch, todo: seq<Arch>,
                                            serve: D.Server, n: nat)
    requires PhaseOf(w, who) == Fetching(arch, todo) && arch !in w.partials && arch !in w.archives
    ensures Shows(RunFrom(hash, pins, w, DownloadEvents(hash, pins(arch), who, serve, n)), who, arch, todo,
                  D.Download(hash, pins(arch), serve, None, n))
  {
    if n > 0 {
      var m: nat :| n == m + 1;
      var pin := pins(arch);
      var s, before := D.Download(hash, pin, serve, None, m), DownloadEvents(hash, pin, who, serve, m);
      DownloadIsEvents(hash, pins, w, who, arch, todo, serve, m);
      if s.result.Trying? {
        var reply := serve(n, D.Offset(s.partial));
        var next := D.Attempt(hash, pin, s, reply);
        var attempt, ending := AttemptEvents(hash, pin, who, s, reply), GiveUpEvents(who, next, n);
        var now := RunFrom(hash, pins, w, before);
        AttemptIsEvents(hash, pins, now, who, arch, todo, s, reply);
        GiveUpIsEvents(hash, pins, RunFrom(hash, pins, now, attempt), who, arch, todo, next, n);
        RunFromConcat(hash, pins, now, attempt, ending);
        RunFromConcat(hash, pins, w, before, attempt + ending);
      }
    }
  }

  // ----- other installers in between -----

  /** The steps of one installer among those of all. */
  function Own(events: seq<Event>, who: nat): seq<Event> {
    if events == [] then []
    else (if events[0].who == who then [events[0]] else []) + Own(events[1..], who)
  }

  lemma {:induction false} OwnLast(events: seq<Event>, last: Event, who: nat)
    ensures Own(events + [last], who) == Own(events, who) + if last.who == who then [last] else []
  {
    var all := events + [last];
    if events != [] {
      assert all[0] == events[0] && all[1..] == events[1..] + [last];
      OwnLast(events[1..], last, who);
    } else {
      assert all[1..] == [];
    }
  }

  /** The steps by which an installer downloads and stays inside the lock. */
  predicate Working(e: Event) { e.Write? || e.Unlink? || e.Verify? || e.Replace? }

  ghost predicate AllWorking(events: seq<Event>) {
    forall i :: 0 <= i < |events| ==> Working(events[i])
  }

  /** All that an installer inside the lock can see. */
  ghost predicate Same(a: World, b: World, who: nat) {
    && a.owner == b.owner && a.partials == b.partials && a.archives == b.archives && a.completed == b.completed
    && PhaseOf(a, who) == PhaseOf(b, who)
  }

  lemma {:induction false} OthersChangeNothing(hash: Hash, pins: Pins, w: World, who: nat, e: Event)
    requires Sound(hash, pins, w) && Critical(PhaseOf(w, who)) && e.who != who
    ensures Same(Step(hash, pins, w, e), w, who)
  {
    OthersWait(hash, pins, w, who, e.who);
    assert Owns(w, who);
  }

  lemma {:induction false} SameStep(hash: Hash, pins: Pins, a: World, b: World, who: nat, e: Event)
    requires Same(a, b, who) && e.who == who
    ensures Same(Step(hash, pins, a, e), Step(hash, pins, b, e), who)
  {
  }

  lemma {:induction false} WorkingStays(hash: Hash, pins: Pins, w: World, e: Event)
    requires Working(e) && Critical(PhaseOf(w, e.who))
    ensures Critical(PhaseOf(Step(hash, pins, w, e), e.who))
  {
  }

  /** While an installer works inside the lock, steps of others make no difference to it. */
  lemma {:induction false} InterleavedSteps(hash: Hash, pins: Pins, a: World, b: World, who: nat, mixed: seq<Event>)
    requires Sound(hash, pins, a) && Critical(PhaseOf(a, who)) && Same(a, b, who)
    requires AllWorking(Own(mixed, who))
    ensures Same(RunFrom(hash, pins, a, mixed), RunFrom(hash, pins, b, Own(mixed, who)), who)
    decreases |mixed|
  {
    if mixed != [] {
      var e, rest := mixed[0], mixed[1..];
      StepSound(hash, pins, a, e);
      var own := Own(rest, who);
      if e.who == who {
        assert Own(mixed, who)[0] == e && Own(mixed, who)[1..] == own;
        assert forall i :: 0 <= i < |own| ==> own[i] == Own(mixed, who)[i + 1];
        WorkingStays(hash, pins, a, e);
        SameStep(hash, pins, a, b, who, e);
        InterleavedSteps(hash, pins, Step(hash, pins, a, e), Step(hash, pins, b, e), who, rest);
      } else {
        assert Own(mixed, who) == own;
        OthersChangeNothing(hash, pins, a, who, e);
        InterleavedSteps(hash, pins, Step(hash, pins, a, e), b, who, rest);
      }
    }
  }

  /** A download works until it ends, and then it has succeeded or its last step ends the installer. */
  ghost predicate WorksToTheEnd(events: seq<Event>, who: nat, s: D.Session) {
    if s.result.Trying? || s.result.Installed? then AllWorking(events)
    else events != [] && AllWorking(events[..|events| - 1]) && events[|events| - 1].who == who
  }

  lemma {:induction false} AttemptWorks(hash: Hash, pin: string, who: nat, s: D.Session, reply: D.Reply, n: nat)
    requires s.result.Trying?
    ensures var next := D.Attempt(hash, pin, s, reply);
      WorksToTheEnd(AttemptEvents(hash, pin, who, s, reply) + GiveUpEvents(who, next, n), who, D.GiveUp(next, n))
  {
    var attempt := AttemptEvents(hash, pin, who, s, reply);
    var next := D.Attempt(hash, pin, s, reply);
    if next.result.Trying? {
      assert AllWorking(attempt);
      var all := attempt + GiveUpEvents(who, next, n);
      if !D.GiveUp(next, n).result.Trying? {
        assert all[..|all| - 1] == attempt + [Unlink(who)];
      }
    } else {
      assert attempt + GiveUpEvents(who, next, n) == attempt;
    }
  }

  lemma {:induction false} WorksAfter(before: seq<Event>, more: seq<Event>, who: nat, s: D.Session)
    requires AllWorking(before) && WorksToTheEnd(more, who, s)
    ensures WorksToTheEnd(before + more, who, s)
  {
    if more != [] {
      assert (before + more)[..|before + more| - 1] == before + more[..|more| - 1];
    }
  }

  lemma {:induction false} DownloadEventsStep(hash: Hash, pin: string, who: nat, serve: D.Server, m: nat)
    ensures var s := D.Download(hash, pin, serve, None, m);
      var before := DownloadEvents(hash, pin, who, serve, m);
      DownloadEvents(hash, pin, who, serve, m + 1) ==
        if s.result.Trying? then before + PassEvents(hash, pin, who, s, serve(m + 1, D.Offset(s.partial)), m + 1)
        else before
  {
  }

  lemma {:induction false} DownloadWorks(hash: Hash, pin: string, who: nat, serve: D.Server, n: nat)
    ensures WorksToTheEnd(DownloadEvents(hash, pin, who, serve, n), who, D.Download(hash, pin, serve, None, n))
  {
    if n > 0 {
      var m: nat :| n == m + 1;
      var s, before := D.Download(hash, pin, serve, None, m), DownloadEvents(hash, pin, who, serve, m);
      var reply := serve(n, D.Offset(s.partial));
      DownloadWorks(hash, pin, who, serve, m);
      DownloadEventsStep(hash, pin, who, serve, m);
      D.DownloadStep(hash, pin, serve, None, m);
      if s.result.Trying? {
        AttemptWorks(hash, pin, who, s, reply, n);
        WorksAfter(before, PassEvents(hash, pin, who, s, reply, n), who, D.NextSession(hash, pin, serve, s, n));
      }
    }
  }

  lemma {:induction false} InterleavedDownload(hash: Hash, pins: Pins, w: World, who: nat, mixed: seq<Event>, s: D.Session)
    requires Sound(hash, pins, w) && Critical(PhaseOf(w, who)) && WorksToTheEnd(Own(mixed, who), who, s)
    requires s.result.Trying? || s.result.Installed? || (mixed != [] && mixed[|mixed| - 1].who == who)
    ensures Same(RunFrom(hash, pins, w, mixed), RunFrom(hash, pins, w, Own(mixed, who)), who)
  {
    if s.result.Trying? || s.result.Installed? {
      InterleavedSteps(hash, pins, w, w, who, mixed);
    } else {
      var n: nat :| |mixed| == n + 1;
      var init, last := mixed[..n], mixed[n];
      assert mixed == init + [last];
      OwnLast(init, last, who);
      assert Own(mixed, who)[..|Own(mixed, who)| - 1] == Own(init, who);
      InterleavedSteps(hash, pins, w, w, who, init);
      var a, b := RunFrom(hash, pins, w, init), RunFrom(hash, pins, w, Own(init, who));
      RunFromConcat(hash, pins, w, init, [last]);
      RunFromConcat(hash, pins, w, Own(init, who), [last]);
      OneEvent(hash, pins, a, last);
      OneEvent(hash, pins, b, last);
      SameStep(hash, pins, a, b, who, last);
    }
  }

  /** From any reachable cache in which an installer has found an archive missing, its whole download,
      with any steps of any other installers in between, leads to a reachable cache in which its
      archive is the one downloaded. A download that ends its installer is seen at that last step,
      since others may enter after it. */
  lemma {:induction false} DownloadInsideLock(hash: Hash, pins: Pins, events: seq<Event>, who: nat, arch: Arch,
                                              todo: seq<Arch>, serve: D.Server, mixed: seq<Event>)
    requires var w := Run(hash, pins, events);
      PhaseOf(w, who) == Fetching(arch, todo) && arch !in w.partials
    requires Own(mixed, who) == DownloadEvents(hash, pins(arch), who, serve, D.ATTEMPTS)
    requires D.Download(hash, pins(arch), serve, None, D.ATTEMPTS).result.Installed?
      || (mixed != [] && mixed[|mixed| - 1].who == who)
    ensures var s := D.Download(hash, pins(arch), serve, None, D.ATTEMPTS);
      var after := Run(hash, pins, events + mixed);
      && Shows(after, who, arch, todo, s) && Sound(hash, pins, after)
      && (arch in after.archives <==> s.result.Installed?)
  {
    var w, pin := Run(hash, pins, events), pins(arch);
    var s := D.Download(hash, pin, serve, None, D.ATTEMPTS);
    CacheSound(hash, pins, events);
    assert Trusts(hash, pins, w, PhaseOf(w, who));
    DownloadWorks(hash, pin, who, serve, D.ATTEMPTS);
    InterleavedDownload(hash, pins, w, who, mixed, s);
    DownloadIsEvents(hash, pins, w, who, arch, todo, serve, D.ATTEMPTS);
    RunThen(hash, pins, events, mixed);
    CacheSound(hash, pins, events + mixed);
    D.OnlyPinnedBytes(hash, pin, serve, None, D.ATTEMPTS);
  }
}
