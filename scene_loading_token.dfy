/**
 * Loading tokens: a monotone progress register over one asynchronous scene operation, with a
 * pre-load event that fires at most once, and a token that aggregates several of them.
 * The events a token raises are recorded in order, so "fires on" and "fires at most once"
 * are statements about that record.
 */
module SceneLoadingToken {
  import opened Host

  /** `0.9f`: a Unity scene operation holding activation back stops at this progress. */
  const PreLoadThreshold: real := 0.9
  /** The progress a token starts from, below anything an operation reports. */
  const InitialProgress: real := -1.0

  datatype TokenEvent = ChangedProgress(progress: real) | PreLoaded

  /** The observable state of a token: `Progress`, the fired-once flag and the events raised so far. */
  datatype TokenState = TokenState(progress: real, calledEventLoaded: bool, events: seq<TokenEvent>)

  const Initial := TokenState(InitialProgress, false, [])

  /** One `Update` of a token in state `s` whose operation reports `reported`. */
  function Observe(s: TokenState, reported: real): TokenState {
    if s.progress < reported then
      var events := s.events + [ChangedProgress(reported)];
      if !s.calledEventLoaded && reported >= PreLoadThreshold then
        TokenState(reported, true, events + [PreLoaded])
      else
        TokenState(reported, s.calledEventLoaded, events)
    else
      s
  }

  /** `Update` once per reported value, in order. */
  function Run(s: TokenState, reports: seq<real>): TokenState
    decreases |reports|
  {
    if reports == [] then s else Run(Observe(s, reports[0]), reports[1..])
  }

  /** Running one more report is one more `Update` after the run. */
  lemma {:induction false} RunSnoc(s: TokenState, reports: seq<real>, reported: real)
    ensures Run(s, reports + [reported]) == Observe(Run(s, reports), reported)
    decreases |reports|
  {
    if reports != [] {
      assert (reports + [reported])[1..] == reports[1..] + [reported];
      RunSnoc(Observe(s, reports[0]), reports[1..], reported);
    }
  }

  /** The progress values announced by `ChangedProgress` only ever go up. */
  ghost predicate RaisesStrictly(events: seq<TokenEvent>) {
    forall i, j :: 0 <= i < j < |events| && events[i].ChangedProgress? && events[j].ChangedProgress? ==>
      events[i].progress < events[j].progress
  }

  /** `PreLoaded` is raised at most once. */
  ghost predicate PreLoadedAtMostOnce(events: seq<TokenEvent>) {
    forall i, j :: 0 <= i < |events| && 0 <= j < |events| && events[i] == PreLoaded && events[j] == PreLoaded ==> i == j
  }

  /**
   * `PreLoaded` directly follows the first `ChangedProgress` that reaches the threshold:
   * the one before it does, and every earlier one does not.
   */
  ghost predicate PreLoadedOnCrossing(events: seq<TokenEvent>) {
    forall i :: 0 <= i < |events| && events[i] == PreLoaded ==>
      && i > 0 && events[i - 1].ChangedProgress? && events[i - 1].progress >= PreLoadThreshold
      && forall j :: 0 <= j < i - 1 && events[j].ChangedProgress? ==> events[j].progress < PreLoadThreshold
  }

  /**
   * What holds of every state a token reaches: the flag records whether `PreLoaded` was raised,
   * which is exactly when the progress has reached the threshold; every announced value lies
   * between the initial progress and the current one, and the current progress is either
   * the initial value or the last announced one.
   */
  ghost predicate Coherent(s: TokenState) {
    && s.progress >= InitialProgress
    && (s.calledEventLoaded <==> s.progress >= PreLoadThreshold)
    && (s.calledEventLoaded <==> PreLoaded in s.events)
    && PreLoadedAtMostOnce(s.events)
    && PreLoadedOnCrossing(s.events)
    && RaisesStrictly(s.events)
    && (forall i :: 0 <= i < |s.events| && s.events[i].ChangedProgress? ==>
          InitialProgress < s.events[i].progress <= s.progress)
    && (s.progress == InitialProgress || ChangedProgress(s.progress) in s.events)
  }

  lemma InitialIsCoherent()
    ensures Coherent(Initial)
  {
  }

  /** A raising `Update` that does not cross the threshold keeps a state coherent. */
  lemma RaiseKeepsCoherent(s: TokenState, reported: real)
    requires Coherent(s) && s.progress < reported
    requires s.calledEventLoaded || reported < PreLoadThreshold
    ensures Coherent(TokenState(reported, s.calledEventLoaded, s.events + [ChangedProgress(reported)]))
  {
    var e := s.events;
    var t := TokenState(reported, s.calledEventLoaded, e + [ChangedProgress(reported)]);
    assert PreLoadedAtMostOnce(t.events) by {
      forall i, j | 0 <= i < |t.events| && 0 <= j < |t.events| && t.events[i] == PreLoaded && t.events[j] == PreLoaded
        ensures i == j
      {
        assert i < |e| && j < |e| && e[i] == PreLoaded && e[j] == PreLoaded;
      }
    }
    assert PreLoadedOnCrossing(t.events) by {
      forall i | 0 <= i < |t.events| && t.events[i] == PreLoaded
        ensures i > 0 && t.events[i - 1].ChangedProgress? && t.events[i - 1].progress >= PreLoadThreshold
        ensures forall j :: 0 <= j < i - 1 && t.events[j].ChangedProgress? ==> t.events[j].progress < PreLoadThreshold
      {
        assert i < |e| && e[i] == PreLoaded;
      }
    }
    assert RaisesStrictly(t.events) by {
      forall i, j | 0 <= i < j < |t.events| && t.events[i].ChangedProgress? && t.events[j].ChangedProgress?
        ensures t.events[i].progress < t.events[j].progress
      {
        if j == |e| {
          assert e[i].progress <= s.progress;
        }
      }
    }
    assert PreLoaded in t.events <==> PreLoaded in e by {
      assert t.events[|e|] != PreLoaded;
    }
    assert ChangedProgress(reported) == t.events[|e|];
  }

  /** The `Update` that first crosses the threshold keeps a state coherent. */
  lemma CrossingKeepsCoherent(s: TokenState, reported: real)
    requires Coherent(s) && s.progress < reported
    requires !s.calledEventLoaded && reported >= PreLoadThreshold
    ensures Coherent(TokenState(reported, true, s.events + [ChangedProgress(reported)] + [PreLoaded]))
  {
    var e := s.events;
    var t := TokenState(reported, true, e + [ChangedProgress(reported)] + [PreLoaded]);
    assert PreLoaded !in e;
    assert PreLoadedAtMostOnce(t.events) by {
      forall i, j | 0 <= i < |t.events| && 0 <= j < |t.events| && t.events[i] == PreLoaded && t.events[j] == PreLoaded
        ensures i == j
      {
        assert i == |e| + 1 && j == |e| + 1;
      }
    }
    assert PreLoadedOnCrossing(t.events) by {
      forall i | 0 <= i < |t.events| && t.events[i] == PreLoaded
        ensures i > 0 && t.events[i - 1].ChangedProgress? && t.events[i - 1].progress >= PreLoadThreshold
        ensures forall j :: 0 <= j < i - 1 && t.events[j].ChangedProgress? ==> t.events[j].progress < PreLoadThreshold
      {
        assert i == |e| + 1;
        forall j | 0 <= j < i - 1 && t.events[j].ChangedProgress?
          ensures t.events[j].progress < PreLoadThreshold
        {
          assert e[j].progress <= s.progress;
        }
      }
    }
    assert RaisesStrictly(t.events) by {
      forall i, j | 0 <= i < j < |t.events| && t.events[i].ChangedProgress? && t.events[j].ChangedProgress?
        ensures t.events[i].progress < t.events[j].progress
      {
        if j == |e| {
          assert e[i].progress <= s.progress;
        }
      }
    }
    assert PreLoaded == t.events[|e| + 1];
    assert ChangedProgress(reported) == t.events[|e|];
  }

  /** An `Update` keeps a token's state coherent. */
  lemma ObserveKeepsCoherent(s: TokenState, reported: real)
    requires Coherent(s)
    ensures Coherent(Observe(s, reported))
  {
    if s.progress < reported {
      if !s.calledEventLoaded && reported >= PreLoadThreshold {
        CrossingKeepsCoherent(s, reported);
      } else {
        RaiseKeepsCoherent(s, reported);
      }
    }
  }

  /**
   * One `Update`: the progress never decreases and is replaced only by a strictly greater
   * report; the event record only grows; `ChangedProgress` is raised exactly when the
   * progress goes up, `PreLoaded` exactly when it crosses the threshold.
   */
  lemma ObserveStep(s: TokenState, reported: real)
    requires Coherent(s)
    ensures var t := Observe(s, reported);
      && Coherent(t)
      && t.progress == (if s.progress < reported then reported else s.progress)
      && |s.events| <= |t.events| && t.events[..|s.events|] == s.events
      && (ChangedProgress(reported) in t.events[|s.events|..] <==> s.progress < reported)
      && (PreLoaded in t.events[|s.events|..] <==> s.progress < PreLoadThreshold <= reported)
  {
    ObserveKeepsCoherent(s, reported);
    var t := Observe(s, reported);
    var e := s.events;
    if s.progress < reported {
      assert t.events[..|e|] == e;
      if !s.calledEventLoaded && reported >= PreLoadThreshold {
        assert t.events[|e|..] == [ChangedProgress(reported), PreLoaded];
      } else {
        assert t.events[|e|..] == [ChangedProgress(reported)];
        assert s.calledEventLoaded ==> s.progress >= PreLoadThreshold;
      }
    } else {
      assert t.events[|e|..] == [];
    }
  }

  /** `Update` twice against the same report is `Update` once. */
  lemma ObserveIdempotent(s: TokenState, reported: real)
    ensures Observe(Observe(s, reported), reported) == Observe(s, reported)
  {
  }

  /** A run of `Update`s keeps the state coherent. */
  lemma {:induction false} RunKeepsCoherent(s: TokenState, reports: seq<real>)
    requires Coherent(s)
    ensures Coherent(Run(s, reports))
    decreases |reports|
  {
    if reports != [] {
      ObserveKeepsCoherent(s, reports[0]);
      RunKeepsCoherent(Observe(s, reports[0]), reports[1..]);
    }
  }

  /** A run of `Update`s only appends to the event record. */
  lemma {:induction false} RunAppendsEvents(s: TokenState, reports: seq<real>)
    ensures s.events <= Run(s, reports).events
    decreases |reports|
  {
    if reports != [] {
      var m := Observe(s, reports[0]);
      RunAppendsEvents(m, reports[1..]);
      assert s.events <= m.events;
    }
  }

  /** A run of `Update`s ends at the highest of the starting progress and the reports. */
  lemma {:induction false} RunReachesHighest(s: TokenState, reports: seq<real>)
    ensures var t := Run(s, reports);
      && t.progress >= s.progress
      && (forall i :: 0 <= i < |reports| ==> reports[i] <= t.progress)
      && (t.progress == s.progress || t.progress in reports)
    decreases |reports|
  {
    if reports != [] {
      var m := Observe(s, reports[0]);
      RunReachesHighest(m, reports[1..]);
      var t := Run(m, reports[1..]);
      forall i | 0 <= i < |reports|
        ensures reports[i] <= t.progress
      {
        if i > 0 {
          assert reports[i] == reports[1..][i - 1];
        }
      }
      if t.progress != s.progress && t.progress != m.progress {
        assert t.progress in reports[1..];
      }
    }
  }

  /**
   * A run of `Update`s from the start: the progress is the highest report (or the initial
   * value when none exceeds it), and `PreLoaded` was raised, exactly once, iff some report
   * reached the threshold.
   */
  lemma RunFromStart(reports: seq<real>)
    ensures var t := Run(Initial, reports);
      && Coherent(t)
      && (forall i :: 0 <= i < |reports| ==> reports[i] <= t.progress)
      && (t.progress == InitialProgress || t.progress in reports)
      && (PreLoaded in t.events <==> exists i :: 0 <= i < |reports| && reports[i] >= PreLoadThreshold)
      && PreLoadedAtMostOnce(t.events)
  {
    RunKeepsCoherent(Initial, reports);
    RunReachesHighest(Initial, reports);
    var t := Run(Initial, reports);
    if PreLoaded in t.events {
      assert t.progress >= PreLoadThreshold;
      var i :| 0 <= i < |reports| && reports[i] == t.progress;
    }
  }

  /**
   * A token over one operation. It reads the operation's progress on `Update` and raises
   * its events into `events`.
   */
  class SceneLoadingToken {
    var progress: real
    const asyncOperation: AsyncOperation
    var calledEventLoaded: bool
    var events: seq<TokenEvent>
    /** The progress values the operation reported at each `Update` so far. */
    ghost var observed: seq<real>

    function State(): TokenState
      reads this
    {
      TokenState(progress, calledEventLoaded, events)
    }

    /** The state is what the observed reports produce from the initial state. */
    ghost predicate Valid()
      reads this
    {
      State() == Run(Initial, observed)
    }

    constructor (asyncOperation: AsyncOperation)
      ensures Valid() && State() == Initial && this.asyncOperation == asyncOperation
    {
      observed := [];
      progress := InitialProgress;
      this.asyncOperation := asyncOperation;
      calledEventLoaded := false;
      events := [];
    }

    /** A valid token's state has every property of `Coherent`. */
    lemma ValidIsCoherent()
      requires Valid()
      ensures Coherent(State())
    {
      RunKeepsCoherent(Initial, observed);
    }

    /** `IsPreLoaded`. */
    predicate IsPreLoaded()
      reads this
    {
      progress >= PreLoadThreshold
    }

    /** `IsCompleted`: the operation says it is done. */
    predicate IsCompleted()
      reads this, asyncOperation
    {
      asyncOperation.isDone
    }

    method Update()
      modifies this
      ensures old(Valid()) ==> Valid()
      ensures observed == old(observed) + [asyncOperation.progress]
      ensures State() == Observe(old(State()), asyncOperation.progress)
    {
      RunSnoc(Initial, observed, asyncOperation.progress);
      observed := observed + [asyncOperation.progress];
      if progress < asyncOperation.progress {
        progress := asyncOperation.progress;
        events := events + [ChangedProgress(progress)];
        if !calledEventLoaded && IsPreLoaded() {
          events := events + [PreLoaded];
          calledEventLoaded := true;
        }
      }
    }

    /** Lets the operation activate the scene once it is pre-loaded and not yet done. */
    method Complete()
      modifies asyncOperation
      ensures asyncOperation.allowSceneActivation == (old(asyncOperation.allowSceneActivation) || (IsPreLoaded() && !IsCompleted()))
      ensures asyncOperation.progress == old(asyncOperation.progress) && asyncOperation.isDone == old(asyncOperation.isDone)
      ensures asyncOperation.reports == old(asyncOperation.reports)
    {
      if IsPreLoaded() && !IsCompleted() {
        asyncOperation.allowSceneActivation := true;
      }
    }
  }

  /** `n` passes after which not every member was pre-loaded. */
  function NotYet(n: nat): (r: seq<bool>)
    ensures |r| == n && true !in r
  {
    if n == 0 then [] else NotYet(n - 1) + [false]
  }

  /**
   * What `n` passes of a loop that runs until a condition holds see after each pass: the
   * condition fails after every pass but the last, and after the last it is `last`.
   */
  function Passes(n: nat, last: bool): (r: seq<bool>)
    ensures |r| == n && (n > 0 ==> r[n - 1] == last)
    ensures forall i :: 0 <= i < n - 1 ==> !r[i]
  {
    if n == 0 then [] else NotYet(n - 1) + [last]
  }

  lemma PassesSnoc(n: nat)
    ensures Passes(n, false) + [true] == Passes(n + 1, true) && Passes(n, false) + [false] == Passes(n + 1, false)
  {
    if n > 0 {
      assert NotYet(n - 1) + [false] == NotYet(n);
    }
  }

  /** A token over several tokens; it is pre-loaded or completed when all of them are. */
  class MultiSceneLoadingToken {
    const sceneLoadingTokens: array<SceneLoadingToken>

    constructor (sceneLoadingTokens: array<SceneLoadingToken>)
      ensures this.sceneLoadingTokens == sceneLoadingTokens
    {
      this.sceneLoadingTokens := sceneLoadingTokens;
    }

    function Tokens(): set<SceneLoadingToken>
      reads sceneLoadingTokens
    {
      set i | 0 <= i < sceneLoadingTokens.Length :: sceneLoadingTokens[i]
    }

    function Operations(): set<AsyncOperation>
      reads sceneLoadingTokens
    {
      set i | 0 <= i < sceneLoadingTokens.Length :: sceneLoadingTokens[i].asyncOperation
    }

    ghost predicate Valid()
      reads sceneLoadingTokens, Tokens()
    {
      forall i :: 0 <= i < sceneLoadingTokens.Length ==> sceneLoadingTokens[i].Valid()
    }

    ghost predicate AllPreLoaded()
      reads sceneLoadingTokens, Tokens()
    {
      forall i :: 0 <= i < sceneLoadingTokens.Length ==> sceneLoadingTokens[i].IsPreLoaded()
    }

    /** `IsPreLoaded`: every member is pre-loaded (so an empty token is). */
    method IsPreLoaded() returns (r: bool)
      ensures r <==> AllPreLoaded()
    {
      var ts := sceneLoadingTokens;
      for i := 0 to ts.Length
        invariant forall k :: 0 <= k < i ==> ts[k].IsPreLoaded()
      {
        if !ts[i].IsPreLoaded() {
          return false;
        }
      }
      return true;
    }

    /** `IsCompleted`: every member's operation is done (so an empty token is). */
    method IsCompleted() returns (r: bool)
      ensures r <==> forall i :: 0 <= i < sceneLoadingTokens.Length ==> sceneLoadingTokens[i].IsCompleted()
    {
      var ts := sceneLoadingTokens;
      for i := 0 to ts.Length
        invariant forall k :: 0 <= k < i ==> ts[k].IsCompleted()
      {
        if !ts[i].IsCompleted() {
          return false;
        }
      }
      return true;
    }

    /**
     * `Update` of every member in array order. A token listed twice is updated twice, which
     * is the same as once because its operation does not move in between.
     */
    method Update()
      modifies Tokens()
      ensures old(Valid()) ==> Valid()
      ensures forall i :: 0 <= i < sceneLoadingTokens.Length ==>
        sceneLoadingTokens[i].State() == Observe(old(sceneLoadingTokens[i].State()), sceneLoadingTokens[i].asyncOperation.progress)
      ensures forall i :: 0 <= i < sceneLoadingTokens.Length ==>
        sceneLoadingTokens[i].progress >= sceneLoadingTokens[i].asyncOperation.progress
    {
      var ts := sceneLoadingTokens;
      for i := 0 to ts.Length
        invariant old(Valid()) ==> Valid()
        invariant forall k :: 0 <= k < i ==> ts[k].State() == Observe(old(ts[k].State()), ts[k].asyncOperation.progress)
        invariant forall k :: i <= k < ts.Length ==>
          ts[k].State() == old(ts[k].State()) || ts[k].State() == Observe(old(ts[k].State()), ts[k].asyncOperation.progress)
      {
        var t := ts[i];
        ObserveIdempotent(old(t.State()), t.asyncOperation.progress);
        t.Update();
      }
    }

    /** The frames still scripted for the members' operations, one pair per frame. */
    ghost function PendingFrames(): set<(AsyncOperation, int)>
      reads sceneLoadingTokens, Operations()
    {
      set o, k | o in Operations() && 0 <= k < |o.reports| :: (o, k)
    }

    predicate OperationsFinish()
      reads sceneLoadingTokens, Operations()
    {
      forall o :: o in Operations() ==> o.Finishes()
    }

    /** With no frame left to play, every operation reports its final progress. */
    lemma SettledWhenNothingPending()
      requires OperationsFinish() && PendingFrames() == {}
      ensures forall i :: 0 <= i < sceneLoadingTokens.Length ==> sceneLoadingTokens[i].asyncOperation.progress >= PreLoadThreshold
    {
      forall i | 0 <= i < sceneLoadingTokens.Length
        ensures sceneLoadingTokens[i].asyncOperation.progress >= PreLoadThreshold
      {
        var o := sceneLoadingTokens[i].asyncOperation;
        assert o in Operations() && (o, 0) !in PendingFrames();
      }
    }

    /** `yield return null` inside `PreLoad`: every member's operation plays one frame. */
    method PlayFrame()
      requires OperationsFinish()
      modifies Operations()
      ensures OperationsFinish() && AllPreLoaded() == old(AllPreLoaded()) && Valid() == old(Valid())
      ensures PendingFrames() <= old(PendingFrames())
      ensures old(PendingFrames()) != {} ==> PendingFrames() != old(PendingFrames())
    {
      ghost var pending := PendingFrames();
      AdvanceFrame(Operations());
      forall q | q in PendingFrames()
        ensures q in pending
      {
        assert |q.0.reports| <= |old(q.0.reports)|;
      }
      if pending != {} {
        var q :| q in pending;
        var o := q.0;
        assert (o, |old(o.reports)| - 1) in pending - PendingFrames();
      }
    }

    /** `Update` of every member; when no frame is left to play, that makes every member pre-loaded. */
    method UpdateMembers()
      requires OperationsFinish()
      modifies Tokens()
      ensures old(Valid()) ==> Valid()
      ensures OperationsFinish() && PendingFrames() == old(PendingFrames())
      ensures PendingFrames() == {} ==> AllPreLoaded()
    {
      if PendingFrames() == {} {
        SettledWhenNothingPending();
      }
      Update();
    }

    /**
     * One pass of `PreLoad`'s loop: `Update` every member, play a frame and ask whether every
     * member is pre-loaded. It plays a pending frame, or finds every member pre-loaded.
     */
    method Round() returns (done: bool)
      requires OperationsFinish()
      modifies Tokens(), Operations()
      ensures old(Valid()) ==> Valid()
      ensures OperationsFinish()
      ensures done <==> AllPreLoaded()
      ensures PendingFrames() <= old(PendingFrames())
      ensures old(PendingFrames()) != {} ==> PendingFrames() != old(PendingFrames())
      ensures old(PendingFrames()) == {} ==> done
    {
      UpdateMembers();
      PlayFrame();
      done := IsPreLoaded();
    }

    /**
     * `PreLoad`: `Update` every member and let a frame pass, until every member is pre-loaded.
     * `rounds` counts the passes; there are none when every member is already pre-loaded.
     * `preLoadedAfter` records, pass by pass, whether every member was pre-loaded after it:
     * only the last pass finds them so, and no pass runs once they are.
     */
    method PreLoad() returns (rounds: nat, ghost preLoadedAfter: seq<bool>)
      requires OperationsFinish()
      modifies Tokens(), Operations()
      ensures AllPreLoaded() && (old(Valid()) ==> Valid())
      ensures rounds == 0 <==> old(AllPreLoaded())
      ensures preLoadedAfter == Passes(rounds, true)
      ensures |preLoadedAfter| == rounds && (rounds > 0 ==> preLoadedAfter[rounds - 1])
      ensures forall i :: 0 <= i < rounds - 1 ==> !preLoadedAfter[i]
    {
      rounds := 0;
      preLoadedAfter := [];
      var done := IsPreLoaded();
      ghost var initially := done;
      ghost var wasValid := Valid();
      ghost var lastDone := false;
      while !done
        invariant wasValid ==> Valid()
        invariant OperationsFinish()
        invariant done <==> AllPreLoaded()
        invariant rounds == 0 ==> done == initially
        invariant initially ==> rounds == 0
        invariant preLoadedAfter == Passes(rounds, lastDone)
        invariant rounds > 0 ==> lastDone == done
        decreases PendingFrames(), if done then 0 else 1
      {
        PassesSnoc(rounds);
        done := Round();
        lastDone := done;
        preLoadedAfter := preLoadedAfter + [lastDone];
        rounds := rounds + 1;
      }
    }

    /** `Complete` of every member in array order. */
    method Complete()
      modifies Operations()
      ensures forall o :: o in Operations() ==>
        o.allowSceneActivation == (old(o.allowSceneActivation) ||
          exists i :: 0 <= i < sceneLoadingTokens.Length && sceneLoadingTokens[i].asyncOperation == o && sceneLoadingTokens[i].IsPreLoaded() && !o.isDone)
      ensures forall o :: o in Operations() ==>
        o.progress == old(o.progress) && o.isDone == old(o.isDone) && o.reports == old(o.reports)
    {
      var ts := sceneLoadingTokens;
      for i := 0 to ts.Length
        invariant forall o :: o in Operations() ==>
          o.allowSceneActivation == (old(o.allowSceneActivation) ||
            exists k :: 0 <= k < i && ts[k].asyncOperation == o && ts[k].IsPreLoaded() && !o.isDone)
        invariant forall o :: o in Operations() ==>
          o.progress == old(o.progress) && o.isDone == old(o.isDone) && o.reports == old(o.reports)
      {
        var a := ts[i].asyncOperation;
        ts[i].Complete();
        forall o | o in Operations() && o != a
          ensures o.allowSceneActivation == old(o.allowSceneActivation) ||
            exists k :: 0 <= k < i + 1 && ts[k].asyncOperation == o && ts[k].IsPreLoaded() && !o.isDone
        {
          if exists k :: 0 <= k < i + 1 && ts[k].asyncOperation == o && ts[k].IsPreLoaded() && !o.isDone {
            var k :| 0 <= k < i + 1 && ts[k].asyncOperation == o && ts[k].IsPreLoaded() && !o.isDone;
            assert k < i;
          }
        }
      }
    }
  }
}
