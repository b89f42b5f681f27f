/** The tail of render_frame (src/backend/renderer.c:173-210, the same code as
    src/backend/drm.c:227-266): the rendered buffer is locked, submitted to the
    CRTC by a mode-set on the very first frame and by a page-flip afterwards,
    and the buffer submitted the time before is then given back. Everything the
    kernel and GBM answer is an input; what they are asked to do is a log of
    actions. */
module Scanout {
  import opened Types

  /** A locked GBM buffer object and the DRM framebuffer made for it. */
  datatype Buffer = Buffer(bo: nat, fb: nat)

  /** The kernel and GBM calls that take effect. A mode-set or page-flip that
      the kernel refuses changes nothing and is not logged. */
  datatype Action =
    | ModeSet(buffer: Buffer)          // drmModeSetCrtc
    | PageFlip(buffer: Buffer)         // drmModePageFlip with DRM_MODE_PAGE_FLIP_EVENT
    | RemoveFb(fb: nat)                // drmModeRmFB
    | ReleaseBo(bo: nat)               // gbm_surface_release_buffer

  /** The answers one render_frame call gets: the locked front buffer (none when
      locking fails), whether the CRTC and connector are known, and whether the
      submission is accepted. */
  datatype Attempt = Attempt(locked: Option<Buffer>, outputReady: bool, submitOk: bool)

  /** The static `first_frame` flag and the tracked `previous_bo`/`previous_fb_id`. */
  datatype State = State(firstFrame: bool, previous: Option<Buffer>)

  /** At start-up: first frame pending, nothing tracked. */
  const Initial: State := State(true, None)

  datatype Result = Result(state: State, actions: seq<Action>)

  /** The attempt reaches the end of render_frame. The output check is made on
      the mode-set path only. */
  predicate Succeeds(s: State, a: Attempt) {
    a.locked.Some? && (s.firstFrame ==> a.outputReady) && a.submitOk
  }

  /** The submission actions of a log, as the buffer objects submitted. */
  function Submitted(log: seq<Action>): (r: seq<nat>)
    ensures |r| <= |log|
  {
    if log == [] then []
    else (if log[0].ModeSet? || log[0].PageFlip? then [log[0].buffer.bo] else []) + Submitted(log[1..])
  }

  /** The buffer objects given back to GBM, in order. */
  function Released(log: seq<Action>): (r: seq<nat>)
    ensures |r| <= |log|
  {
    if log == [] then [] else (if log[0].ReleaseBo? then [log[0].bo] else []) + Released(log[1..])
  }

  function ModeSets(log: seq<Action>): (n: nat)
    ensures n <= |log|
  {
    if log == [] then 0 else (if log[0].ModeSet? then 1 else 0) + ModeSets(log[1..])
  }

  /** The buffer object tracked in a state, as a list of zero or one. */
  function Tracked(s: State): seq<nat> {
    if s.previous.Some? then [s.previous.value.bo] else []
  }

  /** One render_frame, from the lock onwards. */
  function Step(s: State, a: Attempt): (r: Result)
    ensures !Succeeds(s, a) ==> r == Result(s, [])
    ensures Succeeds(s, a) ==> r.state.previous == a.locked && !r.state.firstFrame
    ensures Succeeds(s, a) ==>
      r.actions != [] && r.actions[0] == (if s.firstFrame then ModeSet(a.locked.value) else PageFlip(a.locked.value))
    ensures Succeeds(s, a) ==> |r.actions| == if s.previous.Some? then 3 else 1
    ensures Succeeds(s, a) && s.previous.Some? ==>
      r.actions[1..] == [RemoveFb(s.previous.value.fb), ReleaseBo(s.previous.value.bo)]
    ensures !s.firstFrame ==> !r.state.firstFrame
  {
    if !Succeeds(s, a) then Result(s, [])
    else
      var b := a.locked.value;
      var submit := if s.firstFrame then ModeSet(b) else PageFlip(b);
      var release := if s.previous.Some? then [RemoveFb(s.previous.value.fb), ReleaseBo(s.previous.value.bo)] else [];
      Result(State(false, Some(b)), [submit] + release)
  }

  /** The flag stays set until a mode-set goes through, and a call performs a
      mode-set exactly when it succeeds with the flag set. */
  lemma StepFlag(s: State, a: Attempt)
    ensures Step(s, a).state.firstFrame <==> s.firstFrame && !Succeeds(s, a)
    ensures ModeSets(Step(s, a).actions) == if s.firstFrame && Succeeds(s, a) then 1 else 0
  {
    var r := Step(s, a);
    if Succeeds(s, a) {
      if s.previous.Some? {
        assert r.actions[1..][1..][1..] == [];
        assert ModeSets(r.actions[1..][1..]) == 0;
      } else {
        assert r.actions[1..] == [];
      }
      assert ModeSets(r.actions[1..]) == 0;
    }
  }

  /** Submitted, Released and ModeSets distribute over concatenation. */
  lemma {:induction false} SubmittedAppend(x: seq<Action>, y: seq<Action>)
    ensures Submitted(x + y) == Submitted(x) + Submitted(y)
  {
    if x == [] {
      assert x + y == y;
    } else {
      assert (x + y)[0] == x[0];
      assert (x + y)[1..] == x[1..] + y;
      SubmittedAppend(x[1..], y);
    }
  }

  lemma {:induction false} ReleasedAppend(x: seq<Action>, y: seq<Action>)
    ensures Released(x + y) == Released(x) + Released(y)
  {
    if x == [] {
      assert x + y == y;
    } else {
      assert (x + y)[0] == x[0];
      assert (x + y)[1..] == x[1..] + y;
      ReleasedAppend(x[1..], y);
    }
  }

  lemma {:induction false} ModeSetsAppend(x: seq<Action>, y: seq<Action>)
    ensures ModeSets(x + y) == ModeSets(x) + ModeSets(y)
  {
    if x == [] {
      assert x + y == y;
    } else {
      assert (x + y)[0] == x[0];
      assert (x + y)[1..] == x[1..] + y;
      ModeSetsAppend(x[1..], y);
    }
  }

  /** What one call submits plus what was tracked before is what it gives
      back plus what it tracks afterwards. */
  lemma StepBalance(s: State, a: Attempt)
    ensures var r := Step(s, a);
      multiset(Submitted(r.actions)) + multiset(Tracked(s)) == multiset(Released(r.actions)) + multiset(Tracked(r.state))
  {
    var r := Step(s, a);
    if Succeeds(s, a) {
      var b := a.locked.value;
      var submit := r.actions[0];
      assert submit.buffer == b;
      if s.previous.Some? {
        var p := s.previous.value;
        assert r.actions == [submit, RemoveFb(p.fb), ReleaseBo(p.bo)];
        assert r.actions[1..] == [RemoveFb(p.fb), ReleaseBo(p.bo)];
        assert r.actions[1..][1..] == [ReleaseBo(p.bo)];
        assert r.actions[1..][1..][1..] == [];
        assert Submitted(r.actions[1..][1..]) == [];
        assert Submitted(r.actions[1..]) == [];
        assert Submitted(r.actions) == [b.bo];
        assert Released(r.actions[1..][1..]) == [p.bo];
        assert Released(r.actions[1..]) == [p.bo];
        assert Released(r.actions) == [p.bo];
      } else {
        assert r.actions == [submit];
        assert r.actions[1..] == [];
        assert Submitted(r.actions) == [b.bo];
        assert Released(r.actions) == [];
      }
    }
  }

  /** render_frame called once per attempt, in order. */
  function Run(s: State, attempts: seq<Attempt>): (r: Result)
    decreases |attempts|
  {
    if attempts == [] then Result(s, [])
    else
      var before := Run(s, attempts[..|attempts| - 1]);
      var last := Step(before.state, attempts[|attempts| - 1]);
      Result(last.state, before.actions + last.actions)
  }

  /** Over any run, every buffer submitted is either given back exactly once or
      is the one still tracked: no buffer is released twice, none is released
      without having been submitted, and none but the last is kept. */
  lemma {:induction false} RunBalance(s: State, attempts: seq<Attempt>)
    ensures var r := Run(s, attempts);
      multiset(Submitted(r.actions)) + multiset(Tracked(s)) == multiset(Released(r.actions)) + multiset(Tracked(r.state))
    decreases |attempts|
  {
    if attempts != [] {
      var before := Run(s, attempts[..|attempts| - 1]);
      var last := Step(before.state, attempts[|attempts| - 1]);
      RunBalance(s, attempts[..|attempts| - 1]);
      StepBalance(before.state, attempts[|attempts| - 1]);
      SubmittedAppend(before.actions, last.actions);
      ReleasedAppend(before.actions, last.actions);
      Rebalance(multiset(Submitted(before.actions)), multiset(Submitted(last.actions)),
                multiset(Released(before.actions)), multiset(Released(last.actions)),
                multiset(Tracked(s)), multiset(Tracked(before.state)), multiset(Tracked(last.state)));
    }
  }

  lemma Rebalance(sub1: multiset<nat>, sub2: multiset<nat>, rel1: multiset<nat>, rel2: multiset<nat>,
                  t0: multiset<nat>, t1: multiset<nat>, t2: multiset<nat>)
    requires sub1 + t0 == rel1 + t1 && sub2 + t1 == rel2 + t2
    ensures sub1 + sub2 + t0 == rel1 + rel2 + t2
  {
    forall x ensures (sub1 + sub2 + t0)[x] == (rel1 + rel2 + t2)[x] {
      assert (sub1 + t0)[x] == (rel1 + t1)[x];
      assert (sub2 + t1)[x] == (rel2 + t2)[x];
    }
  }

  /** From start-up, what has been given back is contained in what has been
      submitted, and the difference is exactly the buffer still tracked. */
  lemma ReleasedOnlyOnce(attempts: seq<Attempt>)
    ensures var r := Run(Initial, attempts);
      multiset(Released(r.actions)) <= multiset(Submitted(r.actions)) &&
      multiset(Submitted(r.actions)) - multiset(Released(r.actions)) == multiset(Tracked(r.state))
  {
    RunBalance(Initial, attempts);
    var r := Run(Initial, attempts);
    Difference(multiset(Submitted(r.actions)), multiset(Released(r.actions)), multiset(Tracked(r.state)));
  }

  lemma Difference(sub: multiset<nat>, rel: multiset<nat>, t: multiset<nat>)
    requires sub == rel + t
    ensures rel <= sub && sub - rel == t
  {
    forall x ensures rel[x] <= sub[x] && (sub - rel)[x] == t[x] {
      assert sub[x] == rel[x] + t[x];
    }
  }

  /** A run does at most one mode-set: one exactly when it starts with the first
      frame pending and ends with it done. */
  lemma {:induction false} RunModeSets(s: State, attempts: seq<Attempt>)
    ensures var r := Run(s, attempts);
      ModeSets(r.actions) == if s.firstFrame && !r.state.firstFrame then 1 else 0
    ensures !s.firstFrame ==> !Run(s, attempts).state.firstFrame
    decreases |attempts|
  {
    if attempts != [] {
      var before := Run(s, attempts[..|attempts| - 1]);
      var last := Step(before.state, attempts[|attempts| - 1]);
      RunModeSets(s, attempts[..|attempts| - 1]);
      StepFlag(before.state, attempts[|attempts| - 1]);
      ModeSetsAppend(before.actions, last.actions);
    }
  }

  /** The start-up sequence of src/main.c:56-58 when everything succeeds: a
      mode-set with the first buffer, a page-flip with the second, and then the
      first buffer is given back while the second is tracked. */
  lemma Startup(b1: Buffer, b2: Buffer)
    ensures Run(Initial, [Attempt(Some(b1), true, true), Attempt(Some(b2), true, true)]) ==
      Result(State(false, Some(b2)), [ModeSet(b1), PageFlip(b2), RemoveFb(b1.fb), ReleaseBo(b1.bo)])
  {
    var a := [Attempt(Some(b1), true, true), Attempt(Some(b2), true, true)];
    assert a[..1][..0] == [];
    assert a[..1][0] == a[0] && a[..1] == a[..|a| - 1];
    assert Run(Initial, a[..1][..0]) == Result(Initial, []);
    assert Step(Initial, a[0]) == Result(State(false, Some(b1)), [ModeSet(b1)]);
    var first := Run(Initial, a[..1]);
    assert first == Result(State(false, Some(b1)), [] + [ModeSet(b1)]);
    assert Step(first.state, a[1]).actions == [PageFlip(b2), RemoveFb(b1.fb), ReleaseBo(b1.bo)];
  }

  /** When the first lock fails, the second start-up call still performs the
      mode-set. */
  lemma StartupAfterLockFailure(b: Buffer)
    ensures Run(Initial, [Attempt(None, true, true), Attempt(Some(b), true, true)]) ==
      Result(State(false, Some(b)), [ModeSet(b)])
  {
    var a := [Attempt(None, true, true), Attempt(Some(b), true, true)];
    assert a[..1][..0] == [];
    assert a[..1][0] == a[0] && a[..1] == a[..|a| - 1];
    assert Run(Initial, a[..1][..0]) == Result(Initial, []);
    assert Step(Initial, a[0]) == Result(Initial, []);
    var first := Run(Initial, a[..1]);
    assert first == Result(Initial, [] + []);
    assert Step(first.state, a[1]).actions == [ModeSet(b)];
  }

  /** The scanout bookkeeping of the server: the flag, the tracked buffer and
      the log of what the kernel and GBM were asked to do. */
  class Pipeline {
    var firstFrame: bool
    var previous: Option<Buffer>
    ghost var log: seq<Action>

    function Current(): State
      reads this
    {
      State(firstFrame, previous)
    }

    constructor ()
      ensures Current() == Initial && log == []
    {
      firstFrame := true;
      previous := None;
      log := [];
    }

    /** From gbm_surface_lock_front_buffer to the end of render_frame. */
    method Present(locked: Option<Buffer>, outputReady: bool, submitOk: bool)
      modifies this
      ensures var r := Step(old(Current()), Attempt(locked, outputReady, submitOk));
        Current() == r.state && log == old(log) + r.actions
    {
      if locked.None? {
        return;
      }
      var b := locked.value;
      if firstFrame {
        if !outputReady {
          return;
        }
        if !submitOk {
          return;
        }
        log := log + [ModeSet(b)];
        firstFrame := false;
      } else {
        if !submitOk {
          return;
        }
        log := log + [PageFlip(b)];
      }
      if previous.Some? {
        log := log + [RemoveFb(previous.value.fb), ReleaseBo(previous.value.bo)];
      }
      previous := Some(b);
    }
  }
}
