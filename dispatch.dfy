/** The per-frame dispatcher of the hand controller: classify the frame's
    hand, and run the registered action at most once per cooldown window,
    with one cooldown shared by all gestures. */
module GestureDispatch {
  import opened GestureClassifier

  /** The side-effecting actions, recorded rather than performed. */
  datatype Command = OpenBrowser | OpenNotepad | OpenCalculator | OpenEmail | CloseCurrentApp

  /** A registry entry: a display name and the action to run. */
  datatype Application = Application(name: string, command: Command)

  /** The registry the controller is built with, keyed by gesture label.
      Every label the classifier reports is a key, every key is such a
      label, and distinct gestures reach distinct entries. */
  function DefaultApplications(): (m: map<string, Application>)
    ensures forall g :: Label(g) in m
    ensures forall k :: k in m ==> exists g :: Label(g) == k
    ensures forall g1, g2 :: m[Label(g1)] == m[Label(g2)] ==> g1 == g2
  {
    assert Label(VSign) == "\U{270C}\U{FE0F} V-SIGN" && Label(Like) == "\U{1F44D} LIKE";
    assert Label(Ok) == "\U{1F44C} OK" && Label(Call) == "\U{1F919} CALL" && Label(Wave) == "\U{1F44B} WAVE";
    map[
    "\U{270C}\U{FE0F} V-SIGN" := Application("Navigateur", OpenBrowser),
    "\U{1F44D} LIKE" := Application("Bloc-notes", OpenNotepad),
    "\U{1F44C} OK" := Application("Calculatrice", OpenCalculator),
    "\U{1F919} CALL" := Application("E-mail", OpenEmail),
    "\U{1F44B} WAVE" := Application("Fermer App", CloseCurrentApp)
    ]
  }

  /** One processed camera frame: the detected hand, if any, and the clock. */
  datatype Frame = Frame(hand: Option<Hand>, now: real)

  /** One action invocation: which gesture, which action, and when. */
  datatype Dispatch = Dispatch(gesture: Gesture, command: Command, time: real)

  /** The controller's state as a value; `log` lists every dispatch so far. */
  datatype Controller = Controller(
    lastDispatch: real,
    cooldown: real,
    applications: map<string, Application>,
    log: seq<Dispatch>)

  /** One frame of the loop. */
  function Step(c: Controller, f: Frame): (r: Controller)
    ensures r.cooldown == c.cooldown && r.applications == c.applications
    ensures f.hand.None? ==> r == c
    ensures |r.log| == |c.log| + 1 <==>
      f.hand.Some? && Classify(f.hand.value).Some? &&
      f.now - c.lastDispatch > c.cooldown &&
      Label(Classify(f.hand.value).value) in c.applications
    ensures |r.log| == |c.log| + 1 ==>
      var g := Classify(f.hand.value).value;
      r.lastDispatch == f.now &&
      r.log == c.log + [Dispatch(g, c.applications[Label(g)].command, f.now)]
    ensures |r.log| != |c.log| + 1 ==> r == c
  {
    match f.hand
    case None => c
    case Some(h) =>
      match Classify(h)
      case None => c
      case Some(g) =>
        if f.now - c.lastDispatch > c.cooldown && Label(g) in c.applications then
          var app := c.applications[Label(g)];
          c.(lastDispatch := f.now, log := c.log + [Dispatch(g, app.command, f.now)])
        else
          c
  }

  /** The loop over a sequence of frames, in order. */
  function Run(c: Controller, frames: seq<Frame>): (r: Controller)
    ensures r.cooldown == c.cooldown && r.applications == c.applications
    ensures c.log <= r.log
    ensures |r.log| <= |c.log| + |frames|
    decreases |frames|
  {
    if frames == [] then c
    else Step(Run(c, frames[..|frames| - 1]), frames[|frames| - 1])
  }

  /** Any two dispatches in the log lie strictly more than `cooldown` apart. */
  ghost predicate Spaced(log: seq<Dispatch>, cooldown: real) {
    forall i, j :: 0 <= i < j < |log| ==> log[j].time - log[i].time > cooldown
  }

  /** The controller invariant: a non-negative cooldown, a well-spaced log,
      and `lastDispatch` holding the time of the latest dispatch. */
  ghost predicate Consistent(c: Controller) {
    c.cooldown >= 0.0 &&
    Spaced(c.log, c.cooldown) &&
    (c.log != [] ==> c.lastDispatch == c.log[|c.log| - 1].time)
  }

  lemma StepKeepsConsistent(c: Controller, f: Frame)
    requires Consistent(c)
    ensures Consistent(Step(c, f))
  {
  }

  /** Running any sequence of frames keeps the invariant: however the
      frames classify, no two dispatches fall within one cooldown. */
  lemma {:induction false} RunKeepsConsistent(c: Controller, frames: seq<Frame>)
    requires Consistent(c)
    ensures Consistent(Run(c, frames))
  {
    if frames != [] {
      RunKeepsConsistent(c, frames[..|frames| - 1]);
      StepKeepsConsistent(Run(c, frames[..|frames| - 1]), frames[|frames| - 1]);
    }
  }

  /** At most one dispatch in any cooldown window: of two dispatches made
      while running frames, the later one is more than `cooldown` after the
      earlier, whichever gestures triggered them. */
  lemma {:induction false} AtMostOneDispatchPerWindow(c: Controller, frames: seq<Frame>, i: nat, j: nat)
    requires Consistent(c)
    requires i < j < |Run(c, frames).log|
    ensures Run(c, frames).log[j].time - Run(c, frames).log[i].time > c.cooldown
  {
    RunKeepsConsistent(c, frames);
  }

  /** With the default registry, a frame whose hand shows a gesture after
      the cooldown has elapsed always dispatches that gesture's action. */
  lemma DefaultRegistryNeverDrops(c: Controller, f: Frame)
    requires c.applications == DefaultApplications()
    requires f.hand.Some? && Classify(f.hand.value).Some?
    requires f.now - c.lastDispatch > c.cooldown
    ensures |Step(c, f).log| == |c.log| + 1
    ensures Step(c, f).log[|c.log|].gesture == Classify(f.hand.value).value
  {
  }

  /** Frames at t, t+0.1, t+0.5 and t+1.1 that all show some gesture, with a
      cooldown of 1.0 already elapsed at t, dispatch exactly twice: at t and
      at t+1.1, even when the four frames show different gestures. */
  lemma CooldownScenario(c: Controller, t: real, h1: Hand, h2: Hand, h3: Hand, h4: Hand)
    requires c.cooldown == 1.0 && c.applications == DefaultApplications()
    requires t - c.lastDispatch > 1.0
    requires Classify(h1).Some? && Classify(h2).Some? && Classify(h3).Some? && Classify(h4).Some?
    ensures
      var frames := [Frame(Some(h1), t), Frame(Some(h2), t + 0.1), Frame(Some(h3), t + 0.5), Frame(Some(h4), t + 1.1)];
      var log := Run(c, frames).log;
      |log| == |c.log| + 2 &&
      log[|c.log|].gesture == Classify(h1).value && log[|c.log|].time == t &&
      log[|c.log| + 1].gesture == Classify(h4).value && log[|c.log| + 1].time == t + 1.1
  {
    var frames := [Frame(Some(h1), t), Frame(Some(h2), t + 0.1), Frame(Some(h3), t + 0.5), Frame(Some(h4), t + 1.1)];
    var s1 := Step(c, frames[0]);
    assert Run(c, frames[..1]) == s1 by {
      assert frames[..1][..0] == [];
    }
    var s2 := Step(s1, frames[1]);
    assert s2 == s1;
    assert Run(c, frames[..2]) == s2 by {
      assert frames[..2][..1] == frames[..1];
    }
    var s3 := Step(s2, frames[2]);
    assert s3 == s2;
    assert Run(c, frames[..3]) == s3 by {
      assert frames[..3][..2] == frames[..2];
    }
    var s4 := Step(s3, frames[3]);
    assert Run(c, frames) == s4 by {
      assert frames[..3] == frames[..|frames| - 1];
    }
  }

  /** The controller object of the camera loop. */
  class HandController {
    var lastDispatch: real
    var cooldown: real
    var applications: map<string, Application>
    ghost var dispatched: seq<Dispatch>

    ghost function Model(): Controller
      reads this
    {
      Controller(lastDispatch, cooldown, applications, dispatched)
    }

    ghost predicate Valid()
      reads this
    {
      Consistent(Model())
    }

    constructor ()
      ensures Valid()
      ensures Model() == Controller(0.0, 1.0, DefaultApplications(), [])
    {
      lastDispatch := 0.0;
      cooldown := 1.0;
      applications := DefaultApplications();
      dispatched := [];
    }

    /** The body of the camera loop for one frame, after hand detection. */
    method Tick(snapshot: Option<Hand>, now: real)
      requires Valid()
      modifies this
      ensures Valid()
      ensures Model() == Step(old(Model()), Frame(snapshot, now))
    {
      if snapshot.Some? {
        var gesture := Classify(snapshot.value);
        if gesture.Some? && now - lastDispatch > cooldown {
          var key := Label(gesture.value);
          if key in applications {
            dispatched := dispatched + [Dispatch(gesture.value, applications[key].command, now)];
            lastDispatch := now;
          }
        }
      }
      StepKeepsConsistent(old(Model()), Frame(snapshot, now));
    }

    /** The camera loop over a sequence of frames, one tick per frame. */
    method ProcessFrames(frames: seq<Frame>)
      requires Valid()
      modifies this
      ensures Valid()
      ensures Model() == Run(old(Model()), frames)
    {
      var i := 0;
      while i < |frames|
        invariant 0 <= i <= |frames|
        invariant Valid()
        invariant Model() == Run(old(Model()), frames[..i])
      {
        Tick(frames[i].hand, frames[i].now);
        assert frames[..i + 1][..i] == frames[..i];
        i := i + 1;
      }
      assert frames[..|frames|] == frames;
    }
  }
}
