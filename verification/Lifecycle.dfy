/** The recorded-forward lifecycle that every component checks states against. */
module Lifecycle {
  datatype State =
    | Planned | Ready | Blocked | InProgress | AwaitingMerge
    | Merged | Abandoned | Failed | Quarantined

  /** The rows of the transition table after intake. */
  function LegalTargets(from: State): set<State> {
    match from
    case Planned => {Blocked, Ready, InProgress, Abandoned}
    case Blocked => {Ready, Abandoned}
    case Ready => {InProgress, Failed, Abandoned}
    case InProgress => {InProgress, Ready, AwaitingMerge, Failed, Quarantined, Abandoned}
    case AwaitingMerge => {Merged, Abandoned, InProgress}
    case Merged => {}
    case Abandoned => {}
    case Failed => {InProgress, Ready, Blocked, Quarantined, Abandoned}
    case Quarantined => {Ready, Abandoned}
  }

  predicate Terminal(s: State) { s == Merged || s == Abandoned }

  /** The table read the other way: from where each state can be entered. */
  lemma EnteredFrom(from: State, to: State)
    ensures to in LegalTargets(from) <==>
      match to
      case Planned => false
      case Ready => from == Planned || from == Blocked || from == InProgress || from == Failed || from == Quarantined
      case Blocked => from == Planned || from == Failed
      case InProgress => from == Planned || from == Ready || from == InProgress || from == AwaitingMerge || from == Failed
      case AwaitingMerge => from == InProgress
      case Merged => from == AwaitingMerge
      case Abandoned => !Terminal(from)
      case Failed => from == Ready || from == InProgress
      case Quarantined => from == InProgress || from == Failed
  {
  }

  // ---- what the table allows in the long run -----------------------------------------------------------------

  /** States that follow one another by legal transitions. */
  ghost predicate Path(p: seq<State>) {
    p != [] && forall i :: 0 < i < |p| ==> p[i] in LegalTargets(p[i - 1])
  }

  ghost predicate Reaches(from: State, to: State) {
    exists p :: Path(p) && |p| > 1 && p[0] == from && p[|p| - 1] == to
  }

  lemma StepReaches(from: State, to: State)
    requires to in LegalTargets(from)
    ensures Reaches(from, to)
  {
    assert Path([from, to]);
  }

  lemma ReachesOn(from: State, mid: State, to: State)
    requires Reaches(from, mid) && to in LegalTargets(mid)
    ensures Reaches(from, to)
  {
    var p :| Path(p) && |p| > 1 && p[0] == from && p[|p| - 1] == mid;
    assert Path(p + [to]);
  }

  lemma EveryLiveStateReachesReady(from: State)
    requires !Terminal(from)
    ensures Reaches(from, Ready)
  {
    if from == AwaitingMerge {
      StepReaches(from, InProgress);
      ReachesOn(from, InProgress, Ready);
    } else if from == Ready {
      StepReaches(from, InProgress);
      ReachesOn(from, InProgress, Ready);
    } else {
      StepReaches(from, Ready);
    }
  }

  lemma PathEnds(p: seq<State>)
    requires Path(p) && |p| > 1
    ensures !Terminal(p[0]) && p[|p| - 1] != Planned
  {
    assert p[1] in LegalTargets(p[0]) && p[|p| - 1] in LegalTargets(p[|p| - 2]);
  }

  /** There are no dead ends and no way back to the start: from a state that is not terminal, legal transitions lead to every
      state but `planned`; from a terminal one, to none. */
  lemma ReachesIff(from: State, to: State)
    ensures Reaches(from, to) <==> !Terminal(from) && to != Planned
  {
    if Reaches(from, to) {
      var p :| Path(p) && |p| > 1 && p[0] == from && p[|p| - 1] == to;
      PathEnds(p);
    }
    if !Terminal(from) {
      EveryLiveStateReachesReady(from);
      ReachesOn(from, Ready, InProgress);
      ReachesOn(from, Ready, Failed);
      ReachesOn(from, Ready, Abandoned);
      ReachesOn(from, Failed, Blocked);
      ReachesOn(from, InProgress, AwaitingMerge);
      ReachesOn(from, InProgress, Quarantined);
      ReachesOn(from, AwaitingMerge, Merged);
    }
  }

  /** Nothing is merged that was not worked on: a legal path into `merged` comes from `awaiting_merge`, and if it did not start
      there, it went into `awaiting_merge` from `in_progress`. */
  lemma {:induction false} EveryMergeWasWork(p: seq<State>)
    requires Path(p) && |p| > 1 && p[|p| - 1] == Merged
    ensures p[|p| - 2] == AwaitingMerge
    ensures p[0] == AwaitingMerge || InProgress in p
  {
    var n := |p| - 2;
    assert p[n + 1] in LegalTargets(p[n]);
    if n > 0 {
      assert p[n] in LegalTargets(p[n - 1]);
    }
  }
}
