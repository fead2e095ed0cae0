/** Turning observed client phases into game-started and game-ended transitions. */
module Lifecycle {
  import opened Common
  import opened Events

  datatype Observation = Observation(phase: string, gameId: int, roomId: string)

  datatype Transition = Transition(subject: string, gameId: int, roomId: string)

  datatype Tracker = Tracker(gameId: int, roomId: string, started: bool)

  const EMPTY := Tracker(0, "", false)

  predicate IsSelect(o: Observation) {
    o.phase == "ChampSelect" && o.gameId > 0 && o.roomId != ""
  }

  predicate IsEndPhase(phase: string) {
    phase == "WaitingForStats" || phase == "PreEndOfGame" || phase == "EndOfGame"
  }

  function Observed(t: Tracker, o: Observation): (Tracker, Option<Transition>) {
    if o.phase == "ChampSelect" then
      (if IsSelect(o) then t.(gameId := o.gameId, roomId := o.roomId) else t, None)
    else if o.phase == "InProgress" then
      if t.started || t.gameId <= 0 || t.roomId == "" then (t, None)
      else (t.(started := true), Some(Transition(SUBJECT_STARTED, t.gameId, t.roomId)))
    else if IsEndPhase(o.phase) then
      if !t.started then (t, None)
      else (EMPTY, Some(Transition(SUBJECT_ENDED, t.gameId, t.roomId)))
    else if o.phase == "Lobby" || o.phase == "None" then
      (if t.started then t else EMPTY, None)
    else (t, None)
  }

  class GameLifecycleTracker {
    var gameId: int
    var roomId: string
    var started: bool

    constructor ()
      ensures View() == EMPTY
    {
      gameId, roomId, started := 0, "", false;
    }

    function View(): Tracker
      reads this
    {
      Tracker(gameId, roomId, started)
    }

    method Observe(o: Observation) returns (transition: Option<Transition>)
      modifies this
      ensures (View(), transition) == Observed(old(View()), o)
    {
      transition := None;
      if o.phase == "ChampSelect" {
        if o.gameId > 0 && o.roomId != "" {
          gameId, roomId := o.gameId, o.roomId;
        }
      } else if o.phase == "InProgress" {
        if !(started || gameId <= 0 || roomId == "") {
          started := true;
          transition := Some(Transition(SUBJECT_STARTED, gameId, roomId));
        }
      } else if o.phase == "WaitingForStats" || o.phase == "PreEndOfGame" || o.phase == "EndOfGame" {
        if started {
          transition := Some(Transition(SUBJECT_ENDED, gameId, roomId));
          Reset();
        }
      } else if o.phase == "Lobby" || o.phase == "None" {
        if !started {
          Reset();
        }
      }
    }

    method Reset()
      modifies this
      ensures View() == EMPTY
    {
      gameId, roomId, started := 0, "", false;
    }
  }

  // ---------- traces ----------

  function After(observations: seq<Observation>): Tracker {
    if observations == [] then EMPTY
    else Observed(After(observations[..|observations| - 1]), observations[|observations| - 1]).0
  }

  /** What observation number `k` of a trace emits. */
  function Emitted(observations: seq<Observation>, k: nat): Option<Transition>
    requires k < |observations|
  {
    Observed(After(observations[..k]), observations[k]).1
  }

  function Emissions(observations: seq<Observation>): seq<Transition> {
    if observations == [] then []
    else
      var n := |observations| - 1;
      Emissions(observations[..n])
      + match Emitted(observations, n) case None => [] case Some(transition) => [transition]
  }

  /** The identifiers of the last valid champion select. */
  function LastSelect(observations: seq<Observation>): Option<(int, string)> {
    if observations == [] then None
    else
      var last := observations[|observations| - 1];
      if IsSelect(last) then Some((last.gameId, last.roomId)) else LastSelect(observations[..|observations| - 1])
  }

  /** The tracker either knows nothing or remembers the last valid champion select; a started game is always known. */
  lemma {:induction false} TrackerRemembersLastSelect(observations: seq<Observation>)
    ensures var t := After(observations);
            t == EMPTY || (t.gameId > 0 && t.roomId != "" && LastSelect(observations) == Some((t.gameId, t.roomId)))
  {
    if observations != [] {
      TrackerRemembersLastSelect(observations[..|observations| - 1]);
    }
  }

  /** Every transition carries the valid identifiers of the last valid champion select before it. */
  lemma TransitionCarriesLastSelect(observations: seq<Observation>, k: nat)
    requires k < |observations| && Emitted(observations, k).Some?
    ensures var transition := Emitted(observations, k).value;
            && transition.gameId > 0 && transition.roomId != ""
            && LastSelect(observations[..k]) == Some((transition.gameId, transition.roomId))
  {
    TrackerRemembersLastSelect(observations[..k]);
  }

  /** Transitions alternate, beginning with a start, and the tracker is started exactly after an odd number of them. */
  lemma {:induction false} TransitionsAlternate(observations: seq<Observation>)
    ensures var emitted := Emissions(observations);
            && (forall i :: 0 <= i < |emitted| ==> emitted[i].subject == if i % 2 == 0 then SUBJECT_STARTED else SUBJECT_ENDED)
            && (After(observations).started <==> |emitted| % 2 == 1)
  {
    if observations != [] {
      var n := |observations| - 1;
      TransitionsAlternate(observations[..n]);
      assert observations[..n] == observations[..|observations| - 1];
    }
  }

  lemma {:induction false} LastSelectConcat(a: seq<Observation>, b: seq<Observation>)
    ensures LastSelect(a + b) == if LastSelect(b).Some? then LastSelect(b) else LastSelect(a)
  {
    if b == [] {
      assert a + b == a;
    } else {
      LastSelectConcat(a, b[..|b| - 1]);
      assert (a + b)[..|a + b| - 1] == a + b[..|b| - 1];
    }
  }

  /** An end names the game of an earlier transition exactly when no valid champion select in between names another. */
  lemma EndMatchesStart(observations: seq<Observation>, j: nat, k: nat)
    requires j < k < |observations|
    requires Emitted(observations, j).Some? && Emitted(observations, k).Some?
    ensures var first, second := Emitted(observations, j).value, Emitted(observations, k).value;
            var between := LastSelect(observations[j..k]);
            (first.gameId, first.roomId) == (second.gameId, second.roomId)
            <==> between.None? || between.value == (first.gameId, first.roomId)
  {
    TransitionCarriesLastSelect(observations, j);
    TransitionCarriesLastSelect(observations, k);
    assert observations[..k] == observations[..j] + observations[j..k];
    LastSelectConcat(observations[..j], observations[j..k]);
  }

  lemma EmittedInPrefix(observations: seq<Observation>, prefix: seq<Observation>, k: nat)
    requires k < |prefix| && prefix <= observations
    ensures Emitted(prefix, k) == Emitted(observations, k)
  {
    assert prefix[..k] == observations[..k];
  }

  // ---------- when a game starts and ends, said of the trace alone ----------

  /** The last transition was a start. */
  predicate Running(observations: seq<Observation>) { |Emissions(observations)| % 2 == 1 }

  /** Observation number `i` is a valid champion select, and until number `n` nothing makes the client forget it. */
  predicate Remembered(observations: seq<Observation>, i: nat, n: nat)
    requires i < n <= |observations|
  {
    && observations[i].phase == "ChampSelect" && observations[i].gameId > 0 && observations[i].roomId != ""
    && forall j :: i < j < n ==> Emitted(observations, j).None? && observations[j].phase !in {"Lobby", "None"}
  }

  ghost predicate SelectRemembered(observations: seq<Observation>, n: nat)
    requires n <= |observations|
  {
    exists i: nat :: i < n && Remembered(observations, i, n)
  }

  /** One more observation that neither emits nor forgets changes nothing. */
  lemma StillRemembered(observations: seq<Observation>, n: nat)
    requires n < |observations| && Emitted(observations, n).None? && observations[n].phase !in {"Lobby", "None"}
    requires !IsSelect(observations[n])
    ensures SelectRemembered(observations, n + 1) <==> SelectRemembered(observations, n)
  {
    if SelectRemembered(observations, n) {
      var i: nat :| i < n && Remembered(observations, i, n);
      assert Remembered(observations, i, n + 1);
    }
    if SelectRemembered(observations, n + 1) {
      var i: nat :| i < n + 1 && Remembered(observations, i, n + 1);
      assert i < n && Remembered(observations, i, n);
    }
  }

  lemma Forgotten(observations: seq<Observation>, n: nat)
    requires n < |observations| && !IsSelect(observations[n])
    requires Emitted(observations, n).Some? || observations[n].phase in {"Lobby", "None"}
    ensures !SelectRemembered(observations, n + 1)
  {
    var m := n + 1;
    assert forall i: nat :: i < n ==> !Remembered(observations, i, m);
  }

  lemma {:induction false} KnownExactlyWhen(observations: seq<Observation>, n: nat)
    requires n <= |observations| && !After(observations[..n]).started
    ensures After(observations[..n]).gameId > 0 <==> SelectRemembered(observations, n)
  {
    if n > 0 {
      var k := n - 1;
      assert observations[..n][..k] == observations[..k];
      TrackerRemembersLastSelect(observations[..k]);
      var before, o := After(observations[..k]), observations[k];
      assert After(observations[..n]) == Observed(before, o).0 && Emitted(observations, k) == Observed(before, o).1;
      if IsSelect(o) {
        assert Remembered(observations, k, n);
      } else if Emitted(observations, k).Some? || o.phase in {"Lobby", "None"} {
        Forgotten(observations, k);
      } else {
        KnownExactlyWhen(observations, k);
        StillRemembered(observations, k);
      }
    }
  }

  lemma RunningIsStarted(observations: seq<Observation>)
    ensures Running(observations) <==> After(observations).started
  {
    TransitionsAlternate(observations);
  }

  /** A start is emitted exactly when play begins, no game is running and a valid champion select is remembered. */
  lemma StartsExactlyWhen(observations: seq<Observation>, k: nat)
    requires k < |observations|
    ensures Emitted(observations, k).Some? && Emitted(observations, k).value.subject == "game.started" <==>
              observations[k].phase == "InProgress" && !Running(observations[..k]) && SelectRemembered(observations, k)
  {
    RunningIsStarted(observations[..k]);
    TrackerRemembersLastSelect(observations[..k]);
    if !Running(observations[..k]) {
      KnownExactlyWhen(observations, k);
    }
  }

  /** An end is emitted exactly when a game is running and the client shows one of the three phases after it. */
  lemma EndsExactlyWhen(observations: seq<Observation>, k: nat)
    requires k < |observations|
    ensures Emitted(observations, k).Some? && Emitted(observations, k).value.subject == "game.ended" <==>
              observations[k].phase in {"WaitingForStats", "PreEndOfGame", "EndOfGame"} && Running(observations[..k])
  {
    RunningIsStarted(observations[..k]);
  }

  lemma OneMore(observations: seq<Observation>, o: Observation)
    ensures var all, (tracker, transition) := observations + [o], Observed(After(observations), o);
            && After(all) == tracker
            && Emissions(all) == Emissions(observations) + match transition case None => [] case Some(t) => [t]
  {
    var all := observations + [o];
    assert all[..|all| - 1] == observations && all[..|observations|] == observations;
  }

  /** For instance, a champion select that the client reports while a game runs. */
  lemma EndCanNameAnotherGame() returns (observations: seq<Observation>)
    ensures Emissions(observations) == [Transition(SUBJECT_STARTED, 1, "a"), Transition(SUBJECT_ENDED, 2, "b")]
  {
    var select, play := Observation("ChampSelect", 1, "a"), Observation("InProgress", 0, "");
    var other, end := Observation("ChampSelect", 2, "b"), Observation("EndOfGame", 0, "");
    OneMore([], select);
    OneMore([] + [select], play);
    OneMore([] + [select] + [play], other);
    OneMore([] + [select] + [play] + [other], end);
    observations := [] + [select] + [play] + [other] + [end];
  }
}
