/**
 * A session as a sequence of the operations the player context offers its
 * views, each applied atomically to the state the previous one left. The
 * lemmas here relate many calls: the cursor invariant survives every session
 * whose list indices are in range, "next" and "previous" never wrap around,
 * and navigation never touches the queue or the flags.
 */
module Session {
  import Player

  /** One call into the player context, with its arguments. `pick` is the shuffled index the random draw yields. */
  datatype Command =
    | Clear
    | PlayOne(episode: Player.Episode)
    | PlayAll(list: seq<Player.Episode>, index: int)
    | Next(pick: int)
    | Previous
    | ToggleLoop
    | TogglePlay
    | ToggleShuffle
    | SetPlaying(state: bool)

  /** The random draw of a Next command can only yield a valid cursor of the queue it is drawn for. */
  predicate Enabled(s: Player.PlayerState, c: Command) {
    c.Next? ==> Player.ValidCursor(s.episodeList, c.pick)
  }

  function Step(s: Player.PlayerState, c: Command): (r: Player.PlayerState)
    requires Enabled(s, c)
  {
    match c
    case Clear => Player.ClearPlayerState(s)
    case PlayOne(e) => Player.Play(s, e)
    case PlayAll(list, index) => Player.PlayList(s, list, index)
    case Next(pick) => Player.PlayNext(s, pick)
    case Previous => Player.PlayPrevious(s)
    case ToggleLoop => Player.ToggleLoop(s)
    case TogglePlay => Player.TogglePlay(s)
    case ToggleShuffle => Player.ToggleShuffle(s)
    case SetPlaying(b) => Player.SetPlayingState(s, b)
  }

  /** Every random draw in `cmds` is one the state at that point can yield. */
  predicate Admissible(s: Player.PlayerState, cmds: seq<Command>)
    decreases |cmds|
  {
    cmds == [] || (Enabled(s, cmds[0]) && Admissible(Step(s, cmds[0]), cmds[1..]))
  }

  function Run(s: Player.PlayerState, cmds: seq<Command>): (r: Player.PlayerState)
    requires Admissible(s, cmds)
    decreases |cmds|
  {
    if cmds == [] then s else Run(Step(s, cmds[0]), cmds[1..])
  }

  /** Every PlayAll in `cmds` passes an index in range, as its callers are meant to. */
  predicate IndicesInRange(cmds: seq<Command>) {
    forall i :: 0 <= i < |cmds| && cmds[i].PlayAll? ==> Player.ValidCursor(cmds[i].list, cmds[i].index)
  }

  /** `cmds` only presses "next" and "previous". */
  predicate NavigationOnly(cmds: seq<Command>) {
    forall i :: 0 <= i < |cmds| ==> cmds[i].Next? || cmds[i].Previous?
  }

  function Repeat(c: Command, k: nat): (r: seq<Command>)
    ensures |r| == k
  {
    if k == 0 then [] else [c] + Repeat(c, k - 1)
  }

  function Min(a: int, b: int): (m: int) { if a <= b then a else b }

  function Max(a: int, b: int): (m: int) { if a <= b then b else a }

  /** Each single operation keeps the cursor invariant, PlayAll when its index is in range. */
  lemma StepPreservesValid(s: Player.PlayerState, c: Command)
    requires Player.Valid(s) && Enabled(s, c)
    requires c.PlayAll? ==> Player.ValidCursor(c.list, c.index)
    ensures Player.Valid(Step(s, c))
  {
  }

  /** The cursor invariant holds after any session from a valid state whose list indices are in range. */
  lemma {:induction false} RunPreservesValid(s: Player.PlayerState, cmds: seq<Command>)
    requires Player.Valid(s) && Admissible(s, cmds) && IndicesInRange(cmds)
    ensures Player.Valid(Run(s, cmds))
    decreases |cmds|
  {
    if cmds != [] {
      StepPreservesValid(s, cmds[0]);
      assert IndicesInRange(cmds[1..]) by {
        forall i | 0 <= i < |cmds[1..]| && cmds[1..][i].PlayAll?
          ensures Player.ValidCursor(cmds[1..][i].list, cmds[1..][i].index)
        {
          assert cmds[1..][i] == cmds[i + 1];
        }
      }
      RunPreservesValid(Step(s, cmds[0]), cmds[1..]);
    }
  }

  /** A session starting from the initial state keeps the cursor invariant throughout. */
  lemma SessionKeepsValid(cmds: seq<Command>)
    requires Admissible(Player.Initial, cmds) && IndicesInRange(cmds)
    ensures Player.Valid(Run(Player.Initial, cmds))
  {
    RunPreservesValid(Player.Initial, cmds);
  }

  /**
   * Pressing "next" k times without shuffling advances k episodes but stops on
   * the last one: no wrap-around. On an empty queue nothing changes.
   */
  lemma {:induction false} NextStopsAtLast(s: Player.PlayerState, k: nat)
    requires Player.Valid(s) && !s.isShuffling
    ensures Admissible(s, Repeat(Next(0), k))
    ensures Run(s, Repeat(Next(0), k))
            == s.(currentEpisodeIndex := Min(s.currentEpisodeIndex + k, Max(|s.episodeList| - 1, 0)))
    decreases k
  {
    if k > 0 {
      var cmds := Repeat(Next(0), k);
      assert cmds[0] == Next(0) && cmds[1..] == Repeat(Next(0), k - 1);
      NextStopsAtLast(Player.PlayNext(s, 0), k - 1);
    }
  }

  /** Pressing "previous" k times goes back k episodes but stops on the first one. */
  lemma {:induction false} PreviousStopsAtFirst(s: Player.PlayerState, k: nat)
    requires Player.Valid(s)
    ensures Admissible(s, Repeat(Previous, k))
    ensures Run(s, Repeat(Previous, k)) == s.(currentEpisodeIndex := Max(s.currentEpisodeIndex - k, 0))
    decreases k
  {
    if k > 0 {
      var cmds := Repeat(Previous, k);
      assert cmds[0] == Previous && cmds[1..] == Repeat(Previous, k - 1);
      var s' := Player.PlayPrevious(s);
      assert s' == s.(currentEpisodeIndex := Max(s.currentEpisodeIndex - 1, 0));
      PreviousStopsAtFirst(s', k - 1);
    }
  }

  /** Navigation moves only the cursor: the queue and all three flags are as before. */
  lemma {:induction false} NavigationKeepsQueueAndFlags(s: Player.PlayerState, cmds: seq<Command>)
    requires Admissible(s, cmds) && NavigationOnly(cmds)
    ensures Run(s, cmds) == s.(currentEpisodeIndex := Run(s, cmds).currentEpisodeIndex)
    decreases |cmds|
  {
    if cmds != [] {
      assert NavigationOnly(cmds[1..]) by {
        forall i | 0 <= i < |cmds[1..]| ensures cmds[1..][i].Next? || cmds[1..][i].Previous? {
          assert cmds[1..][i] == cmds[i + 1];
        }
      }
      NavigationKeepsQueueAndFlags(Step(s, cmds[0]), cmds[1..]);
    }
  }
}
