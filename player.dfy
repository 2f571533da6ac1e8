/**
 * The player state that the podcast page keeps behind its player context:
 * an episode queue, a cursor into it and three independent flags, together
 * with the two derived predicates the transport controls read and the
 * transitions that the context hands to its views.
 *
 * A PlayerState is one snapshot of the five state variables; every
 * transition is a function from the snapshot before to the snapshot after.
 * The class in module PlayerContext updates its fields in place and is
 * specified by these functions.
 */
module Player {

  /** An episode as the views hand it to the player. The player never reads or changes its fields. */
  datatype Episode = Episode(duration: int, members: string, thumbnail: string, title: string, url: string)

  datatype PlayerState = PlayerState(
    episodeList: seq<Episode>,
    currentEpisodeIndex: int,
    isLooping: bool,
    isPlaying: bool,
    isShuffling: bool)

  /** The state a session starts in: an empty queue, the cursor at 0, every flag off. */
  const Initial := PlayerState([], 0, false, false, false)

  /** `index` is a position of `list`, or `list` is empty and `index` is 0. */
  predicate ValidCursor(list: seq<Episode>, index: int) {
    0 <= index < |list| || (list == [] && index == 0)
  }

  /** The cursor invariant. */
  predicate Valid(s: PlayerState) {
    ValidCursor(s.episodeList, s.currentEpisodeIndex)
  }

  /** Derived, never stored: the "previous" control is enabled. */
  predicate HasPrevious(s: PlayerState) {
    s.currentEpisodeIndex > 0
  }

  /** Derived, never stored: the "next" control is enabled. */
  predicate HasNext(s: PlayerState) {
    s.isShuffling || s.currentEpisodeIndex + 1 < |s.episodeList|
  }

  /** Empties the queue; the three flags are left as they were. */
  function ClearPlayerState(s: PlayerState): (r: PlayerState)
    ensures r.episodeList == [] && r.currentEpisodeIndex == 0
    ensures r.isLooping == s.isLooping && r.isPlaying == s.isPlaying && r.isShuffling == s.isShuffling
    ensures Valid(r) && !HasPrevious(r) && (HasNext(r) <==> r.isShuffling)
  {
    s.(episodeList := [], currentEpisodeIndex := 0)
  }

  /** Replaces the queue by the one episode and starts playing it, whatever was queued before. */
  function Play(s: PlayerState, episode: Episode): (r: PlayerState)
    ensures r.episodeList == [episode] && r.currentEpisodeIndex == 0 && r.isPlaying
    ensures r.isLooping == s.isLooping && r.isShuffling == s.isShuffling
    ensures Valid(r) && !HasPrevious(r) && (HasNext(r) <==> r.isShuffling)
  {
    s.(episodeList := [episode], currentEpisodeIndex := 0, isPlaying := true)
  }

  /**
   * Replaces the queue by `list` with the cursor at `index` and starts playing.
   * The index is not checked: the cursor invariant holds afterwards exactly
   * when `index` is a valid cursor of `list`.
   */
  function PlayList(s: PlayerState, list: seq<Episode>, index: int): (r: PlayerState)
    ensures r.episodeList == list && r.currentEpisodeIndex == index && r.isPlaying
    ensures r.isLooping == s.isLooping && r.isShuffling == s.isShuffling
    ensures Valid(r) <==> ValidCursor(list, index)
  {
    s.(episodeList := list, currentEpisodeIndex := index, isPlaying := true)
  }

  /**
   * Moves to the next episode. When shuffling, the cursor goes to `pick`, which
   * stands for floor(random * |queue|) with random in [0, 1): a valid cursor of
   * the queue, so 0 when the queue is empty. Otherwise the cursor advances by one
   * unless it is on the last episode, where nothing changes.
   */
  function PlayNext(s: PlayerState, pick: int): (r: PlayerState)
    requires ValidCursor(s.episodeList, pick)
    ensures r.episodeList == s.episodeList
    ensures r.isLooping == s.isLooping && r.isPlaying == s.isPlaying && r.isShuffling == s.isShuffling
    ensures s.isShuffling ==> r.currentEpisodeIndex == pick && Valid(r)
    ensures !s.isShuffling && s.currentEpisodeIndex + 1 < |s.episodeList| ==>
              r.currentEpisodeIndex == s.currentEpisodeIndex + 1
    ensures !s.isShuffling && s.currentEpisodeIndex + 1 >= |s.episodeList| ==> r == s
    ensures Valid(s) ==> Valid(r)
  {
    if s.isShuffling then s.(currentEpisodeIndex := pick)
    else if HasNext(s) then s.(currentEpisodeIndex := s.currentEpisodeIndex + 1)
    else s
  }

  /** Moves back one episode; on the first one nothing changes. */
  function PlayPrevious(s: PlayerState): (r: PlayerState)
    ensures r.episodeList == s.episodeList
    ensures r.isLooping == s.isLooping && r.isPlaying == s.isPlaying && r.isShuffling == s.isShuffling
    ensures s.currentEpisodeIndex > 0 ==> r.currentEpisodeIndex == s.currentEpisodeIndex - 1
    ensures s.currentEpisodeIndex <= 0 ==> r == s
    ensures Valid(s) ==> Valid(r)
  {
    if HasPrevious(s) then s.(currentEpisodeIndex := s.currentEpisodeIndex - 1) else s
  }

  /** Negates the loop flag and nothing else. */
  function ToggleLoop(s: PlayerState): (r: PlayerState)
    ensures r.isLooping != s.isLooping
    ensures r.(isLooping := s.isLooping) == s
    ensures Valid(r) == Valid(s) && HasNext(r) == HasNext(s) && HasPrevious(r) == HasPrevious(s)
  {
    s.(isLooping := !s.isLooping)
  }

  /** Negates the playing flag and nothing else. */
  function TogglePlay(s: PlayerState): (r: PlayerState)
    ensures r.isPlaying != s.isPlaying
    ensures r.(isPlaying := s.isPlaying) == s
    ensures Valid(r) == Valid(s) && HasNext(r) == HasNext(s) && HasPrevious(r) == HasPrevious(s)
  {
    s.(isPlaying := !s.isPlaying)
  }

  /** Negates the shuffle flag and nothing else; this may change whether "next" is enabled. */
  function ToggleShuffle(s: PlayerState): (r: PlayerState)
    ensures r.isShuffling != s.isShuffling
    ensures r.(isShuffling := s.isShuffling) == s
    ensures Valid(r) == Valid(s) && HasPrevious(r) == HasPrevious(s)
    ensures r.isShuffling ==> HasNext(r)
  {
    s.(isShuffling := !s.isShuffling)
  }

  /** Sets the playing flag as the media element reports it, and nothing else. */
  function SetPlayingState(s: PlayerState, state: bool): (r: PlayerState)
    ensures r.isPlaying == state
    ensures r.(isPlaying := s.isPlaying) == s
    ensures Valid(r) == Valid(s) && HasNext(r) == HasNext(s) && HasPrevious(r) == HasPrevious(s)
  {
    s.(isPlaying := state)
  }

  /**
   * The derived predicates mean what the controls they enable do: "previous" is
   * enabled exactly when pressing it moves the cursor, and, when not shuffling,
   * so is "next". When shuffling, "next" is always enabled, even on an empty queue.
   */
  lemma ControlsEnabledIffTheyMove(s: PlayerState)
    ensures HasPrevious(s) <==> PlayPrevious(s).currentEpisodeIndex != s.currentEpisodeIndex
    ensures !s.isShuffling ==>
              (HasNext(s) <==> PlayNext(s, 0).currentEpisodeIndex != s.currentEpisodeIndex)
    ensures s.isShuffling ==> HasNext(s)
  {
  }

  /** Under the cursor invariant, "previous" is enabled exactly when an episode is queued before the current one, and, when not shuffling, "next" exactly when one is queued after it. */
  lemma ControlsMatchQueue(s: PlayerState)
    requires Valid(s)
    ensures HasPrevious(s) <==> s.episodeList[..s.currentEpisodeIndex] != []
    ensures !s.isShuffling ==>
              (HasNext(s) <==> s.episodeList != [] && s.episodeList[s.currentEpisodeIndex + 1..] != [])
  {
  }

  /** When shuffling, "next" can land on every episode of the queue, the current one included. */
  lemma ShuffleReachesEveryEpisode(s: PlayerState, k: int)
    requires s.isShuffling && 0 <= k < |s.episodeList|
    ensures exists pick :: ValidCursor(s.episodeList, pick) && PlayNext(s, pick).currentEpisodeIndex == k
  {
    assert ValidCursor(s.episodeList, k) && PlayNext(s, k).currentEpisodeIndex == k;
  }

  /** When shuffling on an empty queue the only possible pick is 0, so the cursor stays at 0. */
  lemma ShuffleOnEmptyQueue(s: PlayerState, pick: int)
    requires s.isShuffling && s.episodeList == [] && ValidCursor(s.episodeList, pick)
    ensures PlayNext(s, pick) == s.(currentEpisodeIndex := 0)
  {
  }

  /** Applying the same toggle twice restores the state. */
  lemma TogglesAreInvolutions(s: PlayerState)
    ensures ToggleLoop(ToggleLoop(s)) == s
    ensures TogglePlay(TogglePlay(s)) == s
    ensures ToggleShuffle(ToggleShuffle(s)) == s
  {
  }

  /**
   * A queue of three played from the middle: both controls are enabled; "next"
   * reaches the last episode and disables itself; a further "next" stays put.
   * Playing a single episode disables both controls when not shuffling.
   */
  lemma QueueScenario(s: PlayerState, a: Episode, b: Episode, c: Episode)
    requires !s.isShuffling
    ensures var s1 := PlayList(s, [a, b, c], 1);
            HasNext(s1) && HasPrevious(s1) &&
            PlayNext(s1, 0).currentEpisodeIndex == 2 && !HasNext(PlayNext(s1, 0)) &&
            PlayNext(PlayNext(s1, 0), 0).currentEpisodeIndex == 2
    ensures !HasPrevious(Play(s, a)) && !HasNext(Play(s, a))
  {
  }
}
