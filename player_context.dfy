/**
 * The player context provider: one object per page session holding the five
 * state variables, with the operations it hands to its views. Each operation
 * updates the fields in place as one atomic step; its new state is the one the
 * matching function of module Player gives for the old state.
 */
module PlayerContext {
  import Player

  class PlayerContextProvider {
    var currentEpisodeIndex: int
    var episodeList: seq<Player.Episode>
    var isLooping: bool
    var isPlaying: bool
    var isShuffling: bool

    /** The snapshot of the five fields. */
    function State(): Player.PlayerState
      reads this
    {
      Player.PlayerState(episodeList, currentEpisodeIndex, isLooping, isPlaying, isShuffling)
    }

    predicate Valid()
      reads this
    {
      Player.Valid(State())
    }

    predicate HasPrevious()
      reads this
    {
      Player.HasPrevious(State())
    }

    predicate HasNext()
      reads this
    {
      Player.HasNext(State())
    }

    /** A session starts with an empty queue, the cursor at 0 and every flag off. */
    constructor ()
      ensures State() == Player.Initial
      ensures Valid() && !HasPrevious() && !HasNext()
    {
      currentEpisodeIndex := 0;
      episodeList := [];
      isLooping := false;
      isPlaying := false;
      isShuffling := false;
    }

    method ClearPlayerState()
      modifies this
      ensures State() == Player.ClearPlayerState(old(State()))
      ensures Valid()
    {
      episodeList := [];
      currentEpisodeIndex := 0;
    }

    method Play(episode: Player.Episode)
      modifies this
      ensures State() == Player.Play(old(State()), episode)
      ensures Valid()
    {
      episodeList := [episode];
      currentEpisodeIndex := 0;
      isPlaying := true;
    }

    /** The index is not checked; the cursor invariant holds afterwards exactly when it is in range. */
    method PlayList(list: seq<Player.Episode>, index: int)
      modifies this
      ensures State() == Player.PlayList(old(State()), list, index)
      ensures Valid() <==> Player.ValidCursor(list, index)
    {
      episodeList := list;
      currentEpisodeIndex := index;
      isPlaying := true;
    }

    /**
     * When shuffling, the new cursor is the random draw floor(random * |queue|),
     * here any valid cursor of the queue; otherwise the cursor advances unless it
     * is on the last episode.
     */
    method PlayNext()
      modifies this
      ensures exists pick :: Player.ValidCursor(old(episodeList), pick) && State() == Player.PlayNext(old(State()), pick)
      ensures old(isShuffling) ==> Valid()
      ensures old(Valid()) ==> Valid()
    {
      if isShuffling {
        assert Player.ValidCursor(episodeList, 0);
        var pick :| Player.ValidCursor(episodeList, pick);
        currentEpisodeIndex := pick;
        assert State() == Player.PlayNext(old(State()), pick);
      } else {
        if HasNext() {
          currentEpisodeIndex := currentEpisodeIndex + 1;
        }
        assert Player.ValidCursor(episodeList, 0) && State() == Player.PlayNext(old(State()), 0);
      }
    }

    method PlayPrevious()
      modifies this
      ensures State() == Player.PlayPrevious(old(State()))
      ensures old(Valid()) ==> Valid()
    {
      if HasPrevious() {
        currentEpisodeIndex := currentEpisodeIndex - 1;
      }
    }

    method ToggleLoop()
      modifies this
      ensures State() == Player.ToggleLoop(old(State()))
      ensures old(Valid()) ==> Valid()
    {
      isLooping := !isLooping;
    }

    method TogglePlay()
      modifies this
      ensures State() == Player.TogglePlay(old(State()))
      ensures old(Valid()) ==> Valid()
    {
      isPlaying := !isPlaying;
    }

    method ToggleShuffle()
      modifies this
      ensures State() == Player.ToggleShuffle(old(State()))
      ensures old(Valid()) ==> Valid()
    {
      isShuffling := !isShuffling;
    }

    method SetPlayingState(state: bool)
      modifies this
      ensures State() == Player.SetPlayingState(old(State()), state)
      ensures old(Valid()) ==> Valid()
    {
      isPlaying := state;
    }
  }

  /**
   * A view's use of the context: play a queue of three from the middle, go to
   * the end and try to go past it, then turn shuffle on and draw.
   */
  method QueueSession(a: Player.Episode, b: Player.Episode, c: Player.Episode)
  {
    var player := new PlayerContextProvider();
    player.PlayList([a, b, c], 1);
    assert player.HasNext() && player.HasPrevious();
    player.PlayNext();
    assert player.currentEpisodeIndex == 2 && !player.HasNext();
    player.PlayNext();
    assert player.currentEpisodeIndex == 2;
    player.ToggleShuffle();
    player.PlayNext();
    assert player.episodeList == [a, b, c] && 0 <= player.currentEpisodeIndex < 3;
    player.ClearPlayerState();
    assert player.isPlaying && player.isShuffling && player.HasNext();
  }
}
