# Podcast player state, modelled in Dafny

This project models the player state of a podcast web page. The page's player
context provider owns one session's state:

- an episode queue (`episodeList`);
- a cursor into it (`currentEpisodeIndex`);
- three independent flags (`isPlaying`, `isLooping`, `isShuffling`).

It hands its views two derived predicates (`hasPrevious`, `hasNext`) and nine
operations: `clearPlayerState`, `play`, `playList`, `playNext`, `playPrevious`,
`toggleLoop`, `togglePlay`, `toggleShuffle` and `setPlayingState`.

The model has three files:

- `player.dfy` (module `Player`): a `PlayerState` snapshot of the five fields,
  the cursor invariant `Valid` (the cursor is a position of the queue, or the
  queue is empty and the cursor is 0), the derived predicates, one function per
  operation and lemmas about them.
- `player_context.dfy` (module `PlayerContext`): the provider as a class with
  the five fields. Each operation is a method that assigns the fields in place
  (`modifies this`). Its `ensures` ties the new state to the function of module
  `Player` applied to the old state and says whether the cursor invariant holds
  afterwards. A client method, `QueueSession`, drives a session through the
  class contracts alone.
- `session.dfy` (module `Session`): a session as a sequence of operations,
  with lemmas that relate many calls. The cursor invariant survives every
  session whose `playList` indices are in range. Repeated "next" and "previous"
  stop at the ends of the queue. Navigation changes nothing but the cursor.

The random draw of `playNext` in shuffle mode, `Math.floor(Math.random() * length)`,
is modelled as an arbitrary valid cursor of the queue (`pick`). That is any
position when the queue is non-empty, and 0 when it is empty. The method picks
it nondeterministically. The functions and the session commands take it as an
argument. `playList` does not check its index. The model keeps that behaviour,
and `PlayList` states that the invariant holds afterwards exactly when the index
is a valid cursor of the list.

## Model

| member | source | states |
|---|---|---|
| `Player.ClearPlayerState` | src/contexts/PlayerContext.tsx:43-46 | the queue becomes empty and the cursor 0; the three flags are unchanged; the invariant holds, "previous" is disabled and "next" is enabled only when shuffling |
| `Player.Play` | src/contexts/PlayerContext.tsx:48-52 | whatever the prior state, the queue becomes exactly `[episode]`, the cursor 0 and playing true; loop and shuffle are unchanged; the invariant holds and, unless shuffling, both controls are disabled |
| `Player.PlayList` | src/contexts/PlayerContext.tsx:54-58 | the queue becomes `list`, the cursor `index` and playing true; loop and shuffle are unchanged; the invariant holds afterwards if and only if `index` is a valid cursor of `list` |
| `Player.PlayNext` | src/contexts/PlayerContext.tsx:63-71 | queue and flags never change; when shuffling the cursor becomes the drawn index and the invariant holds even if it did not before; otherwise the cursor advances by exactly one when not on the last item, and on the last item the state is unchanged; the invariant is preserved |
| `Player.PlayPrevious` | src/contexts/PlayerContext.tsx:73-77 | queue and flags never change; the cursor goes back by exactly one when above 0 and the state is unchanged otherwise; the invariant is preserved |
| `Player.ToggleLoop` | src/contexts/PlayerContext.tsx:79-81 | the loop flag is negated and every other field is as before; the invariant and both controls are unaffected |
| `Player.TogglePlay` | src/contexts/PlayerContext.tsx:83-85 | the playing flag is negated and every other field is as before; the invariant and both controls are unaffected |
| `Player.ToggleShuffle` | src/contexts/PlayerContext.tsx:87-89 | the shuffle flag is negated and every other field is as before; the invariant and "previous" are unaffected, and turning shuffle on enables "next" |
| `Player.SetPlayingState` | src/contexts/PlayerContext.tsx:91-93 | the playing flag becomes `state` and every other field is as before |
| `Player.ControlsEnabledIffTheyMove` | src/contexts/PlayerContext.tsx:60-77 | `hasPrevious` holds exactly when `playPrevious` moves the cursor; without shuffle, `hasNext` holds exactly when `playNext` moves it; with shuffle, `hasNext` always holds |
| `Player.ControlsMatchQueue` | src/contexts/PlayerContext.tsx:60-61 | under the invariant, `hasPrevious` holds exactly when an episode is queued before the cursor; without shuffle, `hasNext` holds exactly when an episode is queued after it |
| `Player.ShuffleReachesEveryEpisode` | src/contexts/PlayerContext.tsx:64-66 | when shuffling, every position of the queue, the current one included, is a possible outcome of `playNext` |
| `Player.ShuffleOnEmptyQueue` | src/contexts/PlayerContext.tsx:64-66 | when shuffling on an empty queue, `playNext` leaves the cursor at 0, since floor(random * 0) is 0 |
| `Player.TogglesAreInvolutions` | src/contexts/PlayerContext.tsx:79-89 | applying `toggleLoop`, `togglePlay` or `toggleShuffle` twice restores the state |
| `Player.QueueScenario` | src/contexts/PlayerContext.tsx:48-71 | queue [A, B, C] played from position 1 enables both controls; "next" reaches position 2 and disables "next"; a further "next" stays at 2; `play(A)` disables both controls unless shuffling |
| `Session.StepPreservesValid` | src/contexts/PlayerContext.tsx:43-93 | each of the nine operations keeps the cursor invariant, `playList` when its index is in range |
| `Session.RunPreservesValid` | src/contexts/PlayerContext.tsx:43-93 | every sequence of operations from a valid state, whose `playList` indices are in range, ends in a valid state |
| `Session.SessionKeepsValid` | src/contexts/PlayerContext.tsx:37-41 | from the initial state (empty queue, cursor 0, flags off) every such session keeps the invariant |
| `Session.NextStopsAtLast` | src/contexts/PlayerContext.tsx:63-71 | without shuffle, k presses of "next" move the cursor to min(cursor + k, last position), and leave an empty queue's cursor at 0, changing nothing else: no wrap-around |
| `Session.PreviousStopsAtFirst` | src/contexts/PlayerContext.tsx:73-77 | k presses of "previous" move the cursor to max(cursor - k, 0) and change nothing else |
| `Session.NavigationKeepsQueueAndFlags` | src/contexts/PlayerContext.tsx:63-77 | any sequence of "next" and "previous" leaves the queue and all three flags as they were |
| `PlayerContext.PlayerContextProvider.constructor` | src/contexts/PlayerContext.tsx:37-41 | a session starts with an empty queue, the cursor at 0 and every flag false; the invariant holds and both controls are disabled |
| `PlayerContext.PlayerContextProvider.ClearPlayerState` | src/contexts/PlayerContext.tsx:43-46 | the fields become `Player.ClearPlayerState` of the old fields; the invariant holds |
| `PlayerContext.PlayerContextProvider.Play` | src/contexts/PlayerContext.tsx:48-52 | the fields become `Player.Play` of the old fields; the invariant holds |
| `PlayerContext.PlayerContextProvider.PlayList` | src/contexts/PlayerContext.tsx:54-58 | the fields become `Player.PlayList` of the old fields; the invariant holds if and only if the index is a valid cursor of the list |
| `PlayerContext.PlayerContextProvider.PlayNext` | src/contexts/PlayerContext.tsx:63-71 | the fields become `Player.PlayNext` of the old fields for some valid draw; the invariant holds afterwards when shuffling and is preserved otherwise |
| `PlayerContext.PlayerContextProvider.PlayPrevious` | src/contexts/PlayerContext.tsx:73-77 | the fields become `Player.PlayPrevious` of the old fields; the invariant is preserved |
| `PlayerContext.PlayerContextProvider.ToggleLoop` | src/contexts/PlayerContext.tsx:79-81 | the fields become `Player.ToggleLoop` of the old fields; the invariant is preserved |
| `PlayerContext.PlayerContextProvider.TogglePlay` | src/contexts/PlayerContext.tsx:83-85 | the fields become `Player.TogglePlay` of the old fields; the invariant is preserved |
| `PlayerContext.PlayerContextProvider.ToggleShuffle` | src/contexts/PlayerContext.tsx:87-89 | the fields become `Player.ToggleShuffle` of the old fields; the invariant is preserved |
| `PlayerContext.PlayerContextProvider.SetPlayingState` | src/contexts/PlayerContext.tsx:91-93 | the fields become `Player.SetPlayingState` of the old fields; the invariant is preserved |

## Left out

- The React wiring is not modelled: `createContext`, the provider element, `usePlayer`/`useContext` and rendering of children. It carries no logic.
- The `useState` update mechanics are not modelled. Setters are batched and handlers read the values of the last render. Each operation is modelled as one atomic update of the current state.
- PlayerContext.PlayerContextProvider.PlayNext: the shuffle draw is any valid cursor of the queue. The uniform distribution of `Math.random()` and the floating-point multiply-and-floor are not modelled, because only membership of the range can be proved.
- The cursor is an unbounded integer. JavaScript numbers can also be fractional, NaN or beyond 2^53. `playList` accepts such indices unchecked, and the model covers only integer indices.
- The fields of an episode are carried but never inspected, as in the source.
- The episode page is not part of this model: fetching an episode over REST, and formatting its date and duration. Its only use of the player is to call `play(episode)`, which is `Play` here.
