/**
 * The playback store of src/stores/audioPlayerStore.ts: which episode is
 * loaded and whether it is playing, changed in place by three commands.
 *
 * Beside the store's own two fields, `PlaybackState` is the three-state
 * machine those fields encode (idle, playing an episode, paused on an
 * episode); each command of the store is proved to move the abstract state
 * exactly as the machine's transition function says.
 */
module AudioPlayerStore {
  import opened Types

  /** The three states of playback. */
  datatype PlaybackState = Idle | Playing(current: Episode) | Paused(current: Episode)

  /** The machine's reaction to "play this episode": restart on a new episode, toggle on the loaded one. */
  function PlayTransition(s: PlaybackState, e: Episode): PlaybackState
  {
    match s
    case Idle => Playing(e)
    case Playing(c) => if c.id == e.id then Paused(c) else Playing(e)
    case Paused(c) => if c.id == e.id then Playing(c) else Playing(e)
  }

  /** The machine's reaction to "toggle": flip between playing and paused; nothing in idle. */
  function ToggleTransition(s: PlaybackState): PlaybackState
  {
    match s
    case Idle => Idle
    case Playing(c) => Paused(c)
    case Paused(c) => Playing(c)
  }

  /** The store's fields that represent a machine state. */
  function Fields(s: PlaybackState): (Option<Episode>, bool)
  {
    match s
    case Idle => (None, false)
    case Playing(c) => (Some(c), true)
    case Paused(c) => (Some(c), false)
  }

  /** The machine state that a pair of store fields represents; a playing flag needs an episode. */
  function StateOf(episode: Option<Episode>, isPlaying: bool): PlaybackState
    requires isPlaying ==> episode.Some?
  {
    match episode
    case None => Idle
    case Some(c) => if isPlaying then Playing(c) else Paused(c)
  }

  /** The machine's states and the store's valid field pairs are in one-to-one correspondence. */
  lemma FieldsRoundTrip(s: PlaybackState, episode: Option<Episode>, isPlaying: bool)
    ensures Fields(s).1 ==> Fields(s).0.Some?
    ensures StateOf(Fields(s).0, Fields(s).1) == s
    ensures (isPlaying ==> episode.Some?) ==> Fields(StateOf(episode, isPlaying)) == (episode, isPlaying)
  {
  }

  class Store {
    var episode: Option<Episode>
    var isPlaying: bool

    /** The flag is meaningful only with an episode loaded. */
    ghost predicate Valid()
      reads this
    {
      isPlaying ==> episode.Some?
    }

    ghost function State(): PlaybackState
      reads this
      requires Valid()
    {
      StateOf(episode, isPlaying)
    }

    /** The store starts with no episode loaded and not playing. */
    constructor ()
      ensures Valid() && episode == None && !isPlaying
      ensures State() == Idle
    {
      episode := None;
      isPlaying := false;
    }

    /**
     * `playEpisode(e)`: when the loaded episode has the id of `e`, flip the
     * flag and keep the loaded episode; otherwise load `e` and play.
     */
    method PlayEpisode(e: Episode)
      requires Valid()
      modifies this
      ensures Valid()
      ensures old(episode).Some? && old(episode).value.id == e.id ==>
        episode == old(episode) && isPlaying == !old(isPlaying)
      ensures !(old(episode).Some? && old(episode).value.id == e.id) ==>
        episode == Some(e) && isPlaying
      ensures State() == PlayTransition(old(State()), e)
    {
      if episode.Some? && episode.value.id == e.id {
        isPlaying := !isPlaying;
      } else {
        episode, isPlaying := Some(e), true;
      }
    }

    /** `togglePlayPause()`: flip the flag when an episode is loaded; otherwise do nothing. */
    method TogglePlayPause()
      requires Valid()
      modifies this
      ensures Valid()
      ensures episode == old(episode)
      ensures isPlaying == if old(episode).Some? then !old(isPlaying) else old(isPlaying)
      ensures State() == ToggleTransition(old(State()))
    {
      if episode.Some? {
        isPlaying := !isPlaying;
      }
    }

    /** `stop()`: unload the episode and stop playing, from any state. */
    method Stop()
      modifies this
      ensures Valid()
      ensures episode == None && !isPlaying
      ensures State() == Idle
    {
      episode, isPlaying := None, false;
    }
  }

  /** What a fresh store goes through when an episode is played three times. */
  method PlayThreeTimes(a: Episode) returns (trace: seq<PlaybackState>)
    ensures trace == [Playing(a), Paused(a), Playing(a)]
  {
    var store := new Store();
    store.PlayEpisode(a);
    var s1 := StateOf(store.episode, store.isPlaying);
    store.PlayEpisode(a);
    var s2 := StateOf(store.episode, store.isPlaying);
    store.PlayEpisode(a);
    var s3 := StateOf(store.episode, store.isPlaying);
    trace := [s1, s2, s3];
  }

  /**
   * Playing a different episode replaces the loaded one and forces playback,
   * whether the first was playing or paused.
   */
  method PlayThenSwitch(a: Episode, b: Episode, pauseFirst: bool) returns (final: PlaybackState)
    requires a.id != b.id
    ensures final == Playing(b)
  {
    var store := new Store();
    store.PlayEpisode(a);
    if pauseFirst {
      store.TogglePlayPause();
    }
    store.PlayEpisode(b);
    final := StateOf(store.episode, store.isPlaying);
  }

  /** Toggling in idle leaves the store idle, and stop always ends in idle. */
  method ToggleIdleThenStop(a: Episode) returns (afterToggle: PlaybackState, afterStop: PlaybackState)
    ensures afterToggle == Idle
    ensures afterStop == Idle
  {
    var store := new Store();
    store.TogglePlayPause();
    afterToggle := StateOf(store.episode, store.isPlaying);
    store.PlayEpisode(a);
    store.Stop();
    afterStop := StateOf(store.episode, store.isPlaying);
  }

  /** Same id means the same loaded item: playing it again never reloads, only toggles. */
  lemma {:induction false} SameIdNeverReloads(s: PlaybackState, e: Episode)
    requires s != Idle && s.current.id == e.id
    ensures PlayTransition(s, e) != Idle
    ensures PlayTransition(s, e).current == s.current
    ensures PlayTransition(s, e).Playing? <==> s.Paused?
    ensures PlayTransition(s, e) == ToggleTransition(s)
  {
  }

  /** A different id (or idle) always leads to playing exactly `e`, a new load. */
  lemma {:induction false} OtherIdRestarts(s: PlaybackState, e: Episode)
    requires s == Idle || s.current.id != e.id
    ensures PlayTransition(s, e) == Playing(e)
  {
  }

  /** Toggling twice returns to the starting state. */
  lemma ToggleInvolution(s: PlaybackState)
    ensures ToggleTransition(ToggleTransition(s)) == s
  {
  }
}
