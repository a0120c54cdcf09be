/**
 * The playlist state of `usePlaylistController`
 * (`src/components/MusicPlayer/PlaylistController.tsx`): a list of songs and
 * the index of the current one, changed by loading, adding, removing and
 * moving the cursor. React's state updates are flattened into ordinary
 * sequential assignments.
 */
module Playlist {
  import opened Wrappers

  datatype Song = Song(
    id: string,
    title: string,
    artist: Option<string>,
    lrcFileName: string,
    audioFileName: string,
    coverImage: Option<string>)

  /** The id of the placeholder song. */
  const DefaultId: string := "default"

  /** The placeholder used when there is nothing to play. */
  const DefaultSong: Song := Song(
    DefaultId,
    "\U{793A}\U{4F8B}\U{6B4C}\U{66F2}",
    Some("\U{8BF7}\U{4E0A}\U{4F20}\U{97F3}\U{4E50}"),
    "default.lrc",
    "default.mp3",
    Some("/music/covers/default.jpg"))

  /** What the request for the song list came back with. */
  datatype LoadOutcome =
    | Failed             // the request failed, the response was not ok, or its body was not JSON
    | NotAnArray         // the body parsed, but is not an array
    | Songs(data: seq<Song>)

  // ---------------------------------------------------------------- cursor arithmetic

  /** `(prev + 1) % playlist.length`. */
  function NextIndex(i: nat, n: nat): (r: nat)
    requires n > 0
    ensures r < n
  {
    (i + 1) % n
  }

  /** `(prev - 1 + playlist.length) % playlist.length`; the sum is never negative for a non-negative index. */
  function PrevIndex(i: nat, n: nat): (r: nat)
    requires n > 0
    ensures r < n
  {
    (i + n - 1) % n
  }

  /** From an index in range, moving forward steps by one and wraps at the end. */
  lemma NextInRange(i: nat, n: nat)
    requires i < n
    ensures NextIndex(i, n) == if i + 1 < n then i + 1 else 0
  {
  }

  /** From an index in range, moving back steps by one and wraps at the start. */
  lemma PrevInRange(i: nat, n: nat)
    requires i < n
    ensures PrevIndex(i, n) == if i > 0 then i - 1 else n - 1
  {
  }

  /** On an index in range, the two moves undo each other. */
  lemma NextPrevInverse(i: nat, n: nat)
    requires i < n
    ensures PrevIndex(NextIndex(i, n), n) == i
    ensures NextIndex(PrevIndex(i, n), n) == i
  {
    NextInRange(i, n);
    PrevInRange(i, n);
    PrevInRange(NextIndex(i, n), n);
    NextInRange(PrevIndex(i, n), n);
  }

  // ---------------------------------------------------------------- removal

  /** `prev.findIndex((song) => song.id === songId)`: the first position with that id, or -1. */
  function FindIndex(s: seq<Song>, id: string): (r: int)
    ensures -1 <= r < |s|
    ensures r >= 0 ==> s[r].id == id && forall k :: 0 <= k < r ==> s[k].id != id
    ensures r == -1 <==> forall k :: 0 <= k < |s| ==> s[k].id != id
  {
    if s == [] then -1
    else if s[0].id == id then 0
    else
      var r := FindIndex(s[1..], id);
      if r == -1 then -1 else r + 1
  }

  /** `prev.filter((song) => song.id !== songId)`. */
  function Without(s: seq<Song>, id: string): (r: seq<Song>)
    ensures |r| <= |s|
  {
    if s == [] then [] else (if s[0].id == id then [] else [s[0]]) + Without(s[1..], id)
  }

  /** No song with the id is left. */
  lemma {:induction false} WithoutDropsId(s: seq<Song>, id: string)
    ensures forall k :: 0 <= k < |Without(s, id)| ==> Without(s, id)[k].id != id
  {
    if s != [] {
      WithoutDropsId(s[1..], id);
    }
  }

  /** How many songs carry the id. */
  function Count(s: seq<Song>, id: string): nat {
    if s == [] then 0 else (if s[0].id == id then 1 else 0) + Count(s[1..], id)
  }

  /** The filter distributes over concatenation. */
  lemma {:induction false} WithoutAppend(s: seq<Song>, t: seq<Song>, id: string)
    ensures Without(s + t, id) == Without(s, id) + Without(t, id)
  {
    if s != [] {
      assert (s + t)[0] == s[0];
      assert (s + t)[1..] == s[1..] + t;
      WithoutAppend(s[1..], t, id);
    } else {
      assert s + t == t;
    }
  }

  /** The count distributes over concatenation. */
  lemma {:induction false} CountAppend(s: seq<Song>, t: seq<Song>, id: string)
    ensures Count(s + t, id) == Count(s, id) + Count(t, id)
  {
    if s != [] {
      assert (s + t)[0] == s[0];
      assert (s + t)[1..] == s[1..] + t;
      CountAppend(s[1..], t, id);
    } else {
      assert s + t == t;
    }
  }

  /** The filter removes as many songs as carry the id, and keeps every song when none does. */
  lemma {:induction false} WithoutCount(s: seq<Song>, id: string)
    ensures |Without(s, id)| == |s| - Count(s, id)
    ensures Count(s, id) == 0 ==> Without(s, id) == s
  {
    if s != [] {
      WithoutCount(s[1..], id);
    }
  }

  /** No song carries the id exactly when `findIndex` reports -1. */
  lemma {:induction false} CountZeroIff(s: seq<Song>, id: string)
    ensures Count(s, id) == 0 <==> FindIndex(s, id) == -1
  {
    if s != [] {
      CountZeroIff(s[1..], id);
    }
  }

  /** Filtering around a kept song: the songs before it, the song, the songs after it. */
  lemma WithoutAround(prev: seq<Song>, id: string, current: nat)
    requires current < |prev| && prev[current].id != id
    ensures Without(prev, id) == Without(prev[..current], id) + [prev[current]] + Without(prev[current + 1..], id)
    ensures Count(prev, id) == Count(prev[..current], id) + Count(prev[current + 1..], id)
  {
    var before, x, after := prev[..current], [prev[current]], prev[current + 1..];
    assert prev == before + x + after;
    WithoutAppend(before + x, after, id);
    WithoutAppend(before, x, id);
    CountAppend(before + x, after, id);
    CountAppend(before, x, id);
    assert x[1..] == [];
  }

  /** Some song before the cursor carries the id exactly when the first one with it lies before the cursor. */
  lemma FoundBefore(prev: seq<Song>, id: string, current: nat)
    requires current <= |prev|
    ensures Count(prev[..current], id) > 0 <==> 0 <= FindIndex(prev, id) < current
  {
    var before := prev[..current];
    CountZeroIff(before, id);
    var f := FindIndex(prev, id);
    if FindIndex(before, id) != -1 {
      var g := FindIndex(before, id);
      assert prev[g] == before[g];
    }
    if 0 <= f < current {
      assert before[f] == prev[f];
    }
  }

  /** The index after `removeSong`: one less when the first song with the id lies before it, or is missing. */
  function IndexAfterRemoval(prev: seq<Song>, id: string, current: nat): nat {
    if FindIndex(prev, id) < current && current > 0 then current - 1 else current
  }

  /**
   * When exactly one song carries the id and it is not the current one, the
   * cursor still points at the same song after the removal.
   */
  lemma RemovalKeepsCurrent(prev: seq<Song>, id: string, current: nat)
    requires current < |prev| && prev[current].id != id && Count(prev, id) == 1
    ensures IndexAfterRemoval(prev, id, current) < |Without(prev, id)|
    ensures Without(prev, id)[IndexAfterRemoval(prev, id, current)] == prev[current]
  {
    var before, after := prev[..current], prev[current + 1..];
    WithoutAround(prev, id, current);
    WithoutCount(before, id);
    WithoutCount(after, id);
    FoundBefore(prev, id, current);
    CountZeroIff(prev, id);
    var b := Without(before, id);
    assert IndexAfterRemoval(prev, id, current) == |b|;
    assert (b + [prev[current]] + Without(after, id))[|b|] == prev[current];
  }

  /** With the id missing, nothing is removed but a cursor past the start still moves back one song. */
  lemma AbsentIdMovesCursor(prev: seq<Song>, id: string, current: nat)
    requires 0 < current < |prev| && Count(prev, id) == 0
    ensures Without(prev, id) == prev
    ensures IndexAfterRemoval(prev, id, current) == current - 1
  {
    WithoutCount(prev, id);
    CountZeroIff(prev, id);
  }

  /** Two songs with the id before the cursor move it back by one only, past the end of the shorter list. */
  lemma DuplicateIdLeavesRange(a: Song, b: Song)
    requires a.id != b.id
    ensures Without([a, a, b], a.id) == [b]
    ensures IndexAfterRemoval([a, a, b], a.id, 2) == 1
    ensures IndexAfterRemoval([a, a, b], a.id, 2) >= |Without([a, a, b], a.id)|
  {
    assert [a, a, b][1..] == [a, b];
    assert [a, b][1..] == [b];
    assert Without([b], a.id) == [b] by {
      assert [b][1..] == [];
    }
  }

  // ---------------------------------------------------------------- the controller

  /** `addSong` replaces an empty list or a list holding only the placeholder. */
  predicate Replaces(prev: seq<Song>) {
    |prev| == 0 || (|prev| == 1 && prev[0].id == DefaultId)
  }

  class PlaylistController {
    var playlist: seq<Song>
    var currentSongIndex: nat
    var isLoading: bool
    var isInitialized: bool

    /** The hook's initial state. */
    constructor ()
      ensures playlist == [] && currentSongIndex == 0
      ensures isLoading && !isInitialized
    {
      playlist := [];
      currentSongIndex := 0;
      isLoading := true;
      isInitialized := false;
    }

    /** The cursor points at a song. */
    predicate InRange()
      reads this
    {
      currentSongIndex < |playlist|
    }

    /** `playlist[currentSongIndex]`: `None` stands for `undefined`. */
    function CurrentSong(): (r: Option<Song>)
      reads this
      ensures r.Some? <==> InRange()
      ensures r.Some? ==> r.value == playlist[currentSongIndex]
    {
      if currentSongIndex < |playlist| then Some(playlist[currentSongIndex]) else None
    }

    /**
     * The decision `loadPlaylist` takes on what was fetched: a non-empty
     * array becomes the playlist (the cursor goes to its start on the first
     * load only); anything else installs the placeholder alone.
     */
    method ApplyLoad(outcome: LoadOutcome)
      modifies this
      ensures !isLoading && isInitialized
      ensures playlist != []
      ensures outcome.Songs? && outcome.data != [] ==>
        playlist == outcome.data
        && currentSongIndex == (if old(isInitialized) then old(currentSongIndex) else 0)
      ensures !(outcome.Songs? && outcome.data != []) ==> playlist == [DefaultSong] && currentSongIndex == 0
      ensures !old(isInitialized) ==> InRange()
    {
      isLoading := true;
      if outcome.Songs? && |outcome.data| > 0 {
        playlist := outcome.data;
        if !isInitialized {
          currentSongIndex := 0;
          isInitialized := true;
        }
      } else {
        playlist := [DefaultSong];
        currentSongIndex := 0;
        isInitialized := true;
      }
      isLoading := false;
    }

    /** `addSong`. */
    method AddSong(song: Song)
      modifies this
      ensures Replaces(old(playlist)) ==> playlist == [song] && currentSongIndex == 0
      ensures !Replaces(old(playlist)) ==>
        playlist == old(playlist) + [song] && currentSongIndex == old(currentSongIndex)
      ensures isLoading == old(isLoading) && isInitialized == old(isInitialized)
      ensures old(InRange()) ==> InRange()
      ensures playlist[|playlist| - 1] == song
    {
      var prev := playlist;
      var newPlaylist := prev + [song];
      if |prev| == 0 || (|prev| == 1 && prev[0].id == DefaultId) {
        playlist := [song];
        currentSongIndex := 0;
      } else {
        playlist := newPlaylist;
      }
    }

    /**
     * `removeSong`. Reading the current song's id fails when the cursor
     * points past the list (`thrown`); removing the current song is refused.
     */
    method RemoveSong(songId: string) returns (thrown: bool)
      modifies this
      ensures thrown <==> !old(InRange())
      ensures thrown || old(playlist[currentSongIndex].id) == songId ==>
        playlist == old(playlist) && currentSongIndex == old(currentSongIndex)
      ensures !thrown && old(playlist[currentSongIndex].id) != songId ==>
        && playlist == Without(old(playlist), songId)
        && currentSongIndex == IndexAfterRemoval(old(playlist), songId, old(currentSongIndex))
      ensures isLoading == old(isLoading) && isInitialized == old(isInitialized)
    {
      if currentSongIndex >= |playlist| {
        return true;
      }
      if playlist[currentSongIndex].id == songId {
        return false;
      }
      var prev := playlist;
      playlist := Without(prev, songId);
      var removedBefore := FindIndex(prev, songId) < currentSongIndex;
      if removedBefore && currentSongIndex > 0 {
        currentSongIndex := currentSongIndex - 1;
      }
      return false;
    }

    /** `playNext`. */
    method PlayNext()
      modifies this
      ensures playlist == old(playlist) && isLoading == old(isLoading) && isInitialized == old(isInitialized)
      ensures playlist == [] ==> currentSongIndex == old(currentSongIndex)
      ensures playlist != [] ==> currentSongIndex == NextIndex(old(currentSongIndex), |playlist|) && InRange()
    {
      if |playlist| == 0 {
        return;
      }
      currentSongIndex := (currentSongIndex + 1) % |playlist|;
    }

    /** `playPrevious`. */
    method PlayPrevious()
      modifies this
      ensures playlist == old(playlist) && isLoading == old(isLoading) && isInitialized == old(isInitialized)
      ensures playlist == [] ==> currentSongIndex == old(currentSongIndex)
      ensures playlist != [] ==> currentSongIndex == PrevIndex(old(currentSongIndex), |playlist|) && InRange()
    {
      if |playlist| == 0 {
        return;
      }
      currentSongIndex := (currentSongIndex - 1 + |playlist|) % |playlist|;
    }

    /** `playSong`: only an index inside the list is taken. */
    method PlaySong(index: int)
      modifies this
      ensures playlist == old(playlist) && isLoading == old(isLoading) && isInitialized == old(isInitialized)
      ensures 0 <= index < |playlist| ==> currentSongIndex == index
      ensures !(0 <= index < |playlist|) ==> currentSongIndex == old(currentSongIndex)
      ensures old(InRange()) ==> InRange()
    {
      if index >= 0 && index < |playlist| {
        currentSongIndex := index;
      }
    }
  }
}
