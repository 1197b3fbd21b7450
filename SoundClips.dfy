/** SoundClips.SoundPoolPlayer: a table of nine camera sound slots, each with
    the id the sound pool gave it and a ready flag, plus the one id waiting to
    be played when its load completes. The Android SoundPool is abstracted as
    a class that hands out fresh non-zero ids and logs what it plays. */
module SoundClips {

  /** The raw sound resources of SOUND_RES, in order. */
  datatype Clip =
    | CameraShutter | FocusComplete | VideoStart | VideoPause | VideoStop
    | BurstStart | BurstLoop | BurstEnd | PanoramaShutter

  const SOUND_RES: seq<Clip> :=
    [CameraShutter, FocusComplete, VideoStart, VideoPause, VideoStop,
     BurstStart, BurstLoop, BurstEnd, PanoramaShutter]

  /** mSoundRes: maps an action (0 shutter, 1 focus complete, ..., 8 panorama)
      to its slot. */
  const SOUND_RES_INDEX: seq<int> := [0, 1, 2, 3, 4, 5, 6, 7, 8]

  const SLOTS: int := 9

  /** What a slot holds before `load` has given it an id, or after loading failed. */
  const ID_NOT_LOADED: int := 0

  /** The player's fields as values: mSoundIDs, mSoundIDReady, mSoundIDToPlay,
      and whether mSoundPool is still non-null. */
  datatype PlayerState = PlayerState(ids: seq<int>, ready: seq<bool>, pending: int, poolLive: bool)

  predicate WellFormed(s: PlayerState) {
    |s.ids| == SLOTS && |s.ready| == SLOTS
  }

  /** Every id in the table was issued by the pool (ids 1..issued) and the
      non-zero ones are pairwise different; the pending id, too, is 0 or an
      issued id. */
  ghost predicate FreshIds(s: PlayerState, issued: nat) {
    && WellFormed(s)
    && (forall i :: 0 <= i < SLOTS ==> 0 <= s.ids[i] <= issued)
    && (forall i, j :: 0 <= i < j < SLOTS && s.ids[i] != ID_NOT_LOADED ==> s.ids[i] != s.ids[j])
    && 0 <= s.pending <= issued
  }

  /** The branch `play(action)` takes. NullPool: the branch would call the pool
      after `release()` cleared it, which throws a NullPointerException. */
  datatype PlayBranch = OutOfRange | Reload | Defer | PlayNow | NullPool

  function Branch(s: PlayerState, action: int): (b: PlayBranch)
    requires WellFormed(s)
    ensures b == OutOfRange <==> !(0 <= action < SLOTS)
    ensures b == NullPool <==>
      0 <= action < SLOTS && !s.poolLive && (s.ids[action] == ID_NOT_LOADED || s.ready[action])
    ensures b == Defer <==> 0 <= action < SLOTS && s.ids[action] != ID_NOT_LOADED && !s.ready[action]
    ensures b == Reload ==> s.poolLive && s.ids[action] == ID_NOT_LOADED
    ensures b == PlayNow ==> s.poolLive && s.ids[action] != ID_NOT_LOADED && s.ready[action]
  {
    if action < 0 || action >= |SOUND_RES_INDEX| then OutOfRange
    else
      var index := SOUND_RES_INDEX[action];
      if s.ids[index] == ID_NOT_LOADED then (if s.poolLive then Reload else NullPool)
      else if !s.ready[index] then Defer
      else if s.poolLive then PlayNow
      else NullPool
  }

  /** The state after `play(action)`, where `newId` is what `load` returns if
      the slot is reloaded. */
  function AfterPlay(s: PlayerState, action: int, newId: int): (r: PlayerState)
    requires WellFormed(s)
    ensures WellFormed(r) && r.poolLive == s.poolLive
  {
    match Branch(s, action)
    case Reload => s.(ids := s.ids[action := newId], pending := newId)
    case Defer => s.(pending := s.ids[action])
    case _ => s
  }

  /** The ids `play(action)` passes to the pool's `play`. */
  function PlayedByPlay(s: PlayerState, action: int): (played: seq<int>)
    requires WellFormed(s)
    ensures |played| <= 1
    ensures played != [] <==> Branch(s, action) == PlayNow
    ensures played != [] ==> 0 <= action < SLOTS && played[0] == s.ids[action] != ID_NOT_LOADED
  {
    if Branch(s, action) == PlayNow then [s.ids[action]] else []
  }

  /** The index of the first slot holding `id`, or |ids| if there is none. */
  function FirstMatch(ids: seq<int>, id: int): (k: nat)
    ensures k <= |ids|
    ensures k < |ids| ==> ids[k] == id
    ensures forall j :: 0 <= j < k ==> ids[j] != id
  {
    if |ids| == 0 then 0
    else if ids[0] == id then 0
    else 1 + FirstMatch(ids[1..], id)
  }

  /** The state after `onLoadComplete(pool, soundID, status)`. */
  function AfterLoadComplete(s: PlayerState, soundID: int, status: int): (r: PlayerState)
    requires WellFormed(s)
    ensures WellFormed(r) && r.poolLive == s.poolLive
  {
    var k := FirstMatch(s.ids, soundID);
    if status != 0 then
      if k < |s.ids| then s.(ids := s.ids[k := ID_NOT_LOADED]) else s
    else
      var marked := if k < |s.ids| then s.(ready := s.ready[k := true]) else s;
      if soundID == s.pending then marked.(pending := ID_NOT_LOADED) else marked
  }

  /** The ids `onLoadComplete` passes to the pool's `play`. */
  function PlayedByLoadComplete(s: PlayerState, soundID: int, status: int): (played: seq<int>)
    ensures played == [] || played == [soundID]
    ensures played != [] <==> status == 0 && soundID == s.pending && s.poolLive
  {
    if status == 0 && soundID == s.pending && s.poolLive then [soundID] else []
  }

  /** `onLoadComplete` calls `play` on a pool that `release()` cleared. It
      then plays nothing, but has already cleared the pending id. */
  predicate LoadCompleteThrows(s: PlayerState, soundID: int, status: int)
    ensures LoadCompleteThrows(s, soundID, status) ==> PlayedByLoadComplete(s, soundID, status) == []
    ensures WellFormed(s) && LoadCompleteThrows(s, soundID, status) ==>
      AfterLoadComplete(s, soundID, status).pending == ID_NOT_LOADED
  {
    status == 0 && soundID == s.pending && !s.poolLive
  }

  /** The state after `release()`: only the pool reference is dropped, and
      from then on no `play` reaches the pool's `play`. */
  function AfterRelease(s: PlayerState): (r: PlayerState)
    ensures !r.poolLive && r.ids == s.ids && r.ready == s.ready && r.pending == s.pending
    ensures WellFormed(s) ==> WellFormed(r) && forall action :: PlayedByPlay(r, action) == []
  {
    s.(poolLive := false)
  }

  /** The sound pool as the player sees it: `load` hands out the ids 1, 2, 3, ...
      (fresh and non-zero), `play` is recorded in a log. */
  class SoundPool {
    var issued: nat
    ghost var loaded: seq<Clip>
    ghost var played: seq<int>
    var released: bool

    constructor ()
      ensures issued == 0 && loaded == [] && played == [] && !released
    {
      issued, loaded, played, released := 0, [], [], false;
    }

    method Load(resource: Clip) returns (id: int)
      modifies this
      ensures id == old(issued) + 1 && issued == id
      ensures loaded == old(loaded) + [resource]
      ensures played == old(played) && released == old(released)
    {
      issued := issued + 1;
      loaded := loaded + [resource];
      id := issued;
    }

    method Play(id: int)
      modifies this
      ensures played == old(played) + [id]
      ensures issued == old(issued) && loaded == old(loaded) && released == old(released)
    {
      played := played + [id];
    }

    method Release()
      modifies this
      ensures released
      ensures issued == old(issued) && loaded == old(loaded) && played == old(played)
    {
      released := true;
    }
  }

  class SoundPoolPlayer {
    /** mSoundPool: null once `release()` has run. */
    var soundPool: SoundPool?
    const soundIDs: array<int>
    const soundIDReady: array<bool>
    var soundIDToPlay: int
    /** The pool the constructor built, still reachable after release. */
    ghost const pool: SoundPool

    ghost function Model(): PlayerState
      reads this, soundIDs, soundIDReady
    {
      PlayerState(soundIDs[..], soundIDReady[..], soundIDToPlay, soundPool != null)
    }

    ghost predicate Valid()
      reads this, soundIDs, soundIDReady, pool
    {
      && soundIDs.Length == SLOTS && soundIDReady.Length == SLOTS
      && (soundPool == null || soundPool == pool)
      && (soundPool == null <==> pool.released)
      && FreshIds(Model(), pool.issued)
    }

    /** Builds the pool and loads the nine clips, one per slot, none ready yet. */
    constructor ()
      ensures Valid() && fresh(pool) && fresh(soundIDs) && fresh(soundIDReady)
      ensures soundPool == pool && soundIDToPlay == ID_NOT_LOADED
      ensures pool.loaded == SOUND_RES && pool.played == [] && pool.issued == SLOTS
      ensures forall i :: 0 <= i < SLOTS ==> soundIDs[i] == i + 1 && !soundIDReady[i]
    {
      soundIDToPlay := ID_NOT_LOADED;
      var p := new SoundPool();
      soundPool := p;
      pool := p;
      soundIDs := new int[|SOUND_RES|];
      soundIDReady := new bool[|SOUND_RES|];
      new;
      for i := 0 to |SOUND_RES|
        invariant soundPool == p && pool == p && soundIDToPlay == ID_NOT_LOADED
        invariant p.issued == i && p.loaded == SOUND_RES[..i] && p.played == [] && !p.released
        invariant forall j :: 0 <= j < i ==> soundIDs[j] == j + 1 && !soundIDReady[j]
      {
        soundIDs[i] := soundPool.Load(SOUND_RES[i]);
        soundIDReady[i] := false;
      }
    }

    /** The search loop of a failed load: resets the first slot holding `soundID`. */
    method ClearFirstMatch(soundID: int)
      requires soundIDs.Length == SLOTS
      modifies soundIDs
      ensures var k := FirstMatch(old(soundIDs[..]), soundID);
        soundIDs[..] == if k < SLOTS then old(soundIDs[..])[k := ID_NOT_LOADED] else old(soundIDs[..])
    {
      var i := 0;
      while i < soundIDs.Length
        invariant 0 <= i <= soundIDs.Length
        invariant forall j :: 0 <= j < i ==> soundIDs[j] != soundID
        invariant soundIDs[..] == old(soundIDs[..])
      {
        if soundIDs[i] == soundID {
          soundIDs[i] := ID_NOT_LOADED;
          break;
        }
        i := i + 1;
      }
    }

    /** The search loop of a successful load: marks the first slot holding
        `soundID` ready. */
    method MarkFirstMatchReady(soundID: int)
      requires soundIDs.Length == SLOTS && soundIDReady.Length == SLOTS
      modifies soundIDReady
      ensures var k := FirstMatch(soundIDs[..], soundID);
        soundIDReady[..] == if k < SLOTS then old(soundIDReady[..])[k := true] else old(soundIDReady[..])
    {
      var i := 0;
      while i < soundIDs.Length
        invariant 0 <= i <= soundIDs.Length
        invariant forall j :: 0 <= j < i ==> soundIDs[j] != soundID
        invariant soundIDReady[..] == old(soundIDReady[..])
      {
        if soundIDs[i] == soundID {
          soundIDReady[i] := true;
          break;
        }
        i := i + 1;
      }
    }

    /** `onLoadComplete(pool, soundID, status)`. Returns true where Java would
        throw a NullPointerException. */
    method OnLoadComplete(soundID: int, status: int) returns (nullPointer: bool)
      requires Valid()
      modifies this, soundIDs, soundIDReady, pool
      ensures Valid()
      ensures soundPool == old(soundPool)
      ensures Model() == AfterLoadComplete(old(Model()), soundID, status)
      ensures pool.played == old(pool.played) + PlayedByLoadComplete(old(Model()), soundID, status)
      ensures pool.issued == old(pool.issued) && pool.loaded == old(pool.loaded)
      ensures pool.released == old(pool.released)
      ensures nullPointer == LoadCompleteThrows(old(Model()), soundID, status)
    {
      if status != 0 {
        ClearFirstMatch(soundID);
        return false;
      }

      MarkFirstMatchReady(soundID);

      nullPointer := false;
      if soundID == soundIDToPlay {
        soundIDToPlay := ID_NOT_LOADED;
        if soundPool == null {
          return true;
        }
        soundPool.Play(soundID);
      }
    }

    /** `release()`: releases the pool once; later calls find it null. */
    method Release()
      requires Valid()
      modifies this, pool
      ensures Valid()
      ensures soundPool == null && pool.released
      ensures Model() == AfterRelease(old(Model()))
      ensures pool.played == old(pool.played) && pool.issued == old(pool.issued)
      ensures pool.loaded == old(pool.loaded)
      ensures old(soundPool) == null ==> unchanged(this, pool)
    {
      if soundPool != null {
        soundPool.Release();
        soundPool := null;
      }
    }

    /** `play(action)`. Returns true where Java would throw a NullPointerException. */
    method Play(action: int) returns (nullPointer: bool)
      requires Valid()
      modifies this, soundIDs, pool
      ensures Valid()
      ensures soundPool == old(soundPool)
      ensures Model() == AfterPlay(old(Model()), action, old(pool.issued) + 1)
      ensures pool.played == old(pool.played) + PlayedByPlay(old(Model()), action)
      ensures Branch(old(Model()), action) == Reload ==>
        pool.issued == old(pool.issued) + 1 && pool.loaded == old(pool.loaded) + [SOUND_RES[action]]
      ensures Branch(old(Model()), action) != Reload ==>
        pool.issued == old(pool.issued) && pool.loaded == old(pool.loaded)
      ensures pool.released == old(pool.released)
      ensures nullPointer == (Branch(old(Model()), action) == NullPool)
    {
      if action < 0 || action >= |SOUND_RES_INDEX| {
        return false;
      }

      var index := SOUND_RES_INDEX[action];
      if soundIDs[index] == ID_NOT_LOADED {
        if soundPool == null {
          return true;
        }
        soundIDs[index] := soundPool.Load(SOUND_RES[index]);
        soundIDToPlay := soundIDs[index];
      } else if !soundIDReady[index] {
        soundIDToPlay := soundIDs[index];
      } else {
        if soundPool == null {
          return true;
        }
        soundPool.Play(soundIDs[index]);
      }
      nullPointer := false;
    }
  }
}
