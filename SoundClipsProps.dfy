/** What the sound player promises, proved about the transitions of module
    SoundClips: the three-way decision of `play`, the bookkeeping of
    `onLoadComplete`, that a deferred sound is played when its load completes,
    and that the table keeps its ids fresh and distinct. */
module SoundClipsProps {
  import opened SoundClips

  /** An action outside the table changes nothing and plays nothing. */
  lemma PlayOutOfRange(s: PlayerState, action: int, newId: int)
    requires WellFormed(s)
    requires action < 0 || action >= SLOTS
    ensures AfterPlay(s, action, newId) == s && PlayedByPlay(s, action) == []
  {
  }

  /** After `release()`, a `play` that would reach the pool throws before it
      changes anything: the state stays as it was and nothing plays. */
  lemma PlayNullPool(s: PlayerState, action: int, newId: int)
    requires WellFormed(s) && Branch(s, action) == NullPool
    ensures 0 <= action < SLOTS && !s.poolLive
    ensures AfterPlay(s, action, newId) == s && PlayedByPlay(s, action) == []
  {
  }

  /** A slot without an id is reloaded; the new id becomes the pending one and
      nothing plays yet. */
  lemma PlayUnloaded(s: PlayerState, action: int, newId: int)
    requires WellFormed(s) && s.poolLive
    requires 0 <= action < SLOTS && s.ids[action] == ID_NOT_LOADED
    ensures Branch(s, action) == Reload
    ensures AfterPlay(s, action, newId) == s.(ids := s.ids[action := newId], pending := newId)
    ensures PlayedByPlay(s, action) == []
  {
  }

  /** A slot still loading makes its id the pending one, replacing whatever
      was pending before: of two such requests the later one wins. */
  lemma PlayLoading(s: PlayerState, a: int, b: int, newId: int)
    requires WellFormed(s)
    requires 0 <= a < SLOTS && s.ids[a] != ID_NOT_LOADED && !s.ready[a]
    requires 0 <= b < SLOTS && s.ids[b] != ID_NOT_LOADED && !s.ready[b]
    ensures Branch(s, a) == Defer
    ensures AfterPlay(s, a, newId) == s.(pending := s.ids[a])
    ensures PlayedByPlay(s, a) == []
    ensures AfterPlay(AfterPlay(s, a, newId), b, newId).pending == s.ids[b]
  {
  }

  /** A ready slot plays its id at once and changes nothing. */
  lemma PlayReady(s: PlayerState, action: int, newId: int)
    requires WellFormed(s) && s.poolLive
    requires 0 <= action < SLOTS && s.ids[action] != ID_NOT_LOADED && s.ready[action]
    ensures Branch(s, action) == PlayNow
    ensures AfterPlay(s, action, newId) == s
    ensures PlayedByPlay(s, action) == [s.ids[action]]
  {
  }

  /** A failed load clears the id of the first slot holding it; the ready
      flags and the pending id stay, and nothing plays. */
  lemma LoadFailed(s: PlayerState, soundID: int, status: int)
    requires WellFormed(s) && status != 0
    ensures var r := AfterLoadComplete(s, soundID, status);
      var k := FirstMatch(s.ids, soundID);
      && r.ready == s.ready && r.pending == s.pending
      && (k < SLOTS ==> r.ids == s.ids[k := ID_NOT_LOADED])
      && (k == SLOTS ==> r.ids == s.ids && (forall i :: 0 <= i < SLOTS ==> s.ids[i] != soundID))
      && PlayedByLoadComplete(s, soundID, status) == []
      && !LoadCompleteThrows(s, soundID, status)
  {
  }

  /** A successful load marks the first slot holding the id ready, and if the
      id is the pending one clears it and plays exactly that id. */
  lemma LoadSucceeded(s: PlayerState, soundID: int)
    requires WellFormed(s)
    ensures var r := AfterLoadComplete(s, soundID, 0);
      var k := FirstMatch(s.ids, soundID);
      && r.ids == s.ids
      && (k < SLOTS ==> r.ready == s.ready[k := true])
      && (k == SLOTS ==> r.ready == s.ready)
      && r.pending == (if soundID == s.pending then ID_NOT_LOADED else s.pending)
    ensures s.poolLive ==>
      PlayedByLoadComplete(s, soundID, 0) == (if soundID == s.pending then [soundID] else [])
  {
  }

  /** A non-zero id occurs in at most one slot of a table with distinct ids, so
      the first slot holding it is that slot. */
  lemma UniqueMatch(s: PlayerState, issued: nat, j: int)
    requires FreshIds(s, issued)
    requires 0 <= j < SLOTS && s.ids[j] != ID_NOT_LOADED
    ensures FirstMatch(s.ids, s.ids[j]) == j
  {
  }

  /** `play` keeps the ids fresh and distinct when the id for a reload is the
      next one the pool issues. */
  lemma PlayKeepsFresh(s: PlayerState, action: int, issued: nat)
    requires FreshIds(s, issued)
    ensures var issued' := if Branch(s, action) == Reload then issued + 1 else issued;
      FreshIds(AfterPlay(s, action, issued + 1), issued')
  {
  }

  /** `onLoadComplete` keeps the ids fresh and distinct. */
  lemma LoadCompleteKeepsFresh(s: PlayerState, soundID: int, status: int, issued: nat)
    requires FreshIds(s, issued)
    ensures FreshIds(AfterLoadComplete(s, soundID, status), issued)
  {
  }

  /** A sound requested before its slot was ready is played when its load
      completes: the id made pending is the slot's, its completion marks that
      slot ready, clears the pending id and plays exactly that id. */
  lemma DeferredPlayFires(s: PlayerState, action: int, issued: nat)
    requires FreshIds(s, issued) && s.poolLive
    requires Branch(s, action) == Reload || Branch(s, action) == Defer
    ensures var s1 := AfterPlay(s, action, issued + 1);
      var p := s1.pending;
      var s2 := AfterLoadComplete(s1, p, 0);
      && 0 <= action < SLOTS
      && p == s1.ids[action] && p != ID_NOT_LOADED
      && PlayedByPlay(s, action) == []
      && s2.ids == s1.ids
      && s2.ready == s1.ready[action := true]
      && s2.pending == ID_NOT_LOADED
      && PlayedByLoadComplete(s1, p, 0) == [p]
  {
  }

  /** After the load of a slot's id fails, the next `play` of that slot loads
      it again. */
  lemma FailedLoadReloads(s: PlayerState, action: int, status: int, issued: nat)
    requires FreshIds(s, issued) && s.poolLive
    requires 0 <= action < SLOTS && s.ids[action] != ID_NOT_LOADED
    requires status != 0
    ensures var s1 := AfterLoadComplete(s, s.ids[action], status);
      && s1.ids == s.ids[action := ID_NOT_LOADED]
      && Branch(s1, action) == Reload
  {
  }

  /** Releasing twice is releasing once. */
  lemma ReleaseIdempotent(s: PlayerState)
    ensures AfterRelease(AfterRelease(s)) == AfterRelease(s)
    ensures !AfterRelease(s).poolLive
  {
  }
}
