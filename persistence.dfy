/** persistState and restoreState (companion.js:299-325): the companion's position and
    frame count are saved under the variant's storage key and read back at startup.
    The stored JSON text is represented by what JSON.parse makes of it. */
module Persistence {
  import opened Wrappers
  import opened Engine

  /** The fields of the stored object; None when a field is absent or null. */
  datatype Record = Record(companionPosX: Option<real>, companionPosY: Option<real>,
                           frameCount: Option<int>)

  /** What localStorage holds under a key, as restoreState sees it. */
  datatype Slot =
    | Blank                 // the empty string: falsy, so restoreState stops
    | Unparseable           // JSON.parse throws, or yields null and reading a field throws
    | Parsed(record: Record)

  /** window.localStorage: its items, and whether it can be used at all (getItem and
      setItem throw when it cannot). */
  datatype Storage = Storage(items: map<string, Slot>, available: bool)

  /** The browser's storage object, which setItem changes in place. */
  class LocalStorage {
    var items: map<string, Slot>
    const available: bool

    function Contents(): Storage
      reads this
    {
      Storage(items, available)
    }

    constructor (items: map<string, Slot>, available: bool)
      ensures Contents() == Storage(items, available)
    {
      this.items := items;
      this.available := available;
    }
  }

  /** The payload persistState writes: `{ companionPosX, companionPosY, frameCount }`. */
  function Payload(a: Agent): Record {
    Record(Some(a.posX), Some(a.posY), Some(a.frameCount))
  }

  /** The storage after persistState; the write is skipped when persistence is off and
      fails silently when storage is unavailable. */
  function AfterPersist(s: Storage, key: string, a: Agent, persist: bool): Storage {
    if !persist || !s.available then s
    else s.(items := s.items[key := Parsed(Payload(a))])
  }

  /** The parsed record under `key`, if there is one. */
  function StoredRecord(s: Storage, key: string): Option<Record> {
    if key in s.items && s.items[key].Parsed? then Some(s.items[key].record) else None
  }

  /** The companion after restoreState: each field present in a parsed record replaces
      the current value (`parsed.x ?? x`); anything else changes nothing. */
  function Restored(a: Agent, persist: bool, s: Storage, key: string): Agent {
    if !persist || !s.available || key !in s.items then a
    else
      match s.items[key]
      case Parsed(r) =>
        a.(posX := r.companionPosX.GetOr(a.posX), posY := r.companionPosY.GetOr(a.posY),
           frameCount := r.frameCount.GetOr(a.frameCount))
      case _ => a
  }

  // ---------------------------------------------------------------------------
  // Properties

  /** Persisting and then restoring, with nothing in between, brings back the saved
      position and frame count and changes nothing else. */
  lemma PersistThenRestore(saved: Agent, current: Agent, s: Storage, key: string)
    requires s.available
    ensures Restored(current, true, AfterPersist(s, key, saved, true), key)
      == current.(posX := saved.posX, posY := saved.posY, frameCount := saved.frameCount)
  {
  }

  /** With persistPosition off, neither function does anything. */
  lemma DisabledPersistenceDoesNothing(a: Agent, s: Storage, key: string)
    ensures AfterPersist(s, key, a, false) == s
    ensures Restored(a, false, s, key) == a
  {
  }

  /** persistState writes only its own key. */
  lemma PersistTouchesOnlyItsKey(s: Storage, key: string, a: Agent, persist: bool)
    ensures var r := AfterPersist(s, key, a, persist);
      && r.available == s.available
      && (forall k :: k in s.items ==> k in r.items)
      && (forall k :: k in r.items && k != key ==> k in s.items && r.items[k] == s.items[k])
      && (key in r.items ==> (key in s.items && r.items[key] == s.items[key]) || r.items[key] == Parsed(Payload(a)))
  {
  }

  /** A missing, empty or unparseable record, or unavailable storage, leaves the
      companion as it is. */
  lemma NothingToRestore(a: Agent, persist: bool, s: Storage, key: string)
    requires !s.available || key !in s.items || s.items[key] == Blank || s.items[key] == Unparseable
    ensures Restored(a, persist, s, key) == a
  {
  }

  /** restoreState changes only the position and the frame count, and each only to the
      value the record holds for it: a field missing from the record keeps its value. */
  lemma RestoreTakesRecordedFields(a: Agent, persist: bool, s: Storage, key: string)
    ensures var r := Restored(a, persist, s, key);
      && r == a.(posX := r.posX, posY := r.posY, frameCount := r.frameCount)
      && (r.posX != a.posX ==> StoredRecord(s, key).Some? && StoredRecord(s, key).value.companionPosX == Some(r.posX))
      && (r.posY != a.posY ==> StoredRecord(s, key).Some? && StoredRecord(s, key).value.companionPosY == Some(r.posY))
      && (r.frameCount != a.frameCount ==> StoredRecord(s, key).Some? && StoredRecord(s, key).value.frameCount == Some(r.frameCount))
  {
  }
}
