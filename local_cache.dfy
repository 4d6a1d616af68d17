/**
 * The browser's key-value storage and the application's two effects on it:
 * loading the petition list once, and saving it after every change with one
 * clear-and-retry when the quota is exceeded.
 */
module LocalCache {
  import opened Wrappers
  import opened Types

  /** The single storage key the list is kept under. */
  const StorageKey: string := "tnt_petitions_v2"

  /** What `setItem` can throw: the quota error, or any other storage error. */
  datatype StorageError = QuotaExceeded | OtherError

  /** One call the application made on the storage, in the order made. */
  datatype StorageCall = GetItem(key: string) | SetItem(key: string, value: string) | RemoveItem(key: string)

  /**
   * `JSON.stringify` and `JSON.parse` for petition lists; `parse` yields
   * `None` where `JSON.parse` throws, and also where it yields a value that is
   * not a petition list.
   */
  datatype Codec = Codec(stringify: seq<Petition> -> string, parse: string -> Option<seq<Petition>>)

  /** The codec reads back what it wrote. */
  ghost predicate RoundTrips(codec: Codec)
  {
    forall ps :: codec.parse(codec.stringify(ps)) == Some(ps)
  }

  /**
   * Whether writing `value` under `key` fits: the `reserved` characters held by
   * the rest of the origin, the entry currently under `key` (still held while the
   * new one is written) and the new entry must fit within `quota`.
   */
  function Fits(items: map<string, string>, quota: nat, reserved: nat, key: string, value: string): bool
  {
    reserved + (if key in items then |key| + |items[key]| else 0) + |key| + |value| <= quota
  }

  /**
   * The origin's storage area. Writes are refused with `OtherError` when the
   * storage is disabled, and with `QuotaExceeded` when they do not fit.
   */
  class LocalStorage {
    var items: map<string, string>
    const quota: nat
    const reserved: nat
    const enabled: bool
    var log: seq<StorageCall>

    constructor (initial: map<string, string>, quota: nat, reserved: nat, enabled: bool)
      ensures items == initial && this.quota == quota && this.reserved == reserved
      ensures this.enabled == enabled && log == []
    {
      items := initial;
      this.quota := quota;
      this.reserved := reserved;
      this.enabled := enabled;
      log := [];
    }

    /**
     * `localStorage.getItem(key)`: the stored text, or `null`; a disabled
     * storage throws, returned here as the error.
     */
    method Get(key: string) returns (r: Result<Option<string>, StorageError>)
      modifies this`log
      ensures !enabled ==> r == Failure(OtherError)
      ensures enabled ==> r == Success(if key in items then Some(items[key]) else None)
      ensures log == old(log) + [GetItem(key)]
    {
      if !enabled {
        r := Failure(OtherError);
      } else {
        r := Success(if key in items then Some(items[key]) else None);
      }
      log := log + [GetItem(key)];
    }

    /** `localStorage.setItem(key, value)`; a thrown error is returned, and leaves the entries as they were. */
    method Set(key: string, value: string) returns (err: Option<StorageError>)
      modifies this`items, this`log
      ensures err == (if !enabled then Some(OtherError)
                      else if Fits(old(items), quota, reserved, key, value) then None
                      else Some(QuotaExceeded))
      ensures items == if err == None then old(items)[key := value] else old(items)
      ensures log == old(log) + [SetItem(key, value)]
    {
      if !enabled {
        err := Some(OtherError);
      } else if Fits(items, quota, reserved, key, value) {
        items := items[key := value];
        err := None;
      } else {
        err := Some(QuotaExceeded);
      }
      log := log + [SetItem(key, value)];
    }

    /** `localStorage.removeItem(key)`. */
    method Remove(key: string)
      modifies this`items, this`log
      ensures items == old(items) - {key}
      ensures log == old(log) + [RemoveItem(key)]
    {
      items := items - {key};
      log := log + [RemoveItem(key)];
    }
  }

  /** How a save ended; none of them is an exception that reaches the caller. */
  datatype SaveOutcome =
    | Saved                         // the first write succeeded
    | NotSaved                      // the first write failed with an error other than the quota
    | SavedOnRetry                  // quota error; the key was cleared and the second write succeeded
    | GaveUpOnRetry                 // quota error; the key was cleared and the second write failed too

  /** The outcome and the entries a save of `value` leaves, from the entries it starts with. */
  function SaveEffect(items: map<string, string>, quota: nat, reserved: nat, enabled: bool, value: string)
    : (r: (SaveOutcome, map<string, string>))
    ensures r.0 == NotSaved <==> !enabled
    ensures r.1 - {StorageKey} == items - {StorageKey}
    ensures r.0 in {Saved, SavedOnRetry} ==> StorageKey in r.1 && r.1[StorageKey] == value
    ensures r.0 == GaveUpOnRetry ==> StorageKey !in r.1
  {
    if !enabled then (NotSaved, items)
    else if Fits(items, quota, reserved, StorageKey, value) then (Saved, items[StorageKey := value])
    else
      var cleared := items - {StorageKey};
      if Fits(cleared, quota, reserved, StorageKey, value) then (SavedOnRetry, cleared[StorageKey := value])
      else (GaveUpOnRetry, cleared)
  }

  /** The storage calls a save makes, by how it ended. */
  function SaveCalls(outcome: SaveOutcome, value: string): seq<StorageCall>
  {
    match outcome
    case Saved => [SetItem(StorageKey, value)]
    case NotSaved => [SetItem(StorageKey, value)]
    case SavedOnRetry => [SetItem(StorageKey, value), RemoveItem(StorageKey), SetItem(StorageKey, value)]
    case GaveUpOnRetry => [SetItem(StorageKey, value), RemoveItem(StorageKey), SetItem(StorageKey, value)]
  }

  /**
   * The save effect: write the serialised list; on a quota error remove the key
   * and write once more; swallow every error.
   */
  method SavePetitions(store: LocalStorage, ps: seq<Petition>, codec: Codec) returns (outcome: SaveOutcome)
    modifies store`items, store`log
    ensures (outcome, store.items) ==
      SaveEffect(old(store.items), store.quota, store.reserved, store.enabled, codec.stringify(ps))
    ensures store.log == old(store.log) + SaveCalls(outcome, codec.stringify(ps))
  {
    var value := codec.stringify(ps);
    var err := store.Set(StorageKey, value);
    if err == None {
      outcome := Saved;
    } else if err == Some(QuotaExceeded) {
      store.Remove(StorageKey);
      var retry := store.Set(StorageKey, value);
      outcome := if retry == None then SavedOnRetry else GaveUpOnRetry;
    } else {
      outcome := NotSaved;
    }
  }

  /**
   * The list the load effect leaves: the parsed saved text when there is a
   * non-empty one that parses, otherwise the current list.
   */
  function LoadedPetitions(saved: Option<string>, current: seq<Petition>, codec: Codec): (r: seq<Petition>)
    ensures saved == None || saved == Some("") ==> r == current
    ensures saved.Some? && saved.value != "" && codec.parse(saved.value).None? ==> r == current
    ensures saved.Some? && saved.value != "" && codec.parse(saved.value).Some? ==>
      r == codec.parse(saved.value).value
  {
    match saved
    case None => current
    case Some(text) =>
      if text == "" then current
      else match codec.parse(text)
        case None => current
        case Some(loaded) => loaded
  }

  /** The entry under the storage key, as `getItem` returns it. */
  function Stored(items: map<string, string>): Option<string>
  {
    if StorageKey in items then Some(items[StorageKey]) else None
  }

  /** How the load effect ended: it ran to the end, or `getItem` threw out of it. */
  datatype LoadOutcome = Completed | Threw

  /**
   * The load effect: read the key and replace the list by what it holds, if
   * anything usable. The read is outside the effect's `try`, so on a disabled
   * storage the effect throws and the list stays as it was.
   */
  method LoadPetitions(store: LocalStorage, current: seq<Petition>, codec: Codec)
    returns (outcome: LoadOutcome, r: seq<Petition>)
    modifies store`log
    ensures outcome == Threw <==> !store.enabled
    ensures r == if store.enabled then LoadedPetitions(Stored(store.items), current, codec) else current
    ensures store.log == old(store.log) + [GetItem(StorageKey)]
  {
    var saved := store.Get(StorageKey);
    match saved
    case Failure(_) =>
      outcome, r := Threw, current;
    case Success(text) =>
      outcome, r := Completed, LoadedPetitions(text, current, codec);
  }

  /**
   * A save never loses the key silently: either the new text is stored, or the
   * entries are untouched (any error but the quota), or the key is gone (quota,
   * then the retry failed).
   */
  lemma SaveEffectCases(items: map<string, string>, quota: nat, reserved: nat, enabled: bool, value: string)
    ensures var (outcome, after) := SaveEffect(items, quota, reserved, enabled, value);
      && (outcome == Saved || outcome == SavedOnRetry ==> StorageKey in after && after[StorageKey] == value)
      && (outcome == NotSaved ==> after == items)
      && (outcome == GaveUpOnRetry ==> after == items - {StorageKey})
      && after - {StorageKey} == items - {StorageKey}
  {
  }

  /**
   * The retry makes the save succeed whenever the new text fits on its own,
   * whatever was stored under the key before.
   */
  lemma RetrySucceedsWhenValueFits(items: map<string, string>, quota: nat, reserved: nat, value: string)
    requires reserved + |StorageKey| + |value| <= quota
    ensures SaveEffect(items, quota, reserved, true, value).0 in {Saved, SavedOnRetry}
  {
  }

  /** After a save that stored the list, loading gives the same list back. */
  lemma SaveThenLoad(items: map<string, string>, quota: nat, reserved: nat, enabled: bool,
                     ps: seq<Petition>, current: seq<Petition>, codec: Codec)
    requires RoundTrips(codec)
    requires codec.stringify(ps) != ""
    ensures var (outcome, after) := SaveEffect(items, quota, reserved, enabled, codec.stringify(ps));
      outcome in {Saved, SavedOnRetry} ==> LoadedPetitions(Stored(after), current, codec) == ps
  {
    var (outcome, after) := SaveEffect(items, quota, reserved, enabled, codec.stringify(ps));
    if outcome in {Saved, SavedOnRetry} {
      assert Stored(after) == Some(codec.stringify(ps));
      assert codec.parse(codec.stringify(ps)) == Some(ps);
    }
  }

  /**
   * A disabled storage changes nothing: the load effect throws with the list
   * as it was, and a save is not made and leaves the entries alone.
   */
  lemma DisabledStorageChangesNothing(items: map<string, string>, quota: nat, reserved: nat, value: string)
    ensures SaveEffect(items, quota, reserved, false, value) == (NotSaved, items)
  {
  }

  /** After a save that gave up on its retry, loading keeps the list the application started with. */
  lemma GiveUpThenLoad(items: map<string, string>, quota: nat, reserved: nat, enabled: bool,
                       value: string, current: seq<Petition>, codec: Codec)
    ensures var (outcome, after) := SaveEffect(items, quota, reserved, enabled, value);
      outcome == GaveUpOnRetry ==> LoadedPetitions(Stored(after), current, codec) == current
  {
  }
}
