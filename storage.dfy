/**
 * Persistence of the board in one storage entry as a versioned envelope
 * `{ storageVersion: 1, updatedAt, data: board }`. JSON encoding is the identity
 * here: the entry holds the parsed value, or a marker that it does not parse.
 */
module Storage {
  import opened Wrappers
  import opened Objects

  const StorageVersion := 1

  /**
   * A parsed `data` field: a board-shaped object, or anything else (`null`, a
   * non-object, an object whose `objects` is not an array).
   */
  datatype Candidate = NotABoard | BoardLike(board: Board)

  /**
   * The stored entry once read and parsed: text that does not parse (or is empty),
   * a value that is not an object, or an object with the envelope's fields.
   */
  datatype Stored = Unreadable | NotAnObject | Envelope(storageVersion: int, updatedAt: string, data: Candidate)

  /** `isValidBoard`: an object with `version === 1` and an array of objects. */
  predicate IsValidBoard(c: Candidate) {
    c.BoardLike? && c.board.version == BoardVersion
  }

  /** The envelope `saveBoard` writes. */
  function Encode(board: Board, updatedAt: string): (e: Stored)
    ensures Accepted(Some(e)) == (if board.version == BoardVersion then Some(board) else None)
  {
    Envelope(StorageVersion, updatedAt, BoardLike(board))
  }

  /** The board `loadBoard` accepts from the entry: present, an envelope of version 1 whose data is a valid board. */
  function Accepted(entry: Option<Stored>): (r: Option<Board>)
    ensures r.Some? <==> entry.Some? && entry.value.Envelope? && entry.value.storageVersion == StorageVersion
                         && IsValidBoard(entry.value.data)
    ensures r.Some? ==> r.value == entry.value.data.board && r.value.version == BoardVersion
  {
    match entry
    case None => None
    case Some(stored) =>
      if stored.Envelope? && stored.storageVersion == StorageVersion && IsValidBoard(stored.data)
      then Some(stored.data.board)
      else None
  }

  /** The entry after `saveBoard`: the envelope when storage is usable and the board valid, the old entry otherwise. */
  function SavedEntry(available: bool, entry: Option<Stored>, board: Board, updatedAt: string): (r: Option<Stored>)
    ensures !available || board.version != BoardVersion ==> r == entry
    ensures available && board.version == BoardVersion ==> Accepted(r) == Some(board)
  {
    if available && IsValidBoard(BoardLike(board)) then Some(Encode(board, updatedAt)) else entry
  }

  datatype LoadResult = LoadResult(board: Board, isFirstRun: bool)

  /**
   * `loadBoard`, as the result and the entry afterwards: without storage the seed,
   * first run, nothing written; with an accepted entry its board, not first run,
   * nothing written; otherwise the seed, first run, and the seed saved.
   */
  function LoadOutcome(available: bool, entry: Option<Stored>, seed: Board, updatedAt: string)
    : (out: (LoadResult, Option<Stored>))
    ensures !available ==> out == (LoadResult(seed, true), entry)
    ensures available && Accepted(entry).Some? ==> out == (LoadResult(Accepted(entry).value, false), entry)
    ensures available && Accepted(entry).None? ==>
              out == (LoadResult(seed, true), SavedEntry(available, entry, seed, updatedAt))
  {
    if !available then (LoadResult(seed, true), entry)
    else
      match Accepted(entry)
      case Some(board) => (LoadResult(board, false), entry)
      case None => (LoadResult(seed, true), SavedEntry(available, entry, seed, updatedAt))
  }

  /** Saving a valid board and loading again returns that board, not as a first run. */
  lemma SaveThenLoad(entry: Option<Stored>, board: Board, savedAt: string, seed: Board, loadedAt: string)
    requires board.version == BoardVersion
    ensures LoadOutcome(true, SavedEntry(true, entry, board, savedAt), seed, loadedAt).0 == LoadResult(board, false)
  {
  }

  /**
   * A load that falls back to a valid seed persists it, so the next load returns
   * that seed as stored data rather than as a first run.
   */
  lemma SeedIsPersisted(entry: Option<Stored>, seed: Board, t1: string, seed2: Board, t2: string)
    requires Accepted(entry).None? && seed.version == BoardVersion
    ensures var (first, after) := LoadOutcome(true, entry, seed, t1);
            && first == LoadResult(seed, true)
            && LoadOutcome(true, after, seed2, t2) == (LoadResult(seed, false), after)
  {
  }

  /** Every malformed entry (unparseable, not an object, wrong version, invalid data) leads to the seed and a first run. */
  lemma MalformedEntriesSeed(stored: Stored, seed: Board, t: string)
    requires || stored.Unreadable? || stored.NotAnObject?
             || (stored.Envelope? && stored.storageVersion != StorageVersion)
             || (stored.Envelope? && !IsValidBoard(stored.data))
    ensures LoadOutcome(true, Some(stored), seed, t).0 == LoadResult(seed, true)
  {
  }

  /** The single storage entry, the one under the key `collab-board-lite:board`, and whether storage can be used at all. */
  class BoardStore {
    const available: bool
    var entry: Option<Stored>

    constructor (available: bool, entry: Option<Stored>)
      ensures this.available == available && this.entry == entry
    {
      this.available := available;
      this.entry := entry;
    }

    /** `loadBoard(seedFactory)`; `seed` is what the factory returns and `updatedAt` the save time if it is persisted. */
    method Load(seed: Board, updatedAt: string) returns (result: LoadResult)
      modifies this
      ensures (result, entry) == LoadOutcome(available, old(entry), seed, updatedAt)
    {
      if !available {
        return LoadResult(seed, true);
      }
      var stored := entry;
      if stored.Some? {
        var parsed := stored.value;
        if parsed.Envelope? && parsed.storageVersion == StorageVersion && IsValidBoard(parsed.data) {
          return LoadResult(parsed.data.board, false);
        }
      }
      Save(seed, updatedAt);
      result := LoadResult(seed, true);
    }

    /** `saveBoard(board)`: writes the envelope, unless storage is unusable or the board invalid. */
    method Save(board: Board, updatedAt: string)
      modifies this
      ensures entry == SavedEntry(available, old(entry), board, updatedAt)
    {
      if !available || !IsValidBoard(BoardLike(board)) {
        return;
      }
      entry := Some(Encode(board, updatedAt));
    }

    /** `clearBoard()`: removes the entry when storage is usable. */
    method Clear()
      modifies this
      ensures entry == if available then None else old(entry)
    {
      if !available {
        return;
      }
      entry := None;
    }
  }

  /** After clearing, the next load seeds and reports a first run. */
  method ClearThenLoad(store: BoardStore, seed: Board, updatedAt: string) returns (result: LoadResult)
    modifies store
    ensures result == LoadResult(seed, true)
  {
    store.Clear();
    result := store.Load(seed, updatedAt);
  }
}
