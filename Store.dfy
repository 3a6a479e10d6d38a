/**
 * The in-memory clipboard history `ClipboardState`: its insert rule (`create_item`, `add_item`), the
 * locked block of the watcher that deduplicates and inserts, and the bodies of the clear, resize and
 * history-read commands. Each locked block is one method; the mutex itself is not modelled.
 */
module Store {
  import opened Wrappers
  import opened Items
  import opened Classifier

  /** `max_history_size` of `ClipboardState::default()`. */
  const DefaultMaxHistorySize: nat := 100

  /** `ClipboardError`, each variant carrying its message. */
  datatype ClipboardError =
    | InitError(message: string)
    | ReadError(message: string)
    | WriteError(message: string)
    | StateError(message: string)
    | EventError(message: string)

  function Min(a: nat, b: nat): nat {
    if a <= b then a else b
  }

  /** The last `k` entries of `s`, in order. */
  function Newest(s: seq<ClipboardItem>, k: nat): seq<ClipboardItem>
    requires k <= |s|
  {
    s[|s| - k..]
  }

  predicate IdsIncreasing(h: seq<ClipboardItem>) {
    forall i, j :: 0 <= i < j < |h| ==> h[i].id < h[j].id
  }

  predicate IdsBelow(h: seq<ClipboardItem>, bound: nat) {
    forall i :: 0 <= i < |h| ==> h[i].id < bound
  }

  /**
   * The history after `add_item`: the item goes to the tail and, if the length then exceeds the
   * maximum, the entry at index 0 is removed, once.
   */
  function Pushed(h: seq<ClipboardItem>, item: ClipboardItem, max: nat): (r: seq<ClipboardItem>)
    ensures |h| <= |r| <= |h| + 1
    ensures r == Newest(h + [item], |r|)
    ensures |r| == |h| + 1 <==> |h| + 1 <= max
    ensures |h| <= max ==> |r| <= max
  {
    var pushed := h + [item];
    if |pushed| > max then pushed[1..] else pushed
  }

  /** Inserting the item that carries the next id keeps the ids increasing and below the new bound. */
  lemma PushedKeepsIds(h: seq<ClipboardItem>, item: ClipboardItem, max: nat, nextId: nat)
    requires IdsIncreasing(h) && IdsBelow(h, nextId) && item.id == nextId
    ensures IdsIncreasing(Pushed(h, item, max)) && IdsBelow(Pushed(h, item, max), nextId + 1)
    ensures Pushed(h, item, max) != [] ==> Pushed(h, item, max)[|Pushed(h, item, max)| - 1] == item
  {
  }

  /** The history after `set_max_history_size(size)`: `split_off` keeps the newest `size` entries. */
  function Truncated(h: seq<ClipboardItem>, size: nat): (r: seq<ClipboardItem>)
    ensures |r| == Min(|h|, size)
    ensures r == Newest(h, |r|)
  {
    if |h| > size then h[|h| - size..] else h
  }

  /** The history after inserting each of `items` in turn with the maximum fixed at `max`. */
  function PushAll(h: seq<ClipboardItem>, items: seq<ClipboardItem>, max: nat): seq<ClipboardItem>
    decreases |items|
  {
    if items == [] then h else PushAll(Pushed(h, items[0], max), items[1..], max)
  }

  /**
   * A history within its bound keeps, after any run of inserts, exactly the newest `max` of all
   * entries, oldest first; from an empty history that is `min(N, max)` of the `N` inserted.
   */
  lemma {:induction false} PushAllKeepsNewest(h: seq<ClipboardItem>, items: seq<ClipboardItem>, max: nat)
    requires |h| <= max
    ensures |PushAll(h, items, max)| == Min(|h| + |items|, max)
    ensures PushAll(h, items, max) == Newest(h + items, Min(|h| + |items|, max))
    decreases |items|
  {
    if items == [] {
      assert h + items == h;
    } else {
      var x, rest := items[0], items[1..];
      var h' := Pushed(h, x, max);
      assert items == [x] + rest;
      assert h + items == (h + [x]) + rest;
      PushAllKeepsNewest(h', rest, max);
      if |h| + 1 > max {
        assert h' == (h + [x])[1..];
        assert h' + rest == (h + items)[1..];
      }
    }
  }

  /** The outcome of the image folder set-up that precedes every watcher update. */
  datatype UpdateEnv = UpdateEnv(
    appDataDir: Result<(), string>,
    imagesDirExists: bool,
    createDir: Result<(), string>,
    emit: Result<(), string>)

  /** Finding the application data folder and creating its image folder when it is missing. */
  function PrepareImagesDir(env: UpdateEnv): (r: Result<(), string>)
    ensures r.Success? <==> env.appDataDir.Success? && (env.imagesDirExists || env.createDir.Success?)
    ensures env.appDataDir.Failure? ==> r == Failure("无法获取应用数据目录: " + env.appDataDir.error)
    ensures env.appDataDir.Success? && !env.imagesDirExists && env.createDir.Failure? ==>
              r == Failure("无法创建图片目录: " + env.createDir.error)
  {
    match env.appDataDir
    case Failure(e) => Failure("无法获取应用数据目录: " + e)
    case Success(_) =>
      if env.imagesDirExists then Success(())
      else match env.createDir
        case Failure(e) => Failure("无法创建图片目录: " + e)
        case Success(_) => Success(())
  }

  class ClipboardState {
    var history: seq<ClipboardItem>
    var lastContentHash: Option<Fingerprint>
    var nextId: nat
    var maxHistorySize: nat

    /**
     * The history stays within its bound; ids increase from oldest to newest and are all below
     * `nextId`; the newest entry is the one whose fingerprint was recorded; and no fingerprint is
     * recorded only before the first insert or after a clear.
     */
    ghost predicate Valid()
      reads this
    {
      && |history| <= maxHistorySize
      && IdsIncreasing(history)
      && IdsBelow(history, nextId)
      && (history != [] ==> lastContentHash == Some(CalculateHash(history[|history| - 1])))
      && (lastContentHash.None? ==> history == [] && nextId == 0)
    }

    /** `ClipboardState::default()`. */
    constructor ()
      ensures Valid()
      ensures history == [] && lastContentHash == None && nextId == 0
      ensures maxHistorySize == DefaultMaxHistorySize
    {
      history := [];
      lastContentHash := None;
      nextId := 0;
      maxHistorySize := DefaultMaxHistorySize;
    }

    /** `create_item`: the classified fields, stamped with the next id and the clock reading `now`. */
    function CreateItem(c: Capture, now: nat): (item: ClipboardItem)
      reads this
      ensures item.id == nextId && item.timestamp == now
      ensures item.content == c.text && item.contentType == c.kind
      ensures item.htmlContent == c.html && item.rtfContent == c.rtf && item.imagePath == c.imagePath
    {
      ToItem(c, nextId, now)
    }

    /**
     * `add_item`. Its one caller passes the item `CreateItem` has just built under the same lock,
     * so the item carries `nextId`.
     */
    method AddItem(item: ClipboardItem) returns (stored: ClipboardItem)
      requires Valid()
      requires item.id == nextId
      modifies this
      ensures Valid()
      ensures history == Pushed(old(history), item, maxHistorySize)
      ensures lastContentHash == Some(CalculateHash(item))
      ensures nextId == old(nextId) + 1
      ensures maxHistorySize == old(maxHistorySize)
      ensures stored == item
    {
      ghost var before := history;
      history := history + [item];
      if |history| > maxHistorySize {
        history := history[1..];
      }
      assert history == Pushed(before, item, maxHistorySize);
      PushedKeepsIds(before, item, maxHistorySize, nextId);
      lastContentHash := Some(CalculateHash(item));
      nextId := nextId + 1;
      stored := item;
    }

    /**
     * `handle_clipboard_update` with the clipboard answering `obs`, the folder set-up and the
     * notification answering `env`, and `now` the clock reading of `create_item`. `Success(false)`
     * reports a duplicate of the most recent insert; a failed notification is reported after the
     * insert is committed.
     */
    method HandleClipboardUpdate(env: UpdateEnv, obs: Observation, now: nat) returns (r: Result<bool, ClipboardError>)
      requires Valid()
      modifies this
      ensures Valid()
      ensures maxHistorySize == old(maxHistorySize)
      ensures PrepareImagesDir(env).Failure? ==>
                r == Failure(InitError(PrepareImagesDir(env).error)) && unchanged(this)
      ensures var item := old(CreateItem(Classify(obs), now));
              PrepareImagesDir(env).Success? && old(lastContentHash) == Some(CalculateHash(item)) ==>
                r == Success(false) && unchanged(this)
      ensures var item := old(CreateItem(Classify(obs), now));
              PrepareImagesDir(env).Success? && old(lastContentHash) != Some(CalculateHash(item)) ==>
                && history == Pushed(old(history), item, maxHistorySize)
                && nextId == old(nextId) + 1
                && lastContentHash == Some(CalculateHash(item))
                && r == (if env.emit.Success? then Success(true) else Failure(EventError(env.emit.error)))
    {
      var dir := PrepareImagesDir(env);
      if dir.Failure? {
        return Failure(InitError(dir.error));
      }
      var capture := Classify(obs);
      var item := CreateItem(capture, now);
      var hash := CalculateHash(item);
      if lastContentHash == Some(hash) {
        return Success(false);
      }
      var stored := AddItem(item);
      if env.emit.Failure? {
        return Failure(EventError(env.emit.error));
      }
      r := Success(true);
    }

    /** The locked block of `get_clipboard_history`: a copy of the history, oldest first. */
    method GetHistory() returns (items: seq<ClipboardItem>)
      ensures items == history
    {
      items := history;
    }

    /** The locked block of `clear_clipboard_history`. */
    method ClearHistory()
      requires Valid()
      modifies this
      ensures Valid()
      ensures history == [] && nextId == 0 && lastContentHash == None
      ensures maxHistorySize == old(maxHistorySize)
    {
      history := [];
      nextId := 0;
      lastContentHash := None;
    }

    /** The locked block of `set_max_history_size`. */
    method SetMaxHistorySize(size: nat)
      requires Valid()
      modifies this
      ensures Valid()
      ensures maxHistorySize == size
      ensures history == Truncated(old(history), size)
      ensures nextId == old(nextId) && lastContentHash == old(lastContentHash)
    {
      maxHistorySize := size;
      var currentLen := |history|;
      if currentLen > size {
        var newStart := currentLen - size;
        history := history[newStart..];
      }
    }
  }
}
